/** The Journey object: each method updates the fields step by step, in the code's order, and is
    proved to take the step of JourneyRules that its entry in `run` names, failures included, so
    `Valid` carries the theorems of JourneyRuns over to the object. */
module JourneyAggregates {
  import opened Common
  import opened Rules = JourneyRules
  import opened JourneyRuns

  class JourneyAggregate {
    const journeyId: string
    const userId: string
    const originLat: real
    const originLon: real
    const originStopId: string
    const destinationStopId: string
    var recommendedBuses: seq<Recommendation>
    var activeBusId: string
    var status: JourneyStatus
    var lastSwitchReason: int
    var lastProximityLevel: int
    var declineCount: int
    var requiredDirection: int
    var estimatedDuration: int
    var expirationTime: int
    const version: int
    const createdAt: int
    var boardingWindowStartedAt: Option<int>
    const boardingTimeoutDuration: int
    var boardedAt: Option<int>
    var events: seq<JourneyEvent>    // what the recorder was given
    ghost const start: Journey       // as built or rehydrated
    ghost var run: Run               // the calls since

    ghost function View(): Journey
      reads this
    {
      Journey(journeyId, userId, originLat, originLon, originStopId, destinationStopId, recommendedBuses, activeBusId,
              status, lastSwitchReason, lastProximityLevel, declineCount, requiredDirection, estimatedDuration,
              expirationTime, version, createdAt, boardingWindowStartedAt, boardingTimeoutDuration, boardedAt, events)
    }

    ghost predicate Valid()
      reads this
    {
      View() == After(start, run)
    }

    /** Builds the object from a journey value: NewJourney and RehydrateJourney end here. */
    constructor FromValue(j: Journey)
      ensures Valid() && View() == start == j && run == []
    {
      journeyId, userId, originLat, originLon := j.journeyId, j.userId, j.originLat, j.originLon;
      originStopId, destinationStopId := j.originStopId, j.destinationStopId;
      recommendedBuses, activeBusId, status := j.recommendedBuses, j.activeBusId, j.status;
      lastSwitchReason, lastProximityLevel, declineCount := j.lastSwitchReason, j.lastProximityLevel, j.declineCount;
      requiredDirection, estimatedDuration := j.requiredDirection, j.estimatedDuration;
      expirationTime := j.expirationTime;
      version, createdAt := j.version, j.createdAt;
      boardingWindowStartedAt, boardedAt := j.boardingWindowStartedAt, j.boardedAt;
      boardingTimeoutDuration := j.boardingTimeoutDuration;
      events := j.events;
      start, run := j, [];
    }

    /** Whatever was called on the object, whether or not it failed: it stays sound, and one built by
        NewJourney was prompted within the decline budget, boarded at most once, keeps the boarding
        time it was once given, and recorded events that count its initializations, prompts and
        boardings. */
    lemma PastIsSafe()
      requires Valid()
      ensures Sound(start) || IsNew(start) ==> Sound(View())
      ensures IsNew(start) ==>
                var t := TallyOf(start, run);
                && t.prompts <= 5 * (t.switches + 1) + t.inits && t.boardings <= 1
                && EventsTell(View(), t)
      ensures IsNew(start) ==>
                forall i | 0 <= i <= |run| && After(start, run[..i]).boardedAt.Some? ::
                  boardedAt == After(start, run[..i]).boardedAt
    {
      hide Sound, IsNew, After, EventsTell, TallyOf;
      if Sound(start) { RunKeepsSound(start, run); }
      if IsNew(start) {
        AlwaysSound(start, run);
        PromptsAreBounded(start, run);
        BoardsAtMostOnce(start, run);
        EventsAgree(start, run);
        forall i | 0 <= i <= |run| && After(start, run[..i]).boardedAt.Some?
          ensures boardedAt == After(start, run[..i]).boardedAt
        {
          BoardedAtNeverRewritten(start, run, i);
        }
      }
    }

    /** The call that a method is about to carry out. */
    ghost method Begin(c: Command, now: int)
      requires Valid()
      modifies `run
      ensures run == old(run) + [Call(c, now)] && After(start, run) == Apply(View(), c, now).journey
    {
      AfterCall(start, run, Call(c, now));
      run := run + [Call(c, now)];
    }

    method InitializeTracking(recs: seq<Recommendation>, duration: int, direction: int, now: int)
      returns (err: Option<JourneyError>)
      requires Valid()
      modifies this
      ensures Outcome(View(), err) == Rules.InitializeTracking(old(View()), recs, duration, direction, now)
      ensures Valid() && run == old(run) + [Call(DoInitializeTracking(recs, duration, direction), now)]
    {
      hide After, Apply;
      ApplyInitializeTracking(View(), recs, duration, direction, now);
      Begin(DoInitializeTracking(recs, duration, direction), now);
      if |recs| == 0 { return Some(ErrNoRecommendations); }
      if duration <= 0 { return Some(ErrInvalidJourneyDuration); }
      if duration < 5 * MINUTE { return Some(ErrJourneyTooShort); }
      if duration > 3 * HOUR { return Some(ErrJourneyTooLong); }
      recommendedBuses := recs;
      activeBusId := recs[0].busId;
      estimatedDuration := duration;
      expirationTime := createdAt + duration * 2;
      requiredDirection := direction;
      if !CanTransitionTo(status, Tracking) { return Some(ErrInvalidStatusTransition); }
      status := Tracking;
      Record(JourneyStarted(activeBusId, recommendedBuses, requiredDirection, now));
      return None;
    }

    method UpdateRecommendations(recs: seq<Recommendation>, now: int) returns (err: Option<JourneyError>)
      requires Valid()
      modifies this
      ensures Outcome(View(), err) == Rules.UpdateRecommendations(old(View()), recs, now)
      ensures activeBusId != old(activeBusId) ==> lastProximityLevel == 0 && boardingWindowStartedAt == None
      ensures Valid() && run == old(run) + [Call(DoUpdateRecommendations(recs), now)]
    {
      hide After, Apply, HasSignificantChange, ArrivalMoved;
      ApplyUpdateRecommendations(View(), recs, now);
      Begin(DoUpdateRecommendations(recs), now);
      if now > expirationTime { return Some(ErrJourneyExpired); }
      if status == BoardingPrompt { return Some(ErrCannotUpdateDuringBoarding); }
      var should := ShouldUpdate(recs);
      if !should { return None; }
      var significant := SignificantChange(recs);
      var oldBus := activeBusId;
      recommendedBuses := recs;
      if |recs| > 0 {
        activeBusId := recs[0].busId;
      }
      if oldBus != activeBusId {
        lastProximityLevel := LEVEL_NONE;
        boardingWindowStartedAt := None;
        Record(BusSwitched(oldBus, activeBusId, REASON_OVERTAKEN, now));
      }
      Record(RecommendationsUpdated(recommendedBuses, significant, recommendedBuses[0], now));
      return None;
    }

    method ShouldUpdate(recs: seq<Recommendation>) returns (yes: bool)
      ensures yes == ShouldUpdateRecommendations(View(), recs)
    {
      if status == BoardingPrompt || |recs| == 0 { return false; }
      if recs[0].busId != activeBusId { return true; }
      yes := SignificantChange(recs);
    }

    method SignificantChange(recs: seq<Recommendation>) returns (yes: bool)
      ensures yes == HasSignificantChange(recommendedBuses, recs)
    {
      if |recs| != |recommendedBuses| { return true; }
      for i := 0 to |recs|
        invariant forall k | 0 <= k < i ::
                    !ArrivalMoved(recs[k], recommendedBuses[k]) && recs[k].busId == recommendedBuses[k].busId
      {
        if ArrivalMoved(recs[i], recommendedBuses[i]) { return true; }
        if recs[i].busId != recommendedBuses[i].busId { return true; }
      }
      return false;
    }

    method SwitchBus(bus: string, reason: int, now: int) returns (err: Option<JourneyError>)
      requires Valid()
      modifies this
      ensures Outcome(View(), err) == Rules.SwitchBus(old(View()), bus, reason, now)
      ensures Valid() && run == old(run) + [Call(DoSwitchBus(bus, reason), now)]
    {
      hide After;
      Begin(DoSwitchBus(bus, reason), now);
      if now > expirationTime { return Some(ErrJourneyExpired); }
      if status == BoardingPrompt { return Some(ErrCannotUpdateDuringBoarding); }
      var found := false;
      for i := 0 to |recommendedBuses|
        invariant found == exists k :: 0 <= k < i && recommendedBuses[k].busId == bus
      {
        if recommendedBuses[i].busId == bus {
          found := true;
          break;
        }
      }
      if !found { return Some(ErrNoRecommendations); }
      if bus == activeBusId { return None; }
      var oldBus := activeBusId;
      activeBusId := bus;
      lastSwitchReason := reason;
      declineCount := 0;
      Record(BusSwitched(oldBus, activeBusId, reason, now));
      return None;
    }

    method UpdateProximity(bus: string, level: int, distance: real, now: int) returns (err: Option<JourneyError>)
      requires Valid()
      modifies this
      ensures Outcome(View(), err) == Rules.UpdateProximity(old(View()), bus, level, distance, now)
      ensures Valid() && run == old(run) + [Call(DoUpdateProximity(bus, level, distance), now)]
    {
      hide After;
      Begin(DoUpdateProximity(bus, level, distance), now);
      if now > expirationTime { return Some(ErrJourneyExpired); }
      if bus != activeBusId { return Some(ErrProximityForWrongBus); }
      if level <= lastProximityLevel { return Some(ErrProximityMustIncrease); }
      if !IsValidProximityProgression(lastProximityLevel, level) { return Some(ErrInvalidProximityTransition); }
      var previous := lastProximityLevel;
      lastProximityLevel := level;
      if level == LEVEL_ARRIVED {
        boardingWindowStartedAt := Some(now);
        if !CanTransitionTo(status, BoardingPrompt) { return Some(ErrInvalidStatusTransition); }
        status := BoardingPrompt;
      }
      Record(ProximityUpdated(bus, level, previous, distance, now));
      return None;
    }

    method CompleteJourney(now: int) returns (err: Option<JourneyError>)
      requires Valid()
      modifies this
      ensures Outcome(View(), err) == Rules.CompleteJourney(old(View()), now)
      ensures Valid() && run == old(run) + [Call(DoComplete, now)]
    {
      hide After;
      Begin(DoComplete, now);
      if status != Boarded { return Some(ErrNotInBoardedState); }
      if !CanTransitionTo(status, Completed) { return Some(ErrInvalidStatusTransition); }
      status := Completed;
      Record(JourneyCompleted(activeBusId, now));
      return None;
    }

    method ConfirmBoarded(now: int) returns (err: Option<JourneyError>)
      requires Valid()
      modifies this
      ensures Outcome(View(), err) == Rules.ConfirmBoarded(old(View()), now)
      ensures Valid() && run == old(run) + [Call(DoConfirm, now)]
    {
      hide After;
      Begin(DoConfirm, now);
      if status != BoardingPrompt { return Some(ErrNotInBoardingState); }
      var late := WindowExpired(now);
      if late { return Some(ErrBoardingWindowExpired); }
      if !CanTransitionTo(status, Boarded) { return Some(ErrInvalidStatusTransition); }
      boardedAt := Some(now);
      status := Boarded;
      Record(BoardingConfirmed(activeBusId, now, now));
      return None;
    }

    method WindowExpired(now: int) returns (late: bool)
      ensures late == IsBoardingWindowExpired(View(), now)
    {
      match boardingWindowStartedAt {
        case None => late := false;
        case Some(start) => late := now - start > boardingTimeoutDuration;
      }
    }

    method DeclineBoarding(now: int) returns (err: Option<JourneyError>)
      requires Valid()
      modifies this
      ensures Outcome(View(), err) == Rules.DeclineBoarding(old(View()), now)
      ensures Valid() && run == old(run) + [Call(DoDecline, now)]
    {
      hide After;
      Begin(DoDecline, now);
      if now > expirationTime { return Some(ErrJourneyExpired); }
      if status != BoardingPrompt { return Some(ErrNotInBoardingState); }
      if declineCount >= MAX_DECLINES { return Some(ErrMaxDeclinesReached); }
      declineCount := declineCount + 1;
      if !CanTransitionTo(status, Tracking) { return Some(ErrInvalidStatusTransition); }
      status := Tracking;
      lastProximityLevel := LEVEL_NONE;
      Record(BoardingDeclined(activeBusId, declineCount, now));
      return None;
    }

    method CancelJourney(now: int) returns (err: Option<JourneyError>)
      requires Valid()
      modifies this
      ensures Outcome(View(), err) == Rules.CancelJourney(old(View()), now)
      ensures Valid() && run == old(run) + [Call(DoCancel, now)]
    {
      hide After;
      Begin(DoCancel, now);
      if status == Completed { return Some(ErrCannotCancelCompletedJourney); }
      if !CanTransitionTo(status, Cancelled) { return Some(ErrInvalidStatusTransition); }
      status := Cancelled;
      Record(JourneyCancelled(now));
      return None;
    }

    method ExpireJourney(expiredAt: int, now: int) returns (err: Option<JourneyError>)
      requires Valid()
      modifies this
      ensures Outcome(View(), err) == Rules.ExpireJourney(old(View()), expiredAt, now)
      ensures Valid() && run == old(run) + [Call(DoExpire(expiredAt), now)]
    {
      hide After;
      Begin(DoExpire(expiredAt), now);
      if !CanTransitionTo(status, Expired) { return Some(ErrInvalidStatusTransition); }
      status := Expired;
      Record(JourneyExpired(expiredAt, now));
      return None;
    }

    method AutoCompleteIfBoardingWindowExpired(now: int) returns (err: Option<JourneyError>)
      requires Valid()
      modifies this
      ensures Outcome(View(), err) == Rules.AutoComplete(old(View()), now)
      ensures Valid() && run == old(run) + [Call(DoAutoComplete, now)]
    {
      hide After;
      Begin(DoAutoComplete, now);
      if status != BoardingPrompt { return None; }
      var late := WindowExpired(now);
      if !late { return None; }
      if !CanTransitionTo(status, Boarded) { return Some(ErrInvalidStatusTransition); }
      boardedAt := Some(now);
      status := Boarded;
      Record(AutoCompleted(activeBusId, 10, now));
      return None;
    }

    method Record(e: JourneyEvent)
      modifies this`events
      ensures events == old(events) + [e]
    {
      events := events + [e];
    }

    /** Runs one command; a sound journey stays sound even when the command fails. */
    method Perform(c: Command, now: int) returns (err: Option<JourneyError>)
      requires Valid()
      modifies this
      ensures Outcome(View(), err) == Apply(old(View()), c, now)
      ensures Valid() && run == old(run) + [Call(c, now)]
      ensures old(Sound(View())) ==> Sound(View())
    {
      if Sound(View()) { ApplyKeepsSound(View(), c, now); }
      match c {
        case DoInitializeTracking(recs, duration, direction) =>
          err := InitializeTracking(recs, duration, direction, now);
        case DoUpdateRecommendations(recs) => err := UpdateRecommendations(recs, now);
        case DoSwitchBus(bus, reason) => err := SwitchBus(bus, reason, now);
        case DoUpdateProximity(bus, level, distance) => err := UpdateProximity(bus, level, distance, now);
        case DoComplete => err := CompleteJourney(now);
        case DoConfirm => err := ConfirmBoarded(now);
        case DoDecline => err := DeclineBoarding(now);
        case DoCancel => err := CancelJourney(now);
        case DoExpire(expiredAt) => err := ExpireJourney(expiredAt, now);
        case DoAutoComplete => err := AutoCompleteIfBoardingWindowExpired(now);
      }
    }
  }

  lemma ApplyInitializeTracking(j: Journey, recs: seq<Recommendation>, duration: int, direction: int, now: int)
    ensures Apply(j, DoInitializeTracking(recs, duration, direction), now)
         == Rules.InitializeTracking(j, recs, duration, direction, now)
  {}

  lemma ApplyUpdateRecommendations(j: Journey, recs: seq<Recommendation>, now: int)
    ensures Apply(j, DoUpdateRecommendations(recs), now) == Rules.UpdateRecommendations(j, recs, now)
  {}
}
