/** What holds of a journey after any sequence of calls, failed ones included. */
module JourneyRuns {
  import opened Common
  import opened JourneyRules

  datatype Call = Call(command: Command, now: int)

  type Run = seq<Call>

  function Before(run: Run): Run requires run != [] { run[..|run| - 1] }
  function Last(run: Run): Call requires run != [] { run[|run| - 1] }

  function After(j: Journey, run: Run): Journey {
    if run == [] then j else Apply(After(j, Before(run)), Last(run).command, Last(run).now).journey
  }

  ghost predicate IsNew(j: Journey) {
    exists id, user, lat, lon, origin, destination, createdAt, now ::
      NewJourney(id, user, lat, lon, origin, destination, createdAt, true, now) == Ok(j)
  }

  // ---------------------------------------------------------------------------
  // The invariant
  // ---------------------------------------------------------------------------

  predicate HasBus(status: JourneyStatus) {
    status in {Tracking, BoardingPrompt, Boarded, Completed}
  }

  predicate NotYetBoarded(status: JourneyStatus) {
    status in {Searching, Tracking, BoardingPrompt}
  }

  predicate Sound(j: Journey) {
    && !j.status.Unnamed?
    && LEVEL_NONE <= j.lastProximityLevel <= LEVEL_ARRIVED
    && 0 <= j.declineCount <= MAX_DECLINES
    && j.boardingTimeoutDuration == BOARDING_TIMEOUT
    && (j.status == BoardingPrompt ==> j.lastProximityLevel == LEVEL_ARRIVED && j.boardingWindowStartedAt.Some?)
    && (j.recommendedBuses != [] ==> Recommends(j.recommendedBuses, j.activeBusId))
    && (HasBus(j.status) ==> j.recommendedBuses != [])
    && (NotYetBoarded(j.status) ==> j.boardedAt.None?)
    && (j.status in {Boarded, Completed} ==> j.boardedAt.Some?)
  }

  lemma ApplyKeepsSound(j: Journey, c: Command, now: int)
    requires Sound(j)
    ensures Sound(Apply(j, c, now).journey)
  {
    match c
    case DoInitializeTracking(recs, _, _) => assert recs != [] ==> recs[0].busId == recs[0].busId;
    case DoUpdateRecommendations(recs) => assert recs != [] ==> recs[0].busId == recs[0].busId;
    case _ =>
  }

  lemma {:induction false} RunKeepsSound(j: Journey, run: Run)
    requires Sound(j)
    ensures Sound(After(j, run))
    decreases |run|
  {
    if run != [] {
      RunKeepsSound(j, Before(run));
      ApplyKeepsSound(After(j, Before(run)), Last(run).command, Last(run).now);
    }
  }

  /** From NewJourney, whatever is called, with whatever clock, and whether or not it fails. */
  lemma AlwaysSound(j: Journey, run: Run)
    requires IsNew(j)
    ensures Sound(After(j, run))
  {
    RunKeepsSound(j, run);
  }

  /** A call leaves the status alone or moves it along the state machine; no call leaves Completed,
      Cancelled or Expired; a call that fails never changes the status. */
  lemma StatusMovesLegally(j: Journey, c: Command, now: int)
    ensures var o := Apply(j, c, now);
            && (o.journey.status == j.status || CanTransitionTo(j.status, o.journey.status))
            && (j.status in {Completed, Cancelled, Expired} ==> o.journey.status == j.status)
            && (o.err.Some? ==> o.journey.status == j.status && o.journey.events == j.events)
  {}

  /** The calls that fail only once fields have been written: tracking is initialized, or Nearby
      becomes Arrived, from a status that cannot make the move. */
  predicate FailsLate(j: Journey, c: Command, now: int) {
    match c
    case DoInitializeTracking(recs, duration, _) =>
      recs != [] && 5 * MINUTE <= duration <= 3 * HOUR && j.status !in {Searching, BoardingPrompt}
    case DoUpdateProximity(bus, level, _) =>
      && !IsExpired(j, now) && bus == j.activeBusId && level == LEVEL_ARRIVED
      && j.lastProximityLevel == LEVEL_NEARBY && j.status != Tracking
    case _ => false
  }

  /** Whether what InitializeTracking writes first is what is already there. */
  predicate AlreadySet(j: Journey, c: Command)
    requires c.DoInitializeTracking? && c.recs != []
  {
    && j.recommendedBuses == c.recs && j.activeBusId == c.recs[0].busId && j.estimatedDuration == c.duration
    && j.expirationTime == j.createdAt + 2 * c.duration && j.requiredDirection == c.direction
  }

  /** A call fails and yet changes the journey if and only if it fails late, and, where it initializes
      tracking, with other values than before; it then fails with the status error, which these two
      methods return in no other case. */
  lemma FailedCallChangesIff(j: Journey, c: Command, now: int)
    ensures var o := Apply(j, c, now);
            o.err.Some? && o.journey != j <==>
              FailsLate(j, c, now) && (c.DoInitializeTracking? ==> !AlreadySet(j, c))
    ensures FailsLate(j, c, now) ==> Apply(j, c, now).err == Some(ErrInvalidStatusTransition)
    ensures c.DoInitializeTracking? || c.DoUpdateProximity? ==>
              (Apply(j, c, now).err == Some(ErrInvalidStatusTransition) <==> FailsLate(j, c, now))
  {}

  // Both late failures are reached from a new journey: climbing to Arrived for the empty bus id
  // while still Searching, and initializing twice with different buses.
  function Climb(now: int): Run {
    [Call(DoUpdateProximity("", LEVEL_APPROACHING, 300.0), now), Call(DoUpdateProximity("", LEVEL_NEARBY, 80.0), now)]
  }

  lemma AfterCall(j: Journey, run: Run, call: Call)
    ensures After(j, run + [call]) == Apply(After(j, run), call.command, call.now).journey
  {
    assert Before(run + [call]) == run;
  }

  lemma SearchingJourneyArrives(j: Journey, now: int)
    requires IsNew(j) && now <= j.expirationTime
    ensures var k, arrived := After(j, Climb(now)), DoUpdateProximity("", LEVEL_ARRIVED, 20.0);
            && k.status == Searching && FailsLate(k, arrived, now)
            && Apply(k, arrived, now) ==
                 Fail(k.(lastProximityLevel := LEVEL_ARRIVED, boardingWindowStartedAt := Some(now)),
                      ErrInvalidStatusTransition)
  {
    var run := Climb(now);
    assert run == [] + [run[0]] + [run[1]];
    AfterCall(j, [], run[0]);
    AfterCall(j, [] + [run[0]], run[1]);
  }

  lemma SecondInitializationOverwrites(j: Journey, recs: seq<Recommendation>, again: seq<Recommendation>, now: int)
    requires IsNew(j) && recs != [] && again != [] && recs != again
    ensures var init := (r: seq<Recommendation>) => DoInitializeTracking(r, 10 * MINUTE, 0);
            var k := After(j, [Call(init(recs), now)]);
            && k.status == Tracking && FailsLate(k, init(again), now)
            && Apply(k, init(again), now) ==
                 Fail(k.(recommendedBuses := again, activeBusId := again[0].busId), ErrInvalidStatusTransition)
  {
    var call := Call(DoInitializeTracking(recs, 10 * MINUTE, 0), now);
    AfterCall(j, [], call);
    assert [] + [call] == [call];
  }

  // ---------------------------------------------------------------------------
  // Boarding
  // ---------------------------------------------------------------------------

  /** In every reachable BoardingPrompt state, at any time, exactly one of ConfirmBoarded and the
      automatic completion boards the user, and the three-minute window decides which. */
  lemma ExactlyOneBoards(j: Journey, now: int)
    requires Sound(j) && j.status == BoardingPrompt
    ensures var late := now - j.boardingWindowStartedAt.value > 180_000_000_000;
            && (ConfirmBoarded(j, now).journey.status == Boarded <==> !late)
            && (AutoComplete(j, now).journey.status == Boarded <==> late)
            && (ConfirmBoarded(j, now).err.None? <==> !late) && AutoComplete(j, now).err.None?
            && (late ==> ConfirmBoarded(j, now).journey == j && AutoComplete(j, now).journey.boardedAt == Some(now))
            && (!late ==> AutoComplete(j, now).journey == j && ConfirmBoarded(j, now).journey.boardedAt == Some(now))
  {}

  lemma BoardedAtIsFinal(j: Journey, c: Command, now: int)
    requires Sound(j) && j.boardedAt.Some?
    ensures Apply(j, c, now).journey.boardedAt == j.boardedAt && Apply(j, c, now).journey.status != BoardingPrompt
  {}

  // ---------------------------------------------------------------------------
  // Counting over a run
  // ---------------------------------------------------------------------------

  /** `switches` counts the SwitchBus calls that changed the bus. */
  datatype Tally = Tally(inits: nat, switches: nat, prompts: nat, declines: nat, boardings: nat)

  function Count(t: Tally, j: Journey, call: Call): Tally {
    var o := Apply(j, call.command, call.now);
    Tally(t.inits + (if call.command.DoInitializeTracking? && o.err.None? then 1 else 0),
          t.switches + (if call.command.DoSwitchBus? && o.journey.activeBusId != j.activeBusId then 1 else 0),
          t.prompts + (if j.status != BoardingPrompt && o.journey.status == BoardingPrompt then 1 else 0),
          t.declines + (if call.command.DoDecline? && o.err.None? then 1 else 0),
          t.boardings + (if j.status != Boarded && o.journey.status == Boarded then 1 else 0))
  }

  function TallyOf(j: Journey, run: Run): Tally {
    if run == [] then Tally(0, 0, 0, 0, 0) else Count(TallyOf(j, Before(run)), After(j, Before(run)), Last(run))
  }

  ghost predicate WithinBudget(j: Journey, t: Tally) {
    && t.declines <= MAX_DECLINES * t.switches + j.declineCount
    && t.prompts <= t.declines + t.inits
    && (j.status == Tracking ==> t.prompts < t.declines + t.inits)
    && (j.status == Searching ==> t.inits == 0 && t.prompts == 0)
    && t.boardings <= 1 && (j.boardedAt.None? ==> t.boardings == 0)
  }

  lemma CountKeepsBudget(j: Journey, t: Tally, call: Call)
    requires Sound(j) && WithinBudget(j, t)
    ensures WithinBudget(Apply(j, call.command, call.now).journey, Count(t, j, call))
  {
    StatusMovesLegally(j, call.command, call.now);
  }

  lemma {:induction false} AlwaysWithinBudget(j: Journey, run: Run)
    requires IsNew(j)
    ensures WithinBudget(After(j, run), TallyOf(j, run))
    decreases |run|
  {
    if run != [] {
      AlwaysSound(j, Before(run));
      AlwaysWithinBudget(j, Before(run));
      CountKeepsBudget(After(j, Before(run)), TallyOf(j, Before(run)), Last(run));
    }
  }

  /** The decline budget bounds how often the user can be prompted; with one successful
      InitializeTracking, 5 * (S + 1) + 1 times. */
  lemma PromptsAreBounded(j: Journey, run: Run)
    requires IsNew(j)
    ensures var t := TallyOf(j, run); t.prompts <= 5 * (t.switches + 1) + t.inits
    ensures TallyOf(j, run).inits <= 1 ==> TallyOf(j, run).prompts <= 5 * (TallyOf(j, run).switches + 1) + 1
  {
    AlwaysWithinBudget(j, run);
    AlwaysSound(j, run);
  }

  lemma BoardsAtMostOnce(j: Journey, run: Run)
    requires IsNew(j)
    ensures TallyOf(j, run).boardings <= 1
    ensures var k := After(j, run);
            (NotYetBoarded(k.status) ==> k.boardedAt.None?) && (k.status in {Boarded, Completed} ==> k.boardedAt.Some?)
  {
    AlwaysWithinBudget(j, run);
    AlwaysSound(j, run);
  }

  /** Once set, the boarding time is never rewritten by the rest of the run. */
  lemma {:induction false} BoardedAtNeverRewritten(j: Journey, run: Run, i: nat)
    requires IsNew(j) && i <= |run| && After(j, run[..i]).boardedAt.Some?
    ensures After(j, run).boardedAt == After(j, run[..i]).boardedAt
    decreases |run|
  {
    if i == |run| {
      assert run[..i] == run;
    } else {
      assert Before(run)[..i] == run[..i];
      BoardedAtNeverRewritten(j, Before(run), i);
      AlwaysSound(j, Before(run));
      BoardedAtIsFinal(After(j, Before(run)), Last(run).command, Last(run).now);
    }
  }

  // ---------------------------------------------------------------------------
  // The recorded events tell the same story
  // ---------------------------------------------------------------------------

  function Starts(events: seq<JourneyEvent>): nat {
    if events == [] then 0 else
      Starts(events[..|events| - 1]) + if events[|events| - 1].JourneyStarted? then 1 else 0
  }

  function Arrivals(events: seq<JourneyEvent>): nat {
    if events == [] then 0 else
      var e := events[|events| - 1];
      Arrivals(events[..|events| - 1]) + if e.ProximityUpdated? && e.level == LEVEL_ARRIVED then 1 else 0
  }

  function Boardings(events: seq<JourneyEvent>): nat {
    if events == [] then 0 else
      var e := events[|events| - 1];
      Boardings(events[..|events| - 1]) + if e.BoardingConfirmed? || e.AutoCompleted? then 1 else 0
  }

  lemma CountEvent(events: seq<JourneyEvent>, e: JourneyEvent)
    ensures Starts(events + [e]) == Starts(events) + if e.JourneyStarted? then 1 else 0
    ensures Arrivals(events + [e]) ==
              Arrivals(events) + if e.ProximityUpdated? && e.level == LEVEL_ARRIVED then 1 else 0
    ensures Boardings(events + [e]) == Boardings(events) + if e.BoardingConfirmed? || e.AutoCompleted? then 1 else 0
  {
    assert (events + [e])[..|events|] == events;
  }

  ghost predicate EventsTell(j: Journey, t: Tally) {
    Starts(j.events) == t.inits && Arrivals(j.events) == t.prompts && Boardings(j.events) == t.boardings
  }

  lemma UpdateCountsNothing(j: Journey, recs: seq<Recommendation>, now: int)
    ensures var after := UpdateRecommendations(j, recs, now).journey.events;
            && Starts(after) == Starts(j.events) && Arrivals(after) == Arrivals(j.events)
            && Boardings(after) == Boardings(j.events)
  {
    hide Starts, Arrivals, Boardings;
    var after, n := UpdateRecommendations(j, recs, now).journey.events, |j.events|;
    if |after| == n + 1 {
      CountEvent(j.events, after[n]);
      assert after == j.events + [after[n]];
    } else if |after| == n + 2 {
      CountEvent(j.events, after[n]);
      CountEvent(j.events + [after[n]], after[n + 1]);
      assert after == j.events + [after[n]] + [after[n + 1]];
    }
  }

  /** Every other call appends at most one event, and the events counted are those calls that matter. */
  lemma NewEvent(j: Journey, c: Command, now: int)
    requires Sound(j) && !c.DoUpdateRecommendations?
    ensures var o := Apply(j, c, now);
            || o.journey.events == j.events
            || exists e :: o.journey.events == j.events + [e]
                 && (e.JourneyStarted? <==> c.DoInitializeTracking? && o.err.None?)
                 && (e.ProximityUpdated? && e.level == LEVEL_ARRIVED
                     <==> j.status != BoardingPrompt && o.journey.status == BoardingPrompt)
                 && (e.BoardingConfirmed? || e.AutoCompleted? <==> j.status != Boarded && o.journey.status == Boarded)
    ensures var o := Apply(j, c, now);
            o.journey.events == j.events ==>
              !(c.DoInitializeTracking? && o.err.None?) && o.journey.status == j.status
  {
    var after, n := Apply(j, c, now).journey.events, |j.events|;
    assert |after| == n + 1 ==> after == j.events + [after[n]];
  }

  lemma CountKeepsEvents(j: Journey, t: Tally, call: Call)
    requires Sound(j) && EventsTell(j, t)
    ensures EventsTell(Apply(j, call.command, call.now).journey, Count(t, j, call))
  {
    hide Starts, Arrivals, Boardings;
    if call.command.DoUpdateRecommendations? {
      UpdateCountsNothing(j, call.command.recs, call.now);
    } else {
      NewEvent(j, call.command, call.now);
      hide Apply;
      var after, n := Apply(j, call.command, call.now).journey.events, |j.events|;
      if after != j.events { CountEvent(j.events, after[n]); }
    }
  }

  /** Counting JourneyStarted, Arrived and boarding events gives the number of successful
      initializations, prompts and boardings of the run. */
  lemma {:induction false} EventsAgree(j: Journey, run: Run)
    requires IsNew(j)
    ensures EventsTell(After(j, run), TallyOf(j, run))
    decreases |run|
  {
    if run != [] {
      EventsAgree(j, Before(run));
      AlwaysSound(j, Before(run));
      CountKeepsEvents(After(j, Before(run)), TallyOf(j, Before(run)), Last(run));
    }
  }
}
