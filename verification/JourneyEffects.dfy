/** What each journey command does, in numbers: when it succeeds, with which error it fails otherwise,
    every field it leaves changed, and the events it records.  Times are nanoseconds. */
module JourneyEffects {
  import opened Common
  import opened JourneyRules
  import opened JourneyRuns

  /** A new journey is Searching, expires 30 minutes after its creation time, which lies at most 24
      hours back, and has a boarding window of three minutes. */
  lemma NewJourneyDoes(id: string, user: string, lat: real, lon: real, origin: string, destination: string,
                       createdAt: int, hasRecorder: bool, now: int)
    ensures var o := NewJourney(id, user, lat, lon, origin, destination, createdAt, hasRecorder, now);
            && o.err == (if !(-90.0 <= lat <= 90.0 && -180.0 <= lon <= 180.0) || (lat, lon) == (0.0, 0.0) then
                           Some(ErrInvalidGeoLocation)
                         else if origin == "" || destination == "" then Some(ErrStopIdRequired)
                         else if origin == destination then Some(ErrOriginCannotBeDestination)
                         else if createdAt == ZERO_TIME then Some(ErrCreatedAtRequired)
                         else if createdAt > now then Some(ErrCreatedAtInFuture)
                         else if createdAt < now - 86_400_000_000_000 then Some(ErrCreatedAtTooOld)
                         else if !hasRecorder then Some(ErrEventRecorderRequired) else None)
            && (o.err.None? ==>
                  o.journey == Journey(id, user, lat, lon, origin, destination, [], "", Searching, 0, 0, 0, 0, 0,
                                       createdAt + 1_800_000_000_000, 1, createdAt, None, 180_000_000_000, None, []))
  {}

  /** Tracking starts from Searching and from BoardingPrompt, with a trip of 5 minutes to 3 hours. */
  lemma InitializeTrackingDoes(j: Journey, recs: seq<Recommendation>, duration: int, direction: int, now: int)
    ensures var o := InitializeTracking(j, recs, duration, direction, now);
            && (recs == [] ==> o == Fail(j, ErrNoRecommendations))
            && (recs != [] && duration <= 0 ==> o == Fail(j, ErrInvalidJourneyDuration))
            && (recs != [] && 0 < duration < 300_000_000_000 ==> o == Fail(j, ErrJourneyTooShort))
            && (recs != [] && duration > 10_800_000_000_000 ==> o == Fail(j, ErrJourneyTooLong))
            && (recs != [] && 300_000_000_000 <= duration <= 10_800_000_000_000 ==>
                  && o.err == (if j.status == Searching || j.status == BoardingPrompt then None
                               else Some(ErrInvalidStatusTransition))
                  && o.journey.recommendedBuses == recs && o.journey.activeBusId == recs[0].busId
                  && o.journey.estimatedDuration == duration && o.journey.requiredDirection == direction
                  && o.journey.expirationTime == j.createdAt + duration + duration
                  && o.journey.status == (if o.err.None? then Tracking else j.status)
                  && o.journey.events ==
                       j.events + (if o.err.None? then [JourneyStarted(recs[0].busId, recs, direction, now)] else [])
                  && SameApartFromTracking(j, o.journey))
  {}

  /** No field moved but those that start tracking. */
  predicate SameApartFromTracking(j: Journey, k: Journey) {
    j == k.(recommendedBuses := j.recommendedBuses, activeBusId := j.activeBusId, status := j.status,
            events := j.events, requiredDirection := j.requiredDirection, estimatedDuration := j.estimatedDuration,
            expirationTime := j.expirationTime)
  }

  /** An arrival estimate moved by more than three minutes, or another bus took a rank. */
  predicate Differs(a: Recommendation, b: Recommendation) {
    a.busId != b.busId || a.estimatedArrival > b.estimatedArrival + 180_000_000_000
    || b.estimatedArrival > a.estimatedArrival + 180_000_000_000
  }

  predicate Significant(current: seq<Recommendation>, recs: seq<Recommendation>) {
    |recs| != |current| || exists i :: 0 <= i < |recs| && Differs(recs[i], current[i])
  }

  /** Recommendations are replaced, exactly by the new ones, on an unexpired journey outside BoardingPrompt
      when there are some and they matter; the level and the boarding window are reset exactly if the
      active bus changed, and nothing else moves but the log. */
  lemma UpdateRecommendationsDoes(j: Journey, recs: seq<Recommendation>, now: int)
    ensures var o := UpdateRecommendations(j, recs, now);
            var replaced := && now <= j.expirationTime && j.status != BoardingPrompt && recs != []
                            && (recs[0].busId != j.activeBusId || Significant(j.recommendedBuses, recs));
            && o.err == (if now > j.expirationTime then Some(ErrJourneyExpired)
                         else if j.status == BoardingPrompt then Some(ErrCannotUpdateDuringBoarding) else None)
            && (!replaced ==> o.journey == j)
            && (replaced ==> o.journey.recommendedBuses == recs && o.journey.activeBusId == recs[0].busId)
            && (if o.journey.activeBusId != j.activeBusId
                then o.journey.lastProximityLevel == 0 && o.journey.boardingWindowStartedAt == None
                else o.journey.lastProximityLevel == j.lastProximityLevel
                     && o.journey.boardingWindowStartedAt == j.boardingWindowStartedAt)
            && j == o.journey.(recommendedBuses := j.recommendedBuses, activeBusId := j.activeBusId, events := j.events,
                               lastProximityLevel := j.lastProximityLevel,
                               boardingWindowStartedAt := j.boardingWindowStartedAt)
  {
    SignificantIs(j.recommendedBuses, recs);
    hide HasSignificantChange, Significant;
  }

  /** The event says whether the change was significant, after one for the change of bus, if any. */
  lemma UpdateRecommendationsRecords(j: Journey, recs: seq<Recommendation>, now: int)
    ensures var k := UpdateRecommendations(j, recs, now).journey;
            if recs == [] || (k.activeBusId == j.activeBusId && k.recommendedBuses == j.recommendedBuses)
            then k.events == j.events
            else
              var updated := RecommendationsUpdated(recs, Significant(j.recommendedBuses, recs), recs[0], now);
              k.events == j.events +
                (if k.activeBusId == j.activeBusId then [updated]
                 else [BusSwitched(j.activeBusId, recs[0].busId, 2, now), updated])
  {
    SignificantIs(j.recommendedBuses, recs);
    assert !Significant(recs, recs);
    hide HasSignificantChange, Significant;
  }

  lemma SignificantIs(current: seq<Recommendation>, recs: seq<Recommendation>)
    ensures HasSignificantChange(current, recs) <==> Significant(current, recs)
  {
    if |recs| == |current| {
      assert forall i | 0 <= i < |recs| :: Differs(recs[i], current[i]) <==>
               ArrivalMoved(recs[i], current[i]) || recs[i].busId != current[i].busId;
    }
  }

  /** The user may switch to any recommended bus outside BoardingPrompt; a real change clears the
      declines and nothing more. */
  lemma SwitchBusDoes(j: Journey, bus: string, reason: int, now: int)
    ensures var o := SwitchBus(j, bus, reason, now);
            var known := exists i :: 0 <= i < |j.recommendedBuses| && j.recommendedBuses[i].busId == bus;
            && o.err == (if now > j.expirationTime then Some(ErrJourneyExpired)
                         else if j.status == BoardingPrompt then Some(ErrCannotUpdateDuringBoarding)
                         else if !known then Some(ErrNoRecommendations) else None)
            && (o.err.Some? || bus == j.activeBusId ==> o.journey == j)
            && (o.err.None? && bus != j.activeBusId ==>
                  o.journey == j.(activeBusId := bus, lastSwitchReason := reason, declineCount := 0,
                                  events := j.events + [BusSwitched(j.activeBusId, bus, reason, now)]))
  {}

  /** The level of the active bus moves up one step at a time, to at most 3; reaching 3 opens the boarding
      window and prompts from Tracking, and fails with level and window changed from any other status. */
  lemma UpdateProximityDoes(j: Journey, bus: string, level: int, distance: real, now: int)
    ensures var o := UpdateProximity(j, bus, level, distance, now);
            var event := ProximityUpdated(bus, level, j.lastProximityLevel, distance, now);
            && (now > j.expirationTime ==> o == Fail(j, ErrJourneyExpired))
            && (now <= j.expirationTime && bus != j.activeBusId ==> o == Fail(j, ErrProximityForWrongBus))
            && (now <= j.expirationTime && bus == j.activeBusId ==>
                  && (level <= j.lastProximityLevel ==> o == Fail(j, ErrProximityMustIncrease))
                  && (level > j.lastProximityLevel && !(level == j.lastProximityLevel + 1 && 1 <= level <= 3) ==>
                        o == Fail(j, ErrInvalidProximityTransition))
                  && (level == j.lastProximityLevel + 1 && 1 <= level <= 2 ==>
                        o == Ok(j.(lastProximityLevel := level, events := j.events + [event])))
                  && (level == 3 == j.lastProximityLevel + 1 && j.status == Tracking ==>
                        o == Ok(j.(lastProximityLevel := 3, boardingWindowStartedAt := Some(now),
                                   status := BoardingPrompt, events := j.events + [event])))
                  && (level == 3 == j.lastProximityLevel + 1 && j.status != Tracking ==>
                        o == Fail(j.(lastProximityLevel := 3, boardingWindowStartedAt := Some(now)),
                                  ErrInvalidStatusTransition)))
  {}

  /** The level a distance asks for next: 1 within 500 metres, 2 within 100, 3 within 50. */
  lemma NextProximityLevelIs(j: Journey, meters: real, l: int)
    ensures NextProximityLevel(j, meters) == Some(l) <==>
              && j.status == Tracking && l == j.lastProximityLevel + 1
              && ((l == 1 && meters <= 500.0) || (l == 2 && meters <= 100.0) || (l == 3 && meters <= 50.0))
    ensures NextProximityLevel(j, meters).None? <==>
              || j.status != Tracking || j.lastProximityLevel < 0 || j.lastProximityLevel > 2
              || meters > (if j.lastProximityLevel == 0 then 500.0
                           else if j.lastProximityLevel == 1 then 100.0 else 50.0)
  {}

  /** The level that counts for the bound on polls. */
  lemma TargetLevelIs(meters: real)
    ensures var l := TargetLevel(meters);
            && 0 <= l <= 3
            && (l >= 1 <==> meters <= 500.0) && (l >= 2 <==> meters <= 100.0) && (l >= 3 <==> meters <= 50.0)
  {}

  lemma CompleteJourneyDoes(j: Journey, now: int)
    ensures CompleteJourney(j, now) ==
              if j.status == Boarded then
                Ok(j.(status := Completed, events := j.events + [JourneyCompleted(j.activeBusId, now)]))
              else Fail(j, ErrNotInBoardedState)
  {}

  /** Boarding needs the prompt and an open window, three minutes from its start, to the nanosecond. */
  lemma ConfirmBoardedDoes(j: Journey, now: int)
    requires j.boardingTimeoutDuration == 180_000_000_000
    ensures var o, start := ConfirmBoarded(j, now), j.boardingWindowStartedAt;
            && o.err == (if j.status != BoardingPrompt then Some(ErrNotInBoardingState)
                         else if start.Some? && now > start.value + 180_000_000_000 then Some(ErrBoardingWindowExpired)
                         else None)
            && o.journey == (if o.err.Some? then j else
                 j.(boardedAt := Some(now), status := Boarded,
                    events := j.events + [BoardingConfirmed(j.activeBusId, now, now)]))
  {}

  lemma DeclineBoardingDoes(j: Journey, now: int)
    ensures var o := DeclineBoarding(j, now);
            && o.err == (if now > j.expirationTime then Some(ErrJourneyExpired)
                         else if j.status != BoardingPrompt then Some(ErrNotInBoardingState)
                         else if j.declineCount >= 5 then Some(ErrMaxDeclinesReached) else None)
            && o.journey == (if o.err.Some? then j else
                 j.(declineCount := j.declineCount + 1, status := Tracking, lastProximityLevel := 0,
                    events := j.events + [BoardingDeclined(j.activeBusId, j.declineCount + 1, now)]))
  {}

  /** A journey can be cancelled, and expired, until it is completed, cancelled or expired. */
  predicate Open(s: JourneyStatus) {
    s == Searching || s == Tracking || s == BoardingPrompt || s == Boarded
  }

  lemma CancelJourneyDoes(j: Journey, now: int)
    ensures var o := CancelJourney(j, now);
            && o.err == (if j.status == Completed then Some(ErrCannotCancelCompletedJourney)
                         else if !Open(j.status) then Some(ErrInvalidStatusTransition) else None)
            && o.journey == (if o.err.Some? then j else
                 j.(status := Cancelled, events := j.events + [JourneyCancelled(now)]))
  {}

  lemma ExpireJourneyDoes(j: Journey, expiredAt: int, now: int)
    ensures var o := ExpireJourney(j, expiredAt, now);
            && o.err == (if Open(j.status) then None else Some(ErrInvalidStatusTransition))
            && o.journey == (if o.err.Some? then j else
                 j.(status := Expired, events := j.events + [JourneyExpired(expiredAt, now)]))
  {}

  /** Auto-completion boards when the window has passed, and is otherwise no change and no error; the
      event still speaks of ten minutes. */
  lemma AutoCompleteDoes(j: Journey, now: int)
    requires j.boardingTimeoutDuration == 180_000_000_000
    ensures var start := j.boardingWindowStartedAt;
            AutoComplete(j, now) ==
              if j.status == BoardingPrompt && start.Some? && now > start.value + 180_000_000_000 then
                Ok(j.(boardedAt := Some(now), status := Boarded,
                      events := j.events + [AutoCompleted(j.activeBusId, 10, now)]))
              else Ok(j)
  {}

  /** Each command runs the method of its name. */
  lemma ApplyRuns(j: Journey, c: Command, now: int)
    ensures Apply(j, c, now) ==
              if c.DoInitializeTracking? then InitializeTracking(j, c.recs, c.duration, c.direction, now)
              else if c.DoUpdateRecommendations? then UpdateRecommendations(j, c.recs, now)
              else if c.DoSwitchBus? then SwitchBus(j, c.bus, c.reason, now)
              else if c.DoUpdateProximity? then UpdateProximity(j, c.bus, c.level, c.distance, now)
              else if c.DoComplete? then CompleteJourney(j, now)
              else if c.DoConfirm? then ConfirmBoarded(j, now)
              else if c.DoDecline? then DeclineBoarding(j, now)
              else if c.DoCancel? then CancelJourney(j, now)
              else if c.DoExpire? then ExpireJourney(j, c.expiredAt, now)
              else AutoComplete(j, now)
  {}
}
