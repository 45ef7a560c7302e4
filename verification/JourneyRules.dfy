/** The Journey aggregate as values: statuses, the proximity ladder and one function per method.

    Times are nanoseconds and every method reads the clock once, as the argument `now`.  A method
    that changes fields before a later check fails returns the changed journey with the error.
 */
module JourneyRules {
  import opened Common

  const MINUTE := 60_000_000_000
  const HOUR := 60 * MINUTE
  const BOARDING_TIMEOUT := 3 * MINUTE
  const MAX_DECLINES := 5

  /** `Unnamed` stands for the other values of the integer type. */
  datatype JourneyStatus =
    Searching | Tracking | BoardingPrompt | Boarded | Completed | Cancelled | Expired | Unnamed(code: int)

  const LEVEL_NONE := 0
  const LEVEL_APPROACHING := 1
  const LEVEL_NEARBY := 2
  const LEVEL_ARRIVED := 3

  const REASON_UNKNOWN := 0
  const REASON_OVERTAKEN := 2

  datatype Breakdown = Breakdown(toTerminal: int, atTerminal: int, fromTerminal: int)

  datatype JourneyInfo = JourneyInfo(kind: string, totalDistance: real, estimatedTime: int, requiresTerminal: bool,
                                     terminalWaitTime: int, breakdown: Breakdown)

  datatype Recommendation = Recommendation(
    busId: string, operatorId: string, actualRouteDistance: real, estimatedArrival: int, journeyInfo: JourneyInfo,
    direction: int, requiredDirection: int, isWrongDirection: bool, displayText: string, confidenceLevel: real,
    rankingScore: real, distanceToOriginStop: real, confidence: real, rank: int)

  datatype JourneyEvent =
    | JourneyStarted(bus: string, recommendations: seq<Recommendation>, direction: int, at: int)
    | BusSwitched(oldBus: string, newBus: string, reason: int, at: int)
    | RecommendationsUpdated(recommendations: seq<Recommendation>, significant: bool, active: Recommendation, at: int)
    | ProximityUpdated(bus: string, level: int, previous: int, distance: real, at: int)
    | JourneyCompleted(bus: string, at: int)
    | BoardingConfirmed(bus: string, boardedAt: int, at: int)
    | BoardingDeclined(bus: string, declineCount: int, at: int)
    | JourneyCancelled(at: int)
    | JourneyExpired(expiredAt: int, at: int)
    | AutoCompleted(bus: string, timeoutMinutes: int, at: int)

  datatype JourneyError =
    | ErrInvalidGeoLocation | ErrStopIdRequired | ErrOriginCannotBeDestination | ErrCreatedAtRequired
    | ErrCreatedAtInFuture | ErrCreatedAtTooOld | ErrEventRecorderRequired
    | ErrNoRecommendations | ErrInvalidJourneyDuration | ErrJourneyTooShort | ErrJourneyTooLong
    | ErrInvalidStatusTransition | ErrJourneyExpired | ErrCannotUpdateDuringBoarding
    | ErrProximityForWrongBus | ErrProximityMustIncrease | ErrInvalidProximityTransition
    | ErrNotInBoardedState | ErrNotInBoardingState | ErrBoardingWindowExpired | ErrMaxDeclinesReached
    | ErrCannotCancelCompletedJourney

  datatype Journey = Journey(
    journeyId: string, userId: string, originLat: real, originLon: real, originStopId: string,
    destinationStopId: string,
    recommendedBuses: seq<Recommendation>, activeBusId: string, status: JourneyStatus, lastSwitchReason: int,
    lastProximityLevel: int, declineCount: int, requiredDirection: int, estimatedDuration: int, expirationTime: int,
    version: int, createdAt: int, boardingWindowStartedAt: Option<int>, boardingTimeoutDuration: int,
    boardedAt: Option<int>, events: seq<JourneyEvent>)

  datatype Outcome = Outcome(journey: Journey, err: Option<JourneyError>)

  function Fail(j: Journey, e: JourneyError): Outcome { Outcome(j, Some(e)) }
  function Ok(j: Journey): Outcome { Outcome(j, None) }

  // ---------------------------------------------------------------------------
  // Statuses
  // ---------------------------------------------------------------------------

  predicate CanTransitionTo(s: JourneyStatus, target: JourneyStatus) {
    match s
    case Searching => target in {Tracking, Cancelled, Expired}
    case Tracking => target in {BoardingPrompt, Cancelled, Expired}
    case BoardingPrompt => target in {Boarded, Tracking, Cancelled, Expired}
    case Boarded => target in {Completed, Cancelled, Expired}
    case _ => false
  }

  /** The table that the code keeps beside the function and never consults. */
  const VALID_STATUS_TRANSITIONS: map<JourneyStatus, seq<JourneyStatus>> :=
    map[Searching := [Tracking],
        Tracking := [BoardingPrompt, Tracking, Cancelled, Expired],
        BoardingPrompt := [Boarded, Tracking, Cancelled, Expired],
        Boarded := [Completed, Cancelled, Expired],
        Completed := [], Cancelled := [], Expired := []]

  predicate InTable(s: JourneyStatus, target: JourneyStatus) {
    s in VALID_STATUS_TRANSITIONS && target in VALID_STATUS_TRANSITIONS[s]
  }

  /** Table and function agree except on leaving Searching for Cancelled or Expired, which only the
      function allows, and on Tracking to itself, which only the table lists. */
  lemma TableAgreesIff(s: JourneyStatus, target: JourneyStatus)
    ensures (InTable(s, target) <==> CanTransitionTo(s, target)) <==>
            (s, target) !in {(Searching, Cancelled), (Searching, Expired), (Tracking, Tracking)}
  {
    var t := VALID_STATUS_TRANSITIONS;
    assert s in t <==> !s.Unnamed?;
  }

  // ---------------------------------------------------------------------------
  // Proximity
  // ---------------------------------------------------------------------------

  predicate IsValidProximityProgression(from: int, to: int) {
    LEVEL_NONE <= from < LEVEL_ARRIVED && to == from + 1
  }

  function TargetLevel(meters: real): (level: int) {
    if meters <= 50.0 then LEVEL_ARRIVED
    else if meters <= 100.0 then LEVEL_NEARBY
    else if meters <= 500.0 then LEVEL_APPROACHING
    else LEVEL_NONE
  }

  function NextProximityLevel(j: Journey, meters: real): Option<int> {
    var next := j.lastProximityLevel + 1;
    if j.status != Tracking || j.lastProximityLevel >= LEVEL_ARRIVED then None
    else if TargetLevel(meters) <= j.lastProximityLevel || next > TargetLevel(meters) then None
    else if !IsValidProximityProgression(j.lastProximityLevel, next) then None
    else Some(next)
  }

  // ---------------------------------------------------------------------------
  // Methods
  // ---------------------------------------------------------------------------

  predicate IsExpired(j: Journey, now: int) {
    now > j.expirationTime
  }

  predicate IsBoardingWindowExpired(j: Journey, now: int) {
    j.boardingWindowStartedAt.Some? && now - j.boardingWindowStartedAt.value > j.boardingTimeoutDuration
  }

  predicate ArrivalMoved(a: Recommendation, b: Recommendation) {
    var d := a.estimatedArrival - b.estimatedArrival;
    (if d < 0 then -d else d) > 3 * MINUTE
  }

  predicate HasSignificantChange(current: seq<Recommendation>, recs: seq<Recommendation>) {
    |recs| != |current| ||
    exists i :: 0 <= i < |recs| && (ArrivalMoved(recs[i], current[i]) || recs[i].busId != current[i].busId)
  }

  predicate ShouldUpdateRecommendations(j: Journey, recs: seq<Recommendation>) {
    j.status != BoardingPrompt && recs != [] &&
    (recs[0].busId != j.activeBusId || HasSignificantChange(j.recommendedBuses, recs))
  }

  function CheckOrigin(lat: real, lon: real, originStopId: string, destinationStopId: string, createdAt: int)
    : Option<JourneyError>
  {
    if lat < -90.0 || lat > 90.0 || lon < -180.0 || lon > 180.0 || (lat == 0.0 && lon == 0.0) then
      Some(ErrInvalidGeoLocation)
    else if originStopId == "" || destinationStopId == "" then Some(ErrStopIdRequired)
    else if originStopId == destinationStopId then Some(ErrOriginCannotBeDestination)
    else if createdAt == ZERO_TIME then Some(ErrCreatedAtRequired)
    else None
  }

  function NewJourney(journeyId: string, userId: string, lat: real, lon: real, originStopId: string,
                      destinationStopId: string, createdAt: int, hasRecorder: bool, now: int): (r: Outcome) {
    var j := Journey(journeyId, userId, lat, lon, originStopId, destinationStopId, [], "", Searching, REASON_UNKNOWN,
                     LEVEL_NONE, 0, 0, 0, createdAt + 30 * MINUTE, 1, createdAt, None, BOARDING_TIMEOUT, None, []);
    var bad := CheckOrigin(lat, lon, originStopId, destinationStopId, createdAt);
    if bad.Some? then Outcome(j, bad)
    else if createdAt > now then Fail(j, ErrCreatedAtInFuture)
    else if createdAt < now - 24 * HOUR then Fail(j, ErrCreatedAtTooOld)
    else if !hasRecorder then Fail(j, ErrEventRecorderRequired)
    else Ok(j)
  }

  function InitializeTracking(j: Journey, recs: seq<Recommendation>, duration: int, direction: int, now: int): Outcome {
    if recs == [] then Fail(j, ErrNoRecommendations)
    else if duration <= 0 then Fail(j, ErrInvalidJourneyDuration)
    else if duration < 5 * MINUTE then Fail(j, ErrJourneyTooShort)
    else if duration > 3 * HOUR then Fail(j, ErrJourneyTooLong)
    else
      var j1 := j.(recommendedBuses := recs, activeBusId := recs[0].busId, estimatedDuration := duration,
                   expirationTime := j.createdAt + 2 * duration, requiredDirection := direction);
      if !CanTransitionTo(j.status, Tracking) then Fail(j1, ErrInvalidStatusTransition)
      else Ok(j1.(status := Tracking, events := j.events + [JourneyStarted(recs[0].busId, recs, direction, now)]))
  }

  function UpdateRecommendations(j: Journey, recs: seq<Recommendation>, now: int): Outcome {
    if IsExpired(j, now) then Fail(j, ErrJourneyExpired)
    else if j.status == BoardingPrompt then Fail(j, ErrCannotUpdateDuringBoarding)
    else if !ShouldUpdateRecommendations(j, recs) then Ok(j)
    else
      var bus := recs[0].busId;
      var updated := RecommendationsUpdated(recs, HasSignificantChange(j.recommendedBuses, recs), recs[0], now);
      if bus == j.activeBusId then Ok(j.(recommendedBuses := recs, events := j.events + [updated]))
      else Ok(j.(recommendedBuses := recs, activeBusId := bus, lastProximityLevel := LEVEL_NONE,
                 boardingWindowStartedAt := None,
                 events := j.events + [BusSwitched(j.activeBusId, bus, REASON_OVERTAKEN, now), updated]))
  }

  predicate Recommends(recs: seq<Recommendation>, bus: string) {
    exists i :: 0 <= i < |recs| && recs[i].busId == bus
  }

  function SwitchBus(j: Journey, bus: string, reason: int, now: int): Outcome {
    if IsExpired(j, now) then Fail(j, ErrJourneyExpired)
    else if j.status == BoardingPrompt then Fail(j, ErrCannotUpdateDuringBoarding)
    else if !Recommends(j.recommendedBuses, bus) then Fail(j, ErrNoRecommendations)
    else if bus == j.activeBusId then Ok(j)
    else Ok(j.(activeBusId := bus, lastSwitchReason := reason, declineCount := 0,
               events := j.events + [BusSwitched(j.activeBusId, bus, reason, now)]))
  }

  function UpdateProximity(j: Journey, bus: string, level: int, distance: real, now: int): Outcome {
    if IsExpired(j, now) then Fail(j, ErrJourneyExpired)
    else if bus != j.activeBusId then Fail(j, ErrProximityForWrongBus)
    else if level <= j.lastProximityLevel then Fail(j, ErrProximityMustIncrease)
    else if !IsValidProximityProgression(j.lastProximityLevel, level) then Fail(j, ErrInvalidProximityTransition)
    else
      var event := ProximityUpdated(bus, level, j.lastProximityLevel, distance, now);
      if level != LEVEL_ARRIVED then Ok(j.(lastProximityLevel := level, events := j.events + [event]))
      else
        var j1 := j.(lastProximityLevel := level, boardingWindowStartedAt := Some(now));
        if !CanTransitionTo(j.status, BoardingPrompt) then Fail(j1, ErrInvalidStatusTransition)
        else Ok(j1.(status := BoardingPrompt, events := j.events + [event]))
  }

  function CompleteJourney(j: Journey, now: int): Outcome {
    if j.status != Boarded then Fail(j, ErrNotInBoardedState)
    else Ok(j.(status := Completed, events := j.events + [JourneyCompleted(j.activeBusId, now)]))
  }

  function ConfirmBoarded(j: Journey, now: int): Outcome {
    if j.status != BoardingPrompt then Fail(j, ErrNotInBoardingState)
    else if IsBoardingWindowExpired(j, now) then Fail(j, ErrBoardingWindowExpired)
    else Ok(j.(boardedAt := Some(now), status := Boarded,
               events := j.events + [BoardingConfirmed(j.activeBusId, now, now)]))
  }

  function DeclineBoarding(j: Journey, now: int): Outcome {
    if IsExpired(j, now) then Fail(j, ErrJourneyExpired)
    else if j.status != BoardingPrompt then Fail(j, ErrNotInBoardingState)
    else if j.declineCount >= MAX_DECLINES then Fail(j, ErrMaxDeclinesReached)
    else Ok(j.(declineCount := j.declineCount + 1, status := Tracking, lastProximityLevel := LEVEL_NONE,
               events := j.events + [BoardingDeclined(j.activeBusId, j.declineCount + 1, now)]))
  }

  function CancelJourney(j: Journey, now: int): Outcome {
    if j.status == Completed then Fail(j, ErrCannotCancelCompletedJourney)
    else if !CanTransitionTo(j.status, Cancelled) then Fail(j, ErrInvalidStatusTransition)
    else Ok(j.(status := Cancelled, events := j.events + [JourneyCancelled(now)]))
  }

  function ExpireJourney(j: Journey, expiredAt: int, now: int): Outcome {
    if !CanTransitionTo(j.status, Expired) then Fail(j, ErrInvalidStatusTransition)
    else Ok(j.(status := Expired, events := j.events + [JourneyExpired(expiredAt, now)]))
  }

  function AutoComplete(j: Journey, now: int): Outcome {
    if j.status != BoardingPrompt || !IsBoardingWindowExpired(j, now) then Ok(j)
    else Ok(j.(boardedAt := Some(now), status := Boarded, events := j.events + [AutoCompleted(j.activeBusId, 10, now)]))
  }

  datatype Command =
    | DoInitializeTracking(recs: seq<Recommendation>, duration: int, direction: int)
    | DoUpdateRecommendations(recs: seq<Recommendation>)
    | DoSwitchBus(bus: string, reason: int)
    | DoUpdateProximity(bus: string, level: int, distance: real)
    | DoComplete
    | DoConfirm
    | DoDecline
    | DoCancel
    | DoExpire(expiredAt: int)
    | DoAutoComplete

  function Apply(j: Journey, c: Command, now: int): Outcome {
    match c
    case DoInitializeTracking(recs, duration, direction) => InitializeTracking(j, recs, duration, direction, now)
    case DoUpdateRecommendations(recs) => UpdateRecommendations(j, recs, now)
    case DoSwitchBus(bus, reason) => SwitchBus(j, bus, reason, now)
    case DoUpdateProximity(bus, level, distance) => UpdateProximity(j, bus, level, distance, now)
    case DoComplete => CompleteJourney(j, now)
    case DoConfirm => ConfirmBoarded(j, now)
    case DoDecline => DeclineBoarding(j, now)
    case DoCancel => CancelJourney(j, now)
    case DoExpire(expiredAt) => ExpireJourney(j, expiredAt, now)
    case DoAutoComplete => AutoComplete(j, now)
  }
}
