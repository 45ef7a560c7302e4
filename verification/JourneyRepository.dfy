/** Persistence of journeys: the row, the version-checked upsert, loading, and the command handler
    that loads, calls the aggregate and saves only on success. */
module JourneyPersistence {
  import opened Common
  import opened JourneyRules
  import opened JourneyRuns
  import opened JourneyAggregates

  // The JSON shape of a recommendation.
  datatype BreakdownJson = BreakdownJson(toTerminal: int, atTerminal: int, fromTerminal: int)

  datatype JourneyInfoJson = JourneyInfoJson(kind: string, totalDistance: real, estimatedTime: int,
                                             requiresTerminal: bool,
                                             terminalWaitTime: int, breakdown: BreakdownJson)

  datatype RecommendationJson = RecommendationJson(
    busId: string, operatorId: string, actualRouteDistance: real, estimatedArrival: int, journeyInfo: JourneyInfoJson,
    direction: int, requiredDirection: int, isWrongDirection: bool, displayText: string, confidenceLevel: real,
    rankingScore: real, distanceToOriginStop: real, confidence: real, rank: int)

  datatype Row = Row(
    journeyId: string, userId: string, originLat: real, originLon: real, originStopId: string,
    destinationStopId: string,
    recommendedBuses: seq<RecommendationJson>, activeBusId: Option<string>, status: int, lastSwitchReason: int,
    lastProximityLevel: int, declineCount: int, requiredDirection: int, estimatedDuration: int, expirationTime: int,
    boardingWindowStartedAt: Option<int>, boardedAt: Option<int>, version: int, createdAt: int)

  type Table = map<string, Row>

  datatype RepoError = JourneyNotFound | VersionStale | Rehydration(e: JourneyError) | Domain(e: JourneyError)

  function ToJson(r: Recommendation): RecommendationJson {
    var i, b := r.journeyInfo, r.journeyInfo.breakdown;
    RecommendationJson(r.busId, r.operatorId, r.actualRouteDistance, r.estimatedArrival,
      JourneyInfoJson(i.kind, i.totalDistance, i.estimatedTime, i.requiresTerminal, i.terminalWaitTime,
        BreakdownJson(b.toTerminal, b.atTerminal, b.fromTerminal)),
      r.direction, r.requiredDirection, r.isWrongDirection, r.displayText, r.confidenceLevel,
      r.rankingScore, r.distanceToOriginStop, r.confidence, r.rank)
  }

  function FromJson(r: RecommendationJson): Recommendation {
    var i, b := r.journeyInfo, r.journeyInfo.breakdown;
    Recommendation(r.busId, r.operatorId, r.actualRouteDistance, r.estimatedArrival,
      JourneyInfo(i.kind, i.totalDistance, i.estimatedTime, i.requiresTerminal, i.terminalWaitTime,
        Breakdown(b.toTerminal, b.atTerminal, b.fromTerminal)),
      r.direction, r.requiredDirection, r.isWrongDirection, r.displayText, r.confidenceLevel,
      r.rankingScore, r.distanceToOriginStop, r.confidence, r.rank)
  }

  function AllToJson(recs: seq<Recommendation>): seq<RecommendationJson> {
    seq(|recs|, i requires 0 <= i < |recs| => ToJson(recs[i]))
  }

  function AllFromJson(rows: seq<RecommendationJson>): seq<Recommendation> {
    seq(|rows|, i requires 0 <= i < |rows| => FromJson(rows[i]))
  }

  lemma RecommendationsRoundTrip(recs: seq<Recommendation>)
    ensures AllFromJson(AllToJson(recs)) == recs
  {
    forall i | 0 <= i < |recs|
      ensures FromJson(ToJson(recs[i])) == recs[i]
    {}
  }

  function StatusCode(s: JourneyStatus): int {
    match s
    case Searching => 0 case Tracking => 1 case BoardingPrompt => 2 case Boarded => 3
    case Completed => 4 case Cancelled => 5 case Expired => 6 case Unnamed(code) => code
  }

  function StatusOf(code: int): JourneyStatus {
    if code == 0 then Searching else if code == 1 then Tracking else if code == 2 then BoardingPrompt
    else if code == 3 then Boarded else if code == 4 then Completed else if code == 5 then Cancelled
    else if code == 6 then Expired else Unnamed(code)
  }

  /** The values Save binds: the switch reason is always 0 and the version is one higher. */
  function RowOf(j: Journey): Row {
    Row(j.journeyId, j.userId, j.originLat, j.originLon, j.originStopId, j.destinationStopId,
        AllToJson(j.recommendedBuses),
        if j.activeBusId == "" then None else Some(j.activeBusId), StatusCode(j.status), 0, j.lastProximityLevel,
        j.declineCount, j.requiredDirection, j.estimatedDuration, j.expirationTime, j.boardingWindowStartedAt,
        j.boardedAt, j.version + 1, j.createdAt)
  }

  /** INSERT, or UPDATE where the stored version is the journey's; created_at is never updated. */
  function Upsert(t: Table, j: Journey): Option<Table> {
    if j.journeyId !in t then Some(t[j.journeyId := RowOf(j)])
    else if t[j.journeyId].version == j.version then
      Some(t[j.journeyId := RowOf(j).(createdAt := t[j.journeyId].createdAt)])
    else None
  }

  /** The journey a row rehydrates to. */
  function Loaded(r: Row): Journey {
    Journey(r.journeyId, r.userId, r.originLat, r.originLon, r.originStopId, r.destinationStopId,
            AllFromJson(r.recommendedBuses), if r.activeBusId.Some? then r.activeBusId.value else "",
            StatusOf(r.status), REASON_UNKNOWN, r.lastProximityLevel, r.declineCount, r.requiredDirection,
            r.estimatedDuration, r.expirationTime,
            r.version, r.createdAt, r.boardingWindowStartedAt, BOARDING_TIMEOUT, r.boardedAt, [])
  }

  predicate Rehydrates(r: Row) {
    CheckOrigin(r.originLat, r.originLon, r.originStopId, r.destinationStopId, r.createdAt).None?
  }

  function FindError(t: Table, id: string): Option<RepoError> {
    if id !in t then Some(JourneyNotFound) else
    match CheckOrigin(t[id].originLat, t[id].originLon, t[id].originStopId, t[id].destinationStopId, t[id].createdAt)
    case Some(e) => Some(Rehydration(e))
    case None => None
  }

  /** A load fails if the id is unknown, or the stored origin, destination or creation time is not valid. */
  lemma FindErrorIs(t: Table, id: string)
    ensures FindError(t, id) == Some(JourneyNotFound) <==> id !in t
    ensures id in t ==>
              var r := t[id];
              FindError(t, id) ==
                if !(-90.0 <= r.originLat <= 90.0 && -180.0 <= r.originLon <= 180.0
                     && (r.originLat, r.originLon) != (0.0, 0.0)) then Some(Rehydration(ErrInvalidGeoLocation))
                else if r.originStopId == "" || r.destinationStopId == "" then Some(Rehydration(ErrStopIdRequired))
                else if r.originStopId == r.destinationStopId then Some(Rehydration(ErrOriginCannotBeDestination))
                else if r.createdAt == ZERO_TIME then Some(Rehydration(ErrCreatedAtRequired)) else None
  {}

  /** The stored codes of the seven statuses are 0 to 6, in this order. */
  lemma StatusCodesAre(s: JourneyStatus)
    ensures !s.Unnamed? ==> 0 <= StatusCode(s) <= 6 && StatusOf(StatusCode(s)) == s
    ensures !s.Unnamed? ==>
              s == [Searching, Tracking, BoardingPrompt, Boarded, Completed, Cancelled, Expired][StatusCode(s)]
  {}

  /** A save goes through exactly for a new id or onto a row of the journey's own version; it then leaves
      one row changed, one version on, that loads to the journey but for the switch reason and, on an
      existing row, the stored creation time. */
  lemma UpsertDoes(t: Table, j: Journey)
    requires Sound(j)
    ensures var saved, id := Upsert(t, j), j.journeyId;
            && (saved.Some? <==> id !in t || t[id].version == j.version)
            && (saved.Some? ==>
                  && saved.value.Keys == t.Keys + {id} && (forall k | k in t && k != id :: saved.value[k] == t[k])
                  && Loaded(saved.value[id]) ==
                       j.(version := j.version + 1, lastSwitchReason := 0, events := [],
                          createdAt := if id in t then t[id].createdAt else j.createdAt))
  {
    SaveLoadRoundTrip(j);
    LoadedCreatedAt(RowOf(j), if j.journeyId in t then t[j.journeyId].createdAt else j.createdAt);
    hide Loaded, RowOf, Sound;
  }

  lemma LoadedCreatedAt(r: Row, at: int)
    ensures Loaded(r.(createdAt := at)) == Loaded(r).(createdAt := at)
    ensures r.(createdAt := r.createdAt) == r
  {}

  /** What is persisted of a journey. */
  function Persisted(j: Journey): Journey {
    j.(version := 0, lastSwitchReason := REASON_UNKNOWN, events := [])
  }

  /** Saving and loading gives back the same journey, one version later; only the switch reason and
      the recorder are lost. */
  lemma SaveLoadRoundTrip(j: Journey)
    requires Sound(j)
    ensures Loaded(RowOf(j)) == j.(version := j.version + 1, lastSwitchReason := 0, events := [])
  {
    RecommendationsRoundTrip(j.recommendedBuses);
  }

  class PostgresJourneyRepository {
    var table: Table

    constructor ()
      ensures table == map[]
    {
      table := map[];
    }

    method Save(journey: JourneyAggregate) returns (err: Option<RepoError>)
      modifies this
      ensures var t := Upsert(old(table), journey.View());
              && table == (if t.Some? then t.value else old(table))
              && err == (if t.Some? then None else Some(VersionStale))
    {
      var recs := MarshalRecommendations(journey.recommendedBuses);
      var activeBusId := if journey.activeBusId != "" then Some(journey.activeBusId) else None;
      var currentVersion := journey.version;
      var row := Row(journey.journeyId, journey.userId, journey.originLat, journey.originLon, journey.originStopId,
                     journey.destinationStopId, recs, activeBusId, StatusCode(journey.status), 0,
                     journey.lastProximityLevel,
                     journey.declineCount, journey.requiredDirection, journey.estimatedDuration, journey.expirationTime,
                     journey.boardingWindowStartedAt, journey.boardedAt, currentVersion + 1, journey.createdAt);
      if journey.journeyId !in table {
        table := table[journey.journeyId := row];
      } else if table[journey.journeyId].version == currentVersion {
        table := table[journey.journeyId := row.(createdAt := table[journey.journeyId].createdAt)];
      } else {
        return Some(VersionStale);
      }
      return None;
    }

    method FindByID(id: string) returns (journey: JourneyAggregate?, err: Option<RepoError>)
      ensures err == FindError(table, id)
      ensures err.None? ==> journey != null && fresh(journey) && journey.Valid() && journey.View() == Loaded(table[id])
      ensures err.Some? ==> journey == null
    {
      if id !in table { return null, Some(JourneyNotFound); }
      var r := table[id];
      var recs := UnmarshalRecommendations(r.recommendedBuses);
      var bad := CheckOrigin(r.originLat, r.originLon, r.originStopId, r.destinationStopId, r.createdAt);
      if bad.Some? { return null, Some(Rehydration(bad.value)); }
      journey := new JourneyAggregate.FromValue(Loaded(r).(recommendedBuses := recs));
      err := None;
    }
  }

  method MarshalRecommendations(recs: seq<Recommendation>) returns (rows: seq<RecommendationJson>)
    ensures rows == AllToJson(recs)
    ensures AllFromJson(rows) == recs
  {
    rows := [];
    for i := 0 to |recs|
      invariant rows == AllToJson(recs[..i])
    {
      var rec := recs[i];
      rows := rows + [ToJson(rec)];
      assert recs[..i + 1] == recs[..i] + [rec];
    }
    assert recs[..|recs|] == recs;
    RecommendationsRoundTrip(recs);
  }

  method UnmarshalRecommendations(rows: seq<RecommendationJson>) returns (recs: seq<Recommendation>)
    ensures recs == AllFromJson(rows)
  {
    recs := [];
    for i := 0 to |rows|
      invariant recs == AllFromJson(rows[..i])
    {
      recs := recs + [FromJson(rows[i])];
      assert rows[..i + 1] == rows[..i] + [rows[i]];
    }
    assert rows[..|rows|] == rows;
  }

  /** The table after a handler has run one command to the end without interference. */
  function Handled(t: Table, id: string, c: Command, now: int): (Table, Option<RepoError>) {
    if FindError(t, id).Some? then (t, FindError(t, id))
    else
      var o := Apply(Loaded(t[id]), c, now);
      if o.err.Some? then (t, Some(Domain(o.err.value))) else
      match Upsert(t, o.journey)
      case Some(t') => (t', None)
      case None => (t, Some(VersionStale))
  }

  /** An uninterrupted command answers the load's error, then the command's, then a stale version, and
      changes the table only when there is none: then the journey's row becomes the command's outcome. */
  lemma HandledDoes(t: Table, id: string, c: Command, now: int)
    ensures var (t', err) := Handled(t, id, c, now);
            && (FindError(t, id).Some? ==> err == FindError(t, id))
            && (FindError(t, id).None? ==>
                  var o := Apply(Loaded(t[id]), c, now);
                  && (o.err.Some? ==> err == Some(Domain(o.err.value)))
                  && (o.err.None? ==> err == (if Upsert(t, o.journey).Some? then None else Some(VersionStale)))
                  && (err.None? ==> Some(t') == Upsert(t, o.journey)))
            && (err.Some? ==> t' == t)
  {}

  class JourneyCommandHandler {
    const repo: PostgresJourneyRepository

    constructor (repo: PostgresJourneyRepository)
      ensures this.repo == repo
    {
      this.repo := repo;
    }

    method CreateJourney(id: string, userId: string, lat: real, lon: real, originStopId: string,
                         destinationStopId: string, createdAt: int, hasRecorder: bool, now: int)
      returns (err: Option<RepoError>)
      modifies repo
      ensures var o := NewJourney(id, userId, lat, lon, originStopId, destinationStopId, createdAt, hasRecorder, now);
              var t := Upsert(old(repo.table), o.journey);
              if o.err.Some? then repo.table == old(repo.table) && err == Some(Domain(o.err.value))
              else repo.table == (if t.Some? then t.value else old(repo.table))
                   && err == (if t.Some? then None else Some(VersionStale))
    {
      var o := NewJourney(id, userId, lat, lon, originStopId, destinationStopId, createdAt, hasRecorder, now);
      if o.err.Some? { return Some(Domain(o.err.value)); }
      var journey := new JourneyAggregate.FromValue(o.journey);
      err := repo.Save(journey);
    }

    /** The nine command methods differ only in the aggregate method called. */
    method Handle(id: string, c: Command, now: int) returns (err: Option<RepoError>)
      requires !c.DoAutoComplete?
      modifies repo
      ensures (repo.table, err) == Handled(old(repo.table), id, c, now)
    {
      var journey: JourneyAggregate?;
      journey, err := repo.FindByID(id);
      if err.Some? {
        return;
      }
      var failure := journey.Perform(c, now);
      if failure.Some? { return Some(Domain(failure.value)); }
      err := repo.Save(journey);
    }
  }
}
