/** The Route aggregate as values: construction, edits, the event log, and cumulative distances. */
module RouteRules {
  import opened Common

  const DIRECTION_BIDIRECTIONAL := 2
  const DIRECTION_UNIDIRECTIONAL := 3
  const STATUS_ACTIVE := 0
  const TYPE_URBAN := 0
  const TYPE_HIGHWAY := 1
  const TYPE_MIXED := 2

  datatype Geo = Geo(latitude: real, longitude: real)

  datatype Stop = Stop(id: string, name: string, location: Geo, cumulative: real)

  /** The great-circle distance, left opaque. */
  type Metric = (Geo, Geo) -> real

  datatype RouteEvent =
    | RouteCreated(routeId: string, operatorIds: seq<string>, name: string, stops: seq<string>, direction: int,
                   routeType: int, activeFrom: int, activeUntil: int, at: int)
    | RouteStatusChanged(oldStatus: int, newStatus: int, reason: string, at: int)
    | RouteStopsUpdated(oldStops: seq<string>, newStops: seq<string>, reason: string, at: int)
    | RouteTypeChanged(oldType: int, newType: int, reason: string, at: int)
    | RouteActivePeriodChanged(oldFrom: int, oldUntil: int, newFrom: int, newUntil: int, reason: string, at: int)
    | RouteNameChanged(oldName: string, newName: string, reason: string, at: int)

  datatype RouteError =
    | ErrRouteIdRequired | ErrOperatorIdRequired | ErrRouteNameRequired | ErrInsufficientStops
    | ErrInvalidRouteDirection | ErrInvalidRouteType | ErrInvalidActivePeriod
    | ErrInvalidPosition | ErrStopNotFound | ErrInvalidStopIndex

  datatype Route = Route(
    routeId: string, operatorIds: seq<string>, stops: seq<Stop>, name: string, direction: int, routeType: int,
    avgDetourRate: real, status: int, activeFrom: int, activeUntil: int, version: int, createdAt: int, updatedAt: int,
    recording: bool, events: seq<RouteEvent>)

  datatype Outcome = Outcome(route: Route, err: Option<RouteError>)

  function StopIds(stops: seq<Stop>): seq<string> {
    seq(|stops|, i requires 0 <= i < |stops| => stops[i].id)
  }

  function FindStop(stops: seq<Stop>, id: string): (i: int)
    ensures -1 <= i < |stops|
    ensures i >= 0 ==> stops[i].id == id && forall k | 0 <= k < i :: stops[k].id != id
    ensures i == -1 <==> forall k | 0 <= k < |stops| :: stops[k].id != id
  {
    if stops == [] then -1
    else if stops[0].id == id then 0
    else var i := FindStop(stops[1..], id);
      assert forall k | 0 <= k < |stops| - 1 :: stops[1..][k] == stops[k + 1];
      if i == -1 then -1 else i + 1
  }

  // ---------------------------------------------------------------------------
  // Cumulative distances
  // ---------------------------------------------------------------------------

  /** Length of the first `i` segments. */
  function PrefixDistance(stops: seq<Stop>, dist: Metric, i: nat): real
    requires i < |stops|
  {
    if i == 0 then 0.0 else PrefixDistance(stops, dist, i - 1) + dist(stops[i - 1].location, stops[i].location)
  }

  /** Whether the caller supplied road distances, which are then kept. */
  predicate Provided(stops: seq<Stop>) {
    |stops| > 1 && stops[|stops| - 1].cumulative > 0.0
  }

  function WithCumulative(stops: seq<Stop>, dist: Metric): seq<Stop> {
    if stops == [] then []
    else if Provided(stops) then stops[0 := stops[0].(cumulative := 0.0)]
    else seq(|stops|, i requires 0 <= i < |stops| => stops[i].(cumulative := PrefixDistance(stops, dist, i)))
  }

  function DistanceBetween(stops: seq<Stop>, i: int, j: int): Option<real> {
    if i < 0 || i >= |stops| || j < 0 || j >= |stops| then None
    else
      var diff := stops[j].cumulative - stops[i].cumulative;
      Some(if diff < 0.0 then -diff else diff)
  }

  function TotalDistance(stops: seq<Stop>): real {
    if stops == [] then 0.0 else stops[|stops| - 1].cumulative
  }

  // ---------------------------------------------------------------------------
  // Construction and edits
  // ---------------------------------------------------------------------------

  function DetourRate(routeType: int): real {
    if routeType == TYPE_URBAN then 1.4 else if routeType == TYPE_HIGHWAY then 1.2 else 1.3
  }

  predicate ValidType(t: int) { t == TYPE_URBAN || t == TYPE_HIGHWAY || t == TYPE_MIXED }

  predicate ValidDirection(d: int) { d == DIRECTION_BIDIRECTIONAL || d == DIRECTION_UNIDIRECTIONAL }

  predicate ValidPeriod(from: int, until: int) { from != ZERO_TIME && until != ZERO_TIME && until > from }

  function NewRoute(routeId: string, operatorIds: seq<string>, stops: seq<Stop>, name: string, direction: int,
                    routeType: int, activeFrom: int, activeUntil: int, createdAt: int, recording: bool,
                    dist: Metric): Outcome
  {
    var r := Route(routeId, operatorIds, WithCumulative(stops, dist), name, direction, routeType, DetourRate(routeType),
                   STATUS_ACTIVE, activeFrom, activeUntil, 1, createdAt, createdAt, recording,
                   if recording then [RouteCreated(routeId, operatorIds, name, StopIds(stops), direction, routeType,
                                                   activeFrom, activeUntil, createdAt)] else []);
    if routeId == "" then Outcome(r, Some(ErrRouteIdRequired))
    else if operatorIds == [] then Outcome(r, Some(ErrOperatorIdRequired))
    else if name == "" then Outcome(r, Some(ErrRouteNameRequired))
    else if |stops| < 2 then Outcome(r, Some(ErrInsufficientStops))
    else if !ValidDirection(direction) then Outcome(r, Some(ErrInvalidRouteDirection))
    else if !ValidType(routeType) then Outcome(r, Some(ErrInvalidRouteType))
    else if !ValidPeriod(activeFrom, activeUntil) then Outcome(r, Some(ErrInvalidActivePeriod))
    else Outcome(r, None)
  }

  /** A route rebuilt from its stored fields: constructed again, without a recorder. */
  function Rehydrate(r: Route, dist: Metric): Outcome {
    var o := NewRoute(r.routeId, r.operatorIds, r.stops, r.name, r.direction, r.routeType, r.activeFrom, r.activeUntil,
                      r.createdAt, false, dist);
    if o.err.Some? then o
    else Accept(o.route.(status := r.status, updatedAt := r.updatedAt,
                         version := if r.version > 0 then r.version else 1))
  }

  function Record(r: Route, e: RouteEvent): Route {
    if r.recording then r.(events := r.events + [e]) else r
  }

  function Reject(r: Route, e: RouteError): Outcome { Outcome(r, Some(e)) }
  function Accept(r: Route): Outcome { Outcome(r, None) }

  function ChangeStatus(r: Route, status: int, reason: string, now: int): Outcome {
    if r.status == status then Accept(r)
    else Accept(Record(r.(status := status), RouteStatusChanged(r.status, status, reason, now)))
  }

  function ReplaceStops(r: Route, stops: seq<Stop>, reason: string, now: int): Route {
    Record(r.(stops := stops), RouteStopsUpdated(StopIds(r.stops), StopIds(stops), reason, now))
  }

  function UpdateStops(r: Route, stops: seq<Stop>, reason: string, now: int): Outcome {
    if |stops| < 2 then Reject(r, ErrInsufficientStops) else Accept(ReplaceStops(r, stops, reason, now))
  }

  function ChangeRouteType(r: Route, routeType: int, reason: string, now: int): Outcome {
    if r.routeType == routeType then Accept(r)
    else if !ValidType(routeType) then Reject(r, ErrInvalidRouteType)
    else Accept(Record(r.(routeType := routeType, avgDetourRate := DetourRate(routeType)),
                       RouteTypeChanged(r.routeType, routeType, reason, now)))
  }

  function ChangeActivePeriod(r: Route, from: int, until: int, reason: string, now: int): Outcome {
    if r.activeFrom == from && r.activeUntil == until then Accept(r)
    else if !ValidPeriod(from, until) then Reject(r, ErrInvalidActivePeriod)
    else Accept(Record(r.(activeFrom := from, activeUntil := until),
                       RouteActivePeriodChanged(r.activeFrom, r.activeUntil, from, until, reason, now)))
  }

  function ChangeName(r: Route, name: string, reason: string, now: int): Outcome {
    if r.name == name then Accept(r)
    else if name == "" then Reject(r, ErrRouteNameRequired)
    else Accept(Record(r.(name := name), RouteNameChanged(r.name, name, reason, now)))
  }

  function AddStop(r: Route, stop: Stop, position: int, reason: string, now: int): Outcome {
    if position < 0 || position > |r.stops| then Reject(r, ErrInvalidPosition)
    else Accept(ReplaceStops(r, r.stops[..position] + [stop] + r.stops[position..],
                             "Added stop " + stop.id + ": " + reason, now))
  }

  function RemoveStop(r: Route, id: string, reason: string, now: int): Outcome {
    var i := FindStop(r.stops, id);
    if i == -1 then Reject(r, ErrStopNotFound)
    else if |r.stops| <= 2 then Reject(r, ErrInsufficientStops)
    else Accept(ReplaceStops(r, r.stops[..i] + r.stops[i + 1..], "Removed stop " + id + ": " + reason, now))
  }

  datatype Edit =
    | DoChangeStatus(status: int)
    | DoUpdateStops(stops: seq<Stop>)
    | DoChangeRouteType(routeType: int)
    | DoChangeActivePeriod(from: int, until: int)
    | DoChangeName(name: string)
    | DoAddStop(stop: Stop, position: int)
    | DoRemoveStop(id: string)

  datatype Call = Call(edit: Edit, reason: string, now: int)

  function Apply(r: Route, c: Call): Outcome {
    match c.edit
    case DoChangeStatus(status) => ChangeStatus(r, status, c.reason, c.now)
    case DoUpdateStops(stops) => UpdateStops(r, stops, c.reason, c.now)
    case DoChangeRouteType(routeType) => ChangeRouteType(r, routeType, c.reason, c.now)
    case DoChangeActivePeriod(from, until) => ChangeActivePeriod(r, from, until, c.reason, c.now)
    case DoChangeName(name) => ChangeName(r, name, c.reason, c.now)
    case DoAddStop(stop, position) => AddStop(r, stop, position, c.reason, c.now)
    case DoRemoveStop(id) => RemoveStop(r, id, c.reason, c.now)
  }

  function After(r: Route, calls: seq<Call>): Route {
    if calls == [] then r else Apply(After(r, calls[..|calls| - 1]), calls[|calls| - 1]).route
  }
}

/** The event log of a route tells its whole story, and distances along it behave. */
module RouteLaws {
  import opened Common
  import opened RouteRules

  // ---------------------------------------------------------------------------
  // Folding the log
  // ---------------------------------------------------------------------------

  datatype Snapshot =
    Snapshot(name: string, routeType: int, status: int, activeFrom: int, activeUntil: int, stops: seq<string>)

  function SnapshotOf(r: Route): Snapshot {
    Snapshot(r.name, r.routeType, r.status, r.activeFrom, r.activeUntil, StopIds(r.stops))
  }

  function Fold(s: Snapshot, e: RouteEvent): Snapshot {
    match e
    case RouteCreated(_, _, name, stops, _, routeType, from, until, _) =>
      Snapshot(name, routeType, STATUS_ACTIVE, from, until, stops)
    case RouteStatusChanged(_, status, _, _) => s.(status := status)
    case RouteStopsUpdated(_, stops, _, _) => s.(stops := stops)
    case RouteTypeChanged(_, routeType, _, _) => s.(routeType := routeType)
    case RouteActivePeriodChanged(_, _, from, until, _, _) => s.(activeFrom := from, activeUntil := until)
    case RouteNameChanged(_, name, _, _) => s.(name := name)
  }

  const NOTHING := Snapshot("", TYPE_URBAN, STATUS_ACTIVE, 0, 0, [])

  function Replay(events: seq<RouteEvent>): Snapshot {
    if events == [] then NOTHING else Fold(Replay(events[..|events| - 1]), events[|events| - 1])
  }

  /** The "old" values an event carries are those the events before it left. */
  predicate OldMatches(s: Snapshot, e: RouteEvent) {
    match e
    case RouteCreated(_, _, _, _, _, _, _, _, _) => true
    case RouteStatusChanged(status, _, _, _) => status == s.status
    case RouteStopsUpdated(stops, _, _, _) => stops == s.stops
    case RouteTypeChanged(routeType, _, _, _) => routeType == s.routeType
    case RouteActivePeriodChanged(from, until, _, _, _, _) => from == s.activeFrom && until == s.activeUntil
    case RouteNameChanged(name, _, _, _) => name == s.name
  }

  ghost predicate WellChained(events: seq<RouteEvent>) {
    && events != [] && events[0].RouteCreated?
    && (forall i | 1 <= i < |events| :: !events[i].RouteCreated? && OldMatches(Replay(events[..i]), events[i]))
  }

  predicate WellFormed(r: Route) {
    && |r.stops| >= 2 && r.routeId != "" && r.name != "" && r.operatorIds != [] && r.version > 0
    && ValidDirection(r.direction) && ValidType(r.routeType)
    && ValidPeriod(r.activeFrom, r.activeUntil) && r.avgDetourRate == DetourRate(r.routeType)
  }

  ghost predicate Faithful(r: Route) {
    && WellFormed(r)
    && (r.recording ==> WellChained(r.events) && Replay(r.events) == SnapshotOf(r))
  }

  ghost predicate IsNew(r: Route) {
    exists id, ops, stops, name, dir, kind, from, until, at, rec, dist ::
      NewRoute(id, ops, stops, name, dir, kind, from, until, at, rec, dist) == Accept(r)
  }

  lemma KeepsIds(stops: seq<Stop>, dist: Metric)
    ensures StopIds(WithCumulative(stops, dist)) == StopIds(stops) && |WithCumulative(stops, dist)| == |stops|
  {}

  lemma NewArgumentsFaithful(id: string, ops: seq<string>, stops: seq<Stop>, name: string, dir: int, kind: int,
                             from: int, until: int, at: int, rec: bool, dist: Metric)
    requires NewRoute(id, ops, stops, name, dir, kind, from, until, at, rec, dist).err.None?
    ensures Faithful(NewRoute(id, ops, stops, name, dir, kind, from, until, at, rec, dist).route)
  {
    KeepsIds(stops, dist);
    hide WithCumulative;
    var events := NewRoute(id, ops, stops, name, dir, kind, from, until, at, rec, dist).route.events;
    if rec { assert events[..0] == []; }
  }

  lemma NewIsFaithful(r: Route)
    requires IsNew(r)
    ensures Faithful(r)
  {
    hide Faithful, WithCumulative, NewRoute;
    forall id, ops, stops, name, dir, kind, from, until, at, rec, dist
      | NewRoute(id, ops, stops, name, dir, kind, from, until, at, rec, dist) == Accept(r)
      ensures Faithful(r)
    {
      NewArgumentsFaithful(id, ops, stops, name, dir, kind, from, until, at, rec, dist);
    }
  }

  lemma RecordKeepsFaithful(r: Route, e: RouteEvent, r': Route)
    requires Faithful(r) && WellFormed(r') && r' == Record(r'.(events := r.events), e) && r'.recording == r.recording
    requires !e.RouteCreated? && OldMatches(SnapshotOf(r), e) && Fold(SnapshotOf(r), e) == SnapshotOf(r')
    ensures Faithful(r')
  {
    if r.recording {
      var events := r.events + [e];
      assert r'.events == events && events[..|events| - 1] == r.events;
      forall i | 1 <= i < |events|
        ensures OldMatches(Replay(events[..i]), events[i])
      {
        if i < |r.events| { assert events[..i] == r.events[..i]; }
      }
    }
  }

  lemma ApplyKeepsFaithful(r: Route, c: Call)
    requires Faithful(r)
    ensures Faithful(Apply(r, c).route)
  {
    var r' := Apply(r, c).route;
    if r' != r {
      var e := match c.edit
               case DoChangeStatus(status) => RouteStatusChanged(r.status, status, c.reason, c.now)
               case DoUpdateStops(stops) => RouteStopsUpdated(StopIds(r.stops), StopIds(stops), c.reason, c.now)
               case DoChangeRouteType(t) => RouteTypeChanged(r.routeType, t, c.reason, c.now)
               case DoChangeActivePeriod(from, until) =>
                 RouteActivePeriodChanged(r.activeFrom, r.activeUntil, from, until, c.reason, c.now)
               case DoChangeName(name) => RouteNameChanged(r.name, name, c.reason, c.now)
               case DoAddStop(stop, _) =>
                 RouteStopsUpdated(StopIds(r.stops), StopIds(r'.stops),
                                   "Added stop " + stop.id + ": " + c.reason, c.now)
               case DoRemoveStop(id) =>
                 RouteStopsUpdated(StopIds(r.stops), StopIds(r'.stops), "Removed stop " + id + ": " + c.reason, c.now);
      RecordKeepsFaithful(r, e, r');
    }
  }

  lemma {:induction false} EditsKeepFaithful(r: Route, calls: seq<Call>)
    requires Faithful(r)
    ensures Faithful(After(r, calls)) && After(r, calls).recording == r.recording
    decreases |calls|
  {
    hide Faithful;
    if calls != [] {
      EditsKeepFaithful(r, calls[..|calls| - 1]);
      ApplyKeepsFaithful(After(r, calls[..|calls| - 1]), calls[|calls| - 1]);
      ApplyKeepsRecording(After(r, calls[..|calls| - 1]), calls[|calls| - 1]);
      hide Apply;
    }
  }

  /** After any sequence of edits, rejected ones included: at least two stops, valid type and period,
      the matching detour rate; and for a route built with a recorder, folding its log from
      RouteCreated reproduces name, type, status, period and stop ids, with every event's old
      values equal to what the events before it left. */
  lemma LogTellsAll(r: Route, calls: seq<Call>)
    requires IsNew(r)
    ensures Faithful(After(r, calls)) && After(r, calls).recording == r.recording
  {
    hide Faithful, IsNew;
    NewIsFaithful(r);
    EditsKeepFaithful(r, calls);
  }

  lemma ApplyKeepsRecording(r: Route, c: Call)
    ensures Apply(r, c).route.recording == r.recording
  {}

  /** Adding a stop with a new id and removing it again restores the stop list. */
  lemma AddRemoveRestores(r: Route, stop: Stop, position: int, reason: string, now: int)
    requires |r.stops| >= 2 && 0 <= position <= |r.stops| && FindStop(r.stops, stop.id) == -1
    ensures var added := AddStop(r, stop, position, reason, now);
            var removed := RemoveStop(added.route, stop.id, reason, now);
            added.err.None? && removed.err.None? && removed.route.stops == r.stops
  {
    var stops := r.stops[..position] + [stop] + r.stops[position..];
    assert forall k | 0 <= k < position :: stops[k] == r.stops[k];
    assert stops[position] == stop;
    assert FindStop(stops, stop.id) == position;
    assert stops[..position] + stops[position + 1..] == r.stops;
  }

  // ---------------------------------------------------------------------------
  // Distances
  // ---------------------------------------------------------------------------

  ghost predicate NonDecreasing(stops: seq<Stop>) {
    forall i, j | 0 <= i <= j < |stops| :: stops[i].cumulative <= stops[j].cumulative
  }

  ghost predicate NonNegative(dist: Metric) {
    forall a, b :: dist(a, b) >= 0.0
  }

  lemma {:induction false} PrefixGrows(stops: seq<Stop>, dist: Metric, i: nat, j: nat)
    requires NonNegative(dist) && i <= j < |stops|
    ensures PrefixDistance(stops, dist, i) <= PrefixDistance(stops, dist, j)
    decreases j
  {
    if i < j { PrefixGrows(stops, dist, i, j - 1); }
  }

  /** With a non-negative metric and no distance supplied, cumulative distances are the
      non-decreasing prefix sums of the segments, starting at 0. */
  lemma CumulativeIsPrefixSums(stops: seq<Stop>, dist: Metric)
    requires NonNegative(dist) && !Provided(stops)
    ensures var c := WithCumulative(stops, dist);
            && |c| == |stops| && NonDecreasing(c)
            && (forall i | 0 <= i < |c| :: c[i] == stops[i].(cumulative := PrefixDistance(stops, dist, i)))
            && (stops != [] ==> c[0].cumulative == 0.0 && TotalDistance(c) == PrefixDistance(stops, dist, |stops| - 1))
  {
    var c := WithCumulative(stops, dist);
    forall i, j | 0 <= i <= j < |c|
      ensures c[i].cumulative <= c[j].cumulative
    {
      PrefixGrows(stops, dist, i, j);
    }
  }

  lemma {:induction false} PrefixSameLocations(a: seq<Stop>, b: seq<Stop>, dist: Metric, i: nat)
    requires |a| == |b| && i < |a| && forall k | 0 <= k < |a| :: a[k].location == b[k].location
    ensures PrefixDistance(a, dist, i) == PrefixDistance(b, dist, i)
  {
    if i > 0 { PrefixSameLocations(a, b, dist, i - 1); }
  }

  /** For any stops and any metric, calculating again changes nothing. */
  lemma CumulativeIsIdempotent(stops: seq<Stop>, dist: Metric)
    ensures WithCumulative(WithCumulative(stops, dist), dist) == WithCumulative(stops, dist)
  {
    if stops != [] {
      var c := WithCumulative(stops, dist);
      assert c[0].cumulative == 0.0;
      if Provided(c) {
        assert c[0 := c[0].(cumulative := 0.0)] == c;
      } else {
        forall i | 0 <= i < |stops|
          ensures WithCumulative(c, dist)[i] == c[i]
        {
          PrefixSameLocations(stops, c, dist, i);
        }
      }
    }
  }

  /** The first stop is the origin, and the distances were supplied or are the prefix sums. */
  ghost predicate Settled(stops: seq<Stop>, dist: Metric)
    requires stops != []
  {
    && stops[0].cumulative == 0.0
    && (Provided(stops) || forall i | 0 <= i < |stops| :: stops[i].cumulative == PrefixDistance(stops, dist, i))
  }

  lemma CalculatedIffSettled(stops: seq<Stop>, dist: Metric)
    requires stops != []
    ensures WithCumulative(stops, dist) == stops <==> Settled(stops, dist)
  {
    var c := WithCumulative(stops, dist);
    assert Provided(stops) ==> (c == stops <==> c[0] == stops[0]);
    if !Provided(stops) && Settled(stops, dist) {
      assert forall i | 0 <= i < |stops| :: c[i] == stops[i];
    }
  }

  /** Rehydrating a route, edited or not, always succeeds and drops its recorder; it keeps everything
      else if and only if the stops are settled. */
  lemma RehydrateKeepsIff(r: Route, dist: Metric)
    requires WellFormed(r)
    ensures Rehydrate(r, dist).err.None?
    ensures Rehydrate(r, dist).route == r.(recording := false, events := []) <==> Settled(r.stops, dist)
  {
    CalculatedIffSettled(r.stops, dist);
    hide WithCumulative, Settled;
  }

  /** A newly built route is settled, and so is a rehydrated one. */
  lemma NewAndRehydratedAreSettled(id: string, ops: seq<string>, stops: seq<Stop>, name: string, dir: int, kind: int,
                                   from: int, until: int, at: int, rec: bool, dist: Metric)
    requires NewRoute(id, ops, stops, name, dir, kind, from, until, at, rec, dist).err.None?
    ensures var r := NewRoute(id, ops, stops, name, dir, kind, from, until, at, rec, dist).route;
            && r.stops != [] && Settled(r.stops, dist)
            && Rehydrate(r, dist) == Accept(r.(recording := false, events := []))
  {
    CumulativeIsIdempotent(stops, dist);
    KeepsIds(stops, dist);
    CalculatedIffSettled(WithCumulative(stops, dist), dist);
    hide WithCumulative, Settled;
  }

  /** Removing the first stop of a route with supplied distances survives rehydration only if the
      second stop was at distance 0 too: otherwise the new first stop is moved there. */
  lemma RemovedFirstStopSettlesIff(r: Route, reason: string, now: int, dist: Metric)
    requires |r.stops| >= 3 && Provided(r.stops)
    ensures var stops := RemoveStop(r, r.stops[0].id, reason, now).route.stops;
            stops == r.stops[1..] && (WithCumulative(stops, dist) == stops <==> r.stops[1].cumulative == 0.0)
  {
    hide RemoveStop, WithCumulative, PrefixDistance, FindStop;
    RemoveFirst(r, reason, now);
    var rest := r.stops[1..];
    assert Provided(rest);
    CalculatedIffSettled(rest, dist);
  }

  lemma RemoveFirst(r: Route, reason: string, now: int)
    requires |r.stops| >= 3
    ensures RemoveStop(r, r.stops[0].id, reason, now).route.stops == r.stops[1..]
  {
    assert FindStop(r.stops, r.stops[0].id) == 0;
    assert r.stops[..0] + r.stops[1..] == r.stops[1..];
  }

  /** Appending a stop to a settled route with supplied distances survives rehydration exactly when
      the stop brings a distance of its own: otherwise all the supplied distances are discarded. */
  lemma AppendedStopSettlesIff(r: Route, stop: Stop, reason: string, now: int, dist: Metric)
    requires Provided(r.stops) && r.stops[0].cumulative == 0.0 && NonNegative(dist)
    ensures var stops := AddStop(r, stop, |r.stops|, reason, now).route.stops;
            stops == r.stops + [stop] && (WithCumulative(stops, dist) == stops <==> stop.cumulative > 0.0)
  {
    var n := |r.stops|;
    var stops := AddStop(r, stop, n, reason, now).route.stops;
    assert stops == r.stops[..n] + [stop] + r.stops[n..] == r.stops + [stop];
    CalculatedIffSettled(stops, dist);
    PrefixGrows(stops, dist, n - 1, n);
  }

  // A route of 300 metres loses its first stop: until it is loaded again the other two are 200
  // metres apart, and 300 from then on.
  const THREE_STOPS :=
    [Stop("a", "A", Geo(1.0, 1.0), 0.0), Stop("b", "B", Geo(1.0, 2.0), 100.0), Stop("c", "C", Geo(1.0, 3.0), 300.0)]

  lemma RehydrationMovesStops(dist: Metric)
    ensures var o := NewRoute("r", ["o"], THREE_STOPS, "Route", DIRECTION_BIDIRECTIONAL, TYPE_URBAN, 1, 2, 1, true,
                              dist);
            var edited := RemoveStop(o.route, "a", "", 1).route;
            && o.err.None? && DistanceBetween(edited.stops, 0, 1) == Some(200.0)
            && Rehydrate(edited, dist).err.None?
            && DistanceBetween(Rehydrate(edited, dist).route.stops, 0, 1) == Some(300.0)
  {
    var s := THREE_STOPS;
    assert WithCumulative(s, dist) == s;
    assert FindStop(s, "a") == 0;
    assert s[..0] + s[1..] == s[1..] == [s[1], s[2]];
  }

  /** Total length of the segments between stops `i` and `j`. */
  function SegmentSum(stops: seq<Stop>, dist: Metric, i: nat, j: nat): real
    requires i <= j < |stops|
  {
    if i == j then 0.0 else SegmentSum(stops, dist, i, j - 1) + dist(stops[j - 1].location, stops[j].location)
  }

  lemma {:induction false} PrefixDifference(stops: seq<Stop>, dist: Metric, i: nat, j: nat)
    requires i <= j < |stops|
    ensures PrefixDistance(stops, dist, j) - PrefixDistance(stops, dist, i) == SegmentSum(stops, dist, i, j)
    decreases j
  {
    if i < j { PrefixDifference(stops, dist, i, j - 1); }
  }

  /** On calculated stops the distance between two stops is the sum of the segments between them. */
  lemma DistanceIsSegmentSum(stops: seq<Stop>, dist: Metric, i: nat, j: nat)
    requires NonNegative(dist) && !Provided(stops) && i <= j < |stops|
    ensures DistanceBetween(WithCumulative(stops, dist), i, j) == Some(SegmentSum(stops, dist, i, j))
  {
    PrefixDifference(stops, dist, i, j);
    PrefixGrows(stops, dist, i, j);
  }

  lemma DistanceIsSymmetric(stops: seq<Stop>, i: int, j: int)
    ensures DistanceBetween(stops, i, j) == DistanceBetween(stops, j, i)
    ensures DistanceBetween(stops, i, j).None? <==> !(0 <= i < |stops| && 0 <= j < |stops|)
    ensures DistanceBetween(stops, i, j).Some? ==> DistanceBetween(stops, i, j).value >= 0.0
  {}

  /** Distances add up along the route exactly when the middle stop's cumulative distance lies
      between those of the ends, in either direction. */
  lemma DistanceAddsUpIff(stops: seq<Stop>, i: nat, j: nat, k: nat)
    requires i < |stops| && j < |stops| && k < |stops|
    ensures var a, b, c := stops[i].cumulative, stops[j].cumulative, stops[k].cumulative;
            DistanceBetween(stops, i, j).value + DistanceBetween(stops, j, k).value
              == DistanceBetween(stops, i, k).value
            <==> (a <= b <= c || c <= b <= a)
  {}

  predicate FitsAt(stops: seq<Stop>, stop: Stop, position: nat)
    requires position <= |stops|
  {
    && (position > 0 ==> stops[position - 1].cumulative <= stop.cumulative)
    && (position < |stops| ==> stop.cumulative <= stops[position].cumulative)
  }

  lemma InsertKeepsOrder(stops: seq<Stop>, stop: Stop, position: nat)
    requires NonDecreasing(stops) && position <= |stops| && FitsAt(stops, stop, position)
    ensures NonDecreasing(stops[..position] + [stop] + stops[position..])
  {
    var all := stops[..position] + [stop] + stops[position..];
    forall i, j | 0 <= i < j < |all|
      ensures all[i].cumulative <= all[j].cumulative
    {
      var i', j' := if i < position then i else i - 1, if j < position then j else j - 1;
      if i == position {
        assert stops[position].cumulative <= stops[j'].cumulative;
      } else if j == position {
        assert stops[i'].cumulative <= stops[position - 1].cumulative;
      } else {
        assert stops[i'].cumulative <= stops[j'].cumulative;
      }
    }
  }

  lemma InsertNeedsFit(stops: seq<Stop>, stop: Stop, position: nat)
    requires position <= |stops| && NonDecreasing(stops[..position] + [stop] + stops[position..])
    ensures FitsAt(stops, stop, position)
  {
    var all := stops[..position] + [stop] + stops[position..];
    assert all[position] == stop;
    if position > 0 { assert all[position - 1] == stops[position - 1]; }
    if position < |stops| { assert all[position + 1] == stops[position]; }
  }

  /** Edits do not recalculate: inserting a stop keeps the distances in order exactly when the new
      stop's own distance fits between its neighbours'. */
  lemma AddStopKeepsOrderIff(r: Route, stop: Stop, position: nat, reason: string, now: int)
    requires NonDecreasing(r.stops) && position <= |r.stops|
    ensures NonDecreasing(AddStop(r, stop, position, reason, now).route.stops) <==> FitsAt(r.stops, stop, position)
  {
    var all := AddStop(r, stop, position, reason, now).route.stops;
    hide NonDecreasing, FitsAt;
    if FitsAt(r.stops, stop, position) { InsertKeepsOrder(r.stops, stop, position); }
    if NonDecreasing(all) { InsertNeedsFit(r.stops, stop, position); }
  }

  lemma RemoveStopKeepsOrder(r: Route, id: string, reason: string, now: int)
    requires NonDecreasing(r.stops)
    ensures NonDecreasing(RemoveStop(r, id, reason, now).route.stops)
  {
    var new' := RemoveStop(r, id, reason, now).route.stops;
    if |new'| < |r.stops| {
      var d := FindStop(r.stops, id);
      forall i, j | 0 <= i <= j < |new'|
        ensures new'[i].cumulative <= new'[j].cumulative
      {
        var i', j' := if i < d then i else i + 1, if j < d then j else j + 1;
        assert r.stops[i'].cumulative <= r.stops[j'].cumulative;
      }
    }
  }
}
