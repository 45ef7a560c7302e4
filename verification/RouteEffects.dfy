/** What each route edit does: when it is refused and with which error, the one value an accepted edit
    changes, and the one event that records the change. */
module RouteEffects {
  import opened Common
  import opened RouteRules

  /** `r` but for its log. */
  predicate SameButLog(r: Route, k: Route) {
    k.(events := r.events) == r
  }

  /** Exactly one event was recorded if anything changed and the route has a recorder, none otherwise. */
  predicate Recorded(r: Route, k: Route, changed: bool, e: RouteEvent) {
    k.events == if changed && r.recording then r.events + [e] else r.events
  }

  function Ids(stops: seq<Stop>): (ids: seq<string>)
    ensures |ids| == |stops| && forall i | 0 <= i < |stops| :: ids[i] == stops[i].id
  {
    StopIds(stops)
  }

  /** Any status is accepted and taken. */
  lemma ChangeStatusDoes(r: Route, c: Call)
    requires c.edit.DoChangeStatus?
    ensures var o := Apply(r, c);
            && o.err.None? && SameButLog(r.(status := c.edit.status), o.route)
            && Recorded(r, o.route, r.status != c.edit.status,
                        RouteStatusChanged(r.status, c.edit.status, c.reason, c.now))
  {}

  /** At least two stops are needed; they replace the old ones as given, and are always recorded. */
  lemma UpdateStopsDoes(r: Route, c: Call)
    requires c.edit.DoUpdateStops?
    ensures var o, stops := Apply(r, c), c.edit.stops;
            && o.err == (if |stops| >= 2 then None else Some(ErrInsufficientStops))
            && SameButLog(if o.err.None? then r.(stops := stops) else r, o.route)
            && Recorded(r, o.route, o.err.None?, RouteStopsUpdated(Ids(r.stops), Ids(stops), c.reason, c.now))
  {}

  /** The types are 0, 1 and 2, urban, highway and mixed, with detour rates 1.4, 1.2 and 1.3; the type
      the route already has is accepted whatever it is. */
  lemma ChangeRouteTypeDoes(r: Route, c: Call)
    requires c.edit.DoChangeRouteType?
    ensures var o, t := Apply(r, c), c.edit.routeType;
            var rate := if t == 0 then 1.4 else if t == 1 then 1.2 else 1.3;
            && o.err == (if t == r.routeType || 0 <= t <= 2 then None else Some(ErrInvalidRouteType))
            && SameButLog(if o.err.Some? || t == r.routeType then r else r.(routeType := t, avgDetourRate := rate),
                          o.route)
            && Recorded(r, o.route, o.err.None? && t != r.routeType, RouteTypeChanged(r.routeType, t, c.reason, c.now))
  {}

  /** Both ends must be set and in order, unless the period is the route's own. */
  lemma ChangeActivePeriodDoes(r: Route, c: Call)
    requires c.edit.DoChangeActivePeriod?
    ensures var o, from, until := Apply(r, c), c.edit.from, c.edit.until;
            var same := from == r.activeFrom && until == r.activeUntil;
            && o.err == (if same || (from != ZERO_TIME && until != ZERO_TIME && from < until) then None
                         else Some(ErrInvalidActivePeriod))
            && SameButLog(if o.err.None? then r.(activeFrom := from, activeUntil := until) else r, o.route)
            && Recorded(r, o.route, o.err.None? && !same,
                        RouteActivePeriodChanged(r.activeFrom, r.activeUntil, from, until, c.reason, c.now))
  {}

  /** A new name must not be empty. */
  lemma ChangeNameDoes(r: Route, c: Call)
    requires c.edit.DoChangeName?
    ensures var o, name := Apply(r, c), c.edit.name;
            && o.err == (if name == r.name || name != "" then None else Some(ErrRouteNameRequired))
            && SameButLog(if o.err.None? then r.(name := name) else r, o.route)
            && Recorded(r, o.route, o.err.None? && name != r.name, RouteNameChanged(r.name, name, c.reason, c.now))
  {}

  /** A stop may be put anywhere up to the end; the stops before it stay and those after it move up. */
  lemma AddStopDoes(r: Route, c: Call)
    requires c.edit.DoAddStop?
    ensures var o, at, stops := Apply(r, c), c.edit.position, Apply(r, c).route.stops;
            && o.err == (if 0 <= at <= |r.stops| then None else Some(ErrInvalidPosition))
            && SameButLog(r, o.route.(stops := r.stops))
            && (o.err.Some? ==> stops == r.stops)
            && (o.err.None? ==> |stops| == |r.stops| + 1 && stops[at] == c.edit.stop
                                && (forall i | 0 <= i < at :: stops[i] == r.stops[i])
                                && (forall i | at <= i < |r.stops| :: stops[i + 1] == r.stops[i]))
            && Recorded(r, o.route, o.err.None?,
                        RouteStopsUpdated(Ids(r.stops), Ids(stops), "Added stop " + c.edit.stop.id + ": " + c.reason,
                                          c.now))
  {}

  /** The first stop with the id goes, if there is one and two remain. */
  lemma RemoveStopDoes(r: Route, c: Call)
    requires c.edit.DoRemoveStop?
    ensures var o, id, stops := Apply(r, c), c.edit.id, Apply(r, c).route.stops;
            && (o.err == Some(ErrStopNotFound) <==> forall i | 0 <= i < |r.stops| :: r.stops[i].id != id)
            && (o.err == Some(ErrInsufficientStops) <==>
                  |r.stops| <= 2 && exists i :: 0 <= i < |r.stops| && r.stops[i].id == id)
            && (o.err.None? <==> |r.stops| > 2 && exists i :: 0 <= i < |r.stops| && r.stops[i].id == id)
            && SameButLog(r, o.route.(stops := r.stops))
            && (o.err.Some? ==> stops == r.stops)
            && (o.err.None? ==> Removed(r.stops, stops, id))
            && Recorded(r, o.route, o.err.None?,
                        RouteStopsUpdated(Ids(r.stops), Ids(stops), "Removed stop " + id + ": " + c.reason, c.now))
  {
    var i := FindStop(r.stops, c.edit.id);
    if i != -1 && |r.stops| > 2 {
      var stops := Apply(r, c).route.stops;
      assert forall k | i <= k < |stops| :: stops[k] == r.stops[k + 1];
      assert RemovedAt(r.stops, stops, c.edit.id, i);
    }
  }

  predicate RemovedAt(was: seq<Stop>, stops: seq<Stop>, id: string, d: int) {
    && 0 <= d < |was| == |stops| + 1 && was[d].id == id
    && (forall k | 0 <= k < d :: was[k].id != id && stops[k] == was[k])
    && (forall k | d <= k < |stops| :: stops[k] == was[k + 1])
  }

  ghost predicate Removed(was: seq<Stop>, stops: seq<Stop>, id: string) {
    exists d :: RemovedAt(was, stops, id, d)
  }

  /** A new route is active at version 1 with the rate of its type, and is created exactly when its
      fields are there, it has at least two stops, and direction, type and period are valid. */
  lemma NewRouteDoes(id: string, ops: seq<string>, stops: seq<Stop>, name: string, dir: int, kind: int, from: int,
                     until: int, at: int, rec: bool, dist: Metric)
    ensures var o := NewRoute(id, ops, stops, name, dir, kind, from, until, at, rec, dist);
            var rate := if kind == 0 then 1.4 else if kind == 1 then 1.2 else 1.3;
            && o.err == (if id == "" then Some(ErrRouteIdRequired)
                         else if ops == [] then Some(ErrOperatorIdRequired)
                         else if name == "" then Some(ErrRouteNameRequired)
                         else if |stops| < 2 then Some(ErrInsufficientStops)
                         else if dir != 2 && dir != 3 then Some(ErrInvalidRouteDirection)
                         else if !(0 <= kind <= 2) then Some(ErrInvalidRouteType)
                         else if from == ZERO_TIME || until == ZERO_TIME || until <= from then
                           Some(ErrInvalidActivePeriod)
                         else None)
            && (o.err.None? ==>
                  o.route == Route(id, ops, o.route.stops, name, dir, kind, rate, 0, from, until, 1, at, at, rec,
                                   if rec then [RouteCreated(id, ops, name, Ids(stops), dir, kind, from, until, at)]
                                   else []))
  {
    hide WithCumulative;
  }

  /** A stored route is rebuilt with its status, version and times, its distances calculated again, and
      without a recorder or a log. */
  lemma RehydrateDoes(r: Route, dist: Metric)
    requires Rehydrate(r, dist).err.None?
    ensures var k := Rehydrate(r, dist).route;
            var rate := if r.routeType == 0 then 1.4 else if r.routeType == 1 then 1.2 else 1.3;
            k == r.(stops := WithCumulative(r.stops, dist), avgDetourRate := rate, recording := false, events := [],
                    version := if r.version > 0 then r.version else 1)
  {
    hide WithCumulative;
  }

  /** Supplied distances are kept, with the first stop moved to 0; they count as supplied if the last of
      at least two stops lies at a positive distance. */
  lemma SuppliedDistancesStay(stops: seq<Stop>, dist: Metric)
    requires |stops| >= 2 && stops[|stops| - 1].cumulative > 0.0
    ensures var c := WithCumulative(stops, dist);
            |c| == |stops| && c[0] == stops[0].(cumulative := 0.0) && forall i | 1 <= i < |c| :: c[i] == stops[i]
  {}

  /** Otherwise each stop lies one segment behind the one before it, the first at 0. */
  lemma CalculatedStepByStep(stops: seq<Stop>, dist: Metric)
    requires stops != [] && !(|stops| >= 2 && stops[|stops| - 1].cumulative > 0.0)
    ensures var c := WithCumulative(stops, dist);
            && |c| == |stops| && c[0] == stops[0].(cumulative := 0.0)
            && forall i | 1 <= i < |c| ::
                 c[i] == stops[i].(cumulative := c[i - 1].cumulative + dist(stops[i - 1].location, stops[i].location))
  {}

  /** The distance between two stops is the absolute difference of theirs; the total is the last one's. */
  lemma DistancesAre(stops: seq<Stop>, i: int, j: int)
    ensures if 0 <= i < |stops| && 0 <= j < |stops| then
              var a, b := stops[i].cumulative, stops[j].cumulative;
              DistanceBetween(stops, i, j) == Some(if a < b then b - a else a - b)
            else DistanceBetween(stops, i, j) == None
    ensures TotalDistance(stops) == if stops == [] then 0.0 else stops[|stops| - 1].cumulative
  {}
}
