/** The Route object: edits replace or shift its stop list and append events, and the cumulative
    distances are written stop by stop.  Each edit takes the step of RouteRules that its entry in
    `calls` names, so `Valid` carries the laws of the event log over to the object. */
module RouteAggregates {
  import opened Common
  import opened Rules = RouteRules
  import opened RouteLaws

  class RouteAggregate {
    const routeId: string
    const operatorIds: seq<string>
    var stops: seq<Stop>
    var name: string
    const direction: int
    var routeType: int
    var avgDetourRate: real
    var status: int
    var activeFrom: int
    var activeUntil: int
    const version: int
    const createdAt: int
    const updatedAt: int
    const recording: bool        // whether an event recorder was given
    var events: seq<RouteEvent>
    ghost const start: Route     // as built
    ghost var calls: seq<Call>   // the edits since

    ghost function View(): Route
      reads this
    {
      Route(routeId, operatorIds, stops, name, direction, routeType, avgDetourRate, status, activeFrom, activeUntil,
            version, createdAt, updatedAt, recording, events)
    }

    ghost predicate Valid()
      reads this
    {
      Faithful(start) && View() == After(start, calls)
    }

    /** NewRoute once its arguments are validated: distances first, then the RouteCreated event. */
    constructor Build(routeId: string, operatorIds: seq<string>, stops: seq<Stop>, name: string, direction: int,
                      routeType: int, activeFrom: int, activeUntil: int, createdAt: int, recording: bool, dist: Metric)
      requires NewRoute(routeId, operatorIds, stops, name, direction, routeType, activeFrom, activeUntil, createdAt,
                        recording, dist).err.None?
      ensures Accept(View()) == NewRoute(routeId, operatorIds, stops, name, direction, routeType, activeFrom,
                                         activeUntil, createdAt, recording, dist)
      ensures Valid() && start == View() && calls == []
    {
      this.routeId, this.operatorIds, this.stops, this.name := routeId, operatorIds, stops, name;
      this.direction, this.routeType, this.status := direction, routeType, STATUS_ACTIVE;
      this.activeFrom, this.activeUntil := activeFrom, activeUntil;
      this.version, this.createdAt, this.updatedAt, this.recording := 1, createdAt, createdAt, recording;
      this.avgDetourRate, this.events := 0.0, [];
      start := NewRoute(routeId, operatorIds, stops, name, direction, routeType, activeFrom, activeUntil, createdAt,
                        recording, dist).route;
      calls := [];
      new;
      NewArgumentsFaithful(routeId, operatorIds, stops, name, direction, routeType, activeFrom, activeUntil, createdAt,
                           recording, dist);
      hide Faithful, WithCumulative;
      SetRouteCharacteristics(routeType);
      CalculateCumulativeDistances(dist);
      if recording {
        KeepsIds(stops, dist);
        var ids := CollectStopIds(stops);
        events := [RouteCreated(routeId, operatorIds, name, ids, direction, routeType, activeFrom, activeUntil,
                                createdAt)];
      }
    }

    /** Whatever edits the object was given, accepted or rejected: at least two stops, valid fields,
        and, with a recorder, a log that folds to what the object now is. */
    lemma PastIsTold()
      requires Valid()
      ensures Faithful(View()) && recording == start.recording
    {
      EditsKeepFaithful(start, calls);
    }

    /** The edit that a method is about to carry out. */
    ghost method Begin(edit: Edit, reason: string, now: int)
      requires Valid()
      modifies `calls
      ensures calls == old(calls) + [Call(edit, reason, now)] && Faithful(start)
      ensures After(start, calls) == Apply(View(), Call(edit, reason, now)).route
    {
      hide Faithful, Apply;
      calls := calls + [Call(edit, reason, now)];
      assert calls[..|calls| - 1] == old(calls);
    }

    method SetRouteCharacteristics(routeType: int)
      modifies `avgDetourRate
      ensures avgDetourRate == DetourRate(routeType)
    {
      if routeType == TYPE_URBAN {
        avgDetourRate := 1.4;
      } else if routeType == TYPE_HIGHWAY {
        avgDetourRate := 1.2;
      } else {
        avgDetourRate := 1.3;
      }
    }

    method CalculateCumulativeDistances(dist: Metric)
      modifies `stops
      ensures stops == WithCumulative(old(stops), dist)
    {
      if |stops| == 0 { return; }
      ghost var was := stops;
      stops := stops[0 := stops[0].(cumulative := 0.0)];
      if |stops| > 1 && stops[|stops| - 1].cumulative > 0.0 { return; }
      var i := 1;
      while i < |stops|
        invariant 1 <= i <= |stops| == |was|
        invariant forall k | 0 <= k < i :: stops[k] == was[k].(cumulative := PrefixDistance(was, dist, k))
        invariant forall k | i <= k < |was| :: stops[k] == was[k]
      {
        var segment := dist(stops[i - 1].location, stops[i].location);
        stops := stops[i := stops[i].(cumulative := stops[i - 1].cumulative + segment)];
        i := i + 1;
      }
    }

    method Note(e: RouteEvent)
      modifies `events
      ensures events == if recording then old(events) + [e] else old(events)
    {
      if recording { events := events + [e]; }
    }

    method ChangeStatus(newStatus: int, reason: string, now: int) returns (err: Option<RouteError>)
      requires Valid()
      modifies this
      ensures Outcome(View(), err) == Rules.ChangeStatus(old(View()), newStatus, reason, now)
      ensures Valid() && calls == old(calls) + [Call(DoChangeStatus(newStatus), reason, now)]
    {
      hide Faithful, After;
      Begin(DoChangeStatus(newStatus), reason, now);
      if status == newStatus { return None; }
      var oldStatus := status;
      status := newStatus;
      Note(RouteStatusChanged(oldStatus, newStatus, reason, now));
      return None;
    }

    method UpdateStops(newStops: seq<Stop>, reason: string, now: int) returns (err: Option<RouteError>)
      requires Valid()
      modifies this
      ensures Outcome(View(), err) == Rules.UpdateStops(old(View()), newStops, reason, now)
      ensures Valid() && calls == old(calls) + [Call(DoUpdateStops(newStops), reason, now)]
    {
      hide Faithful, After;
      Begin(DoUpdateStops(newStops), reason, now);
      if |newStops| < 2 { return Some(ErrInsufficientStops); }
      var oldStops := stops;
      stops := newStops;
      var oldIds := CollectStopIds(oldStops);
      var newIds := CollectStopIds(newStops);
      Note(RouteStopsUpdated(oldIds, newIds, reason, now));
      return None;
    }

    method ChangeRouteType(newType: int, reason: string, now: int) returns (err: Option<RouteError>)
      requires Valid()
      modifies this
      ensures Outcome(View(), err) == Rules.ChangeRouteType(old(View()), newType, reason, now)
      ensures Valid() && calls == old(calls) + [Call(DoChangeRouteType(newType), reason, now)]
    {
      hide Faithful, After;
      Begin(DoChangeRouteType(newType), reason, now);
      if routeType == newType { return None; }
      if newType != TYPE_URBAN && newType != TYPE_HIGHWAY && newType != TYPE_MIXED { return Some(ErrInvalidRouteType); }
      var oldType := routeType;
      routeType := newType;
      SetRouteCharacteristics(newType);
      Note(RouteTypeChanged(oldType, newType, reason, now));
      return None;
    }

    method ChangeActivePeriod(from: int, until: int, reason: string, now: int) returns (err: Option<RouteError>)
      requires Valid()
      modifies this
      ensures Outcome(View(), err) == Rules.ChangeActivePeriod(old(View()), from, until, reason, now)
      ensures Valid() && calls == old(calls) + [Call(DoChangeActivePeriod(from, until), reason, now)]
    {
      hide Faithful, After;
      Begin(DoChangeActivePeriod(from, until), reason, now);
      if activeFrom == from && activeUntil == until { return None; }
      if from == ZERO_TIME || until == ZERO_TIME || until <= from { return Some(ErrInvalidActivePeriod); }
      var oldFrom, oldUntil := activeFrom, activeUntil;
      activeFrom := from;
      activeUntil := until;
      Note(RouteActivePeriodChanged(oldFrom, oldUntil, from, until, reason, now));
      return None;
    }

    method ChangeName(newName: string, reason: string, now: int) returns (err: Option<RouteError>)
      requires Valid()
      modifies this
      ensures Outcome(View(), err) == Rules.ChangeName(old(View()), newName, reason, now)
      ensures Valid() && calls == old(calls) + [Call(DoChangeName(newName), reason, now)]
    {
      hide Faithful, After;
      Begin(DoChangeName(newName), reason, now);
      if name == newName { return None; }
      if newName == "" { return Some(ErrRouteNameRequired); }
      var oldName := name;
      name := newName;
      Note(RouteNameChanged(oldName, newName, reason, now));
      return None;
    }

    method AddStop(newStop: Stop, position: int, reason: string, now: int) returns (err: Option<RouteError>)
      requires Valid()
      modifies this
      ensures Outcome(View(), err) == Rules.AddStop(old(View()), newStop, position, reason, now)
      ensures Valid() && calls == old(calls) + [Call(DoAddStop(newStop, position), reason, now)]
    {
      hide Faithful, After;
      Begin(DoAddStop(newStop, position), reason, now);
      if position < 0 || position > |stops| { return Some(ErrInvalidPosition); }
      var oldIds := CollectStopIds(stops);
      stops := stops[..position] + [newStop] + stops[position..];
      var newIds := CollectStopIds(stops);
      Note(RouteStopsUpdated(oldIds, newIds, "Added stop " + newStop.id + ": " + reason, now));
      return None;
    }

    method RemoveStop(stopId: string, reason: string, now: int) returns (err: Option<RouteError>)
      requires Valid()
      modifies this
      ensures Outcome(View(), err) == Rules.RemoveStop(old(View()), stopId, reason, now)
      ensures Valid() && calls == old(calls) + [Call(DoRemoveStop(stopId), reason, now)]
    {
      hide Faithful, After;
      Begin(DoRemoveStop(stopId), reason, now);
      var index := FindStopIndex(stopId);
      if index == -1 { return Some(ErrStopNotFound); }
      if |stops| <= 2 { return Some(ErrInsufficientStops); }
      var oldIds := CollectStopIds(stops);
      stops := stops[..index] + stops[index + 1..];
      var newIds := CollectStopIds(stops);
      Note(RouteStopsUpdated(oldIds, newIds, "Removed stop " + stopId + ": " + reason, now));
      return None;
    }

    method FindStopIndex(stopId: string) returns (index: int)
      ensures index == FindStop(stops, stopId)
    {
      for i := 0 to |stops|
        invariant forall k | 0 <= k < i :: stops[k].id != stopId
      {
        if stops[i].id == stopId { return i; }
      }
      return -1;
    }

    method DistanceBetweenStopIndices(from: int, to: int) returns (d: real, err: Option<RouteError>)
      ensures if DistanceBetween(stops, from, to).Some? then d == DistanceBetween(stops, from, to).value && err.None?
              else d == 0.0 && err == Some(ErrInvalidStopIndex)
    {
      if from < 0 || from >= |stops| || to < 0 || to >= |stops| { return 0.0, Some(ErrInvalidStopIndex); }
      var diff := stops[to].cumulative - stops[from].cumulative;
      if diff < 0.0 {
        diff := -diff;
      }
      return diff, None;
    }

    /** One edit, as a command handler makes it. */
    method Perform(c: Call) returns (err: Option<RouteError>)
      requires Valid()
      modifies this
      ensures Outcome(View(), err) == Apply(old(View()), c)
      ensures Valid() && calls == old(calls) + [c]
    {
      hide Faithful, After;
      match c.edit {
        case DoChangeStatus(s) => err := ChangeStatus(s, c.reason, c.now);
        case DoUpdateStops(newStops) => err := UpdateStops(newStops, c.reason, c.now);
        case DoChangeRouteType(t) => err := ChangeRouteType(t, c.reason, c.now);
        case DoChangeActivePeriod(from, until) => err := ChangeActivePeriod(from, until, c.reason, c.now);
        case DoChangeName(n) => err := ChangeName(n, c.reason, c.now);
        case DoAddStop(stop, position) => err := AddStop(stop, position, c.reason, c.now);
        case DoRemoveStop(id) => err := RemoveStop(id, c.reason, c.now);
      }
    }
  }

  /** NewRoute: the checks in the code's order, then the object. */
  method Create(routeId: string, operatorIds: seq<string>, stops: seq<Stop>, name: string, direction: int,
                routeType: int, activeFrom: int, activeUntil: int, createdAt: int, recording: bool, dist: Metric)
    returns (route: RouteAggregate?, err: Option<RouteError>)
    ensures var o := NewRoute(routeId, operatorIds, stops, name, direction, routeType, activeFrom, activeUntil,
                              createdAt, recording, dist);
            && err == o.err && (route != null <==> err.None?)
            && (route != null ==> fresh(route) && route.Valid() && route.View() == o.route && route.calls == [])
  {
    hide Faithful, WithCumulative;
    if routeId == "" { return null, Some(ErrRouteIdRequired); }
    if |operatorIds| == 0 { return null, Some(ErrOperatorIdRequired); }
    if name == "" { return null, Some(ErrRouteNameRequired); }
    if |stops| < 2 { return null, Some(ErrInsufficientStops); }
    if direction != DIRECTION_BIDIRECTIONAL && direction != DIRECTION_UNIDIRECTIONAL {
      return null, Some(ErrInvalidRouteDirection);
    }
    if routeType != TYPE_URBAN && routeType != TYPE_HIGHWAY && routeType != TYPE_MIXED {
      return null, Some(ErrInvalidRouteType);
    }
    if activeFrom == ZERO_TIME || activeUntil == ZERO_TIME || !(activeUntil > activeFrom) {
      return null, Some(ErrInvalidActivePeriod);
    }
    route := new RouteAggregate.Build(routeId, operatorIds, stops, name, direction, routeType, activeFrom, activeUntil,
                                      createdAt, recording, dist);
    err := None;
  }

  method CollectStopIds(stops: seq<Stop>) returns (ids: seq<string>)
    ensures ids == StopIds(stops)
  {
    ids := [];
    for i := 0 to |stops|
      invariant ids == StopIds(stops[..i])
    {
      ids := ids + [stops[i].id];
      assert stops[..i + 1] == stops[..i] + [stops[i]];
    }
    assert stops[..|stops|] == stops;
  }
}
