/** Driving the proximity ladder from polled distances, and how tight the prompt budget is. */
module JourneyPolls {
  import opened Common
  import opened JourneyRules
  import opened JourneyRuns

  /** One poll: the proposed level, if any, is fed back for the active bus. */
  function Poll(j: Journey, meters: real, now: int): Outcome {
    match NextProximityLevel(j, meters)
    case None => Ok(j)
    case Some(level) => UpdateProximity(j, j.activeBusId, level, meters, now)
  }

  datatype Reading = Reading(meters: real, now: int)

  function PollAll(j: Journey, readings: seq<Reading>): Journey {
    if readings == [] then j else
      var r := readings[|readings| - 1];
      Poll(PollAll(j, readings[..|readings| - 1]), r.meters, r.now).journey
  }

  /** The highest level any reading calls for. */
  function Tightest(readings: seq<Reading>): int {
    if readings == [] then LEVEL_NONE else
      var rest, level := Tightest(readings[..|readings| - 1]), TargetLevel(readings[|readings| - 1].meters);
      if level > rest then level else rest
  }

  predicate OnTheLadder(j: Journey) {
    && LEVEL_NONE <= j.lastProximityLevel <= LEVEL_ARRIVED
    && (j.status == Tracking || (j.status == BoardingPrompt && j.lastProximityLevel == LEVEL_ARRIVED))
  }

  /** A poll never fails: a proposed level is always accepted, one step above the last; it prompts
      the user exactly when it reaches Arrived. */
  lemma PollIsAccepted(j: Journey, meters: real, now: int)
    requires OnTheLadder(j) && !IsExpired(j, now)
    ensures var o, k := Poll(j, meters, now), Poll(j, meters, now).journey;
            && o.err.None? && OnTheLadder(k)
            && k.lastProximityLevel - j.lastProximityLevel ==
                 (if j.status == Tracking && j.lastProximityLevel < TargetLevel(meters) then 1 else 0)
            && (k.status == BoardingPrompt <==>
                  || j.status == BoardingPrompt
                  || (j.lastProximityLevel < LEVEL_ARRIVED && k.lastProximityLevel == LEVEL_ARRIVED))
            && k.activeBusId == j.activeBusId && k.expirationTime == j.expirationTime
  {}

  /** Over any sequence of polls on an unexpired journey the level never falls, rises by at most one
      a poll, and never passes the higher of where it started and the tightest threshold seen. */
  lemma {:induction false} PollsClimbWithinReach(j: Journey, readings: seq<Reading>)
    requires OnTheLadder(j) && forall r | r in readings :: !IsExpired(j, r.now)
    ensures var k := PollAll(j, readings);
            && OnTheLadder(k) && k.expirationTime == j.expirationTime && k.activeBusId == j.activeBusId
            && j.lastProximityLevel <= k.lastProximityLevel <= j.lastProximityLevel + |readings|
            && (k.lastProximityLevel == j.lastProximityLevel || k.lastProximityLevel <= Tightest(readings))
            && (k.status == BoardingPrompt <==>
                  || j.status == BoardingPrompt
                  || (j.lastProximityLevel < LEVEL_ARRIVED && k.lastProximityLevel == LEVEL_ARRIVED))
    decreases |readings|
  {
    if readings != [] {
      var rest, r := readings[..|readings| - 1], readings[|readings| - 1];
      PollsClimbWithinReach(j, rest);
      PollIsAccepted(PollAll(j, rest), r.meters, r.now);
    }
  }

  /** With the bus within 50 metres throughout, `k` polls from level `l` reach min(3, l + k), and the
      user is prompted as soon as a poll reaches Arrived. */
  lemma {:induction false} NearbyBusArrives(j: Journey, readings: seq<Reading>)
    requires j.status == Tracking && LEVEL_NONE <= j.lastProximityLevel <= LEVEL_ARRIVED
    requires forall r | r in readings :: !IsExpired(j, r.now) && r.meters <= 50.0
    ensures var k, l := PollAll(j, readings), j.lastProximityLevel + |readings|;
            && k.lastProximityLevel == (if l < LEVEL_ARRIVED then l else LEVEL_ARRIVED)
            && (k.status == BoardingPrompt <==> j.lastProximityLevel < LEVEL_ARRIVED <= l)
    decreases |readings|
  {
    if readings != [] {
      var rest, r := readings[..|readings| - 1], readings[|readings| - 1];
      NearbyBusArrives(j, rest);
      PollsClimbWithinReach(j, rest);
      PollIsAccepted(PollAll(j, rest), r.meters, r.now);
    }
  }

  // ---------------------------------------------------------------------------
  // The prompt budget is attained
  // ---------------------------------------------------------------------------

  /** Tracking `bus` from scratch after `declines` refusals. */
  predicate Ready(j: Journey, bus: string, declines: nat) {
    && j.status == Tracking && j.lastProximityLevel == LEVEL_NONE && j.activeBusId == bus && j.declineCount == declines
    && !IsExpired(j, 0) && Recommends(j.recommendedBuses, "A") && Recommends(j.recommendedBuses, "B")
  }

  function Climb(bus: string): Run {
    [Call(DoUpdateProximity(bus, 1, 500.0), 0), Call(DoUpdateProximity(bus, 2, 100.0), 0),
     Call(DoUpdateProximity(bus, 3, 50.0), 0)]
  }

  function Refusals(bus: string, k: nat): Run {
    if k == 0 then [] else Refusals(bus, k - 1) + Climb(bus) + [Call(DoDecline, 0)]
  }

  function BusFor(s: nat): string { if s % 2 == 0 then "A" else "B" }

  function Exhaust(recs: seq<Recommendation>, s: nat): Run {
    (if s == 0 then [Call(DoInitializeTracking(recs, HOUR, 0), 0)]
     else Exhaust(recs, s - 1) + [Call(DoSwitchBus(BusFor(s), 1), 0)]) + Refusals(BusFor(s), MAX_DECLINES)
  }

  lemma Extend(j: Journey, run: Run, call: Call)
    ensures After(j, run + [call]) == Apply(After(j, run), call.command, call.now).journey
    ensures TallyOf(j, run + [call]) == Count(TallyOf(j, run), After(j, run), call)
  {
    assert Before(run + [call]) == run;
  }

  lemma ClimbPrompts(j: Journey, run: Run, bus: string, declines: nat)
    requires Ready(After(j, run), bus, declines)
    ensures var k, t := After(j, run), TallyOf(j, run);
            && After(j, run + Climb(bus)).status == BoardingPrompt
            && After(j, run + Climb(bus)).(status := Tracking, lastProximityLevel := 0,
                                               boardingWindowStartedAt := None, events := [])
                 == k.(boardingWindowStartedAt := None, events := [])
            && TallyOf(j, run + Climb(bus)) == t.(prompts := t.prompts + 1)
  {
    hide After, TallyOf;
    var c := Climb(bus);
    Extend(j, run, c[0]);
    Extend(j, run + [c[0]], c[1]);
    Extend(j, run + [c[0]] + [c[1]], c[2]);
    assert run + [c[0]] + [c[1]] + [c[2]] == run + c;
  }

  lemma RefusePrompts(j: Journey, run: Run, bus: string, declines: nat)
    requires Ready(After(j, run), bus, declines) && declines < MAX_DECLINES
    ensures var r, t := run + Climb(bus) + [Call(DoDecline, 0)], TallyOf(j, run);
            && Ready(After(j, r), bus, declines + 1)
            && TallyOf(j, r) == t.(prompts := t.prompts + 1, declines := t.declines + 1)
  {
    hide After, TallyOf;
    ClimbPrompts(j, run, bus, declines);
    Extend(j, run + Climb(bus), Call(DoDecline, 0));
  }

  lemma {:induction false} RefusalsSpend(j: Journey, run: Run, bus: string, k: nat)
    requires Ready(After(j, run), bus, 0) && k <= MAX_DECLINES
    ensures var r, t := run + Refusals(bus, k), TallyOf(j, run);
            && Ready(After(j, r), bus, k)
            && TallyOf(j, r) == t.(prompts := t.prompts + k, declines := t.declines + k)
    decreases k
  {
    hide After, TallyOf, Ready, Climb;
    if k == 0 {
      assert run + Refusals(bus, 0) == run;
    } else {
      RefusalsSpend(j, run, bus, k - 1);
      RefusePrompts(j, run + Refusals(bus, k - 1), bus, k - 1);
      assert run + Refusals(bus, k - 1) + Climb(bus) + [Call(DoDecline, 0)] == run + Refusals(bus, k);
    }
  }

  lemma StartReady(j: Journey, recs: seq<Recommendation>)
    requires j.status == Searching && j.createdAt == 0 && j.declineCount == 0 && j.lastProximityLevel == LEVEL_NONE
    requires recs != [] && recs[0].busId == "A" && Recommends(recs, "B")
    ensures var run := [Call(DoInitializeTracking(recs, HOUR, 0), 0)];
            Ready(After(j, run), "A", 0) && TallyOf(j, run) == Tally(1, 0, 0, 0, 0)
  {
    var call := Call(DoInitializeTracking(recs, HOUR, 0), 0);
    Extend(j, [], call);
    assert [] + [call] == [call];
    assert Recommends(recs, "A");
  }

  lemma SwitchReady(j: Journey, run: Run, bus: string, next: string)
    requires Ready(After(j, run), bus, MAX_DECLINES) && bus != next && (next == "A" || next == "B")
    ensures var r := run + [Call(DoSwitchBus(next, 1), 0)];
            Ready(After(j, r), next, 0) && TallyOf(j, r) == TallyOf(j, run).(switches := TallyOf(j, run).switches + 1)
  {
    hide After, TallyOf;
    Extend(j, run, Call(DoSwitchBus(next, 1), 0));
  }

  lemma {:induction false} ExhaustSpends(j: Journey, recs: seq<Recommendation>, s: nat)
    requires j.status == Searching && j.createdAt == 0 && j.declineCount == 0 && j.lastProximityLevel == LEVEL_NONE
    requires recs != [] && recs[0].busId == "A" && Recommends(recs, "B")
    ensures var t := TallyOf(j, Exhaust(recs, s));
            && Ready(After(j, Exhaust(recs, s)), BusFor(s), MAX_DECLINES)
            && t.inits == 1 && t.switches == s && t.prompts == MAX_DECLINES * (s + 1)
    decreases s
  {
    hide After, TallyOf, Ready, Refusals;
    if s == 0 {
      StartReady(j, recs);
      RefusalsSpend(j, [Call(DoInitializeTracking(recs, HOUR, 0), 0)], "A", MAX_DECLINES);
    } else {
      ExhaustSpends(j, recs, s - 1);
      assert BusFor(s)[0] != BusFor(s - 1)[0];
      SwitchReady(j, Exhaust(recs, s - 1), BusFor(s - 1), BusFor(s));
      RefusalsSpend(j, Exhaust(recs, s - 1) + [Call(DoSwitchBus(BusFor(s), 1), 0)], BusFor(s), MAX_DECLINES);
    }
  }

  /** For every number S of bus changes some run of a new journey is prompted 5 * (S + 1) + 1 times
      with a single successful InitializeTracking, so the bound of PromptsAreBounded is exact. */
  lemma BudgetIsAttained(j: Journey, a: Recommendation, b: Recommendation, s: nat)
    requires IsNew(j) && j.createdAt == 0 && a.busId == "A" && b.busId == "B"
    ensures var t := TallyOf(j, Exhaust([a, b], s) + Climb(BusFor(s)));
            t.inits == 1 && t.switches == s && t.prompts == 5 * (s + 1) + 1
  {
    assert [a, b][1].busId == "B";
    ExhaustSpends(j, [a, b], s);
    ClimbPrompts(j, Exhaust([a, b], s), BusFor(s), MAX_DECLINES);
  }
}
