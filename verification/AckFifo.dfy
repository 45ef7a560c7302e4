/** With strictly increasing registration times the manager is a FIFO of slots.

    `FifoReplay` interprets the same history on a plain list: registration appends (dropping
    the head of a full list), a decision edits its slot in place, and a flush or a sweep drops
    a prefix.  `RefinesFifo` shows that the map, the two counters and the gap skipping of the
    manager compute exactly that list.
 */
module AckFifo {
  import opened Common
  import opened AckOrdering
  import opened AckSafety

  /** Length of the longest prefix of `slots` whose elements all satisfy `p`. */
  function Leading(slots: seq<PendingAck>, p: PendingAck -> bool): (k: nat)
    ensures k <= |slots| && (forall i | 0 <= i < k :: p(slots[i])) && (k < |slots| ==> !p(slots[k]))
  {
    if slots != [] && p(slots[0]) then 1 + Leading(slots[1..], p) else 0
  }

  function Decide(slots: seq<PendingAck>, f: PendingAck -> PendingAck): seq<PendingAck> {
    seq(|slots|, i requires 0 <= i < |slots| => f(slots[i]))
  }

  function Completer(n: nat, d: AckDecision, now: int): PendingAck -> PendingAck {
    (p: PendingAck) => if p.recvSeq == n then p.(decision := d, completed := true, completeAt := now) else p
  }

  function Resolver(n: nat): PendingAck -> PendingAck {
    (p: PendingAck) => if p.recvSeq == n && p.completed && p.decision == Retry then p.(decision := ACK) else p
  }

  function Stale(cutoff: int): PendingAck -> bool {
    (p: PendingAck) => p.registerAt < cutoff
  }

  function FifoStep(cfg: Config, slots: seq<PendingAck>, e: Entry): seq<PendingAck> {
    match e
    case Registered(n, ackFn, now, _) =>
      (if slots != [] && |slots| >= cfg.maxPendingSize then slots[1..] else slots) + [FreshEntry(n, ackFn, now)]
    case RegisterRefused => slots
    case Completed(n, d, now, _) => Decide(slots, Completer(n, d, now))
    case RetryResolved(n, _) => Decide(slots, Resolver(n))
    case Flushed(_) => slots[Leading(slots, Sendable)..]
    case Swept(now, _) => slots[Leading(slots, Stale(now - cfg.pendingTimeout))..]
    case Halted => []
  }

  function FifoReplay(cfg: Config, h: History): seq<PendingAck> {
    if h == [] then [] else FifoStep(cfg, FifoReplay(cfg, Before(h)), Last(h))
  }

  function LastRegistration(h: History): Option<int> {
    if h == [] then None else
    if Last(h).Registered? then Some(Last(h).now) else LastRegistration(Before(h))
  }

  ghost predicate IncreasingClock(h: History) {
    h == [] || (IncreasingClock(Before(h)) &&
      (Last(h).Registered? && LastRegistration(Before(h)).Some? ==>
         LastRegistration(Before(h)).value < Last(h).now))
  }

  /** The pending keys are exactly `[nextAckSeq, nextRecvSeq)`. */
  ghost predicate Contiguous(s: State) {
    && 1 <= s.nextAckSeq <= s.nextRecvSeq
    && |s.pending| == s.nextRecvSeq - s.nextAckSeq
    && (forall n: nat :: n in s.pending <==> s.nextAckSeq <= n < s.nextRecvSeq)
    && (forall n | n in s.pending :: s.pending[n].recvSeq == n)
  }

  /** The pending entries in order. */
  ghost function Slots(s: State): seq<PendingAck>
    requires Contiguous(s)
  {
    seq(s.nextRecvSeq - s.nextAckSeq, i requires 0 <= i < s.nextRecvSeq - s.nextAckSeq => s.pending[s.nextAckSeq + i])
  }

  /** Each slot was registered strictly later than the one before, and none after `clock`. */
  ghost predicate Ascending(slots: seq<PendingAck>, clock: Option<int>) {
    && (forall i, j | 0 <= i < j < |slots| :: slots[i].registerAt < slots[j].registerAt)
    && (clock.None? ==> slots == [])
    && (clock.Some? ==> forall i | 0 <= i < |slots| :: slots[i].registerAt <= clock.value)
  }

  ghost predicate Rel(s: State, slots: seq<PendingAck>, clock: Option<int>) {
    Contiguous(s) && slots == Slots(s) && Ascending(slots, clock)
  }

  lemma AscendingDrop(slots: seq<PendingAck>, clock: Option<int>, k: nat)
    requires Ascending(slots, clock) && k <= |slots|
    ensures Ascending(slots[k..], clock)
  {
    var rest := slots[k..];
    assert forall i | 0 <= i < |rest| :: rest[i] == slots[k + i];
  }

  lemma AscendingAppend(slots: seq<PendingAck>, clock: Option<int>, p: PendingAck)
    requires Ascending(slots, clock) && (clock.Some? ==> clock.value < p.registerAt)
    ensures Ascending(slots + [p], Some(p.registerAt))
  {
    var all := slots + [p];
    forall i | 0 <= i < |slots|
      ensures all[i] == slots[i] && slots[i].registerAt < p.registerAt
    {}
  }

  lemma AscendingDecide(slots: seq<PendingAck>, clock: Option<int>, f: PendingAck -> PendingAck)
    requires Ascending(slots, clock) && forall p :: f(p).registerAt == p.registerAt
    ensures Ascending(Decide(slots, f), clock)
  {
    var d := Decide(slots, f);
    assert forall i | 0 <= i < |d| :: d[i] == f(slots[i]) && d[i].registerAt == slots[i].registerAt;
  }

  lemma DropSlots(s: State, k: nat, s': State)
    requires Contiguous(s) && k <= |s.pending|
    requires s'.nextRecvSeq == s.nextRecvSeq && s'.nextAckSeq == s.nextAckSeq + k
    requires s'.pending == Without(s.pending, s.nextAckSeq, s'.nextAckSeq)
    ensures Contiguous(s') && Slots(s') == Slots(s)[k..]
  {
    WithoutSize(s.pending, s.nextAckSeq, s'.nextAckSeq);
  }

  /** Dropping the first `k` slots. */
  lemma DropPrefix(s: State, slots: seq<PendingAck>, clock: Option<int>, k: nat, s': State)
    requires Rel(s, slots, clock) && k <= |slots|
    requires s'.nextRecvSeq == s.nextRecvSeq && s'.nextAckSeq == s.nextAckSeq + k
    requires s'.pending == Without(s.pending, s.nextAckSeq, s'.nextAckSeq)
    ensures Rel(s', slots[k..], clock)
  {
    DropSlots(s, k, s');
    AscendingDrop(slots, clock, k);
  }

  lemma AdmitContiguous(s: State, ackFn: Option<nat>, now: int)
    requires Contiguous(s)
    ensures Contiguous(Admit(s, ackFn, now))
  {
    var s' := Admit(s, ackFn, now);
    assert s'.pending.Keys == s.pending.Keys + {s.nextRecvSeq};
    assert |s'.pending| == |s.pending| + 1;
  }

  lemma AdmitSlots(s: State, ackFn: Option<nat>, now: int)
    requires Contiguous(s)
    ensures Contiguous(Admit(s, ackFn, now))
    ensures Slots(Admit(s, ackFn, now)) == Slots(s) + [FreshEntry(s.nextRecvSeq, ackFn, now)]
  {
    AdmitContiguous(s, ackFn, now);
  }

  lemma AppendSlot(s: State, slots: seq<PendingAck>, clock: Option<int>, ackFn: Option<nat>, now: int)
    requires Rel(s, slots, clock) && (clock.Some? ==> clock.value < now)
    ensures Rel(Admit(s, ackFn, now), slots + [FreshEntry(s.nextRecvSeq, ackFn, now)], Some(now))
  {
    AdmitSlots(s, ackFn, now);
    AscendingAppend(slots, clock, FreshEntry(s.nextRecvSeq, ackFn, now));
  }

  /** The oldest entry is the head, so capacity eviction drops the head. */
  lemma EvictHead(s: State, slots: seq<PendingAck>, clock: Option<int>, v: nat)
    requires Rel(s, slots, clock) && IsOldest(s.pending, v)
    ensures v == s.nextAckSeq && slots != [] && Rel(Evict(s, v), slots[1..], clock)
  {
    assert slots[0] == s.pending[s.nextAckSeq] && slots[v - s.nextAckSeq] == s.pending[v];
    assert v == s.nextAckSeq;
    var p := s.pending - {v};
    assert SkipGaps(p, v, s.nextRecvSeq) == SkipGaps(p, v + 1, s.nextRecvSeq) == v + 1;
    assert Evict(s, v).pending == p == Without(s.pending, v, v + 1);
    DropPrefix(s, slots, clock, 1, Evict(s, v));
  }

  lemma RegisterSlot(cfg: Config, s: State, slots: seq<PendingAck>, clock: Option<int>, e: Entry)
    requires Rel(s, slots, clock) && cfg.maxPendingSize >= 1 && e.Registered? && Enabled(cfg, s, e)
    requires clock.Some? ==> clock.value < e.now
    ensures Rel(Step(cfg, s, e), FifoStep(cfg, slots, e), Some(e.now))
  {
    if e.victim.Some? {
      EvictHead(s, slots, clock, e.victim.value);
      AppendSlot(Evict(s, e.victim.value), slots[1..], clock, e.ackFn, e.now);
    } else {
      AppendSlot(s, slots, clock, e.ackFn, e.now);
    }
  }

  lemma DecideSlots(s: State, f: PendingAck -> PendingAck, s': State)
    requires Contiguous(s) && forall p :: f(p).recvSeq == p.recvSeq
    requires s'.nextRecvSeq == s.nextRecvSeq && s'.nextAckSeq == s.nextAckSeq && s'.pending.Keys == s.pending.Keys
    requires forall n | n in s.pending :: s'.pending[n] == f(s.pending[n])
    ensures Contiguous(s') && Slots(s') == Decide(Slots(s), f)
  {
    assert |s'.pending.Keys| == |s'.pending| && |s.pending.Keys| == |s.pending|;
    assert forall n: nat :: n in s'.pending <==> n in s'.pending.Keys;
  }

  lemma DecideSlot(cfg: Config, s: State, slots: seq<PendingAck>, clock: Option<int>, e: Entry)
    requires Rel(s, slots, clock) && !s.stopped && (e.Completed? || e.RetryResolved?) && Enabled(cfg, s, e)
    ensures Rel(Step(cfg, s, e), FifoStep(cfg, slots, e), clock)
  {
    var f := if e.Completed? then Completer(e.recvSeq, e.decision, e.now) else Resolver(e.recvSeq);
    DecideSlots(s, f, Step(cfg, s, e));
    AscendingDecide(slots, clock, f);
  }

  /** The sendable run is the sendable prefix. */
  lemma RunIsPrefix(s: State, slots: seq<PendingAck>, clock: Option<int>)
    requires Rel(s, slots, clock)
    ensures RunEnd(s.pending, s.nextAckSeq, s.nextRecvSeq) == s.nextAckSeq + Leading(slots, Sendable)
    ensures Leading(slots, Sendable) <= |s.pending|
  {
    hide Ascending;
    var k := Leading(slots, Sendable);
    var r := RunEnd(s.pending, s.nextAckSeq, s.nextRecvSeq);
    assert r < s.nextRecvSeq ==> s.pending[r] == slots[r - s.nextAckSeq];
    assert k < |slots| ==> s.pending[s.nextAckSeq + k] == slots[k];
  }

  lemma FlushSteps(cfg: Config, s: State, slots: seq<PendingAck>, e: Entry)
    requires !s.stopped && e.Flushed? && Enabled(cfg, s, e)
    ensures var r := RunEnd(s.pending, s.nextAckSeq, s.nextRecvSeq);
            e.sent == Interval(s.nextAckSeq, r) && Step(cfg, s, e) == Release(s, r)
    ensures FifoStep(cfg, slots, e) == slots[Leading(slots, Sendable)..]
  {
    FlushReleases(cfg, s, e);
  }

  lemma FlushSlots(cfg: Config, s: State, slots: seq<PendingAck>, clock: Option<int>, e: Entry)
    requires Rel(s, slots, clock) && !s.stopped && e.Flushed? && Enabled(cfg, s, e)
    ensures Rel(Step(cfg, s, e), FifoStep(cfg, slots, e), clock)
    ensures |e.sent| == Leading(slots, Sendable)
  {
    RunIsPrefix(s, slots, clock);
    FlushSteps(cfg, s, slots, e);
    hide Ascending, Slots, Contiguous, Step, Enabled, Without, Leading, FifoStep, RunEnd, Packets;
    DropPrefix(s, slots, clock, Leading(slots, Sendable), Step(cfg, s, e));
  }

  /** Under an ascending clock the timed-out entries are the first `k`. */
  lemma StaleIsPrefix(s: State, slots: seq<PendingAck>, clock: Option<int>, cutoff: int)
    requires Rel(s, slots, clock)
    ensures var k := Leading(slots, Stale(cutoff));
            k <= |s.pending| && forall n | n in s.pending :: n in TimedOut(s.pending, cutoff) <==> n < s.nextAckSeq + k
  {
    var k := Leading(slots, Stale(cutoff));
    forall n | n in s.pending
      ensures n in TimedOut(s.pending, cutoff) <==> n < s.nextAckSeq + k
    {
      var i := n - s.nextAckSeq;
      assert slots[i] == s.pending[n];
      assert i > k ==> slots[k].registerAt < slots[i].registerAt;
    }
  }

  lemma SkipsPrefix(s: State, gone: set<nat>, k: nat)
    requires Contiguous(s) && k <= |s.pending|
    requires forall n | n in s.pending :: n in gone <==> n < s.nextAckSeq + k
    ensures var s' := Discard(s, gone, SkipGaps(s.pending - gone, s.nextAckSeq, s.nextRecvSeq));
            s'.nextAckSeq == s.nextAckSeq + k && s'.pending == Without(s.pending, s.nextAckSeq, s'.nextAckSeq)
  {
    assert s.nextAckSeq + k < s.nextRecvSeq ==> s.nextAckSeq + k in s.pending - gone;
  }

  lemma SweepSteps(cfg: Config, s: State, slots: seq<PendingAck>, e: Entry)
    requires !s.stopped && e.Swept? && Enabled(cfg, s, e)
    ensures e.evicted == TimedOut(s.pending, e.now - cfg.pendingTimeout)
    ensures Step(cfg, s, e) == Discard(s, e.evicted, SkipGaps(s.pending - e.evicted, s.nextAckSeq, s.nextRecvSeq))
    ensures FifoStep(cfg, slots, e) == slots[Leading(slots, Stale(e.now - cfg.pendingTimeout))..]
  {}

  lemma SweepSlots(cfg: Config, s: State, slots: seq<PendingAck>, clock: Option<int>, e: Entry)
    requires Rel(s, slots, clock) && !s.stopped && e.Swept? && Enabled(cfg, s, e)
    ensures Rel(Step(cfg, s, e), FifoStep(cfg, slots, e), clock)
  {
    SweepSteps(cfg, s, slots, e);
    hide Ascending, Slots, Contiguous, TimedOut, SkipGaps, Step, Enabled, Stale, Without, Leading, FifoStep;
    var cutoff := e.now - cfg.pendingTimeout;
    var k := Leading(slots, Stale(cutoff));
    StaleIsPrefix(s, slots, clock, cutoff);
    SkipsPrefix(s, e.evicted, k);
    DropPrefix(s, slots, clock, k, Step(cfg, s, e));
  }

  /** Refinement: on every legal history with a strictly increasing clock, a running manager's
      pending keys are exactly `[nextAckSeq, nextRecvSeq)` and their entries are the FIFO's list. */
  lemma {:induction false} RefinesFifo(cfg: Config, h: History)
    requires Legal(cfg, h) && cfg.maxPendingSize >= 1 && IncreasingClock(h) && !Replay(cfg, h).stopped
    ensures Rel(Replay(cfg, h), FifoReplay(cfg, h), LastRegistration(h))
    decreases |h|
  {
    if h != [] {
      var h0, e := Before(h), Last(h);
      RefinesFifo(cfg, h0);
      var s, slots, clock := Replay(cfg, h0), FifoReplay(cfg, h0), LastRegistration(h0);
      match e
      case Registered(_, _, _, _) => RegisterSlot(cfg, s, slots, clock, e);
      case Completed(_, _, _, _) => DecideSlot(cfg, s, slots, clock, e);
      case RetryResolved(_, _) => DecideSlot(cfg, s, slots, clock, e);
      case Flushed(_) => FlushSlots(cfg, s, slots, clock, e);
      case Swept(_, _) => SweepSlots(cfg, s, slots, clock, e);
      case RegisterRefused =>
      case Halted =>
    }
  }

  /** If every pending entry is completed with a decision other than Retry, whenever that was, one flush
      releases them all and empties the manager. */
  lemma FlushEmptiesDecided(cfg: Config, h: History, e: Entry)
    requires Legal(cfg, h) && cfg.maxPendingSize >= 1 && IncreasingClock(h) && !Replay(cfg, h).stopped
    requires e.Flushed? && Enabled(cfg, Replay(cfg, h), e)
    requires forall n | n in Replay(cfg, h).pending ::
               Replay(cfg, h).pending[n].completed && Replay(cfg, h).pending[n].decision != Retry
    ensures Step(cfg, Replay(cfg, h), e).pending == map[] && |e.sent| == |Replay(cfg, h).pending|
  {
    RefinesFifo(cfg, h);
    AllSendableFlushed(cfg, Replay(cfg, h), FifoReplay(cfg, h), LastRegistration(h), e);
  }

  lemma AllSendableFlushed(cfg: Config, s: State, slots: seq<PendingAck>, clock: Option<int>, e: Entry)
    requires Rel(s, slots, clock) && !s.stopped && e.Flushed? && Enabled(cfg, s, e)
    requires forall n | n in s.pending :: Sendable(s.pending[n])
    ensures Step(cfg, s, e).pending == map[] && |e.sent| == |s.pending|
  {
    FlushSlots(cfg, s, slots, clock, e);
    forall i | 0 <= i < |slots|
      ensures Sendable(slots[i])
    {
      assert s.nextAckSeq + i in s.pending;
    }
  }

  // ---------------------------------------------------------------------------
  // Any clock
  // ---------------------------------------------------------------------------

  /** After a sweep the head is pending, or everything issued is settled; no gap is left to stall Flush. */
  lemma SweepClosesGap(cfg: Config, h: History, now: int)
    requires Legal(cfg, h) && cfg.maxPendingSize >= 1 && !Replay(cfg, h).stopped
    ensures var s := Replay(cfg, h);
            var s' := Step(cfg, s, Swept(now, TimedOut(s.pending, now - cfg.pendingTimeout)));
            s'.nextAckSeq in s'.pending || s'.nextAckSeq == s'.nextRecvSeq
  {
    LegalInv(cfg, h);
  }

  /** The head is a gap: Flush has nothing to send. */
  predicate Stalled(s: State) {
    !s.stopped && s.nextAckSeq !in s.pending && s.nextAckSeq < s.nextRecvSeq
  }

  /** Whatever is registered, completed, resolved or flushed, a stalled manager stays stalled at the
      same gap and sends nothing: only a sweep, which closes the gap, or Stop ends the stall. */
  lemma StallEndsIff(cfg: Config, s: State, l: Ledger, e: Entry)
    requires Inv(cfg, s, l) && Stalled(s) && Enabled(cfg, s, e)
    ensures Step(cfg, s, e).wire == s.wire
    ensures Stalled(Step(cfg, s, e)) && Step(cfg, s, e).nextAckSeq == s.nextAckSeq <==> !e.Swept? && !e.Halted?
  {
    if e.Flushed? { WithoutNone(s.pending, s.nextAckSeq); }
  }

  /** The stall lasts, over any calls, until the next sweep or Stop. */
  lemma {:induction false} StallLasts(cfg: Config, h: History, more: History)
    requires Legal(cfg, h + more) && Legal(cfg, h) && cfg.maxPendingSize >= 1 && Stalled(Replay(cfg, h))
    requires forall k | 0 <= k < |more| :: !more[k].Swept? && !more[k].Halted?
    ensures var s, t := Replay(cfg, h), Replay(cfg, h + more);
            Stalled(t) && t.nextAckSeq == s.nextAckSeq && t.wire == s.wire
    decreases |more|
  {
    hide Stalled, Inv, Enabled, Step;
    if more == [] {
      assert h + more == h;
    } else {
      var less, e := more[..|more| - 1], more[|more| - 1];
      assert h + more == h + less + [e] && Before(h + less + [e]) == h + less;
      StallLasts(cfg, h, less);
      LegalInv(cfg, h + less);
      StallEndsIff(cfg, Replay(cfg, h + less), Observe(h + less), e);
    }
  }

  /** Capacity eviction is certain to remove the head exactly when the head was registered
      strictly before every other pending entry. */
  lemma EvictsHeadIffUniqueOldest(pending: map<nat, PendingAck>, head: nat)
    requires head in pending
    ensures (forall v | IsOldest(pending, v) :: v == head) <==>
            (forall m | m in pending && m != head :: pending[head].registerAt < pending[m].registerAt)
  {
    var v := SomeOldest(pending);
    if forall v | IsOldest(pending, v) :: v == head {
      forall m | m in pending && m != head
        ensures pending[head].registerAt < pending[m].registerAt
      {
        assert IsOldest(pending, m) || pending[head].registerAt < pending[m].registerAt;
      }
    }
  }

  lemma {:induction false} SomeOldest(pending: map<nat, PendingAck>) returns (v: nat)
    requires pending != map[]
    ensures IsOldest(pending, v)
    decreases |pending|
  {
    v :| v in pending;
    var rest := pending - {v};
    assert forall m | m in pending :: m == v || (m in rest && rest[m] == pending[m]);
    if rest != map[] {
      RemoveKeys(pending, {v});
      var w := SomeOldest(rest);
      if pending[w].registerAt < pending[v].registerAt { v := w; }
    }
  }

  const TIE_CONFIG := Config(30, 2)
  const TIE_HISTORY: History :=
    [Registered(1, None, 0, None), Registered(2, None, 0, None), Registered(3, None, 1, Some(2)),
     Completed(1, ACK, 2, true), Completed(3, ACK, 2, true), Flushed([1])]

  const TIE_FULL := State(4, 1, map[1 := FreshEntry(1, None, 0), 3 := FreshEntry(3, None, 1)], false, 0, 0, 1, 0, [])
  const TIE_STALLED := State(4, 2, map[3 := PendingAck(3, None, ACK, true, 1, 2)], false, 1, 0, 1, 1, [])

  /** A tie lets capacity eviction remove a number above the head: here number 2 goes first, after
      which Flush releases number 1 and then stalls at the gap although number 3 is decided ACK. */
  lemma TieLeavesGap()
    ensures Legal(TIE_CONFIG, TIE_HISTORY) && Replay(TIE_CONFIG, TIE_HISTORY) == TIE_STALLED
    ensures TIE_STALLED.nextAckSeq == 2 && Sendable(TIE_STALLED.pending[3])
    ensures Enabled(TIE_CONFIG, TIE_STALLED, Flushed([]))
  {
    TieDecides();
    TieFlushes();
    TieStalls();
    hide Legal, Replay, Step, Enabled, RunEnd, SkipGaps;
    LegalAppend(TIE_CONFIG, TIE_HISTORY[..5], TIE_HISTORY[5]);
    assert TIE_HISTORY == TIE_HISTORY[..5] + [TIE_HISTORY[5]];
  }

  lemma TieDecides()
    ensures Legal(TIE_CONFIG, TIE_HISTORY[..5])
    ensures Replay(TIE_CONFIG, TIE_HISTORY[..5]) ==
              Step(TIE_CONFIG, Step(TIE_CONFIG, TIE_FULL, TIE_HISTORY[3]), TIE_HISTORY[4])
  {
    var h := TIE_HISTORY;
    TieFills();
    TieFlushes();
    hide Legal, Replay, Step, Enabled, RunEnd, SkipGaps;
    LegalAppend(TIE_CONFIG, h[..3], h[3]);
    assert h[..3] + [h[3]] == h[..4];
    LegalAppend(TIE_CONFIG, h[..4], h[4]);
    assert h[..4] + [h[4]] == h[..5];
  }

  lemma TieFills()
    ensures Legal(TIE_CONFIG, TIE_HISTORY[..3]) && Replay(TIE_CONFIG, TIE_HISTORY[..3]) == TIE_FULL
  {
    var h := TIE_HISTORY;
    assert h[..1] == [] + [h[0]] && h[..2] == h[..1] + [h[1]] && h[..3] == h[..2] + [h[2]];
    var s1 := State(2, 1, map[1 := FreshEntry(1, None, 0)], false, 0, 0, 0, 0, []);
    LegalAppend(TIE_CONFIG, [], h[0]);
    assert Replay(TIE_CONFIG, h[..1]) == s1;
    assert |s1.pending| == 1;
    LegalAppend(TIE_CONFIG, h[..1], h[1]);
    var s2 := Step(TIE_CONFIG, s1, h[1]);
    assert s2.pending == map[1 := FreshEntry(1, None, 0), 2 := FreshEntry(2, None, 0)];
    assert s2.pending.Keys == {1, 2};
    assert s2.pending - {2} == map[1 := FreshEntry(1, None, 0)];
    LegalAppend(TIE_CONFIG, h[..2], h[2]);
  }

  lemma TieStalls()
    ensures Enabled(TIE_CONFIG, TIE_STALLED, Flushed([]))
  {
    assert RunEnd(TIE_STALLED.pending, 2, 4) == 2;
    assert Interval(2, 2) == [];
  }

  lemma TieFlushes()
    ensures Enabled(TIE_CONFIG, TIE_FULL, TIE_HISTORY[3])
    ensures Enabled(TIE_CONFIG, Step(TIE_CONFIG, TIE_FULL, TIE_HISTORY[3]), TIE_HISTORY[4])
    ensures var s4 := Step(TIE_CONFIG, TIE_FULL, TIE_HISTORY[3]);
            var s5 := Step(TIE_CONFIG, s4, TIE_HISTORY[4]);
            Enabled(TIE_CONFIG, s5, TIE_HISTORY[5]) && Step(TIE_CONFIG, s5, TIE_HISTORY[5]) == TIE_STALLED
  {
    var s4 := Step(TIE_CONFIG, TIE_FULL, TIE_HISTORY[3]);
    var s5 := Step(TIE_CONFIG, s4, TIE_HISTORY[4]);
    assert s5.pending == map[1 := PendingAck(1, None, ACK, true, 0, 2), 3 := PendingAck(3, None, ACK, true, 1, 2)];
    assert RunEnd(s5.pending, 1, 4) == RunEnd(s5.pending, 2, 4) == 2;
    assert Interval(1, 2) == [1];
    assert Without(s5.pending, 1, 2) == TIE_STALLED.pending;
    assert Packets(s5.pending, 1, 2) == [];
  }
}
