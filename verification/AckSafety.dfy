/** Safety of the acknowledgement protocol over every legal history. */
module AckSafety {
  import opened Common
  import opened AckOrdering

  lemma {:induction false} WireExtends(issued: map<nat, Option<nat>>, n: nat, ackFn: Option<nat>, log: seq<nat>)
    requires n !in log
    ensures WireOf(issued[n := ackFn], log) == WireOf(issued, log)
  {
    if log != [] { WireExtends(issued, n, ackFn, log[..|log| - 1]); }
  }

  lemma {:induction false} WireOfAppend(issued: map<nat, Option<nat>>, a: seq<nat>, b: seq<nat>)
    ensures WireOf(issued, a + b) == WireOf(issued, a) + WireOf(issued, b)
    decreases |b|
  {
    if b == [] {
      assert a + b == a;
    } else {
      assert (a + b)[..|a + b| - 1] == a + b[..|b| - 1];
      WireOfAppend(issued, a, b[..|b| - 1]);
    }
  }

  lemma {:induction false} WireOfRelease(s: State, l: Ledger, r: nat)
    requires s.nextAckSeq <= r
    requires forall m | s.nextAckSeq <= m < r :: m in s.pending && EntryMatches(s.pending[m], l, m)
    ensures WireOf(l.issued, l.acked + Interval(s.nextAckSeq, r))
         == WireOf(l.issued, l.acked) + Packets(s.pending, s.nextAckSeq, r)
    decreases r
  {
    var log := l.acked + Interval(s.nextAckSeq, r);
    if r == s.nextAckSeq {
      assert log == l.acked;
    } else {
      WireOfRelease(s, l, r - 1);
      assert log[..|log| - 1] == l.acked + Interval(s.nextAckSeq, r - 1);
    }
  }

  lemma RemoveKeys(p: map<nat, PendingAck>, ks: set<nat>)
    requires ks <= p.Keys
    ensures |p - ks| == |p| - |ks|
  {
    assert (p - ks).Keys == p.Keys - ks;
    assert |(p - ks).Keys| == |p.Keys| - |ks|;
  }

  lemma RemoveOne(p: map<nat, PendingAck>, n: nat)
    requires n in p
    ensures |p - {n}| == |p| - 1
  {
    RemoveKeys(p, {n});
  }

  lemma EvictionPartition(s: State, l: Ledger, gone: set<nat>, ack: nat)
    requires Numbering(s, l) && Partition(s, l) && gone <= s.pending.Keys
    requires s.nextAckSeq <= ack <= s.nextRecvSeq && forall m | s.nextAckSeq <= m < ack :: m !in s.pending - gone
    ensures var s', l' := Discard(s, gone, ack), l.(evicted := l.evicted + gone);
            Numbering(s', l') && Partition(s', l')
  {}

  lemma EvictionCounts(s: State, l: Ledger, gone: set<nat>)
    requires Partition(s, l) && gone <= s.pending.Keys
    ensures |s.pending - gone| == |s.pending| - |gone| && |l.evicted + gone| == |l.evicted| + |gone|
  {
    RemoveKeys(s.pending, gone);
  }

  /** Shared by both evictions: `gone` leaves pending and joins the evicted set. */
  lemma EvictionKeepsInv(cfg: Config, s: State, l: Ledger, gone: set<nat>, ack: nat)
    requires Inv(cfg, s, l) && !s.stopped && gone <= s.pending.Keys
    requires s.nextAckSeq <= ack <= s.nextRecvSeq && forall m | s.nextAckSeq <= m < ack :: m !in s.pending - gone
    ensures Inv(cfg, Discard(s, gone, ack), l.(evicted := l.evicted + gone))
  {
    hide Increasing, WireOf, Numbering, Partition;
    EvictionPartition(s, l, gone, ack);
    EvictionCounts(s, l, gone);
  }

  lemma RegisterKeepsInv(cfg: Config, s: State, l: Ledger, e: Entry)
    requires Inv(cfg, s, l) && cfg.maxPendingSize >= 1 && e.Registered? && Enabled(cfg, s, e)
    ensures Inv(cfg, Step(cfg, s, e), Note(l, e))
  {
    hide Increasing, WireOf, SkipGaps, EntryMatches;
    if e.victim.Some? {
      var v := e.victim.value;
      EvictionKeepsInv(cfg, s, l, {v}, Evict(s, v).nextAckSeq);
      RemoveKeys(s.pending, {v});
      AdmitKeepsInv(cfg, Evict(s, v), l.(evicted := l.evicted + {v}), e.ackFn, e.now);
    } else {
      AdmitKeepsInv(cfg, s, l, e.ackFn, e.now);
    }
  }

  lemma AdmitEntries(s: State, l: Ledger, ackFn: Option<nat>, now: int)
    requires Numbering(s, l) && forall n | n in s.pending :: EntryMatches(s.pending[n], l, n)
    ensures var s', l' := Admit(s, ackFn, now), l.(issued := l.issued[s.nextRecvSeq := ackFn]);
            Numbering(s', l') && forall n | n in s'.pending :: EntryMatches(s'.pending[n], l', n)
  {}

  lemma AdmitKeepsInv(cfg: Config, s: State, l: Ledger, ackFn: Option<nat>, now: int)
    requires Inv(cfg, s, l) && !s.stopped && |s.pending| < cfg.maxPendingSize
    ensures Inv(cfg, Admit(s, ackFn, now), l.(issued := l.issued[s.nextRecvSeq := ackFn]))
  {
    hide Increasing, WireOf, EntryMatches;
    var n := s.nextRecvSeq;
    AdmitEntries(s, l, ackFn, now);
    assert Admit(s, ackFn, now).pending.Keys == s.pending.Keys + {n};
    WireExtends(l.issued, n, ackFn, l.acked);
  }

  lemma DecideKeepsInv(cfg: Config, s: State, l: Ledger, e: Entry)
    requires Inv(cfg, s, l) && (e.Completed? || e.RetryResolved?) && Enabled(cfg, s, e)
    ensures Inv(cfg, Step(cfg, s, e), Note(l, e))
  {
    hide Increasing, WireOf;
    var s' := Step(cfg, s, e);
    assert s'.pending.Keys == s.pending.Keys;
    assert |s'.pending| == |s'.pending.Keys| == |s.pending.Keys| == |s.pending|;
  }

  lemma AppendIncreasing(log: seq<nat>, lo: nat, hi: nat)
    requires Increasing(log) && lo <= hi && forall n | n in log :: n < lo
    ensures Increasing(log + Interval(lo, hi))
  {
    var all := log + Interval(lo, hi);
    forall i, j | 0 <= i < j < |all|
      ensures all[i] < all[j]
    {
      if i < |log| { assert all[i] in log; }
    }
  }

  lemma WithoutNone(p: map<nat, PendingAck>, lo: nat)
    ensures Without(p, lo, lo) == p
  {}

  lemma WithoutNext(p: map<nat, PendingAck>, lo: nat, hi: nat)
    requires lo <= hi
    ensures Without(p, lo, hi + 1) == Without(p, lo, hi) - {hi}
    ensures hi in p ==> hi in Without(p, lo, hi)
  {}

  lemma {:induction false} WithoutSize(p: map<nat, PendingAck>, lo: nat, hi: nat)
    requires lo <= hi && forall n | lo <= n < hi :: n in p
    ensures |Without(p, lo, hi)| == |p| - (hi - lo)
    decreases hi
  {
    hide Without;
    if lo == hi {
      WithoutNone(p, lo);
    } else {
      WithoutSize(p, lo, hi - 1);
      WithoutNext(p, lo, hi - 1);
      RemoveOne(Without(p, lo, hi - 1), hi - 1);
    }
  }

  lemma IntervalMembers(lo: nat, hi: nat)
    requires lo <= hi
    ensures forall n: nat :: n in Interval(lo, hi) <==> lo <= n < hi
  {
    forall n: nat | lo <= n < hi
      ensures n in Interval(lo, hi)
    {
      assert Interval(lo, hi)[n - lo] == n;
    }
  }

  lemma ReleasePartition(s: State, l: Ledger, r: nat)
    requires Numbering(s, l) && Partition(s, l) && s.nextAckSeq <= r <= s.nextRecvSeq
    requires forall m | s.nextAckSeq <= m < r :: m in s.pending
    ensures var s', l' := Release(s, r), l.(acked := l.acked + Interval(s.nextAckSeq, r));
            Numbering(s', l') && Partition(s', l') && |s'.pending| == |s.pending| - (r - s.nextAckSeq)
  {
    IntervalMembers(s.nextAckSeq, r);
    WithoutSize(s.pending, s.nextAckSeq, r);
  }

  lemma ReleaseKeepsInv(cfg: Config, s: State, l: Ledger, r: nat)
    requires Inv(cfg, s, l) && s.nextAckSeq <= r <= s.nextRecvSeq && !s.stopped
    requires forall m | s.nextAckSeq <= m < r :: m in s.pending
    ensures Inv(cfg, Release(s, r), l.(acked := l.acked + Interval(s.nextAckSeq, r)))
  {
    ReleasePartition(s, l, r);
    AppendIncreasing(l.acked, s.nextAckSeq, r);
    WireOfRelease(s, l, r);
  }

  lemma FlushKeepsInv(cfg: Config, s: State, l: Ledger, e: Entry)
    requires Inv(cfg, s, l) && e.Flushed? && Enabled(cfg, s, e)
    ensures Inv(cfg, Step(cfg, s, e), Note(l, e))
  {
    if s.stopped {
      assert Note(l, e) == l;
    } else {
      var r := s.nextAckSeq + |e.sent|;
      assert r == RunEnd(s.pending, s.nextAckSeq, s.nextRecvSeq);
      ReleaseKeepsInv(cfg, s, l, r);
      FlushReleases(cfg, s, e);
    }
  }

  lemma FlushReleases(cfg: Config, s: State, e: Entry)
    requires e.Flushed? && Enabled(cfg, s, e) && !s.stopped
    ensures var r := RunEnd(s.pending, s.nextAckSeq, s.nextRecvSeq);
            e.sent == Interval(s.nextAckSeq, r) && Step(cfg, s, e) == Release(s, r)
  {}

  lemma OtherKeepsInv(cfg: Config, s: State, l: Ledger, e: Entry)
    requires Inv(cfg, s, l) && (e.Swept? || e.Halted? || e.RegisterRefused?) && Enabled(cfg, s, e)
    ensures Inv(cfg, Step(cfg, s, e), Note(l, e))
  {
    if e.Swept? {
      if s.stopped { assert Note(l, e) == l; }
      else { EvictionKeepsInv(cfg, s, l, e.evicted, Step(cfg, s, e).nextAckSeq); }
    }
  }

  lemma StepKeepsInv(cfg: Config, s: State, l: Ledger, e: Entry)
    requires Inv(cfg, s, l) && cfg.maxPendingSize >= 1 && Enabled(cfg, s, e)
    ensures Inv(cfg, Step(cfg, s, e), Note(l, e))
  {
    match e
    case Registered(_, _, _, _) => RegisterKeepsInv(cfg, s, l, e);
    case Completed(_, _, _, _) => DecideKeepsInv(cfg, s, l, e);
    case RetryResolved(_, _) => DecideKeepsInv(cfg, s, l, e);
    case Flushed(_) => FlushKeepsInv(cfg, s, l, e);
    case _ => OtherKeepsInv(cfg, s, l, e);
  }

  /** The invariant holds after every legal history. */
  lemma {:induction false} LegalInv(cfg: Config, h: History)
    requires Legal(cfg, h) && cfg.maxPendingSize >= 1
    ensures Inv(cfg, Replay(cfg, h), Observe(h))
    decreases |h|
  {
    if h != [] {
      LegalInv(cfg, Before(h));
      StepKeepsInv(cfg, Replay(cfg, Before(h)), Observe(Before(h)), Last(h));
    }
  }

  lemma LegalAppend(cfg: Config, h: History, e: Entry)
    requires Legal(cfg, h) && Enabled(cfg, Replay(cfg, h), e)
    ensures Legal(cfg, h + [e]) && Replay(cfg, h + [e]) == Step(cfg, Replay(cfg, h), e)
  {
    assert Before(h + [e]) == h;
  }

  lemma {:induction false} LegalPrefix(cfg: Config, h: History, i: nat)
    requires Legal(cfg, h) && i <= |h|
    ensures Legal(cfg, h[..i])
    ensures i < |h| ==> Enabled(cfg, Replay(cfg, h[..i]), h[i])
    decreases |h| - i
  {
    if i < |h| {
      LegalPrefix(cfg, h, i + 1);
      assert Before(h[..i + 1]) == h[..i];
    } else {
      assert h[..i] == h;
    }
  }

  /** Section 4.6 of MQTT Version 5.0 on every interleaving: each release is of an issued
      number whose latest decision is not Retry, comes after every number released so far, and
      no earlier issued number is still waiting. */
  lemma AcksAreOrdered(cfg: Config, h: History)
    requires Legal(cfg, h) && cfg.maxPendingSize >= 1
    ensures OrderedAcks(h) && Increasing(Observe(h).acked)
  {
    LegalInv(cfg, h);
    forall i, k | 0 <= i < |h| && h[i].Flushed? && 0 <= k < |h[i].sent|
      ensures ReleaseJustified(Observe(h[..i]), h[i].sent, k)
    {
      LegalPrefix(cfg, h, i);
      LegalInv(cfg, h[..i]);
      ReleaseIsJustified(cfg, Replay(cfg, h[..i]), Observe(h[..i]), h[i], k);
    }
  }

  lemma ReleaseIsJustified(cfg: Config, s: State, l: Ledger, e: Entry, k: nat)
    requires Inv(cfg, s, l) && e.Flushed? && Enabled(cfg, s, e) && k < |e.sent|
    ensures ReleaseJustified(l, e.sent, k)
  {
    var n := e.sent[k];
    assert EntryMatches(s.pending[n], l, n);
    forall m | m in l.issued && m < n
      ensures m in l.acked + e.sent[..k] || m in l.evicted
    {
      if s.nextAckSeq <= m { assert e.sent[..k][m - s.nextAckSeq] == m; }
    }
  }

  /** Conservation on every run of a manager that has not been stopped: each number issued has been
      released, evicted, or is pending, and the pending map never outgrows its bound. */
  lemma IssuedIsConserved(cfg: Config, h: History)
    requires Legal(cfg, h) && cfg.maxPendingSize >= 1
    ensures var s, l := Replay(cfg, h), Observe(h);
            && |s.pending| <= cfg.maxPendingSize && s.ackedCount == |l.acked| && s.evictedCount == |l.evicted|
            && (!l.halted ==> s.nextRecvSeq - 1 == |l.acked| + |l.evicted| + |s.pending|)
  {
    LegalInv(cfg, h);
  }

  lemma StoppedStep(cfg: Config, s: State, e: Entry)
    requires s.stopped && s.pending == map[] && Enabled(cfg, s, e)
    ensures Step(cfg, s, e).stopped && Step(cfg, s, e).pending == map[] && Step(cfg, s, e).wire == s.wire
  {}

  /** Once stopped, always stopped: whatever happens later, nothing more is put on the wire. */
  lemma {:induction false} StoppedIsSilent(cfg: Config, h: History, later: History)
    requires Legal(cfg, h + later) && Legal(cfg, h) && cfg.maxPendingSize >= 1 && Observe(h).halted
    ensures Observe(h + later).halted && Replay(cfg, h + later).wire == Replay(cfg, h).wire
    ensures Replay(cfg, h + later).stopped && Replay(cfg, h + later).pending == map[]
    decreases |later|
  {
    hide Step, Enabled;
    if later == [] {
      assert h + later == h;
      LegalInv(cfg, h);
    } else {
      var g, e := h + later[..|later| - 1], later[|later| - 1];
      assert h + later == g + [e] && Before(g + [e]) == g;
      StoppedIsSilent(cfg, h, later[..|later| - 1]);
      StoppedStep(cfg, Replay(cfg, g), e);
    }
  }
}
