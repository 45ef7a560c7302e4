/** The acknowledgement manager itself: fields updated in place, one locked method per step.
    Every method is proved to take exactly the step of the protocol that its history entry
    names, so `Valid` carries all of AckSafety and AckFifo over to the object. */
module AckManagement {
  import opened Common
  import opened AckOrdering
  import opened AckSafety

  /** In nanoseconds. */
  const DEFAULT_PENDING_TIMEOUT: int := 30_000_000_000
  const DEFAULT_MAX_PENDING_SIZE: int := 10_000

  class AckManager {
    var nextRecvSeq: nat
    var nextAckSeq: nat
    var pending: map<nat, PendingAck>
    const cfg: Config
    var stopped: bool
    var ackedCount: nat
    var retriedCount: nat
    var evictedCount: nat
    var outOfOrderCount: nat
    var wire: seq<nat>         // the PUBACKs handed to the client library
    ghost var history: History

    ghost function View(): State
      reads this
    {
      State(nextRecvSeq, nextAckSeq, pending, stopped, ackedCount, retriedCount, evictedCount, outOfOrderCount, wire)
    }

    ghost predicate Valid()
      reads this
    {
      cfg.maxPendingSize >= 1 && Legal(cfg, history) && View() == Replay(cfg, history)
    }

    constructor (pendingTimeout: int, maxPendingSize: int)
      ensures Valid() && history == [] && !stopped && wire == []
      ensures cfg.pendingTimeout == (if pendingTimeout <= 0 then 30 * 1_000_000_000 else pendingTimeout)
      ensures cfg.maxPendingSize == (if maxPendingSize <= 0 then 10_000 else maxPendingSize)
    {
      cfg := Config(if pendingTimeout <= 0 then DEFAULT_PENDING_TIMEOUT else pendingTimeout,
                    if maxPendingSize <= 0 then DEFAULT_MAX_PENDING_SIZE else maxPendingSize);
      nextRecvSeq, nextAckSeq := 1, 1;
      pending := map[];
      stopped := false;
      ackedCount, retriedCount, evictedCount, outOfOrderCount := 0, 0, 0, 0;
      wire, history := [], [];
    }

    /** What every valid manager's past looks like. */
    lemma PastIsOrdered()
      requires Valid()
      ensures OrderedAcks(history) && Inv(cfg, View(), Observe(history))
    {
      AcksAreOrdered(cfg, history);
      LegalInv(cfg, history);
    }

    method Register(ackFn: Option<nat>, now: int) returns (recvSeq: nat, ok: bool, ghost victim: Option<nat>)
      requires Valid()
      modifies this
      ensures Valid() && ok == !old(stopped)
      ensures ok ==> recvSeq == old(nextRecvSeq) && history == old(history) + [Registered(recvSeq, ackFn, now, victim)]
      ensures ok ==> pending.Keys == old(pending).Keys - (if victim.Some? then {victim.value} else {}) + {recvSeq}
      ensures ok ==> pending[recvSeq] == PendingAck(recvSeq, ackFn, ACK, false, now, 0) && nextRecvSeq == recvSeq + 1
      ensures ok ==> (victim.Some? <==> |old(pending)| >= cfg.maxPendingSize)
      ensures ok && victim.Some? ==> victim.value in old(pending)
      ensures ok && victim.Some? ==> forall m | m in old(pending) ::
                old(pending)[victim.value].registerAt <= old(pending)[m].registerAt
      ensures wire == old(wire)
      ensures !ok ==> recvSeq == 0 && View() == old(View()) && history == old(history) + [RegisterRefused]
    {
      hide Legal, Replay, SkipGaps;
      KeysBounded(cfg, history);
      if stopped {
        ghost var e := RegisterRefused;
        LegalAppend(cfg, history, e);
        history := history + [e];
        return 0, false, None;
      }
      victim := EvictOldestIfNeeded();
      recvSeq, ok := nextRecvSeq, true;
      nextRecvSeq := nextRecvSeq + 1;
      pending := pending[recvSeq := PendingAck(recvSeq, ackFn, ACK, false, now, 0)];
      ghost var e := Registered(recvSeq, ackFn, now, victim);
      LegalAppend(cfg, history, e);
      history := history + [e];
    }

    method Complete(recvSeq: nat, decision: AckDecision, now: int) returns (ok: bool)
      requires Valid()
      modifies this
      ensures Valid() && ok == (!old(stopped) && recvSeq in old(pending))
      ensures ok ==> View() == old(View()).(
                pending := old(pending)[recvSeq := old(pending)[recvSeq].(decision := decision, completed := true,
                                                                          completeAt := now)],
                outOfOrderCount := old(outOfOrderCount) + if recvSeq != nextAckSeq then 1 else 0)
      ensures !ok ==> View() == old(View())
      ensures history == old(history) + [Completed(recvSeq, decision, now, ok)]
    {
      ghost var s := View();
      ok := !stopped && recvSeq in pending;
      ghost var e := Completed(recvSeq, decision, now, ok);
      LegalAppend(cfg, history, e);
      history := history + [e];
      if !ok { return; }
      pending := pending[recvSeq := pending[recvSeq].(decision := decision, completed := true, completeAt := now)];
      if recvSeq != nextAckSeq {
        outOfOrderCount := outOfOrderCount + 1;
      }
    }

    method UpdateRetryToAck(recvSeq: nat) returns (ok: bool)
      requires Valid()
      modifies this
      ensures Valid()
      ensures ok == (!old(stopped) && recvSeq in old(pending) && old(pending)[recvSeq].completed
                     && old(pending)[recvSeq].decision == Retry)
      ensures View() == if ok then
                          old(View()).(pending := old(pending)[recvSeq := old(pending)[recvSeq].(decision := ACK)])
                        else old(View())
      ensures history == old(history) + [RetryResolved(recvSeq, ok)]
    {
      ok := !stopped && recvSeq in pending && pending[recvSeq].completed && pending[recvSeq].decision == Retry;
      ghost var e := RetryResolved(recvSeq, ok);
      LegalAppend(cfg, history, e);
      history := history + [e];
      if ok {
        pending := pending[recvSeq := pending[recvSeq].(decision := ACK)];
      }
    }

    /** Sends the PUBACKs of the longest sendable run from nextAckSeq on. */
    method Flush() returns (acked: nat)
      requires Valid()
      modifies this
      ensures Valid()
      ensures history == old(history) + [Flushed(Interval(old(nextAckSeq), old(nextAckSeq) + acked))]
      ensures nextAckSeq == old(nextAckSeq) + acked
      ensures old(stopped) ==> acked == 0 && wire == old(wire)
      ensures forall m | old(nextAckSeq) <= m < nextAckSeq ::
                m in old(pending) && old(pending)[m].completed && old(pending)[m].decision != Retry && m !in pending
      ensures !old(stopped) && nextAckSeq in old(pending) ==>
                !old(pending)[nextAckSeq].completed || old(pending)[nextAckSeq].decision == Retry
      ensures !old(stopped) ==> ackedCount == old(ackedCount) + acked && nextRecvSeq == old(nextRecvSeq)
    {
      hide Replay, Legal;
      ghost var s, h := View(), history;
      KeysBounded(cfg, h);
      acked := 0;
      if !stopped {
        acked := SendRun();
      }
      AppendFlush(cfg, h, s, acked);
      history := h + [Flushed(Interval(s.nextAckSeq, s.nextAckSeq + acked))];
    }

    /** The loop of Flush: sends and deletes entries until one is missing, undecided or on Retry. */
    method SendRun() returns (acked: nat)
      requires nextAckSeq <= nextRecvSeq && forall n | n in pending :: n < nextRecvSeq
      modifies this`nextAckSeq, this`pending, this`wire, this`ackedCount
      ensures old(nextAckSeq) + acked == RunEnd(old(pending), old(nextAckSeq), nextRecvSeq)
      ensures View() == Release(old(View()), old(nextAckSeq) + acked)
    {
      ghost var s := View();
      acked := 0;
      ReleaseNone(s);
      while nextAckSeq in pending && pending[nextAckSeq].completed && pending[nextAckSeq].decision != Retry
        invariant s.nextAckSeq + acked == nextAckSeq <= s.nextRecvSeq
        invariant forall m | s.nextAckSeq <= m < nextAckSeq :: m in s.pending && Sendable(s.pending[m])
        invariant View() == Release(s, nextAckSeq)
        decreases s.nextRecvSeq - nextAckSeq
      {
        ReleaseNext(s, nextAckSeq);
        match pending[nextAckSeq].ackFn {
          case Some(packet) => wire := wire + [packet];
          case None =>
        }
        pending := pending - {nextAckSeq};
        nextAckSeq := nextAckSeq + 1;
        ackedCount := ackedCount + 1;
        acked := acked + 1;
      }
      RunEndIs(s.pending, s.nextAckSeq, s.nextRecvSeq, nextAckSeq);
    }

    method Stop()
      requires Valid()
      modifies this
      ensures Valid() && stopped && history == old(history) + [Halted]
      ensures pending == map[] && wire == old(wire) && nextAckSeq == old(nextAckSeq)
    {
      LegalInv(cfg, history);
      LegalAppend(cfg, history, Halted);
      history := history + [Halted];
      if stopped { return; }
      stopped := true;
      pending := map[];
    }

    method EvictTimedOut(now: int)
      requires Valid()
      modifies this
      ensures Valid() && wire == old(wire)
      ensures old(stopped) ==> View() == old(View())
      ensures !old(stopped) ==> forall n :: n in pending <==>
                n in old(pending) && old(pending)[n].registerAt >= now - cfg.pendingTimeout
      ensures forall n | n in pending :: pending[n] == old(pending)[n]
      ensures !old(stopped) ==> nextAckSeq in pending || nextAckSeq == nextRecvSeq == old(nextRecvSeq)
      ensures history == old(history) +
              [Swept(now, if old(stopped) then {} else TimedOut(old(pending), now - cfg.pendingTimeout))]
    {
      hide Replay, Legal;
      ghost var s, h := View(), history;
      ghost var stale := if stopped then {} else TimedOut(pending, now - cfg.pendingTimeout);
      KeysBounded(cfg, h);
      AppendSweep(cfg, h, s, now, stale);
      if !stopped {
        DeleteStale(now - cfg.pendingTimeout);
        AdvanceNextAckSeq();
      }
      history := h + [Swept(now, stale)];
    }

    /** The loop of EvictTimedOut. */
    method DeleteStale(cutoff: int)
      modifies this`pending, this`evictedCount
      ensures pending == old(pending) - TimedOut(old(pending), cutoff)
      ensures evictedCount == old(evictedCount) + |TimedOut(old(pending), cutoff)|
    {
      ghost var all := pending;
      ghost var gone: set<nat> := {};
      var rest := pending.Keys;
      while rest != {}
        invariant rest <= all.Keys && gone <= all.Keys
        invariant forall n | n in all :: n in gone <==> n !in rest && all[n].registerAt < cutoff
        invariant pending == all - gone
        invariant evictedCount == old(evictedCount) + |gone|
        decreases |rest|
      {
        var n :| n in rest;
        rest := rest - {n};
        if pending[n].registerAt < cutoff {
          pending := pending - {n};
          evictedCount := evictedCount + 1;
          gone := gone + {n};
        }
      }
      assert gone == TimedOut(all, cutoff);
    }

    /** Removes an entry with the earliest registration time when the map is full. */
    method EvictOldestIfNeeded() returns (ghost victim: Option<nat>)
      requires cfg.maxPendingSize >= 1 && nextAckSeq <= nextRecvSeq
      modifies this
      ensures history == old(history)
      ensures victim.Some? <==> |old(pending)| >= cfg.maxPendingSize
      ensures victim.Some? ==> IsOldest(old(pending), victim.value) && View() == Evict(old(View()), victim.value)
      ensures victim.None? ==> View() == old(View())
    {
      if |pending| < cfg.maxPendingSize { return None; }
      var oldest := FindOldest(pending);
      victim := Some(oldest);
      pending := pending - {oldest};
      evictedCount := evictedCount + 1;
      if oldest == nextAckSeq {
        AdvanceNextAckSeq();
      }
    }

    /** Skips numbers that are no longer pending. */
    method AdvanceNextAckSeq()
      modifies this`nextAckSeq
      ensures nextAckSeq == SkipGaps(pending, old(nextAckSeq), nextRecvSeq)
    {
      ghost var start := nextAckSeq;
      while nextAckSeq < nextRecvSeq
        invariant SkipGaps(pending, nextAckSeq, nextRecvSeq) == SkipGaps(pending, start, nextRecvSeq)
      {
        if nextAckSeq in pending { break; }
        nextAckSeq := nextAckSeq + 1;
      }
    }
  }

  /** Go iterates over a map in no particular order. */
  method FindOldest(pending: map<nat, PendingAck>) returns (oldest: nat)
    requires pending != map[]
    ensures IsOldest(pending, oldest)
  {
    var rest := pending.Keys;
    oldest :| oldest in rest;
    rest := rest - {oldest};
    while rest != {}
      invariant rest <= pending.Keys && oldest in pending
      invariant forall m | m in pending && m !in rest :: pending[oldest].registerAt <= pending[m].registerAt
      decreases |rest|
    {
      var n :| n in rest;
      if pending[n].registerAt < pending[oldest].registerAt { oldest := n; }
      rest := rest - {n};
    }
  }

  lemma RunEndIs(pending: map<nat, PendingAck>, n: nat, limit: nat, r: nat)
    requires n <= r <= limit && forall m | n <= m < r :: m in pending && Sendable(pending[m])
    requires r in pending && r < limit ==> !Sendable(pending[r])
    ensures RunEnd(pending, n, limit) == r
    decreases r - n
  {
    if n < r { RunEndIs(pending, n + 1, limit, r); }
  }

  lemma KeysBounded(cfg: Config, h: History)
    requires Legal(cfg, h) && cfg.maxPendingSize >= 1
    ensures var s := Replay(cfg, h);
            s.nextAckSeq <= s.nextRecvSeq && forall n | n in s.pending :: s.nextAckSeq <= n < s.nextRecvSeq
  {
    LegalInv(cfg, h);
  }

  lemma ReleaseNone(s: State)
    ensures Release(s, s.nextAckSeq) == s
  {
    WithoutNone(s.pending, s.nextAckSeq);
  }

  /** One round of the flush loop. */
  lemma ReleaseNext(s: State, r: nat)
    requires s.nextAckSeq <= r && forall m | s.nextAckSeq <= m <= r :: m in s.pending
    ensures var t := Release(s, r);
            && r in t.pending && t.pending[r] == s.pending[r]
            && Release(s, r + 1) ==
                 t.(pending := t.pending - {r}, nextAckSeq := r + 1, ackedCount := t.ackedCount + 1,
                    wire := t.wire + match s.pending[r].ackFn case Some(packet) => [packet] case None => [])
  {
    WithoutNext(s.pending, s.nextAckSeq, r);
  }

  lemma AppendFlush(cfg: Config, h: History, s: State, acked: nat)
    requires Legal(cfg, h) && s == Replay(cfg, h)
    requires if s.stopped then acked == 0 else s.nextAckSeq + acked == RunEnd(s.pending, s.nextAckSeq, s.nextRecvSeq)
    ensures var g := h + [Flushed(Interval(s.nextAckSeq, s.nextAckSeq + acked))];
            Legal(cfg, g) && Replay(cfg, g) == if s.stopped then s else Release(s, s.nextAckSeq + acked)
  {
    hide Replay, Legal;
    var e := Flushed(Interval(s.nextAckSeq, s.nextAckSeq + acked));
    assert s.stopped ==> e.sent == [];
    LegalAppend(cfg, h, e);
    if !s.stopped { FlushReleases(cfg, s, e); }
  }

  lemma AppendSweep(cfg: Config, h: History, s: State, now: int, gone: set<nat>)
    requires Legal(cfg, h) && s == Replay(cfg, h)
    requires gone == if s.stopped then {} else TimedOut(s.pending, now - cfg.pendingTimeout)
    ensures Legal(cfg, h + [Swept(now, gone)])
    ensures Replay(cfg, h + [Swept(now, gone)]) == if s.stopped then s else
      Discard(s, gone, SkipGaps(s.pending - gone, s.nextAckSeq, s.nextRecvSeq))
  {
    LegalAppend(cfg, h, Swept(now, gone));
  }
}
