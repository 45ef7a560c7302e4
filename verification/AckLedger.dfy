/** The ledger of AckSafety read off the raw history, and what a flush sends in terms of it alone. */
module AckLedger {
  import opened Common
  import opened AckOrdering
  import opened AckSafety

  /** The entry is an accepted decision for number `n`. */
  predicate Decides(e: Entry, n: nat) {
    (e.Completed? && e.ok && e.recvSeq == n) || (e.RetryResolved? && e.ok && e.recvSeq == n)
  }

  /** `h[j]` is the last accepted decision for `n`: a report's own, or ACK where a retry was resolved. */
  predicate LastDecision(h: History, n: nat, d: AckDecision, j: int) {
    && 0 <= j < |h| && Decides(h[j], n) && d == (if h[j].Completed? then h[j].decision else ACK)
    && forall k | j < k < |h| :: !Decides(h[k], n)
  }

  lemma {:induction false} LatestIs(h: History, n: nat, d: AckDecision)
    ensures (n in Observe(h).latest && Observe(h).latest[n] == d) <==> exists j :: LastDecision(h, n, d, j)
    decreases |h|
  {
    if h != [] {
      var g := Before(h);
      LatestIs(g, n, d);
      var m := |g|;
      if Decides(Last(h), n) {
        if Observe(h).latest[n] == d { assert LastDecision(h, n, d, m); }
        assert forall j | LastDecision(h, n, d, j) :: j == m;
      } else {
        if j :| LastDecision(g, n, d, j) { assert LastDecision(h, n, d, j); }
        if j :| LastDecision(h, n, d, j) { assert j < m && LastDecision(g, n, d, j); }
      }
    }
  }

  predicate Issues(e: Entry, n: nat) {
    e.Registered? && e.recvSeq == n
  }

  predicate Evicts(e: Entry, n: nat) {
    (e.Registered? && e.victim == Some(n)) || (e.Swept? && n in e.evicted)
  }

  predicate Sends(e: Entry, n: nat) {
    e.Flushed? && n in e.sent
  }

  /** Numbers issued, evicted and released are those of some entry, and Stop leaves its mark. */
  lemma {:induction false} LedgerIs(h: History, n: nat)
    ensures n in Observe(h).issued <==> exists j :: 0 <= j < |h| && Issues(h[j], n)
    ensures n in Observe(h).evicted <==> exists j :: 0 <= j < |h| && Evicts(h[j], n)
    ensures n in Observe(h).acked <==> exists j :: 0 <= j < |h| && Sends(h[j], n)
    ensures Observe(h).halted <==> exists j :: 0 <= j < |h| && h[j].Halted?
    decreases |h|
  {
    if h != [] {
      var g := Before(h);
      LedgerIs(g, n);
      assert h == g + [Last(h)];
      assert forall j | 0 <= j < |g| :: h[j] == g[j];
      assert h[|g|] == Last(h);
      NoteDoes(Observe(g), Last(h), n);
      hide Issues, Evicts, Sends, Note;
    }
  }

  lemma NoteDoes(l: Ledger, e: Entry, n: nat)
    ensures n in Note(l, e).issued <==> n in l.issued || Issues(e, n)
    ensures n in Note(l, e).evicted <==> n in l.evicted || Evicts(e, n)
    ensures n in Note(l, e).acked <==> n in l.acked || Sends(e, n)
    ensures Note(l, e).halted <==> l.halted || e.Halted?
    ensures Issues(e, n) ==> Note(l, e).issued[n] == e.ackFn
    ensures n in l.issued && !Issues(e, n) ==> Note(l, e).issued[n] == l.issued[n]
  {
    match e
    case Flushed(sent) => assert forall m :: m in l.acked + sent <==> m in l.acked || m in sent;
    case _ =>
  }

  lemma IssuesNew(cfg: Config, h: History, e: Entry)
    requires Legal(cfg, h) && cfg.maxPendingSize >= 1 && e.Registered? && Enabled(cfg, Replay(cfg, h), e)
    ensures e.recvSeq !in Observe(h).issued
  {
    LegalInv(cfg, h);
  }

  /** A number was issued to the packet it was registered with. */
  lemma {:induction false} IssuedTo(cfg: Config, h: History, j: nat)
    requires Legal(cfg, h) && cfg.maxPendingSize >= 1 && j < |h| && h[j].Registered?
    ensures h[j].recvSeq in Observe(h).issued && Observe(h).issued[h[j].recvSeq] == h[j].ackFn
    decreases |h|
  {
    hide Enabled, Replay, Note;
    var g := Before(h);
    NoteDoes(Observe(g), Last(h), h[j].recvSeq);
    if j < |g| {
      IssuedTo(cfg, g, j);
      if Last(h).Registered? { IssuesNew(cfg, g, Last(h)); }
    }
  }

  /** Decided other than Retry: a fact about the ledger, whatever the manager makes of it. */
  predicate Settled(l: Ledger, n: nat) {
    n in l.issued && n !in l.evicted && n in l.latest && l.latest[n] != Retry
  }

  /** What a flush sends, on every history of a manager that was not stopped: a number goes out exactly
      when it and all numbers from the next to acknowledge up to it were issued, not evicted, and
      have an accepted decision other than Retry, whenever that was reported. */
  lemma FlushSendsIff(cfg: Config, h: History, e: Entry, n: nat)
    requires Legal(cfg, h) && cfg.maxPendingSize >= 1 && !Observe(h).halted
    requires e.Flushed? && Enabled(cfg, Replay(cfg, h), e)
    ensures var first := Replay(cfg, h).nextAckSeq;
            n in e.sent <==> first <= n && forall m | first <= m <= n :: Settled(Observe(h), m)
  {
    LegalInv(cfg, h);
    var s, l := Replay(cfg, h), Observe(h);
    var r := s.nextAckSeq + |e.sent|;
    IntervalMembers(s.nextAckSeq, r);
    SettledIffSendable(cfg, s, l);
    assert e.sent == Interval(s.nextAckSeq, r) && r == RunEnd(s.pending, s.nextAckSeq, s.nextRecvSeq);
  }

  /** From the next number on, being settled is being pending, completed, and decided other than Retry. */
  lemma SettledIffSendable(cfg: Config, s: State, l: Ledger)
    requires Inv(cfg, s, l) && !s.stopped
    ensures forall m | m >= s.nextAckSeq ::
              Settled(l, m) <==> m in s.pending && s.pending[m].completed && s.pending[m].decision != Retry
  {
    forall m | m >= s.nextAckSeq
      ensures Settled(l, m) <==> m in s.pending && s.pending[m].completed && s.pending[m].decision != Retry
    {
      if m in s.pending { assert EntryMatches(s.pending[m], l, m); }
      assert m !in l.acked;
    }
  }

  /** And what a flush sends is sent in number order, each once, to the packets the numbers were issued to. */
  lemma FlushSendsInOrder(cfg: Config, h: History, e: Entry)
    requires Legal(cfg, h) && cfg.maxPendingSize >= 1 && !Observe(h).halted
    requires e.Flushed? && Enabled(cfg, Replay(cfg, h), e)
    ensures Increasing(e.sent)
    ensures Replay(cfg, h + [e]).wire == Replay(cfg, h).wire + WireOf(Observe(h).issued, e.sent)
  {
    AcksAreOrdered(cfg, h);
    LegalInv(cfg, h);
    LegalAppend(cfg, h, e);
    LegalInv(cfg, h + [e]);
    assert Before(h + [e]) == h;
    WireOfAppend(Observe(h).issued, Observe(h).acked, e.sent);
  }
}
