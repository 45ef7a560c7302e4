/** The ordering rule of section 4.6 of MQTT Version 5.0 for the client as a whole: whatever managers
    come and go, packets are acknowledged in the order in which they arrived. */
module ClientOrder {
  import opened Common
  import Acks = AckOrdering
  import AckSafety
  import opened ClientProtocol
  import opened ClientAcks

  /** Where a packet first arrived. */
  function Pos(s: seq<nat>, p: nat): (i: nat)
    requires p in s
    ensures i < |s| && s[i] == p
  {
    if p in s[..|s| - 1] then Pos(s[..|s| - 1], p) else |s| - 1
  }

  ghost predicate Precedes(received: seq<nat>, p: nat, q: nat) {
    p in received && q in received && Pos(received, p) < Pos(received, q)
  }

  lemma PosAppend(s: seq<nat>, x: nat)
    ensures forall p | p in s :: Pos(s + [x], p) == Pos(s, p)
    ensures x !in s ==> Pos(s + [x], x) == |s|
  {
    assert (s + [x])[..|s|] == s;
  }

  lemma PrecedesAppend(s: seq<nat>, x: nat)
    ensures forall p, q | Precedes(s, p, q) :: Precedes(s + [x], p, q)
    ensures x !in s ==> forall p | p in s :: Precedes(s + [x], p, x)
  {
    PosAppend(s, x);
  }

  /** Acknowledged in order of arrival, each packet once. */
  ghost predicate InOrder(log: seq<Ack>, received: seq<nat>) {
    && (forall k | 0 <= k < |log| :: log[k].packet in received)
    && (forall i, j | 0 <= i < j < |log| :: Precedes(received, log[i].packet, log[j].packet))
  }

  /** The current manager numbers packets as they arrive, and what it has pending arrived after
      everything acknowledged so far. */
  ghost predicate Follows(log: seq<Ack>, received: seq<nat>, issued: map<nat, Option<nat>>, pending: set<nat>) {
    && (forall n | n in issued :: issued[n].Some? && issued[n].value in received)
    && (forall n, m | n in issued && m in issued && n < m :: Precedes(received, issued[n].value, issued[m].value))
    && pending <= issued.Keys
    && (forall n, k | n in pending && 0 <= k < |log| :: Precedes(received, log[k].packet, issued[n].value))
  }

  lemma RegisterKeepsOrder(log: seq<Ack>, received: seq<nat>, issued: map<nat, Option<nat>>, pending: set<nat>,
                           n: nat, p: nat, pending': set<nat>)
    requires InOrder(log, received) && Follows(log, received, issued, pending)
    requires p !in received && (forall m | m in issued :: m < n) && pending' <= pending + {n}
    ensures InOrder(log, received + [p]) && Follows(log, received + [p], issued[n := Some(p)], pending')
  {
    PrecedesAppend(received, p);
    hide Precedes;
  }

  lemma AtOnceKeepsOrder(log: seq<Ack>, received: seq<nat>, issued: map<nat, Option<nat>>, p: nat)
    requires InOrder(log, received) && Follows(log, received, issued, {}) && p !in received
    ensures InOrder(log + [AtOnce(p)], received + [p]) && Follows(log + [AtOnce(p)], received + [p], issued, {})
  {
    PrecedesAppend(received, p);
    hide Precedes;
  }

  lemma FlushKeepsOrder(log: seq<Ack>, received: seq<nat>, issued: map<nat, Option<nat>>, pending: set<nat>,
                        sent: seq<nat>, acks: seq<Ack>, pending': set<nat>)
    requires InOrder(log, received) && Follows(log, received, issued, pending)
    requires |acks| == |sent| && Acks.Increasing(sent) && pending' <= pending
    requires forall k | 0 <= k < |sent| :: sent[k] in pending && acks[k].packet == issued[sent[k]].value
    requires forall n, k | n in pending' && 0 <= k < |sent| :: sent[k] < n
    ensures InOrder(log + acks, received) && Follows(log + acks, received, issued, pending')
  {
    hide Precedes;
    var all := log + acks;
    forall i, j | 0 <= i < j < |all|
      ensures Precedes(received, all[i].packet, all[j].packet)
    {
      if j >= |log| {
        assert sent[j - |log|] in pending;
        if i >= |log| { assert sent[i - |log|] < sent[j - |log|]; }
      }
    }
    forall n, k | n in pending' && 0 <= k < |all|
      ensures Precedes(received, all[k].packet, issued[n].value)
    {
      if k >= |log| { assert sent[k - |log|] in pending && sent[k - |log|] < n; }
    }
    forall k | 0 <= k < |all|
      ensures all[k].packet in received
    {
      if k >= |log| { assert sent[k - |log|] in pending; }
    }
  }

  lemma FewerKeepsOrder(log: seq<Ack>, received: seq<nat>, issued: map<nat, Option<nat>>, pending: set<nat>,
                        pending': set<nat>)
    requires Follows(log, received, issued, pending) && pending' <= pending
    ensures Follows(log, received, issued, pending')
  {}

  // ---------------------------------------------------------------------------
  // One step of the client
  // ---------------------------------------------------------------------------

  ghost function PendingOf(cfg: Acks.Config, h: Acks.History): set<nat> {
    if Acks.Legal(cfg, h) then Acks.Replay(cfg, h).pending.Keys else {}
  }

  function IssuedBy(h: Acks.History): map<nat, Option<nat>> {
    Acks.Observe(h).issued
  }

  /** The order holds of the log, and of the current manager if there is one. */
  ghost predicate Ordered(cfg: Acks.Config, c: Client, log: seq<Ack>, received: seq<nat>) {
    && InOrder(log, received)
    && (c.managers != [] ==>
          var h := c.managers[|c.managers| - 1]; Follows(log, received, IssuedBy(h), PendingOf(cfg, h)))
  }

  lemma RegisteredEntry(cfg: Acks.Config, h: Acks.History, e: Acks.Entry)
    requires LegalIn(cfg, h, e) && e.Registered? && cfg.maxPendingSize >= 1
    ensures IssuedBy(h + [e]) == IssuedBy(h)[e.recvSeq := e.ackFn]
    ensures forall m | m in IssuedBy(h) :: m < e.recvSeq
    ensures PendingOf(cfg, h + [e]) <= PendingOf(cfg, h) + {e.recvSeq}
  {
    AckSafety.LegalInv(cfg, h);
    AckSafety.LegalAppend(cfg, h, e);
    assert Acks.Before(h + [e]) == h;
  }

  lemma OtherEntry(cfg: Acks.Config, h: Acks.History, e: Acks.Entry)
    requires LegalIn(cfg, h, e) && !e.Registered? && cfg.maxPendingSize >= 1
    ensures IssuedBy(h + [e]) == IssuedBy(h) && PendingOf(cfg, h + [e]) <= PendingOf(cfg, h)
  {
    AckSafety.LegalAppend(cfg, h, e);
    assert Acks.Before(h + [e]) == h;
  }

  lemma FlushedEntry(cfg: Acks.Config, h: Acks.History, e: Acks.Entry)
    requires LegalIn(cfg, h, e) && e.Flushed? && cfg.maxPendingSize >= 1
    ensures Acks.Increasing(e.sent) && forall k | 0 <= k < |e.sent| :: e.sent[k] in PendingOf(cfg, h)
    ensures forall n, k | n in PendingOf(cfg, h + [e]) && 0 <= k < |e.sent| :: e.sent[k] < n
    ensures !Running(h) ==> e.sent == []
  {
    AckSafety.LegalInv(cfg, h);
    AckSafety.LegalAppend(cfg, h, e);
  }

  lemma DeafHasNothing(cfg: Acks.Config, run: seq<Event>)
    requires Legal(cfg, run) && Deaf(After(run)) && After(run).managers != [] && cfg.maxPendingSize >= 1
    ensures PendingOf(cfg, After(run).managers[|After(run).managers| - 1]) == {}
  {
    ManagersLegal(cfg, run);
    if After(run).stopped { StoppedCurrentIsIdle(cfg, run); }
    else { HaltedIsIdle(cfg, After(run).managers[|After(run).managers| - 1]); }
  }

  lemma PublishKeepsOrder(cfg: Acks.Config, run: seq<Event>, log: seq<Ack>, received: seq<nat>, p: nat, e: Acks.Entry)
    requires Legal(cfg, run) && Enabled(cfg, After(run), Publish(p, e)) && cfg.maxPendingSize >= 1
    requires Ordered(cfg, After(run), log, received) && p !in received
    ensures Ordered(cfg, Step(After(run), Publish(p, e)), log + AcksOf(After(run), Publish(p, e)), received + [p])
  {
    hide InOrder, Follows, Legal, After, IssuedBy, PendingOf, LegalIn;
    var c := After(run);
    AtOnceIffDeaf(cfg, c, p, e);
    if Deaf(c) {
      if c.managers == [] {
        AtOnceKeepsOrder(log, received, map[], p) by { NothingFollows(log, received); }
      } else {
        var h := c.managers[|c.managers| - 1];
        DeafHasNothing(cfg, run);
        AtOnceKeepsOrder(log, received, IssuedBy(h), p);
        if !c.stopped {
          OtherEntry(cfg, h, e);
          assert PendingOf(cfg, h + [e]) == {};
        }
      }
    } else {
      var h := c.managers[|c.managers| - 1];
      RegisteredEntry(cfg, h, e);
      RegisterKeepsOrder(log, received, IssuedBy(h), PendingOf(cfg, h), e.recvSeq, p, PendingOf(cfg, h + [e]));
      assert log + [] == log;
    }
  }

  lemma NothingFollows(log: seq<Ack>, received: seq<nat>)
    ensures Follows(log, received, map[], {})
  {}

  lemma TickKeepsOrder(cfg: Acks.Config, run: seq<Event>, log: seq<Ack>, received: seq<nat>, i: nat, e: Acks.Entry)
    requires Legal(cfg, run) && Enabled(cfg, After(run), Tick(i, e)) && cfg.maxPendingSize >= 1
    requires Ordered(cfg, After(run), log, received) && OnlyLastRuns(After(run).managers)
    ensures Ordered(cfg, Step(After(run), Tick(i, e)), log + AcksOf(After(run), Tick(i, e)), received)
  {
    hide InOrder, Follows, Legal, After, IssuedBy, PendingOf, LegalIn, Running, Acks.WireOf, Acks.Observe;
    var c := After(run);
    var h, acks := c.managers[i], AcksOf(c, Tick(i, e));
    OtherEntry(cfg, h, e);
    if e.Flushed? {
      FlushedEntry(cfg, h, e);
      FlushAcks(cfg, run, i, e);
    }
    if i < |c.managers| - 1 {
      assert log + acks == log;
    } else if e.Flushed? {
      IssuedIs(h);
      FlushKeepsOrder(log, received, IssuedBy(h), PendingOf(cfg, h), e.sent, acks, PendingOf(cfg, h + [e]));
    } else {
      FewerKeepsOrder(log, received, IssuedBy(h), PendingOf(cfg, h), PendingOf(cfg, h + [e]));
      assert log + [] == log;
    }
  }

  lemma IssuedIs(h: Acks.History)
    ensures IssuedBy(h) == Acks.Observe(h).issued
  {}

  lemma NewManagerOrdered(cfg: Acks.Config, log: seq<Ack>, received: seq<nat>)
    ensures IssuedBy([]) == map[] && PendingOf(cfg, []) == {} && Follows(log, received, map[], {})
  {}

  lemma HaltKeepsOrder(cfg: Acks.Config, ms: seq<Acks.History>, log: seq<Ack>, received: seq<nat>)
    requires ms != [] && Acks.Legal(cfg, ms[|ms| - 1]) && cfg.maxPendingSize >= 1
    requires Follows(log, received, IssuedBy(ms[|ms| - 1]), PendingOf(cfg, ms[|ms| - 1]))
    ensures var h := StopLast(ms)[|ms| - 1]; Follows(log, received, IssuedBy(h), PendingOf(cfg, h))
  {
    hide IssuedBy, PendingOf, Follows;
    var h := ms[|ms| - 1];
    OtherEntry(cfg, h, Acks.Halted);
    FewerKeepsOrder(log, received, IssuedBy(h), PendingOf(cfg, h), PendingOf(cfg, h + [Acks.Halted]));
  }

  lemma OtherStepKeepsOrder(cfg: Acks.Config, c: Client, e: Event, log: seq<Ack>, received: seq<nat>)
    requires Enabled(cfg, c, e) && !e.Publish? && !e.Tick? && cfg.maxPendingSize >= 1
    requires Ordered(cfg, c, log, received) && (c.managers != [] ==> Acks.Legal(cfg, c.managers[|c.managers| - 1]))
    ensures Ordered(cfg, Step(c, e), log, received)
  {
    hide InOrder, Follows, IssuedBy, PendingOf, LegalIn, Acks.Legal;
    var ms := c.managers;
    NewManagerOrdered(cfg, log, received);
    if ms != [] {
      HaltKeepsOrder(cfg, ms, log, received);
      if e.Report? {
        var h := ms[|ms| - 1];
        OtherEntry(cfg, h, e.entry);
        FewerKeepsOrder(log, received, IssuedBy(h), PendingOf(cfg, h), PendingOf(cfg, h + [e.entry]));
      }
    }
  }

  lemma {:induction false} AlwaysOrdered(cfg: Acks.Config, run: seq<Event>)
    requires Legal(cfg, run) && LeakFree(run) && NoRepeat(Received(run)) && cfg.maxPendingSize >= 1
    ensures Ordered(cfg, After(run), AckLog(run), Received(run))
    decreases |run|
  {
    hide Ordered, Enabled, Step, Leaks, LeakFree, NoRepeat;
    if run == [] {
      EmptyOrdered(cfg);
    } else {
      var r, e := run[..|run| - 1], run[|run| - 1];
      PrefixLeakFree(run);
      OnlyLastRunsIff(cfg, r);
      ManagersLegal(cfg, r);
      assert r + [e] == run;
      LogExtends(r, e);
      if e.Publish? {
        AppendNoRepeat(Received(r), e.packet);
        AlwaysOrdered(cfg, r);
        PublishKeepsOrder(cfg, r, AckLog(r), Received(r), e.packet, e.entry);
      } else {
        assert Received(r) + [] == Received(r);
        AlwaysOrdered(cfg, r);
        if e.Tick? {
          TickKeepsOrder(cfg, r, AckLog(r), Received(r), e.manager, e.entry);
        } else {
          OtherStepKeepsOrder(cfg, After(r), e, AckLog(r), Received(r));
          assert AckLog(r) + [] == AckLog(r);
        }
      }
    }
  }

  lemma EmptyOrdered(cfg: Acks.Config)
    ensures Ordered(cfg, NEW_CLIENT, [], [])
  {}

  /** On every run in which no Start drops a running manager, over all connections, reports, stops and
      reconnects, the acknowledged packets, whether flushed or acknowledged at once, are packets that
      arrived, each acknowledged at most once and all in the order of their arrival. */
  lemma AcksFollowArrivals(cfg: Acks.Config, run: seq<Event>)
    requires Legal(cfg, run) && LeakFree(run) && NoRepeat(Received(run)) && cfg.maxPendingSize >= 1
    ensures var log, received := AckLog(run), Received(run);
            && (forall k | 0 <= k < |log| :: log[k].packet in received)
            && (forall i, j, a, b | 0 <= i < j < |log| && 0 <= a < |received| && 0 <= b < |received|
                  && received[a] == log[i].packet && received[b] == log[j].packet :: a < b)
  {
    AlwaysOrdered(cfg, run);
    var log, received := AckLog(run), Received(run);
    hide AckLog, Received, Legal, LeakFree;
    forall i, j, a, b | 0 <= i < j < |log| && 0 <= a < |received| && 0 <= b < |received|
      && received[a] == log[i].packet && received[b] == log[j].packet
      ensures a < b
    {
      assert Precedes(received, log[i].packet, log[j].packet);
      assert a == Pos(received, log[i].packet) && b == Pos(received, log[j].packet);
    }
  }

  // A Start that drops a running manager breaks the order: packet 8 arrives on the second connection
  // and is acknowledged before packet 7, which the first one's flush loop releases later.
  const AHEAD: seq<Event> :=
    [StartBegin(true), Publish(8, EIGHT), Report(8, LATE), Tick(1, Acks.Flushed([1])), Tick(0, Acks.Flushed([1]))]

  lemma LeakLog(cfg: Acks.Config)
    ensures AckLog(LEAK_RUN[..4]) == [] && Received(LEAK_RUN[..4]) == [7]
  {
    var r := LEAK_RUN;
    hide AckLog, Received, After, ArrivedDeaf;
    assert [] + [r[0]] == r[..1] && r[..1] + [r[1]] == r[..2] && r[..2] + [r[2]] == r[..3] && r[..3] + [r[3]] == r[..4];
    EmptyLog();
    LogExtends([], r[0]);
    LogExtends(r[..1], r[1]);
    assert !After(r[..2]).stopped by { LeakStart(cfg); }
    LogExtends(r[..2], r[2]);
    LogExtends(r[..3], r[3]);
  }

  lemma Next(cfg: Acks.Config, run: seq<Event>, e: Event)
    requires Legal(cfg, run) && Enabled(cfg, After(run), e)
    ensures Legal(cfg, run + [e]) && After(run + [e]) == Step(After(run), e)
    ensures AckLog(run + [e]) == AckLog(run) + AcksOf(After(run), e)
    ensures Received(run + [e]) == Received(run) + if e.Publish? then [e.packet] else []
  {
    Extend(cfg, run, e);
    LogExtends(run, e);
  }

  lemma IssuedOne(p: nat, at: int)
    ensures Acks.Observe([Acks.Registered(1, Some(p), at, None), LATE]).issued == map[1 := Some(p)]
  {
    var e := Acks.Registered(1, Some(p), at, None);
    assert Acks.Before([e, LATE]) == [e] && Acks.Before([e]) == [];
    assert Acks.Observe([e]).issued == map[1 := Some(p)];
  }

  /** A second connection takes packet `p` to its worker's report. */
  lemma SecondConnection(cfg: Acks.Config, run: seq<Event>, h: Acks.History, p: nat, a: Acks.Entry, b: Acks.Entry)
    requires Legal(cfg, run) && After(run) == Client(StateConnected, false, [h])
    requires a.Registered? && a.ackFn == Some(p) && LegalIn(cfg, [], a) && b.Completed? && LegalIn(cfg, [a], b)
    ensures var more := run + [StartBegin(true)] + [Publish(p, a)] + [Report(p, b)];
            && Legal(cfg, more) && After(more) == Client(StateConnecting, false, [h, [a, b]])
            && AckLog(more) == AckLog(run) && Received(more) == Received(run) + [p]
  {
    hide Legal, After, AckLog, Received, LegalIn, Acks.Observe;
    var r1 := run + [StartBegin(true)];
    var r2 := r1 + [Publish(p, a)];
    Next(cfg, run, StartBegin(true));
    Next(cfg, r1, Publish(p, a));
    assert [] + [a] == [a] && [a] + [b] == [a, b];
    assert After(r2) == Client(StateConnecting, false, [h, [a]]);
    Next(cfg, r2, Report(p, b));
  }

  /** A flush of number 1 alone acknowledges its packet. */
  lemma FlushOne(cfg: Acks.Config, run: seq<Event>, i: nat, p: nat)
    requires Legal(cfg, run) && Enabled(cfg, After(run), Tick(i, Acks.Flushed([1]))) && cfg.maxPendingSize >= 1
    requires Acks.Observe(After(run).managers[i]).issued == map[1 := Some(p)]
    ensures AckLog(run + [Tick(i, Acks.Flushed([1]))]) == AckLog(run) + [ByManager(p, i)]
  {
    hide Legal, After, AckLog, Received, ArrivedDeaf, Acks.Observe, AcksOf;
    FlushAcks(cfg, run, i, Acks.Flushed([1]));
    LogExtends(run, Tick(i, Acks.Flushed([1])));
    assert AcksOf(After(run), Tick(i, Acks.Flushed([1]))) == [ByManager(p, i)];
  }

  lemma LeakBreaksOrder(cfg: Acks.Config)
    requires cfg.maxPendingSize >= 1
    ensures Legal(cfg, LEAK_RUN[..4] + AHEAD) && Received(LEAK_RUN[..4] + AHEAD) == [7, 8]
    ensures AckLog(LEAK_RUN[..4] + AHEAD) == [ByManager(8, 1), ByManager(7, 0)]
  {
    hide Legal, After, AckLog, Received, LegalIn, Acks.Observe, AcksOf;
    LeakMiddle(cfg);
    LeakLog(cfg);
    LateManagers(cfg);
    SecondConnection(cfg, LEAK_RUN[..4], [SEVEN, LATE], 8, EIGHT, LATE);
    var run := LEAK_RUN[..4] + [StartBegin(true)] + [Publish(8, EIGHT)] + [Report(8, LATE)];
    LeakedManagers(cfg);
    IssuedOne(7, 0);
    IssuedOne(8, 1);
    FlushOne(cfg, run, 1, 8);
    Next(cfg, run, AHEAD[3]);
    FlushOne(cfg, run + [AHEAD[3]], 0, 7);
    Next(cfg, run + [AHEAD[3]], AHEAD[4]);
    assert run + [AHEAD[3]] + [AHEAD[4]] == LEAK_RUN[..4] + AHEAD;
  }
}
