/** Every acknowledgement a client gives, in either of its two ways: a manager's flush loop sends the
    PUBACKs of the packets registered with it, and a packet that arrives while the client or its
    current manager is stopped is acknowledged at once, unprocessed.  One log holds both. */
module ClientAcks {
  import opened Common
  import Acks = AckOrdering
  import AckSafety
  import opened ClientProtocol

  datatype Ack = AtOnce(packet: nat) | ByManager(packet: nat, manager: nat)

  function Tagged(packets: seq<nat>, i: nat): seq<Ack> {
    seq(|packets|, k requires 0 <= k < |packets| => ByManager(packets[k], i))
  }

  function AllAtOnce(packets: seq<nat>): seq<Ack> {
    seq(|packets|, k requires 0 <= k < |packets| => AtOnce(packets[k]))
  }

  /** The acknowledgements given in one step. */
  function AcksOf(c: Client, e: Event): seq<Ack> {
    match e
    case Publish(packet, entry) => if c.stopped || entry.RegisterRefused? then [AtOnce(packet)] else []
    case Tick(i, Flushed(sent)) =>
      if i < |c.managers| then Tagged(Acks.WireOf(Acks.Observe(c.managers[i]).issued, sent), i) else []
    case _ => []
  }

  function AckLog(run: seq<Event>): seq<Ack> {
    if run == [] then [] else
      AckLog(run[..|run| - 1]) + AcksOf(After(run[..|run| - 1]), run[|run| - 1])
  }

  /** The packets that arrived, in order. */
  function Received(run: seq<Event>): seq<nat> {
    if run == [] then [] else
      Received(run[..|run| - 1]) + if run[|run| - 1].Publish? then [run[|run| - 1].packet] else []
  }

  /** A packet is one delivery. */
  ghost predicate NoRepeat(s: seq<nat>) {
    forall i, j | 0 <= i < j < |s| :: s[i] != s[j]
  }

  /** What decides about an arriving packet. */
  predicate Deaf(c: Client) {
    c.stopped || (c.managers != [] && !Running(c.managers[|c.managers| - 1]))
  }

  predicate ArrivedDeaf(run: seq<Event>, p: nat) {
    run != [] &&
    (ArrivedDeaf(run[..|run| - 1], p) ||
     (run[|run| - 1].Publish? && run[|run| - 1].packet == p && Deaf(After(run[..|run| - 1]))))
  }

  lemma LogExtends(run: seq<Event>, e: Event)
    ensures AckLog(run + [e]) == AckLog(run) + AcksOf(After(run), e)
    ensures Received(run + [e]) == Received(run) + if e.Publish? then [e.packet] else []
    ensures forall p :: ArrivedDeaf(run + [e], p) <==>
                        ArrivedDeaf(run, p) || (e.Publish? && e.packet == p && Deaf(After(run)))
  {
    assert (run + [e])[..|run|] == run;
  }

  /** A packet is acknowledged on arrival exactly when the client or its current manager is stopped. */
  lemma AtOnceIffDeaf(cfg: Acks.Config, c: Client, packet: nat, entry: Acks.Entry)
    requires Enabled(cfg, c, Publish(packet, entry)) && cfg.maxPendingSize >= 1
    ensures AcksOf(c, Publish(packet, entry)) == if Deaf(c) then [AtOnce(packet)] else []
  {
    if !c.stopped { AckSafety.LegalInv(cfg, c.managers[|c.managers| - 1]); }
  }

  /** After a server disconnect and the connection-up that follows, a message is refused by the stopped
      manager and acknowledged unprocessed. */
  lemma ReconnectAfterServerDisconnectIsDeaf(cfg: Acks.Config, c: Client, packet: nat, entry: Acks.Entry)
    requires c.managers != [] && !c.stopped && cfg.maxPendingSize >= 1
    requires Enabled(cfg, Step(Step(c, ServerDisconnect), ConnectionUp), Publish(packet, entry))
    ensures entry.RegisterRefused?
    ensures AcksOf(Step(Step(c, ServerDisconnect), ConnectionUp), Publish(packet, entry)) == [AtOnce(packet)]
  {
    var d := Step(Step(c, ServerDisconnect), ConnectionUp);
    AppendRuns(c.managers[|c.managers| - 1], Acks.Halted);
    AtOnceIffDeaf(cfg, d, packet, entry);
  }

  /** So is every later one, until the client is started again or the connection comes up once more
      while its state is Connected; a stopped client stays deaf for good. */
  lemma DeafEndsIff(cfg: Acks.Config, c: Client, e: Event)
    requires Deaf(c) && Enabled(cfg, c, e)
    ensures !Deaf(Step(c, e)) <==>
              !c.stopped && (e == StartBegin(true) || (e.ConnectionUp? && c.state == StateConnected))
  {
    var ms := c.managers;
    if ms != [] {
      AppendRuns(ms[|ms| - 1], Acks.Halted);
      match e {
        case Publish(_, entry) => AppendRuns(ms[|ms| - 1], entry);
        case Report(_, entry) => AppendRuns(ms[|ms| - 1], entry);
        case Tick(i, entry) => AppendRuns(ms[i], entry);
        case _ =>
      }
    }
  }

  // ---------------------------------------------------------------------------
  // What a flush acknowledges
  // ---------------------------------------------------------------------------

  /** Every number was issued to some packet. */
  ghost predicate Named(cs: seq<Claim>) {
    forall i, n | 0 <= i < |cs| && n in cs[i].issued :: cs[i].issued[n].Some?
  }

  lemma NewManagerNamed(ms: seq<Acks.History>)
    requires Named(Claims(ms))
    ensures Named(Claims(ms + [[]]))
  {
    assert Claims(ms + [[]]) == Claims(ms) + [Claim(map[], map[])];
  }

  lemma AppendNamed(ms: seq<Acks.History>, i: nat, e: Acks.Entry)
    requires i < |ms| && Named(Claims(ms)) && (e.Registered? ==> e.ackFn.Some?)
    ensures Named(Claims(Append(ms, i, e)))
  {
    AppendClaim(ms, i, e);
    hide Claims, Append;
    var cs := Claims(ms);
    assert e.Completed? || e.RetryResolved? || e.Registered? || Quiet(e);
  }

  lemma StepStaysNamed(cfg: Acks.Config, c: Client, e: Event)
    requires Named(Claims(c.managers)) && Enabled(cfg, c, e)
    ensures Named(Claims(Step(c, e).managers))
  {
    hide LegalIn, Named, Claims, Append;
    var ms := c.managers;
    match e {
      case StartBegin(_) => NewManagerNamed(ms);
      case ConnectionUp =>
        StopKeepsClaims(ms);
        NewManagerNamed(StopLast(ms));
      case ServerDisconnect => StopKeepsClaims(ms);
      case StopCalled => StopKeepsClaims(ms);
      case Publish(_, entry) => if !c.stopped { AppendNamed(ms, |ms| - 1, entry); }
      case Report(_, entry) => if ms != [] { AppendNamed(ms, |ms| - 1, entry); }
      case Tick(i, entry) => AppendNamed(ms, i, entry);
      case _ =>
    }
  }

  lemma {:induction false} AlwaysNamed(cfg: Acks.Config, run: seq<Event>)
    requires Legal(cfg, run)
    ensures Named(Claims(After(run).managers))
    decreases |run|
  {
    hide Step, Enabled, Claims;
    if run == [] {
      NoneNamed();
    } else {
      AlwaysNamed(cfg, run[..|run| - 1]);
      StepStaysNamed(cfg, After(run[..|run| - 1]), run[|run| - 1]);
    }
  }

  lemma NoneNamed()
    ensures Named(Claims([]))
  {}

  lemma {:induction false} WireOfNamed(issued: map<nat, Option<nat>>, log: seq<nat>)
    requires forall n | n in log :: n in issued && issued[n].Some?
    ensures |Acks.WireOf(issued, log)| == |log|
    ensures forall k | 0 <= k < |log| :: Acks.WireOf(issued, log)[k] == issued[log[k]].value
  {
    if log != [] {
      assert log[|log| - 1] in log;
      WireOfNamed(issued, log[..|log| - 1]);
    }
  }

  /** A flush acknowledges, in order, the packet of each number it releases. */
  lemma FlushAcks(cfg: Acks.Config, run: seq<Event>, i: nat, e: Acks.Entry)
    requires Legal(cfg, run) && Enabled(cfg, After(run), Tick(i, e)) && e.Flushed? && cfg.maxPendingSize >= 1
    ensures var issued, acks := Acks.Observe(After(run).managers[i]).issued, AcksOf(After(run), Tick(i, e));
            && |acks| == |e.sent|
            && forall k | 0 <= k < |e.sent| ::
                 e.sent[k] in issued && issued[e.sent[k]].Some? && acks[k] == ByManager(issued[e.sent[k]].value, i)
  {
    AlwaysNamed(cfg, run);
    var c, h := After(run), After(run).managers[i];
    assert Claims(c.managers)[i] == ClaimOf(h);
    forall n | n in e.sent
      ensures n in Acks.Observe(h).issued
    {
      var k :| 0 <= k < |e.sent| && e.sent[k] == n;
      AckSafety.LegalInv(cfg, h);
      AckSafety.ReleaseIsJustified(cfg, Acks.Replay(cfg, h), Acks.Observe(h), e, k);
    }
    hide Legal, After, Acks.Observe, Acks.WireOf;
    WireOfNamed(Acks.Observe(h).issued, e.sent);
  }

  // ---------------------------------------------------------------------------
  // An acknowledged packet's own report
  // ---------------------------------------------------------------------------

  lemma {:induction false} NotArrived(run: seq<Event>, p: nat)
    requires p !in Received(run)
    ensures !ArrivedDeaf(run, p)
  {
    if run != [] { NotArrived(run[..|run| - 1], p); }
  }

  lemma AppendNoRepeat(s: seq<nat>, x: nat)
    requires NoRepeat(s + [x])
    ensures NoRepeat(s) && x !in s
  {
    var t := s + [x];
    assert forall i | 0 <= i < |s| :: t[i] == s[i] && t[|s|] == x;
  }

  /** A registered packet arrived while client and manager were running. */
  lemma {:induction false} HomeWasHeard(cfg: Acks.Config, run: seq<Event>, p: nat)
    requires Legal(cfg, run) && NoRepeat(Received(run)) && p in JournalOf(run).home && cfg.maxPendingSize >= 1
    ensures p in Received(run) && !ArrivedDeaf(run, p)
    decreases |run|
  {
    hide NoRepeat, Deaf;
    var r, e := run[..|run| - 1], run[|run| - 1];
    if e.Publish? {
      AppendNoRepeat(Received(r), e.packet);
      AtOnceIffDeaf(cfg, After(r), e.packet, e.entry);
    }
    assert !e.Publish? ==> Received(run) == Received(r);
    if e.Publish? && e.packet == p && p !in JournalOf(r).home {
      NotArrived(r, p);
    } else {
      HomeWasHeard(cfg, r, p);
    }
  }

  /** A packet acknowledged on arrival has no report. */
  lemma AtOnceUnreported(cfg: Acks.Config, run: seq<Event>, p: nat)
    requires Legal(cfg, run) && OwnReports(run) && NoRepeat(Received(run) + [p]) && cfg.maxPendingSize >= 1
    ensures p !in JournalOf(run).reports
  {
    hide NoRepeat, Truthful;
    AppendNoRepeat(Received(run), p);
    RunStaysTruthful(cfg, run);
    ReportsHaveHomes(Claims(After(run).managers), JournalOf(run));
    if p in JournalOf(run).home { HomeWasHeard(cfg, run, p); }
  }

  /** A packet that a flush acknowledges was heard when it arrived and reported since. */
  lemma FlushedReported(cfg: Acks.Config, run: seq<Event>, i: nat, e: Acks.Entry, k: nat)
    requires Legal(cfg, run) && OwnReports(run) && NoRepeat(Received(run)) && cfg.maxPendingSize >= 1
    requires Enabled(cfg, After(run), Tick(i, e)) && e.Flushed? && k < |AcksOf(After(run), Tick(i, e))|
    ensures var p, reports := AcksOf(After(run), Tick(i, e))[k].packet, JournalOf(run).reports;
            p in reports && reports[p] != Acks.Retry && !ArrivedDeaf(run, p)
  {
    FlushAcks(cfg, run, i, e);
    hide NoRepeat, AcksOf, Enabled, Legal, OwnReports, Acks.Observe;
    FlushMeansOwnDecision(cfg, run, i, e, k);
    RunStaysTruthful(cfg, run);
    IssuedHaveHomes(After(run).managers, JournalOf(run).home, i, e.sent[k]);
    HomeWasHeard(cfg, run, AcksOf(After(run), Tick(i, e))[k].packet);
  }

  /** On every run where workers only report their own packets' numbers to the manager that issued
      them, and at every acknowledgement in it: the packet's own worker has last reported something
      other than Retry, if and only if the packet did not arrive while the client or its current
      manager was stopped. */
  lemma AckedOnOwnReportIff(cfg: Acks.Config, run: seq<Event>, e: Event, k: nat)
    requires Legal(cfg, run) && Enabled(cfg, After(run), e) && OwnReports(run) && cfg.maxPendingSize >= 1
    requires NoRepeat(Received(run + [e])) && k < |AcksOf(After(run), e)|
    ensures var p, reports := AcksOf(After(run), e)[k].packet, JournalOf(run).reports;
            (p in reports && reports[p] != Acks.Retry) <==> !ArrivedDeaf(run + [e], p)
  {
    LogExtends(run, e);
    hide NoRepeat, Legal, After, JournalOf, OwnReports, ArrivedDeaf, Received, Acks.Observe, Deaf;
    if e.Publish? {
      AtOnceIffDeaf(cfg, After(run), e.packet, e.entry);
      AtOnceUnreported(cfg, run, e.packet);
    } else {
      assert Received(run) + [] == Received(run);
      FlushedReported(cfg, run, e.manager, e.entry, k);
    }
  }

  lemma ReportsHaveHomes(cs: seq<Claim>, j: Journal)
    requires Truthful(cs, j)
    ensures forall p | p in j.reports :: p in j.home
  {}

  lemma IssuedHaveHomes(ms: seq<Acks.History>, home: map<nat, (nat, nat)>, i: nat, n: nat)
    requires AtHome(Claims(ms), home) && i < |ms| && n in Acks.Observe(ms[i]).issued
    ensures Acks.Observe(ms[i]).issued[n].Some? && Acks.Observe(ms[i]).issued[n].value in home
  {
    assert Claims(ms)[i].issued == Acks.Observe(ms[i]).issued;
  }

  // After a server disconnect the connection that follows keeps the stopped manager: packet 9 is
  // acknowledged though nobody processed it.
  const DEAF_RUN: seq<Event> := [StartBegin(true), StartDone(true), ServerDisconnect, ConnectionUp]

  lemma ExtendOwn(run: seq<Event>, e: Event)
    requires OwnReports(run) && OwnEvent(After(run), JournalOf(run), e)
    ensures OwnReports(run + [e])
  {
    assert (run + [e])[..|run|] == run;
  }

  lemma QuietStep(cfg: Acks.Config, run: seq<Event>, e: Event)
    requires Legal(cfg, run) && OwnReports(run) && !e.Publish? && !e.Report? && !e.Tick?
    ensures Legal(cfg, run + [e]) && OwnReports(run + [e]) && After(run + [e]) == Step(After(run), e)
    ensures AckLog(run + [e]) == AckLog(run) && JournalOf(run + [e]) == JournalOf(run)
  {
    Extend(cfg, run, e);
    ExtendOwn(run, e);
    LogExtends(run, e);
  }

  lemma DeafStart(cfg: Acks.Config)
    ensures Legal(cfg, DEAF_RUN) && OwnReports(DEAF_RUN)
    ensures AckLog(DEAF_RUN) == [] && JournalOf(DEAF_RUN).reports == map[]
    ensures After(DEAF_RUN) == Client(StateConnected, false, [[Acks.Halted]])
  {
    var r := DEAF_RUN;
    QuietStep(cfg, [], r[0]);
    EmptyLog();
    hide Legal, OwnReports, After, AckLog, JournalOf;
    assert [] + [r[0]] == r[..1] && r[..1] + [r[1]] == r[..2] && r[..2] + [r[2]] == r[..3] && r[..3] + [r[3]] == r;
    assert [] + [Acks.Halted] == [Acks.Halted];
    QuietStep(cfg, r[..1], r[1]);
    QuietStep(cfg, r[..2], r[2]);
    QuietStep(cfg, r[..3], r[3]);
  }

  lemma EmptyLog()
    ensures AckLog([]) == [] && Received([]) == []
  {}

  lemma HaltedRefuses(cfg: Acks.Config)
    ensures LegalIn(cfg, [Acks.Halted], Acks.RegisterRefused)
  {
    AckSafety.LegalAppend(cfg, [], Acks.Halted);
    assert [] + [Acks.Halted] == [Acks.Halted];
  }

  lemma DeafClientAcksUnprocessed(cfg: Acks.Config)
    requires cfg.maxPendingSize >= 1
    ensures var e := Publish(9, Acks.RegisterRefused);
            && Legal(cfg, DEAF_RUN + [e]) && OwnReports(DEAF_RUN + [e]) && !After(DEAF_RUN).stopped
            && AckLog(DEAF_RUN + [e]) == [AtOnce(9)] && JournalOf(DEAF_RUN + [e]).reports == map[]
  {
    var e := Publish(9, Acks.RegisterRefused);
    hide Legal, LegalIn, OwnReports, After, JournalOf, AckLog, Received, ArrivedDeaf, Acks.Observe;
    DeafStart(cfg);
    HaltedRefuses(cfg);
    Extend(cfg, DEAF_RUN, e);
    ExtendOwn(DEAF_RUN, e);
    LogExtends(DEAF_RUN, e);
  }

  // ---------------------------------------------------------------------------
  // Acknowledgements after Stop
  // ---------------------------------------------------------------------------

  /** A mute client acknowledges an arriving packet and nothing else. */
  lemma MuteAcks(cfg: Acks.Config, c: Client, e: Event)
    requires Mute(cfg, c) && Enabled(cfg, c, e) && cfg.maxPendingSize >= 1
    ensures AcksOf(c, e) == if e.Publish? then [AtOnce(e.packet)] else []
  {
    if e.Tick? && e.entry.Flushed? {
      var h := c.managers[e.manager];
      assert StuckAfter(cfg, h);
      ReplayBounds(cfg, h);
      hide Acks.Replay, Acks.Legal, Acks.Enabled, Stuck, Acks.Observe;
      StuckSendsNothing(cfg, Acks.Replay(cfg, h), e.entry);
    }
  }

  lemma {:induction false} MuteLog(cfg: Acks.Config, run: seq<Event>, more: seq<Event>)
    requires Legal(cfg, run + more) && Mute(cfg, After(run)) && cfg.maxPendingSize >= 1
    ensures Mute(cfg, After(run + more)) && AckLog(run + more) == AckLog(run) + AllAtOnce(Received(more))
    decreases |more|
  {
    hide Mute, AcksOf, AllAtOnce, Enabled, Step;
    if more == [] {
      assert run + more == run && AllAtOnce([]) == [] by { NoneAtOnce(); }
    } else {
      var less, e := more[..|more| - 1], more[|more| - 1];
      assert (run + more)[..|run + more| - 1] == run + less;
      MuteLog(cfg, run, less);
      StepStaysMute(cfg, After(run + less), e);
      MuteAcks(cfg, After(run + less), e);
      AtOnceAppend(Received(less), e);
    }
  }

  lemma NoneAtOnce()
    ensures AllAtOnce([]) == []
  {}

  lemma AtOnceAppend(received: seq<nat>, e: Event)
    ensures AllAtOnce(received + if e.Publish? then [e.packet] else []) ==
              AllAtOnce(received) + if e.Publish? then [AtOnce(e.packet)] else []
  {}

  lemma UnstuckLog(cfg: Acks.Config, run: seq<Event>, i: nat)
    requires Legal(cfg, run) && cfg.maxPendingSize >= 1 && i < |After(run).managers|
    requires Acks.Legal(cfg, After(run).managers[i]) && !StuckAfter(cfg, After(run).managers[i])
    ensures exists more :: Legal(cfg, run + more) && AckLog(run + more) != AckLog(run) + AllAtOnce(Received(more))
  {
    hide Legal, After, AckLog, Received, Acks.Legal, StuckAfter, Acks.Observe, Acks.WireOf;
    var c := After(run);
    UnstuckHistory(cfg, c.managers[i]);
    var sweep, flush :| SendsBy(cfg, c.managers[i], sweep, flush);
    TickEnabled(cfg, c, i, sweep, flush);
    var s, f := Tick(i, sweep), Tick(i, flush);
    hide Enabled, Step, SendsBy, ArrivedDeaf;
    Extend(cfg, run, s);
    Extend(cfg, run + [s], f);
    FlushAcks(cfg, run + [s], i, flush);
    LogExtends(run, s);
    LogExtends(run + [s], f);
    EmptyLog();
    LogExtends([], s);
    LogExtends([s], f);
    assert run + [s, f] == run + [s] + [f] && [] + [s] == [s] && [s] + [f] == [s, f];
    assert |AckLog(run + [s, f])| == |AckLog(run)| + |flush.sent|;
    assert Received([s, f]) == [];
  }

  /** From a Stop on, whatever connections come up, reports arrive and loops tick, the only
      acknowledgements are the immediate ones of the packets that arrive, if and only if each manager
      the client ever had is stuck: one that a Start dropped while it had a message to send, at the
      front or behind ones a sweep removes, still sends it. */
  lemma StoppedClientAcksIff(cfg: Acks.Config, run: seq<Event>)
    requires Legal(cfg, run) && After(run).stopped && cfg.maxPendingSize >= 1
    ensures (forall more | Legal(cfg, run + more) :: AckLog(run + more) == AckLog(run) + AllAtOnce(Received(more)))
            <==> AllStuck(cfg, After(run).managers)
  {
    hide Idle;
    var ms := After(run).managers;
    ManagersLegal(cfg, run);
    hide Legal, After, Acks.Legal, StuckAfter, AckLog, Received;
    if AllStuck(cfg, ms) {
      if ms != [] { StoppedCurrentIsIdle(cfg, run); }
      forall more | Legal(cfg, run + more)
        ensures AckLog(run + more) == AckLog(run) + AllAtOnce(Received(more))
      {
        MuteLog(cfg, run, more);
      }
    } else {
      var i :| 0 <= i < |ms| && !StuckAfter(cfg, ms[i]);
      UnstuckLog(cfg, run, i);
    }
  }

  /** In particular where no Start dropped a running manager: what was pending is never acknowledged,
      even when a later connection-up gives the stopped client a running manager. */
  lemma StoppedClientAcksArrivals(cfg: Acks.Config, run: seq<Event>, more: seq<Event>)
    requires Legal(cfg, run + more) && LeakFree(run) && After(run).stopped && cfg.maxPendingSize >= 1
    ensures AckLog(run + more) == AckLog(run) + AllAtOnce(Received(more))
  {
    hide LeakFree, AllStuck, AckLog, Received;
    LegalStart(cfg, run, more);
    StoppedIsStuck(cfg, run);
    StoppedClientAcksIff(cfg, run);
  }

  // ---------------------------------------------------------------------------
  // The log and the managers' wires
  // ---------------------------------------------------------------------------

  /** The PUBACKs in the log that manager `i` sent. */
  function SentBy(log: seq<Ack>, i: nat): seq<nat> {
    if log == [] then [] else
      var a := log[|log| - 1];
      SentBy(log[..|log| - 1], i) + if a.ByManager? && a.manager == i then [a.packet] else []
  }

  lemma {:induction false} SentByAppend(log: seq<Ack>, more: seq<Ack>, i: nat)
    ensures SentBy(log + more, i) == SentBy(log, i) + SentBy(more, i)
    decreases |more|
  {
    if more == [] {
      assert log + more == log;
    } else {
      assert (log + more)[..|log + more| - 1] == log + more[..|more| - 1];
      SentByAppend(log, more[..|more| - 1], i);
    }
  }

  lemma {:induction false} SentByTagged(packets: seq<nat>, i: nat, j: nat)
    ensures SentBy(Tagged(packets, i), j) == if i == j then packets else []
    decreases |packets|
  {
    if packets != [] {
      assert Tagged(packets, i)[..|packets| - 1] == Tagged(packets[..|packets| - 1], i);
      SentByTagged(packets[..|packets| - 1], i, j);
    }
  }

  /** The wire of manager `i`, if there is one. */
  ghost function WireAt(cfg: Acks.Config, ms: seq<Acks.History>, i: nat): seq<nat> {
    if i < |ms| && Acks.Legal(cfg, ms[i]) then Acks.Replay(cfg, ms[i]).wire else []
  }

  lemma WireGrows(cfg: Acks.Config, h: Acks.History, e: Acks.Entry)
    requires LegalIn(cfg, h, e) && cfg.maxPendingSize >= 1
    ensures Acks.Legal(cfg, h + [e])
    ensures Acks.Replay(cfg, h + [e]).wire ==
              Acks.Replay(cfg, h).wire + if e.Flushed? then Acks.WireOf(Acks.Observe(h).issued, e.sent) else []
  {
    AckSafety.LegalAppend(cfg, h, e);
    if e.Flushed? {
      AckSafety.LegalInv(cfg, h);
      AckSafety.LegalInv(cfg, h + [e]);
      assert Acks.Before(h + [e]) == h;
      AckSafety.WireOfAppend(Acks.Observe(h).issued, Acks.Observe(h).acked, e.sent);
    }
  }

  lemma AppendWires(cfg: Acks.Config, ms: seq<Acks.History>, i: nat, e: Acks.Entry, j: nat)
    requires i < |ms| && LegalIn(cfg, ms[i], e) && cfg.maxPendingSize >= 1
    ensures WireAt(cfg, Append(ms, i, e), j) ==
              WireAt(cfg, ms, j) + if e.Flushed? && i == j then Acks.WireOf(Acks.Observe(ms[i]).issued, e.sent) else []
  {
    WireGrows(cfg, ms[i], e);
  }

  lemma NewWire(cfg: Acks.Config, ms: seq<Acks.History>, j: nat)
    ensures WireAt(cfg, ms + [[]], j) == WireAt(cfg, ms, j)
  {}

  lemma StopWires(cfg: Acks.Config, ms: seq<Acks.History>, j: nat)
    requires (ms != [] ==> Acks.Legal(cfg, ms[|ms| - 1])) && cfg.maxPendingSize >= 1
    ensures WireAt(cfg, StopLast(ms), j) == WireAt(cfg, ms, j)
  {
    if ms != [] { AppendWires(cfg, ms, |ms| - 1, Acks.Halted, j); }
  }

  lemma StepWires(cfg: Acks.Config, c: Client, e: Event, j: nat)
    requires Enabled(cfg, c, e) && (c.managers != [] ==> Acks.Legal(cfg, c.managers[|c.managers| - 1]))
    requires cfg.maxPendingSize >= 1
    ensures WireAt(cfg, Step(c, e).managers, j) == WireAt(cfg, c.managers, j) + SentBy(AcksOf(c, e), j)
  {
    hide LegalIn, WireAt, Acks.Legal, Acks.Observe, Acks.WireOf;
    var ms := c.managers;
    match e {
      case StartBegin(_) => NewWire(cfg, ms, j);
      case ConnectionUp =>
        StopWires(cfg, ms, j);
        NewWire(cfg, StopLast(ms), j);
      case ServerDisconnect => StopWires(cfg, ms, j);
      case StopCalled => StopWires(cfg, ms, j);
      case Publish(_, entry) => if !c.stopped { AppendWires(cfg, ms, |ms| - 1, entry, j); }
      case Report(_, entry) => if ms != [] { AppendWires(cfg, ms, |ms| - 1, entry, j); }
      case Tick(i, entry) =>
        AppendWires(cfg, ms, i, entry, j);
        if entry.Flushed? { SentByTagged(Acks.WireOf(Acks.Observe(ms[i]).issued, entry.sent), i, j); }
      case _ =>
    }
  }

  /** The log holds, beside the immediate acknowledgements, exactly what the managers put on their wires. */
  lemma {:induction false} LogIsWires(cfg: Acks.Config, run: seq<Event>, i: nat)
    requires Legal(cfg, run) && cfg.maxPendingSize >= 1
    ensures SentBy(AckLog(run), i) == WireAt(cfg, After(run).managers, i)
    decreases |run|
  {
    hide WireAt, AcksOf, Enabled, Step;
    if run == [] {
      assert WireAt(cfg, [], i) == [] by { NoWire(cfg, i); }
    } else {
      var r, e := run[..|run| - 1], run[|run| - 1];
      LogIsWires(cfg, r, i);
      ManagersLegal(cfg, r);
      StepWires(cfg, After(r), e, i);
      SentByAppend(AckLog(r), AcksOf(After(r), e), i);
    }
  }

  lemma NoWire(cfg: Acks.Config, i: nat)
    ensures WireAt(cfg, [], i) == []
  {}
}
