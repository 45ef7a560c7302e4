/** Life of the acknowledgement managers inside one MQTT client: connections come and go, each
    with its own manager, while workers keep reporting numbers to whichever manager is current.

    A run is a sequence of callback and method events.  The managers' states are given by their
    own histories (AckOrdering), so every fact proved there applies to each of them.
 */
module ClientProtocol {
  import opened Common
  import Acks = AckOrdering
  import AckSafety

  datatype ConnectionState = StateDisconnected | StateConnecting | StateConnected

  /** `author` is the packet on whose behalf a worker reports; the client never sees it. */
  datatype Event =
    | StartBegin(urlsOk: bool)
    | StartDone(connected: bool)
    | ConnectionUp
    | ConnectError
    | ServerDisconnect
    | StopCalled
    | Publish(packet: nat, entry: Acks.Entry)
    | Report(author: nat, entry: Acks.Entry)
    | Tick(manager: nat, entry: Acks.Entry)

  /** The last manager is the one AckMessage and onPublishReceived talk to. */
  datatype Client = Client(state: ConnectionState, stopped: bool, managers: seq<Acks.History>)

  const NEW_CLIENT := Client(StateDisconnected, false, [])

  function Append(ms: seq<Acks.History>, i: nat, e: Acks.Entry): seq<Acks.History>
    requires i < |ms|
  {
    ms[i := ms[i] + [e]]
  }

  function StopLast(ms: seq<Acks.History>): seq<Acks.History> {
    if ms == [] then ms else Append(ms, |ms| - 1, Acks.Halted)
  }

  ghost predicate LegalIn(cfg: Acks.Config, h: Acks.History, e: Acks.Entry) {
    Acks.Legal(cfg, h) && Acks.Enabled(cfg, Acks.Replay(cfg, h), e)
  }

  ghost predicate Enabled(cfg: Acks.Config, c: Client, e: Event) {
    match e
    case Publish(packet, entry) =>
      c.stopped || (c.managers != [] && LegalIn(cfg, c.managers[|c.managers| - 1], entry)
                    && (entry.RegisterRefused? || (entry.Registered? && entry.ackFn == Some(packet))))
    case Report(_, entry) =>
      && (entry.Completed? || entry.RetryResolved?)
      && (if c.managers == [] then !entry.ok else LegalIn(cfg, c.managers[|c.managers| - 1], entry))
    case Tick(i, entry) =>
      i < |c.managers| && (entry.Flushed? || entry.Swept?) && LegalIn(cfg, c.managers[i], entry)
    case _ => true
  }

  function Step(c: Client, e: Event): Client {
    match e
    case StartBegin(urlsOk) =>
      if c.stopped then c
      else c.(state := StateConnecting, managers := if urlsOk then c.managers + [[]] else c.managers)
    case StartDone(connected) => c.(state := if connected then StateConnected else StateDisconnected)
    case ConnectionUp =>
      c.(state := StateConnected,
         managers := if c.state == StateConnected then StopLast(c.managers) + [[]] else c.managers)
    case ConnectError => c.(state := StateConnecting)
    case ServerDisconnect => c.(state := StateDisconnected, managers := StopLast(c.managers))
    case StopCalled =>
      if c.stopped then c else Client(StateDisconnected, true, StopLast(c.managers))
    case Publish(_, entry) =>
      if c.stopped || c.managers == [] then c else c.(managers := Append(c.managers, |c.managers| - 1, entry))
    case Report(_, entry) =>
      if c.managers == [] then c else c.(managers := Append(c.managers, |c.managers| - 1, entry))
    case Tick(i, entry) => if i < |c.managers| then c.(managers := Append(c.managers, i, entry)) else c
  }

  ghost predicate Legal(cfg: Acks.Config, run: seq<Event>)
    decreases |run|
  {
    run == [] || (Legal(cfg, run[..|run| - 1]) && Enabled(cfg, After(run[..|run| - 1]), run[|run| - 1]))
  }

  function After(run: seq<Event>): Client {
    if run == [] then NEW_CLIENT else Step(After(run[..|run| - 1]), run[|run| - 1])
  }

  function Starts(run: seq<Event>): nat {
    if run == [] then 0 else
      Starts(run[..|run| - 1]) + if run[|run| - 1].StartBegin? then 1 else 0
  }

  /** What each event does to the client's own fields.  The state decides whether a connection-up
      replaces the manager, so it matters that a failed start and a server disconnect leave it
      Disconnected, a start and a connection error Connecting, and that neither publishing nor
      reporting touches it; the stopped flag is only ever set. */
  lemma EventSetsState(c: Client, e: Event)
    ensures var d := Step(c, e);
            && d.stopped == (c.stopped || e.StopCalled?)
            && (e.StartBegin? ==> d.state == if c.stopped then c.state else StateConnecting)
            && (e.StartDone? ==> d.state == if e.connected then StateConnected else StateDisconnected)
            && (e.ConnectionUp? ==> d.state == StateConnected)
            && (e.ConnectError? ==> d.state == StateConnecting)
            && (e.ServerDisconnect? ==> d.state == StateDisconnected)
            && (e.StopCalled? ==> d.state == if c.stopped then c.state else StateDisconnected)
            && (e.Publish? || e.Report? || e.Tick? ==> d.state == c.state)
  {}

  /** What each event does to the managers: which are there afterwards and what each has gone through. */
  lemma EventMovesManagers(c: Client, e: Event)
    ensures var ms, ms' := c.managers, Step(c, e).managers;
            var adds := (e == StartBegin(true) && !c.stopped) || (e.ConnectionUp? && c.state == StateConnected);
            var stops := || (e.ConnectionUp? && c.state == StateConnected) || e.ServerDisconnect?
                         || (e.StopCalled? && !c.stopped);
            && |ms'| == |ms| + (if adds then 1 else 0) && (adds ==> ms'[|ms|] == [])
            && (forall i | 0 <= i < |ms| ::
                  ms'[i] == if stops && i == |ms| - 1 then ms[i] + [Acks.Halted]
                            else if (e.Publish? && !c.stopped && i == |ms| - 1) || (e.Report? && i == |ms| - 1)
                                    || (e.Tick? && e.manager == i) then ms[i] + [e.entry]
                            else ms[i])
  {}

  predicate Running(h: Acks.History) {
    !Acks.Observe(h).halted
  }

  /** Among the managers ever created, at most one has not been stopped. */
  ghost predicate AtMostOneRunning(c: Client) {
    forall i, j | 0 <= i < j < |c.managers| :: !Running(c.managers[i]) || !Running(c.managers[j])
  }

  ghost predicate OnlyLastRuns(ms: seq<Acks.History>) {
    forall i | 0 <= i < |ms| - 1 :: !Running(ms[i])
  }

  // ---------------------------------------------------------------------------
  // One running manager, and every manager orders its acknowledgements
  // ---------------------------------------------------------------------------

  lemma AppendRuns(h: Acks.History, e: Acks.Entry)
    ensures Running(h + [e]) <==> Running(h) && !e.Halted?
  {
    assert Acks.Before(h + [e]) == h;
  }

  /** A Start that would drop a running manager: what a caller can check before calling it. */
  predicate Leaks(c: Client, e: Event) {
    e == StartBegin(true) && !c.stopped && c.managers != [] && Running(c.managers[|c.managers| - 1])
  }

  predicate LeakFree(run: seq<Event>) {
    forall i | 0 <= i < |run| :: !Leaks(After(run[..i]), run[i])
  }

  /** Only a leak leaves a manager running behind the current one, and nothing stops it afterwards. */
  lemma StepKeepsOnlyLastIff(cfg: Acks.Config, c: Client, e: Event)
    requires Enabled(cfg, c, e)
    ensures OnlyLastRuns(Step(c, e).managers) <==> OnlyLastRuns(c.managers) && !Leaks(c, e)
  {
    var ms, ms' := c.managers, Step(c, e).managers;
    if e.Tick? { AppendRuns(ms[e.manager], e.entry); }
    if ms != [] {
      AppendRuns(ms[|ms| - 1], Acks.Halted);
      assert |ms'| > |ms| ==> (Running(ms'[|ms| - 1]) <==> Leaks(c, e));
    }
    hide Running;
    assert forall i | 0 <= i < |ms| - 1 :: i < |ms'| - 1 && (Running(ms'[i]) <==> Running(ms[i]));
    assert |ms'| == |ms| ==> !Leaks(c, e);
  }

  lemma NothingLeaks()
    ensures LeakFree([])
  {}

  lemma OnlyLastMeansOne(c: Client)
    requires OnlyLastRuns(c.managers)
    ensures AtMostOneRunning(c)
  {}

  lemma LeakMeansTwo(c: Client, e: Event)
    requires Leaks(c, e)
    ensures !AtMostOneRunning(Step(c, e))
  {
    var ms := Step(c, e).managers;
    assert Running(ms[|ms| - 2]) && Running(ms[|ms| - 1]);
  }

  lemma PrefixLeakFree(run: seq<Event>)
    requires run != []
    ensures var r, e := run[..|run| - 1], run[|run| - 1];
            LeakFree(run) <==> LeakFree(r) && !Leaks(After(r), e)
  {
    hide Leaks, After;
    var r := run[..|run| - 1];
    assert forall i | 0 <= i < |r| :: r[i] == run[i] && r[..i] == run[..i];
  }

  /** On every run whatever, only the current manager is running if and only if no Start was called
      on a client that was not stopped and whose manager was still running. */
  lemma {:induction false} OnlyLastRunsIff(cfg: Acks.Config, run: seq<Event>)
    requires Legal(cfg, run)
    ensures OnlyLastRuns(After(run).managers) <==> LeakFree(run)
    decreases |run|
  {
    if run != [] {
      var r := run[..|run| - 1];
      OnlyLastRunsIff(cfg, r);
      PrefixLeakFree(run);
      StepKeepsOnlyLastIff(cfg, After(r), run[|run| - 1]);
    }
  }

  /** At most one manager is running at every point of a run if and only if the run has no such Start. */
  lemma {:induction false} AtMostOneRunsIff(cfg: Acks.Config, run: seq<Event>)
    requires Legal(cfg, run)
    ensures (forall i | 0 <= i <= |run| :: AtMostOneRunning(After(run[..i]))) <==> LeakFree(run)
    decreases |run|
  {
    hide Leaks, LeakFree, AtMostOneRunning, OnlyLastRuns;
    assert run[..|run|] == run;
    OnlyLastRunsIff(cfg, run);
    if LeakFree(run) { OnlyLastMeansOne(After(run)); }
    if run == [] {
      NothingLeaks();
    } else {
      var r, e := run[..|run| - 1], run[|run| - 1];
      AtMostOneRunsIff(cfg, r);
      PrefixLeakFree(run);
      assert forall i | 0 <= i <= |r| :: r[..i] == run[..i];
      if Leaks(After(r), e) { LeakMeansTwo(After(r), e); }
    }
  }

  /** Without a StartBegin there is no manager. */
  lemma {:induction false} NoStartNoManager(run: seq<Event>)
    requires Starts(run) == 0 && forall i | 0 <= i < |run| :: !run[i].ConnectionUp?
    ensures After(run).managers == []
    decreases |run|
  {
    if run != [] { NoStartNoManager(run[..|run| - 1]); }
  }

  /** autopaho only calls back once Start has handed it the configuration. */
  ghost predicate CallbacksFollowStart(run: seq<Event>) {
    forall i | 0 <= i < |run| && run[i].ConnectionUp? :: Starts(run[..i]) > 0
  }

  lemma {:induction false} StartsMonotone(run: seq<Event>, i: nat)
    requires i <= |run|
    ensures Starts(run[..i]) <= Starts(run)
    decreases |run|
  {
    if i < |run| {
      StartsMonotone(run[..|run| - 1], i);
      assert run[..|run| - 1][..i] == run[..i];
    } else {
      assert run[..i] == run;
    }
  }

  lemma FirstStart(run: seq<Event>, i: nat)
    requires Starts(run) <= 1 && CallbacksFollowStart(run) && i < |run| && run[i].StartBegin?
    ensures After(run[..i]).managers == []
  {
    hide After;
    var r := run[..i];
    StartsMonotone(run, i + 1);
    assert run[..i + 1][..i] == r;
    assert Starts(r) == 0;
    hide Starts;
    forall k | 0 <= k < i
      ensures !r[k].ConnectionUp?
    {
      StartsMonotone(r, k);
      assert r[..k] == run[..k];
    }
    NoStartNoManager(r);
  }

  lemma OneStartIsLeakFree(run: seq<Event>)
    requires Starts(run) <= 1 && CallbacksFollowStart(run)
    ensures LeakFree(run)
  {
    hide After, Starts;
    forall i | 0 <= i < |run| && run[i].StartBegin?
      ensures After(run[..i]).managers == []
    {
      FirstStart(run, i);
    }
  }

  /** With one Start, whatever connections, errors, disconnects, messages and Stop follow, at most
      one manager is running. */
  lemma AtMostOneManagerRuns(cfg: Acks.Config, run: seq<Event>)
    requires Legal(cfg, run) && Starts(run) <= 1 && CallbacksFollowStart(run)
    ensures AtMostOneRunning(After(run))
  {
    OneStartIsLeakFree(run);
    OnlyLastRunsIff(cfg, run);
  }

  /** A second Start drops the running manager without stopping it. */
  lemma SecondStartLeaks()
    ensures var run := [StartBegin(true), StartBegin(true)];
            After(run).managers == [[], []] && !AtMostOneRunning(After(run))
  {
    var run := [StartBegin(true), StartBegin(true)];
    assert run[..1] == [StartBegin(true)] && run[..1][..0] == [];
    assert After(run[..1]).managers == [[]];
    var ms := After(run).managers;
    assert Running(ms[0]) && Running(ms[1]);
  }

  lemma {:induction false} ManagersLegal(cfg: Acks.Config, run: seq<Event>)
    requires Legal(cfg, run)
    ensures forall i | 0 <= i < |After(run).managers| :: Acks.Legal(cfg, After(run).managers[i])
    decreases |run|
  {
    if run != [] {
      var c, e := After(run[..|run| - 1]), run[|run| - 1];
      ManagersLegal(cfg, run[..|run| - 1]);
      forall i | 0 <= i < |c.managers|
        ensures Acks.Legal(cfg, c.managers[i] + [Acks.Halted])
      {
        AckSafety.LegalAppend(cfg, c.managers[i], Acks.Halted);
      }
      match e {
        case Publish(_, entry) =>
          if !c.stopped { AckSafety.LegalAppend(cfg, c.managers[|c.managers| - 1], entry); }
        case Report(_, entry) =>
          if c.managers != [] { AckSafety.LegalAppend(cfg, c.managers[|c.managers| - 1], entry); }
        case Tick(i, entry) => AckSafety.LegalAppend(cfg, c.managers[i], entry);
        case _ =>
      }
    }
  }

  /** Every manager of every run sends its PUBACKs in order, and none once it is stopped. */
  lemma EveryManagerIsOrdered(cfg: Acks.Config, run: seq<Event>, i: nat)
    requires Legal(cfg, run) && cfg.maxPendingSize >= 1 && i < |After(run).managers|
    ensures Acks.OrderedAcks(After(run).managers[i])
  {
    ManagersLegal(cfg, run);
    AckSafety.AcksAreOrdered(cfg, After(run).managers[i]);
  }

  // ---------------------------------------------------------------------------
  // What the managers of a stopped client can still flush
  // ---------------------------------------------------------------------------

  /** The numbers manager `i` has acknowledged so far. */
  function Sent(ms: seq<Acks.History>, i: nat): seq<nat> {
    if i < |ms| then Acks.Observe(ms[i]).acked else []
  }

  ghost predicate Idle(cfg: Acks.Config, h: Acks.History) {
    Acks.Legal(cfg, h) && Acks.Replay(cfg, h).pending == map[]
  }

  predicate Blocks(pending: map<nat, Acks.PendingAck>, j: nat, k: nat)
    requires k in pending
  {
    j < k && j in pending && !Acks.Sendable(pending[j]) && pending[j].registerAt >= pending[k].registerAt
  }

  /** Every entry that could be sent waits behind one that cannot and that no sweep removes first. */
  ghost predicate Stuck(pending: map<nat, Acks.PendingAck>) {
    forall k | k in pending && Acks.Sendable(pending[k]) :: exists j :: Blocks(pending, j, k)
  }

  ghost predicate StuckAfter(cfg: Acks.Config, h: Acks.History) {
    Acks.Legal(cfg, h) && Stuck(Acks.Replay(cfg, h).pending)
  }

  ghost predicate AllStuck(cfg: Acks.Config, ms: seq<Acks.History>) {
    forall i | 0 <= i < |ms| :: StuckAfter(cfg, ms[i])
  }

  ghost predicate Mute(cfg: Acks.Config, c: Client) {
    c.stopped && AllStuck(cfg, c.managers) && (c.managers != [] ==> Idle(cfg, c.managers[|c.managers| - 1]))
  }

  lemma HaltedIsIdle(cfg: Acks.Config, h: Acks.History)
    requires Acks.Legal(cfg, h) && !Running(h) && cfg.maxPendingSize >= 1
    ensures Idle(cfg, h)
  {
    AckSafety.LegalInv(cfg, h);
  }

  /** An idle manager that registers nothing stays idle. */
  lemma IdleStaysIdle(cfg: Acks.Config, h: Acks.History, e: Acks.Entry)
    requires Idle(cfg, h) && LegalIn(cfg, h, e) && !e.Registered?
    ensures Idle(cfg, h + [e]) && Acks.Observe(h + [e]).acked == Acks.Observe(h).acked
  {
    AckSafety.LegalAppend(cfg, h, e);
    assert Acks.Before(h + [e]) == h;
  }

  lemma SweepKeepsStuck(pending: map<nat, Acks.PendingAck>, cutoff: int)
    requires Stuck(pending)
    ensures Stuck(pending - Acks.TimedOut(pending, cutoff))
  {
    var rest := pending - Acks.TimedOut(pending, cutoff);
    forall k | k in rest && Acks.Sendable(rest[k])
      ensures exists j :: Blocks(rest, j, k)
    {
      var j :| Blocks(pending, j, k);
      assert Blocks(rest, j, k);
    }
  }

  lemma StuckSendsNothing(cfg: Acks.Config, s: Acks.State, e: Acks.Entry)
    requires Stuck(s.pending) && Acks.Enabled(cfg, s, e) && (e.Flushed? || e.Swept?)
    requires s.nextAckSeq <= s.nextRecvSeq && forall n | n in s.pending :: s.nextAckSeq <= n
    ensures Stuck(Acks.Step(cfg, s, e).pending) && (e.Flushed? ==> e.sent == [])
  {
    match e {
      case Flushed(_) =>
        hide Acks.TimedOut;
        AckSafety.WithoutNone(s.pending, s.nextAckSeq);
      case Swept(now, _) =>
        hide Acks.RunEnd;
        SweepKeepsStuck(s.pending, now - cfg.pendingTimeout);
    }
  }

  /** Neither loop of a stuck manager gets it to send anything, or unstuck. */
  lemma StuckStaysStuck(cfg: Acks.Config, h: Acks.History, e: Acks.Entry)
    requires StuckAfter(cfg, h) && LegalIn(cfg, h, e) && (e.Flushed? || e.Swept?) && cfg.maxPendingSize >= 1
    ensures StuckAfter(cfg, h + [e]) && Acks.Observe(h + [e]).acked == Acks.Observe(h).acked
  {
    hide Acks.Enabled, Stuck, Acks.Legal, Acks.Replay, Acks.Step;
    ReplayBounds(cfg, h);
    AckSafety.LegalAppend(cfg, h, e);
    StuckSendsNothing(cfg, Acks.Replay(cfg, h), e);
    assert Acks.Before(h + [e]) == h;
  }

  lemma TickStaysMute(cfg: Acks.Config, ms: seq<Acks.History>, i: nat, e: Acks.Entry)
    requires AllStuck(cfg, ms) && i < |ms| && cfg.maxPendingSize >= 1
    requires LegalIn(cfg, ms[i], e) && (e.Flushed? || e.Swept?)
    ensures AllStuck(cfg, Append(ms, i, e)) && forall k: nat :: Sent(Append(ms, i, e), k) == Sent(ms, k)
  {
    StuckStaysStuck(cfg, ms[i], e);
    hide StuckAfter, Acks.Observe;
  }

  lemma LastStaysMute(cfg: Acks.Config, ms: seq<Acks.History>, e: Acks.Entry)
    requires AllStuck(cfg, ms) && ms != [] && Idle(cfg, ms[|ms| - 1]) && LegalIn(cfg, ms[|ms| - 1], e) && !e.Registered?
    ensures var ms' := Append(ms, |ms| - 1, e);
            AllStuck(cfg, ms') && Idle(cfg, ms'[|ms| - 1]) && forall k: nat :: Sent(ms', k) == Sent(ms, k)
  {
    hide StuckAfter, Idle, LegalIn, Acks.Observe;
    IdleStaysIdle(cfg, ms[|ms| - 1], e);
    IdleIsStuck(cfg, ms[|ms| - 1] + [e]);
  }

  lemma IdleIsStuck(cfg: Acks.Config, h: Acks.History)
    requires Idle(cfg, h)
    ensures StuckAfter(cfg, h)
  {}

  lemma StopLastStaysMute(cfg: Acks.Config, ms: seq<Acks.History>)
    requires AllStuck(cfg, ms) && (ms != [] ==> Idle(cfg, ms[|ms| - 1]))
    ensures AllStuck(cfg, StopLast(ms)) && forall k: nat :: Sent(StopLast(ms), k) == Sent(ms, k)
    ensures ms != [] ==> Idle(cfg, StopLast(ms)[|ms| - 1])
  {
    if ms != [] { LastStaysMute(cfg, ms, Acks.Halted); }
  }

  lemma NewStaysMute(cfg: Acks.Config, ms: seq<Acks.History>)
    requires AllStuck(cfg, ms)
    ensures AllStuck(cfg, ms + [[]]) && Idle(cfg, []) && forall k: nat :: Sent(ms + [[]], k) == Sent(ms, k)
  {
    IdleIsStuck(cfg, []);
    hide StuckAfter;
  }

  /** A stopped client registers nothing, so a mute one stays mute. */
  lemma StepStaysMute(cfg: Acks.Config, c: Client, e: Event)
    requires Mute(cfg, c) && Enabled(cfg, c, e) && cfg.maxPendingSize >= 1
    ensures Mute(cfg, Step(c, e)) && forall k: nat :: Sent(Step(c, e).managers, k) == Sent(c.managers, k)
  {
    hide AllStuck, Sent, Idle;
    var ms := c.managers;
    match e {
      case ConnectionUp =>
        StopLastStaysMute(cfg, ms);
        NewStaysMute(cfg, StopLast(ms));
      case ServerDisconnect => StopLastStaysMute(cfg, ms);
      case Report(_, entry) => if ms != [] { LastStaysMute(cfg, ms, entry); }
      case Tick(i, entry) =>
        if i == |ms| - 1 { LastStaysMute(cfg, ms, entry); } else { TickStaysMute(cfg, ms, i, entry); }
      case _ =>
    }
  }

  lemma StoppedStepCurrentIsIdle(cfg: Acks.Config, c: Client, e: Event)
    requires Enabled(cfg, c, e) && Step(c, e).stopped && Step(c, e).managers != [] && cfg.maxPendingSize >= 1
    requires c.stopped && c.managers != [] ==> Idle(cfg, c.managers[|c.managers| - 1])
    requires forall i | 0 <= i < |c.managers| :: Acks.Legal(cfg, c.managers[i])
    ensures Idle(cfg, Step(c, e).managers[|Step(c, e).managers| - 1])
  {
    hide Idle, LegalIn, Acks.Legal, Acks.Replay, Acks.Observe;
    var ms := c.managers;
    if ms != [] { HaltLast(cfg, ms[|ms| - 1]); }
    match e {
      case ConnectionUp => NewStaysMute(cfg, []);
      case Report(_, entry) => IdleStaysIdle(cfg, ms[|ms| - 1], entry);
      case Tick(i, entry) => if i == |ms| - 1 { IdleStaysIdle(cfg, ms[i], entry); }
      case _ =>
    }
  }

  lemma HaltLast(cfg: Acks.Config, h: Acks.History)
    requires Acks.Legal(cfg, h) && cfg.maxPendingSize >= 1
    ensures Idle(cfg, h + [Acks.Halted])
  {
    AckSafety.LegalAppend(cfg, h, Acks.Halted);
    AppendRuns(h, Acks.Halted);
    HaltedIsIdle(cfg, h + [Acks.Halted]);
  }

  /** The current manager of a stopped client holds no message, even one that a connection-up revived. */
  lemma {:induction false} StoppedCurrentIsIdle(cfg: Acks.Config, run: seq<Event>)
    requires Legal(cfg, run) && After(run).stopped && After(run).managers != [] && cfg.maxPendingSize >= 1
    ensures Idle(cfg, After(run).managers[|After(run).managers| - 1])
    decreases |run|
  {
    hide Idle, Step, Acks.Legal;
    var r := run[..|run| - 1];
    ManagersLegal(cfg, r);
    if After(r).stopped && After(r).managers != [] { StoppedCurrentIsIdle(cfg, r); }
    StoppedStepCurrentIsIdle(cfg, After(r), run[|run| - 1]);
  }

  /** Sweeping away all that was registered before entry `k` lets the next flush send something. */
  lemma UnstuckSends(cfg: Acks.Config, s: Acks.State, k: nat)
    requires !s.stopped && s.nextAckSeq <= s.nextRecvSeq
    requires forall n | n in s.pending :: s.nextAckSeq <= n < s.nextRecvSeq
    requires k in s.pending && Acks.Sendable(s.pending[k]) && forall j :: !Blocks(s.pending, j, k)
    ensures var now := s.pending[k].registerAt + cfg.pendingTimeout;
            var sweep := Acks.Swept(now, Acks.TimedOut(s.pending, s.pending[k].registerAt));
            && Acks.Enabled(cfg, s, sweep)
            && var t := Acks.Step(cfg, s, sweep);
               !t.stopped && t.nextAckSeq < Acks.RunEnd(t.pending, t.nextAckSeq, t.nextRecvSeq)
  {
    var cutoff := s.pending[k].registerAt;
    var rest := s.pending - Acks.TimedOut(s.pending, cutoff);
    var next := Acks.SkipGaps(rest, s.nextAckSeq, s.nextRecvSeq);
    assert k in rest;
    assert next <= k && next in rest;
    assert !Blocks(s.pending, next, k);
    assert Acks.Sendable(rest[next]);
  }

  /** A sweep and a flush that a manager could do next, with something to send. */
  ghost predicate SendsBy(cfg: Acks.Config, h: Acks.History, sweep: Acks.Entry, flush: Acks.Entry) {
    && sweep.Swept? && LegalIn(cfg, h, sweep)
    && flush.Flushed? && LegalIn(cfg, h + [sweep], flush) && flush.sent != []
  }

  lemma UnstuckHistory(cfg: Acks.Config, h: Acks.History)
    requires Acks.Legal(cfg, h) && !StuckAfter(cfg, h) && cfg.maxPendingSize >= 1
    ensures exists sweep, flush :: SendsBy(cfg, h, sweep, flush)
  {
    hide Acks.Legal, Acks.Replay, Acks.Enabled, Acks.Step, Blocks, Acks.TimedOut, Acks.RunEnd;
    var s := Acks.Replay(cfg, h);
    ReplayBounds(cfg, h);
    var k :| k in s.pending && Acks.Sendable(s.pending[k]) && forall j :: !Blocks(s.pending, j, k);
    UnstuckSends(cfg, s, k);
    var sweep := Acks.Swept(s.pending[k].registerAt + cfg.pendingTimeout,
                            Acks.TimedOut(s.pending, s.pending[k].registerAt));
    AckSafety.LegalAppend(cfg, h, sweep);
    assert LegalIn(cfg, h, sweep);
    FlushSends(cfg, h + [sweep]);
    var flush: Acks.Entry :| LegalIn(cfg, h + [sweep], flush) && flush.Flushed? && flush.sent != [];
    hide LegalIn;
    assert SendsBy(cfg, h, sweep, flush);
  }

  lemma FlushSends(cfg: Acks.Config, h: Acks.History)
    requires Acks.Legal(cfg, h)
    requires var t := Acks.Replay(cfg, h);
             !t.stopped && t.nextAckSeq < Acks.RunEnd(t.pending, t.nextAckSeq, t.nextRecvSeq)
    ensures exists flush :: LegalIn(cfg, h, flush) && flush.Flushed? && flush.sent != []
  {
    hide Acks.Legal, Acks.Replay, Acks.RunEnd;
    var t := Acks.Replay(cfg, h);
    var flush := Acks.Flushed(Acks.Interval(t.nextAckSeq, Acks.RunEnd(t.pending, t.nextAckSeq, t.nextRecvSeq)));
    assert LegalIn(cfg, h, flush);
  }

  lemma ReplayBounds(cfg: Acks.Config, h: Acks.History)
    requires Acks.Legal(cfg, h) && cfg.maxPendingSize >= 1
    ensures var s := Acks.Replay(cfg, h);
            && s.nextAckSeq <= s.nextRecvSeq && (forall n | n in s.pending :: s.nextAckSeq <= n < s.nextRecvSeq)
            && (s.stopped ==> s.pending == map[])
  {
    AckSafety.LegalInv(cfg, h);
  }

  lemma TickEnabled(cfg: Acks.Config, c: Client, i: nat, sweep: Acks.Entry, flush: Acks.Entry)
    requires i < |c.managers| && SendsBy(cfg, c.managers[i], sweep, flush)
    ensures Enabled(cfg, c, Tick(i, sweep)) && Enabled(cfg, Step(c, Tick(i, sweep)), Tick(i, flush))
    ensures Step(Step(c, Tick(i, sweep)), Tick(i, flush)).managers == c.managers[i := c.managers[i] + [sweep] + [flush]]
  {
    hide LegalIn;
  }

  /** If no Start leaked a manager, a stopped client has nothing left that a manager could flush. */
  lemma StoppedIsStuck(cfg: Acks.Config, run: seq<Event>)
    requires Legal(cfg, run) && LeakFree(run) && After(run).stopped && cfg.maxPendingSize >= 1
    ensures AllStuck(cfg, After(run).managers)
  {
    hide Idle, StuckAfter, LeakFree, Legal, After;
    OnlyLastRunsIff(cfg, run);
    ManagersLegal(cfg, run);
    var ms := After(run).managers;
    forall i | 0 <= i < |ms|
      ensures StuckAfter(cfg, ms[i])
    {
      if i == |ms| - 1 { StoppedCurrentIsIdle(cfg, run); } else { HaltedIsIdle(cfg, ms[i]); }
      IdleIsStuck(cfg, ms[i]);
    }
  }

  lemma {:induction false} LegalStart(cfg: Acks.Config, run: seq<Event>, more: seq<Event>)
    requires Legal(cfg, run + more)
    ensures Legal(cfg, run)
    decreases |more|
  {
    if more == [] {
      assert run + more == run;
    } else {
      assert (run + more)[..|run + more| - 1] == run + more[..|more| - 1];
      LegalStart(cfg, run, more[..|more| - 1]);
    }
  }

  /** Onward from a Stop that halted every manager, the only step that sets one running again is a
      connection-up in state Connected: onConnectionUp does not look at the stopped flag. */
  lemma StoppedClientRevivesIff(cfg: Acks.Config, c: Client, e: Event)
    requires c.stopped && Enabled(cfg, c, e) && forall i | 0 <= i < |c.managers| :: !Running(c.managers[i])
    ensures (exists i :: 0 <= i < |Step(c, e).managers| && Running(Step(c, e).managers[i]))
            <==> e.ConnectionUp? && c.state == StateConnected
  {
    var ms, ms' := c.managers, Step(c, e).managers;
    if ms != [] { AppendRuns(ms[|ms| - 1], Acks.Halted); }
    match e {
      case ConnectionUp => if c.state == StateConnected { assert Running(ms'[|ms'| - 1]); }
      case Report(_, entry) => if ms != [] { AppendRuns(ms[|ms| - 1], entry); }
      case Tick(i, entry) => AppendRuns(ms[i], entry);
      case _ =>
    }
  }

  const REVIVED_RUN: seq<Event> := [StartBegin(true), StartDone(true), StopCalled, ConnectionUp, ConnectionUp]

  lemma StoppedClientCanRevive(cfg: Acks.Config)
    ensures Legal(cfg, REVIVED_RUN) && After(REVIVED_RUN).stopped
    ensures After(REVIVED_RUN).managers == [[Acks.Halted, Acks.Halted], []]
  {
    var r := REVIVED_RUN;
    assert [] + [r[0]] == r[..1] && r[..1] + [r[1]] == r[..2] && r[..2] + [r[2]] == r[..3];
    assert r[..3] + [r[3]] == r[..4] && r[..4] + [r[4]] == r;
    Extend(cfg, [], r[0]);
    Extend(cfg, r[..1], r[1]);
    Extend(cfg, r[..2], r[2]);
    Extend(cfg, r[..3], r[3]);
    Extend(cfg, r[..4], r[4]);
    assert [] + [Acks.Halted] == [Acks.Halted] && [Acks.Halted] + [Acks.Halted] == [Acks.Halted, Acks.Halted];
  }

  // ---------------------------------------------------------------------------
  // Reconnecting
  // ---------------------------------------------------------------------------

  /** After a connection-up the current manager is running exactly when it was replaced, which
      needs the state Connected, or had never been stopped.  A server disconnect sets the state to
      Disconnected first, so the connection that follows keeps the stopped manager. */
  lemma ConnectionUpRunsIff(c: Client)
    requires c.managers != []
    ensures var ms := Step(c, ConnectionUp).managers;
            Running(ms[|ms| - 1]) <==> c.state == StateConnected || Running(c.managers[|c.managers| - 1])
  {}

  // ---------------------------------------------------------------------------
  // Whose completion releases a PUBACK
  // ---------------------------------------------------------------------------

  /** Where each packet was registered, and the last decision accepted in its name. */
  datatype Journal = Journal(home: map<nat, (nat, nat)>, reports: map<nat, Acks.AckDecision>)

  function Record(j: Journal, c: Client, e: Event): Journal {
    match e
    case Publish(packet, Registered(n, _, _, _)) =>
      if c.stopped || c.managers == [] then j else j.(home := j.home[packet := (|c.managers| - 1, n)])
    case Report(author, Completed(_, d, _, true)) => j.(reports := j.reports[author := d])
    case Report(author, RetryResolved(_, true)) => j.(reports := j.reports[author := Acks.ACK])
    case _ => j
  }

  function JournalOf(run: seq<Event>): Journal {
    if run == [] then Journal(map[], map[]) else
      Record(JournalOf(run[..|run| - 1]), After(run[..|run| - 1]), run[|run| - 1])
  }

  /** A packet is delivered once. */
  ghost predicate NewPacket(j: Journal, e: Event) {
    e.Publish? && e.entry.Registered? ==> e.packet !in j.home
  }

  ghost predicate DistinctPackets(run: seq<Event>)
    decreases |run|
  {
    run == [] || (DistinctPackets(run[..|run| - 1]) && NewPacket(JournalOf(run[..|run| - 1]), run[|run| - 1]))
  }

  /** And a worker only reports numbers its own packet was given by the manager that is current. */
  ghost predicate OwnEvent(c: Client, j: Journal, e: Event) {
    && NewPacket(j, e)
    && (e.Report? && (e.entry.Completed? || e.entry.RetryResolved?) && e.entry.ok ==>
          e.author in j.home && j.home[e.author] == (|c.managers| - 1, e.entry.recvSeq))
  }

  ghost predicate OwnReports(run: seq<Event>)
    decreases |run|
  {
    run == [] || (OwnReports(run[..|run| - 1])
      && OwnEvent(After(run[..|run| - 1]), JournalOf(run[..|run| - 1]), run[|run| - 1]))
  }

  /** The part of a manager's ledger that matters here. */
  datatype Claim = Claim(issued: map<nat, Option<nat>>, latest: map<nat, Acks.AckDecision>)

  function ClaimOf(h: Acks.History): Claim {
    Claim(Acks.Observe(h).issued, Acks.Observe(h).latest)
  }

  function Claims(ms: seq<Acks.History>): seq<Claim> {
    seq(|ms|, i requires 0 <= i < |ms| => ClaimOf(ms[i]))
  }

  /** Every number was issued to exactly one packet, which knows where it is registered. */
  ghost predicate AtHome(cs: seq<Claim>, home: map<nat, (nat, nat)>) {
    && (forall i, n | 0 <= i < |cs| && n in cs[i].issued ::
          cs[i].issued[n].Some? && cs[i].issued[n].value in home && home[cs[i].issued[n].value] == (i, n))
    && (forall p | p in home ::
          home[p].0 < |cs| && home[p].1 in cs[home[p].0].issued && cs[home[p].0].issued[home[p].1] == Some(p))
  }

  /** What the manager believes about number `n` is what the worker of packet `p` last reported. */
  ghost predicate Believes(c: Claim, n: nat, reports: map<nat, Acks.AckDecision>, p: nat) {
    (n in c.latest <==> p in reports) && (n in c.latest ==> c.latest[n] == reports[p])
  }

  ghost predicate Faithful(cs: seq<Claim>, j: Journal) {
    && (forall p | p in j.reports :: p in j.home)
    && (forall i, n | 0 <= i < |cs| && n in cs[i].latest :: n in cs[i].issued)
    && (forall p | p in j.home :: j.home[p].0 < |cs| && Believes(cs[j.home[p].0], j.home[p].1, j.reports, p))
  }

  ghost predicate Truthful(cs: seq<Claim>, j: Journal) {
    AtHome(cs, j.home) && Faithful(cs, j)
  }

  /** Issuing number `n` of the current manager to `packet`. */
  function Issue(cs: seq<Claim>, n: nat, packet: nat): seq<Claim>
    requires cs != []
  {
    var i := |cs| - 1;
    cs[i := cs[i].(issued := cs[i].issued[n := Some(packet)])]
  }

  /** The current manager accepts decision `d` for number `n`. */
  function Accept(cs: seq<Claim>, n: nat, d: Acks.AckDecision): seq<Claim>
    requires cs != []
  {
    var i := |cs| - 1;
    cs[i := cs[i].(latest := cs[i].latest[n := d])]
  }

  lemma FreshAtHome(cs: seq<Claim>, home: map<nat, (nat, nat)>, n: nat, packet: nat)
    requires AtHome(cs, home) && cs != [] && packet !in home && n !in cs[|cs| - 1].issued
    ensures AtHome(Issue(cs, n, packet), home[packet := (|cs| - 1, n)])
  {
    var cs', home' := Issue(cs, n, packet), home[packet := (|cs| - 1, n)];
    forall k, m | 0 <= k < |cs| && m in cs'[k].issued
      ensures cs'[k].issued[m].Some? && cs'[k].issued[m].value in home' && home'[cs'[k].issued[m].value] == (k, m)
    {
      assert (k, m) == (|cs| - 1, n) || (m in cs[k].issued && cs'[k].issued[m] == cs[k].issued[m]);
    }
    forall p | p in home'
      ensures home'[p].1 in cs'[home'[p].0].issued && cs'[home'[p].0].issued[home'[p].1] == Some(p)
    {
      assert p == packet || (p in home && home'[p] == home[p]);
    }
  }

  lemma FreshFaithful(cs: seq<Claim>, j: Journal, n: nat, packet: nat)
    requires Faithful(cs, j) && cs != [] && packet !in j.home && n !in cs[|cs| - 1].issued
    ensures Faithful(Issue(cs, n, packet), j.(home := j.home[packet := (|cs| - 1, n)]))
  {
    var cs', home' := Issue(cs, n, packet), j.home[packet := (|cs| - 1, n)];
    assert n !in cs[|cs| - 1].latest && packet !in j.reports;
    forall p | p in home'
      ensures Believes(cs'[home'[p].0], home'[p].1, j.reports, p)
    {
      if p != packet { assert Believes(cs[j.home[p].0], j.home[p].1, j.reports, p); }
    }
  }

  lemma HomesDiffer(cs: seq<Claim>, home: map<nat, (nat, nat)>, p: nat, q: nat)
    requires AtHome(cs, home) && p in home && q in home && p != q
    ensures home[p] != home[q]
  {}

  lemma AcceptKeepsHome(cs: seq<Claim>, home: map<nat, (nat, nat)>, n: nat, d: Acks.AckDecision)
    requires AtHome(cs, home) && cs != []
    ensures AtHome(Accept(cs, n, d), home)
  {
    assert forall k | 0 <= k < |cs| :: Accept(cs, n, d)[k].issued == cs[k].issued;
  }

  lemma OwnFaithful(cs: seq<Claim>, j: Journal, author: nat, n: nat, d: Acks.AckDecision)
    requires Truthful(cs, j) && cs != [] && author in j.home && j.home[author] == (|cs| - 1, n)
    ensures Faithful(Accept(cs, n, d), j.(reports := j.reports[author := d]))
  {
    var cs', reports' := Accept(cs, n, d), j.reports[author := d];
    forall p | p in j.home
      ensures Believes(cs'[j.home[p].0], j.home[p].1, reports', p)
    {
      assert Believes(cs[j.home[p].0], j.home[p].1, j.reports, p);
      if p != author { HomesDiffer(cs, j.home, p, author); }
    }
    forall i, m | 0 <= i < |cs'| && m in cs'[i].latest
      ensures m in cs'[i].issued
    {
      assert (i, m) == j.home[author] || m in cs[i].latest;
    }
  }

  lemma NewManagerHome(ms: seq<Acks.History>, home: map<nat, (nat, nat)>)
    requires AtHome(Claims(ms), home)
    ensures AtHome(Claims(ms + [[]]), home)
  {
    var cs, cs' := Claims(ms), Claims(ms + [[]]);
    assert cs' == cs + [Claim(map[], map[])];
  }

  lemma NewManagerFaithful(ms: seq<Acks.History>, j: Journal)
    requires Faithful(Claims(ms), j)
    ensures Faithful(Claims(ms + [[]]), j)
  {
    var cs, cs' := Claims(ms), Claims(ms + [[]]);
    assert cs' == cs + [Claim(map[], map[])];
    assert forall k | 0 <= k < |cs| :: cs'[k] == cs[k];
  }

  predicate Quiet(e: Acks.Entry) {
    match e
    case Registered(_, _, _, _) => false
    case Completed(_, _, _, ok) => !ok
    case RetryResolved(_, ok) => !ok
    case _ => true
  }

  /** How an entry changes the claims: not at all, by one issue, or by one accepted decision. */
  lemma AppendClaim(ms: seq<Acks.History>, i: nat, e: Acks.Entry)
    requires i < |ms|
    ensures var cs, cs' := Claims(ms), Claims(Append(ms, i, e));
            && (Quiet(e) ==> cs' == cs)
            && (e.Registered? ==> cs' == cs[i := cs[i].(issued := cs[i].issued[e.recvSeq := e.ackFn])])
            && (e.Completed? && e.ok ==> cs' == cs[i := cs[i].(latest := cs[i].latest[e.recvSeq := e.decision])])
            && (e.RetryResolved? && e.ok ==> cs' == cs[i := cs[i].(latest := cs[i].latest[e.recvSeq := Acks.ACK])])
  {
    var h := ms[i] + [e];
    assert Acks.Before(h) == ms[i];
    assert ClaimOf(h) == Claim(Acks.Note(Acks.Observe(ms[i]), e).issued, Acks.Note(Acks.Observe(ms[i]), e).latest);
    assert forall k | 0 <= k < |ms| && k != i :: Append(ms, i, e)[k] == ms[k];
  }

  /** Whatever is reported, each number belongs to the packet it was issued to. */
  lemma StepStaysHome(cfg: Acks.Config, c: Client, j: Journal, e: Event)
    requires AtHome(Claims(c.managers), j.home) && Enabled(cfg, c, e) && NewPacket(j, e) && cfg.maxPendingSize >= 1
    ensures AtHome(Claims(Step(c, e).managers), Record(j, c, e).home)
  {
    hide AtHome, Acks.Observe, Acks.Legal, Acks.Replay, Acks.Note;
    var ms := c.managers;
    match e {
      case StartBegin(_) => NewManagerHome(ms, j.home);
      case ConnectionUp =>
        StopKeepsClaims(ms);
        NewManagerHome(StopLast(ms), j.home);
      case ServerDisconnect => StopKeepsClaims(ms);
      case StopCalled => StopKeepsClaims(ms);
      case Publish(packet, entry) =>
        if !c.stopped {
          AppendClaim(ms, |ms| - 1, entry);
          if entry.Registered? {
            RegistersUnissued(cfg, ms[|ms| - 1], entry);
            FreshAtHome(Claims(ms), j.home, entry.recvSeq, packet);
          }
        }
      case Report(_, entry) =>
        if ms != [] {
          AppendClaim(ms, |ms| - 1, entry);
          AcceptKeepsHome(Claims(ms), j.home, entry.recvSeq, Reported(entry));
        }
      case Tick(i, entry) => AppendClaim(ms, i, entry);
      case _ =>
    }
  }

  /** The decision that an accepted report leaves behind. */
  function Reported(e: Acks.Entry): Acks.AckDecision {
    if e.Completed? then e.decision else Acks.ACK
  }

  lemma {:induction false} RunStaysHome(cfg: Acks.Config, run: seq<Event>)
    requires Legal(cfg, run) && DistinctPackets(run) && cfg.maxPendingSize >= 1
    ensures AtHome(Claims(After(run).managers), JournalOf(run).home)
    decreases |run|
  {
    if run != [] {
      var r := run[..|run| - 1];
      RunStaysHome(cfg, r);
      StepStaysHome(cfg, After(r), JournalOf(r), run[|run| - 1]);
    }
  }

  lemma StepStaysTruthful(cfg: Acks.Config, c: Client, j: Journal, e: Event)
    requires Truthful(Claims(c.managers), j) && Enabled(cfg, c, e) && OwnEvent(c, j, e) && cfg.maxPendingSize >= 1
    ensures Truthful(Claims(Step(c, e).managers), Record(j, c, e))
  {
    hide AtHome, Faithful, Acks.Observe, Acks.Legal, Acks.Replay, Acks.Note;
    StepStaysHome(cfg, c, j, e);
    var ms := c.managers;
    match e {
      case StartBegin(_) => NewManagerFaithful(ms, j);
      case ConnectionUp =>
        StopKeepsClaims(ms);
        NewManagerFaithful(StopLast(ms), j);
      case ServerDisconnect => StopKeepsClaims(ms);
      case StopCalled => StopKeepsClaims(ms);
      case Publish(packet, entry) =>
        if !c.stopped { PublishStaysFaithful(cfg, c, j, packet, entry); }
      case Report(author, entry) =>
        if ms != [] { ReportStaysFaithful(ms, j, author, entry); }
      case Tick(i, entry) => AppendClaim(ms, i, entry);
      case _ =>
    }
  }

  lemma StopKeepsClaims(ms: seq<Acks.History>)
    ensures Claims(StopLast(ms)) == Claims(ms)
  {
    if ms != [] { AppendClaim(ms, |ms| - 1, Acks.Halted); }
  }

  lemma PublishStaysFaithful(cfg: Acks.Config, c: Client, j: Journal, packet: nat, entry: Acks.Entry)
    requires Truthful(Claims(c.managers), j) && !c.stopped && cfg.maxPendingSize >= 1
    requires Enabled(cfg, c, Publish(packet, entry)) && OwnEvent(c, j, Publish(packet, entry))
    ensures Faithful(Claims(Step(c, Publish(packet, entry)).managers), Record(j, c, Publish(packet, entry)))
  {
    hide AtHome, Faithful;
    var cs, last := Claims(c.managers), |c.managers| - 1;
    AppendClaim(c.managers, last, entry);
    if entry.Registered? {
      RegistersUnissued(cfg, c.managers[last], entry);
      FreshFaithful(cs, j, entry.recvSeq, packet);
    }
  }

  lemma RegistersUnissued(cfg: Acks.Config, h: Acks.History, e: Acks.Entry)
    requires LegalIn(cfg, h, e) && e.Registered? && cfg.maxPendingSize >= 1
    ensures e.recvSeq !in Acks.Observe(h).issued
  {
    AckSafety.LegalInv(cfg, h);
  }

  lemma ReportStaysFaithful(ms: seq<Acks.History>, j: Journal, author: nat, entry: Acks.Entry)
    requires Truthful(Claims(ms), j) && ms != [] && (entry.Completed? || entry.RetryResolved?)
    requires entry.ok ==> author in j.home && j.home[author] == (|ms| - 1, entry.recvSeq)
    ensures Faithful(Claims(Append(ms, |ms| - 1, entry)),
                     if entry.ok then j.(reports := j.reports[author := Reported(entry)]) else j)
  {
    hide AtHome, Faithful;
    AppendClaim(ms, |ms| - 1, entry);
    if entry.ok { OwnFaithful(Claims(ms), j, author, entry.recvSeq, Reported(entry)); }
  }

  lemma {:induction false} RunStaysTruthful(cfg: Acks.Config, run: seq<Event>)
    requires Legal(cfg, run) && OwnReports(run) && cfg.maxPendingSize >= 1
    ensures Truthful(Claims(After(run).managers), JournalOf(run))
    decreases |run|
  {
    if run != [] {
      var r := run[..|run| - 1];
      RunStaysTruthful(cfg, r);
      StepStaysTruthful(cfg, After(r), JournalOf(r), run[|run| - 1]);
    }
  }

  /** If workers only report numbers issued by the current manager, every number a manager flushes
      belongs to a packet whose own worker last reported something other than Retry. */
  lemma FlushMeansOwnDecision(cfg: Acks.Config, run: seq<Event>, i: nat, e: Acks.Entry, k: nat)
    requires Legal(cfg, run) && OwnReports(run) && cfg.maxPendingSize >= 1
    requires Enabled(cfg, After(run), Tick(i, e)) && e.Flushed? && k < |e.sent|
    ensures var issued, reports := Acks.Observe(After(run).managers[i]).issued, JournalOf(run).reports;
            && e.sent[k] in issued && issued[e.sent[k]].Some?
            && issued[e.sent[k]].value in reports && reports[issued[e.sent[k]].value] != Acks.Retry
  {
    RunStaysTruthful(cfg, run);
    var h := After(run).managers[i];
    AckSafety.LegalInv(cfg, h);
    AckSafety.ReleaseIsJustified(cfg, Acks.Replay(cfg, h), Acks.Observe(h), e, k);
    ReleasedWasReported(Claims(After(run).managers), JournalOf(run), i, e.sent[k]);
  }

  lemma ReleasedWasReported(cs: seq<Claim>, j: Journal, i: nat, n: nat)
    requires Truthful(cs, j) && i < |cs| && n in cs[i].issued && n in cs[i].latest
    ensures cs[i].issued[n].Some? && cs[i].issued[n].value in j.reports
    ensures j.reports[cs[i].issued[n].value] == cs[i].latest[n]
  {
    var p := cs[i].issued[n].value;
    assert Believes(cs[j.home[p].0], j.home[p].1, j.reports, p);
  }

  /** What the current manager checks before it takes a report. */
  ghost predicate Takes(cfg: Acks.Config, c: Client, e: Acks.Entry)
    requires e.Completed? || e.RetryResolved?
  {
    c.managers != [] && Acks.Legal(cfg, c.managers[|c.managers| - 1]) &&
    var s := Acks.Replay(cfg, c.managers[|c.managers| - 1]);
    && !s.stopped && e.recvSeq in s.pending
    && (e.RetryResolved? ==> s.pending[e.recvSeq].completed && s.pending[e.recvSeq].decision == Acks.Retry)
  }

  /** The packet whose PUBACK the current manager sends for number `n`. */
  function PacketOf(c: Client, n: nat): Option<nat> {
    if c.managers == [] then None else
      var issued := Acks.Observe(c.managers[|c.managers| - 1]).issued;
      if n in issued then issued[n] else None
  }

  /** A number that the current manager has waiting was issued to a packet registered with it. */
  lemma WaitingHasPacket(cfg: Acks.Config, c: Client, home: map<nat, (nat, nat)>, e: Acks.Entry)
    requires AtHome(Claims(c.managers), home) && cfg.maxPendingSize >= 1 && (e.Completed? || e.RetryResolved?)
    requires Takes(cfg, c, e)
    ensures PacketOf(c, e.recvSeq).Some?
    ensures var p := PacketOf(c, e.recvSeq).value; p in home && home[p] == (|c.managers| - 1, e.recvSeq)
  {
    var h := c.managers[|c.managers| - 1];
    assert e.recvSeq in Acks.Observe(h).issued by {
      AckSafety.LegalInv(cfg, h);
      assert Acks.EntryMatches(Acks.Replay(cfg, h).pending[e.recvSeq], Acks.Observe(h), e.recvSeq);
    }
    hide Acks.Replay, Acks.Observe, Acks.Legal;
    assert Claims(c.managers)[|c.managers| - 1].issued == Acks.Observe(h).issued;
  }

  /** On every run, however workers report: a worker reporting the number its packet was given
      decides the fate of another packet exactly when a newer manager is current and has that number
      waiting.  An accepted report always finds some packet registered with the current manager,
      its own exactly when that manager issued the number, and leaves its decision on it. */
  lemma ReportHitsAnotherIff(cfg: Acks.Config, run: seq<Event>, author: nat, e: Acks.Entry)
    requires Legal(cfg, run) && DistinctPackets(run) && cfg.maxPendingSize >= 1
    requires Enabled(cfg, After(run), Report(author, e))
    requires author in JournalOf(run).home && JournalOf(run).home[author].1 == e.recvSeq
    ensures var c, home := After(run), JournalOf(run).home;
            var hit := PacketOf(c, e.recvSeq);
            && (e.ok && hit != Some(author) <==> home[author].0 != |c.managers| - 1 && Takes(cfg, c, e))
            && (e.ok ==> hit.Some? && hit.value in home && home[hit.value] == (|c.managers| - 1, e.recvSeq))
            && (e.ok ==> (hit == Some(author) <==> home[author].0 == |c.managers| - 1))
            && (e.ok ==> DecidedLast(Step(c, Report(author, e)), e.recvSeq) == Some(Reported(e)))
  {
    hide After, JournalOf, Legal, DistinctPackets, Takes, LegalIn, AtHome, PacketOf, DecidedLast, Step;
    RunStaysHome(cfg, run);
    var c, home := After(run), JournalOf(run).home;
    AcceptedIffTakes(cfg, c, author, e);
    if e.ok {
      WaitingHasPacket(cfg, c, home, e);
      if home[author].0 == |c.managers| - 1 { HomeIsPacket(c, home, author); }
      AcceptedDecides(cfg, c, author, e);
    }
  }

  lemma AcceptedIffTakes(cfg: Acks.Config, c: Client, author: nat, e: Acks.Entry)
    requires Enabled(cfg, c, Report(author, e))
    ensures e.ok <==> Takes(cfg, c, e)
  {}

  lemma HomeIsPacket(c: Client, home: map<nat, (nat, nat)>, p: nat)
    requires AtHome(Claims(c.managers), home) && p in home && home[p].0 == |c.managers| - 1
    ensures PacketOf(c, home[p].1) == Some(p)
  {
    hide Acks.Observe;
  }

  /** The decision the current manager last accepted for number `n`. */
  function DecidedLast(c: Client, n: nat): Option<Acks.AckDecision> {
    if c.managers == [] then None else
      var latest := Acks.Observe(c.managers[|c.managers| - 1]).latest;
      if n in latest then Some(latest[n]) else None
  }

  lemma AcceptedDecides(cfg: Acks.Config, c: Client, author: nat, e: Acks.Entry)
    requires Enabled(cfg, c, Report(author, e)) && e.ok
    ensures DecidedLast(Step(c, Report(author, e)), e.recvSeq) == Some(Reported(e))
  {
    var h := c.managers[|c.managers| - 1];
    assert Acks.Before(h + [e]) == h;
  }

  // Numbers restart in each manager: the late completion of packet 7, from the connection
  // before, marks packet 8 complete, and the next flush acknowledges 8 though nobody processed it.
  const SEVEN := Acks.Registered(1, Some(7), 0, None)
  const EIGHT := Acks.Registered(1, Some(8), 1, None)
  const LATE := Acks.Completed(1, Acks.ACK, 2, true)
  const LATE_RUN: seq<Event> :=
    [StartBegin(true), StartDone(true), Publish(7, SEVEN), ConnectionUp, Publish(8, EIGHT), Report(7, LATE)]

  lemma Extend(cfg: Acks.Config, run: seq<Event>, e: Event)
    requires Legal(cfg, run) && Enabled(cfg, After(run), e)
    ensures Legal(cfg, run + [e]) && After(run + [e]) == Step(After(run), e)
    ensures JournalOf(run + [e]) == Record(JournalOf(run), After(run), e)
    ensures DistinctPackets(run) && NewPacket(JournalOf(run), e) ==> DistinctPackets(run + [e])
  {
    assert (run + [e])[..|run|] == run;
  }

  lemma LateManagers(cfg: Acks.Config)
    requires cfg.maxPendingSize >= 1
    ensures LegalIn(cfg, [], SEVEN) && LegalIn(cfg, [], EIGHT) && LegalIn(cfg, [EIGHT], LATE)
    ensures LegalIn(cfg, [EIGHT, LATE], Acks.Flushed([1]))
    ensures Acks.Observe([EIGHT, LATE]).issued == map[1 := Some(8)]
  {
    AckSafety.LegalAppend(cfg, [], EIGHT);
    assert [] + [EIGHT] == [EIGHT] && [EIGHT] + [LATE] == [EIGHT, LATE];
    assert Acks.Replay(cfg, [EIGHT]).pending == map[1 := Acks.FreshEntry(1, Some(8), 1)];
    AckSafety.LegalAppend(cfg, [EIGHT], LATE);
    var s := Acks.Step(cfg, Acks.Replay(cfg, [EIGHT]), LATE);
    assert Acks.RunEnd(s.pending, 1, 2) == Acks.RunEnd(s.pending, 2, 2) == 2;
    assert Acks.Interval(1, 2) == [1];
    LateClaims();
  }

  lemma LateClaims()
    ensures Acks.Observe([EIGHT, LATE]).issued == map[1 := Some(8)]
  {
    assert Acks.Before([EIGHT, LATE]) == [EIGHT] && Acks.Before([EIGHT]) == [];
    assert Acks.Observe([EIGHT]).issued == map[1 := Some(8)];
  }

  lemma LateCompletionAcksAnother(cfg: Acks.Config)
    requires cfg.maxPendingSize >= 1
    ensures Legal(cfg, LATE_RUN) && DistinctPackets(LATE_RUN)
    ensures 7 in JournalOf(LATE_RUN).home && JournalOf(LATE_RUN).home[7] == (0, 1) && 8 !in JournalOf(LATE_RUN).reports
    ensures Enabled(cfg, After(LATE_RUN), Tick(1, Acks.Flushed([1])))
    ensures Acks.Observe(After(LATE_RUN).managers[1]).issued == map[1 := Some(8)]
  {
    hide Legal, After, JournalOf, DistinctPackets, LegalIn, Step, Record, Acks.Observe, Acks.Legal, Acks.Replay,
         Acks.Enabled;
    LateManagers(cfg);
    LateMiddle(cfg);
    assert LATE_RUN[..5] + [Report(7, LATE)] == LATE_RUN && [EIGHT] + [LATE] == [EIGHT, LATE];
    LateReport(cfg, LATE_RUN[..5], 7, LATE, [SEVEN, Acks.Halted], [EIGHT]);
  }

  lemma LateReport(cfg: Acks.Config, run: seq<Event>, author: nat, e: Acks.Entry, old': Acks.History,
                   current: Acks.History)
    requires Legal(cfg, run) && DistinctPackets(run) && After(run) == Client(StateConnected, false, [old', current])
    requires e.Completed? && e.ok && LegalIn(cfg, current, e)
    ensures var more := run + [Report(author, e)];
            && Legal(cfg, more) && DistinctPackets(more)
            && After(more) == Client(StateConnected, false, [old', current + [e]])
            && JournalOf(more) == JournalOf(run).(reports := JournalOf(run).reports[author := e.decision])
  {
    hide Legal, After, JournalOf, DistinctPackets, LegalIn;
    Extend(cfg, run, Report(author, e));
  }

  lemma LateMiddle(cfg: Acks.Config)
    requires cfg.maxPendingSize >= 1
    ensures Legal(cfg, LATE_RUN[..5]) && After(LATE_RUN[..5])
            == Client(StateConnected, false, [[SEVEN, Acks.Halted], [EIGHT]])
    ensures DistinctPackets(LATE_RUN[..5]) && JournalOf(LATE_RUN[..5]) == Journal(map[7 := (0, 1), 8 := (1, 1)], map[])
  {
    LateManagers(cfg);
    hide Legal, After, JournalOf, DistinctPackets, LegalIn, Acks.Observe, Acks.Legal, Acks.Replay;
    var r := LATE_RUN;
    LateStart(cfg);
    assert r[..3] + [r[3]] == r[..4] && r[..4] + [r[4]] == r[..5];
    Extend(cfg, r[..3], r[3]);
    assert [SEVEN] + [Acks.Halted] == [SEVEN, Acks.Halted] && [] + [EIGHT] == [EIGHT];
    assert After(r[..4]) == Client(StateConnected, false, [[SEVEN, Acks.Halted], []]);
    Extend(cfg, r[..4], r[4]);
  }

  lemma LateStart(cfg: Acks.Config)
    requires cfg.maxPendingSize >= 1
    ensures Legal(cfg, LATE_RUN[..3]) && After(LATE_RUN[..3]) == Client(StateConnected, false, [[SEVEN]])
    ensures DistinctPackets(LATE_RUN[..3]) && JournalOf(LATE_RUN[..3]) == Journal(map[7 := (0, 1)], map[])
  {
    LateManagers(cfg);
    var r := LATE_RUN;
    assert [] + [r[0]] == r[..1] && r[..1] + [r[1]] == r[..2] && r[..2] + [r[2]] == r[..3];
    Extend(cfg, [], r[0]);
    Extend(cfg, r[..1], r[1]);
    Extend(cfg, r[..2], r[2]);
    assert [] + [SEVEN] == [SEVEN];
  }

  // A second Start drops the first manager with packet 7 decided but not yet flushed: its loop
  // acknowledges the packet after the client was stopped.
  const LEAK_RUN: seq<Event> :=
    [StartBegin(true), StartDone(true), Publish(7, SEVEN), Report(7, LATE), StartBegin(true), StopCalled]

  lemma LeakedManagers(cfg: Acks.Config)
    requires cfg.maxPendingSize >= 1
    ensures LegalIn(cfg, [], SEVEN) && LegalIn(cfg, [SEVEN], LATE) && LegalIn(cfg, [SEVEN, LATE], Acks.Flushed([1]))
  {
    AckSafety.LegalAppend(cfg, [], SEVEN);
    assert [] + [SEVEN] == [SEVEN] && [SEVEN] + [LATE] == [SEVEN, LATE];
    assert Acks.Replay(cfg, [SEVEN]).pending == map[1 := Acks.FreshEntry(1, Some(7), 0)];
    AckSafety.LegalAppend(cfg, [SEVEN], LATE);
    var s := Acks.Step(cfg, Acks.Replay(cfg, [SEVEN]), LATE);
    assert Acks.RunEnd(s.pending, 1, 2) == Acks.RunEnd(s.pending, 2, 2) == 2;
    assert Acks.Interval(1, 2) == [1];
  }

  lemma LeakMiddle(cfg: Acks.Config)
    requires cfg.maxPendingSize >= 1
    ensures Legal(cfg, LEAK_RUN[..4]) && After(LEAK_RUN[..4]) == Client(StateConnected, false, [[SEVEN, LATE]])
  {
    LeakedManagers(cfg);
    LeakStart(cfg);
    hide LegalIn, Legal, After, JournalOf, Record, DistinctPackets, NewPacket, Acks.Observe, Acks.Legal, Acks.Replay;
    var r := LEAK_RUN;
    assert r[..2] + [r[2]] == r[..3] && r[..3] + [r[3]] == r[..4];
    assert [] + [SEVEN] == [SEVEN] && [SEVEN] + [LATE] == [SEVEN, LATE];
    Extend(cfg, r[..2], r[2]);
    assert After(r[..3]) == Client(StateConnected, false, [[SEVEN]]);
    Extend(cfg, r[..3], r[3]);
  }

  lemma LeakStart(cfg: Acks.Config)
    ensures Legal(cfg, LEAK_RUN[..2]) && After(LEAK_RUN[..2]) == Client(StateConnected, false, [[]])
  {
    assert [] + [LEAK_RUN[0]] == LEAK_RUN[..1] && LEAK_RUN[..1] + [LEAK_RUN[1]] == LEAK_RUN[..2];
    Extend(cfg, [], LEAK_RUN[0]);
    Extend(cfg, LEAK_RUN[..1], LEAK_RUN[1]);
  }

  lemma LeakAndStop(cfg: Acks.Config, run: seq<Event>, h: Acks.History)
    requires Legal(cfg, run) && After(run) == Client(StateConnected, false, [h])
    ensures var more := run + [StartBegin(true)] + [StopCalled];
            Legal(cfg, more) && After(more) == Client(StateDisconnected, true, [h, [Acks.Halted]])
  {
    hide Legal, After;
    Extend(cfg, run, StartBegin(true));
    Extend(cfg, run + [StartBegin(true)], StopCalled);
    assert [] + [Acks.Halted] == [Acks.Halted];
  }

  lemma LeakedManagerStillSends(cfg: Acks.Config)
    requires cfg.maxPendingSize >= 1
    ensures Legal(cfg, LEAK_RUN) && After(LEAK_RUN).stopped
    ensures Enabled(cfg, After(LEAK_RUN), Tick(0, Acks.Flushed([1])))
  {
    hide LegalIn, Legal, After;
    LeakedManagers(cfg);
    LeakMiddle(cfg);
    LeakAndStop(cfg, LEAK_RUN[..4], [SEVEN, LATE]);
    assert LEAK_RUN[..4] + [StartBegin(true)] + [StopCalled] == LEAK_RUN;
  }
}
