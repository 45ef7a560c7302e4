/** The MQTT client's own fields and callbacks.  Each callback is one step of ClientProtocol, on the
    manager objects themselves, so the facts about runs hold of the object after any calls. */
module MqttClients {
  import opened Common
  import Acks = AckOrdering
  import opened AckManagement
  import opened ClientProtocol
  import opened ClientAcks
  import ClientOrder

  datatype ClientError =
    | ErrClientStopped
    | InvalidServerURLs
    | ConnectFailed(message: string)
    | SharedSubNotSupported
    | SubscribeFailed(message: string)
    | ServerDisconnected(message: string)
    | DisconnectFailed(message: string)

  class MQTTClient {
    const pendingAckTimeout: int
    const maxPendingAcks: int
    var state: ConnectionState
    var lastError: Option<ClientError>
    var stopped: bool
    var messagesReceived: nat
    var reconnectCount: nat
    var ackMgr: AckManager?
    ghost var managers: seq<AckManager>        // every manager ever created
    ghost var histories: seq<Acks.History>
    ghost var run: seq<Event>
    ghost const cfg: Acks.Config

    ghost predicate Valid()
      reads this, managers
    {
      && cfg.maxPendingSize >= 1
      && cfg == Acks.Config(if pendingAckTimeout <= 0 then DEFAULT_PENDING_TIMEOUT else pendingAckTimeout,
                            if maxPendingAcks <= 0 then DEFAULT_MAX_PENDING_SIZE else maxPendingAcks)
      && (if managers == [] then ackMgr == null else ackMgr == managers[|managers| - 1])
      && |histories| == |managers|
      && (forall i, j | 0 <= i < j < |managers| :: managers[i] != managers[j])
      && (forall i | 0 <= i < |managers| :: Holds(managers[i], histories[i]))
      && Legal(cfg, run) && After(run) == Client(state, stopped, histories)
    }

    ghost predicate Holds(m: AckManager, h: Acks.History)
      reads m
    {
      m.Valid() && m.cfg == cfg && m.history == h
    }

    constructor (pendingAckTimeout: int, maxPendingAcks: int)
      ensures Valid() && run == [] && managers == []
    {
      this.pendingAckTimeout, this.maxPendingAcks := pendingAckTimeout, maxPendingAcks;
      cfg := Acks.Config(if pendingAckTimeout <= 0 then DEFAULT_PENDING_TIMEOUT else pendingAckTimeout,
                         if maxPendingAcks <= 0 then DEFAULT_MAX_PENDING_SIZE else maxPendingAcks);
      state, lastError, stopped, ackMgr := StateDisconnected, None, false, null;
      messagesReceived, reconnectCount := 0, 0;
      managers, histories, run := [], [], [];
    }

    /** The wire of every manager is ordered; only the current one is running exactly when no Start
        dropped a running one; and then a stopped client has nothing left to flush. */
    lemma PastIsSafe()
      requires Valid()
      ensures forall i | 0 <= i < |managers| :: Acks.OrderedAcks(managers[i].history)
      ensures (forall i | 0 <= i < |managers| - 1 :: managers[i].stopped) <==> LeakFree(run)
      ensures LeakFree(run) && stopped ==> forall i | 0 <= i < |managers| :: managers[i].pending == map[]
    {
      forall i | 0 <= i < |managers|
        ensures Acks.OrderedAcks(managers[i].history) && (managers[i].stopped <==> !Running(histories[i]))
        ensures managers[i].stopped ==> managers[i].pending == map[]
        ensures Idle(cfg, histories[i]) ==> managers[i].pending == map[]
      {
        assert Holds(managers[i], histories[i]);
        managers[i].PastIsOrdered();
      }
      OnlyLastRunsIff(cfg, run);
      if stopped && managers != [] { StoppedCurrentIsIdle(cfg, run); }
    }

    /** The log of acknowledgements holds just the managers' wires and what was acknowledged at once;
        and if no Start dropped a running manager, the client as a whole has acknowledged packets in
        the order in which they arrived. */
    lemma PastIsInOrder()
      requires Valid()
      ensures forall i | 0 <= i < |managers| :: SentBy(AckLog(run), i) == managers[i].wire
      ensures LeakFree(run) && NoRepeat(Received(run)) ==> ClientOrder.InOrder(AckLog(run), Received(run))
    {
      hide Legal, After, AckLog, Received, SentBy, LeakFree, NoRepeat, Acks.Legal, Acks.Replay;
      forall i | 0 <= i < |managers|
        ensures SentBy(AckLog(run), i) == managers[i].wire
      {
        assert Holds(managers[i], histories[i]);
        LogIsWires(cfg, run, i);
      }
      if LeakFree(run) && NoRepeat(Received(run)) { ClientOrder.AlwaysOrdered(cfg, run); }
    }

    /** Creates a fresh manager and makes it current. */
    method Replace(ghost hs: seq<Acks.History>)
      requires cfg.maxPendingSize >= 1 && |hs| == |managers|
      requires cfg == Acks.Config(if pendingAckTimeout <= 0 then DEFAULT_PENDING_TIMEOUT else pendingAckTimeout,
                                  if maxPendingAcks <= 0 then DEFAULT_MAX_PENDING_SIZE else maxPendingAcks)
      requires forall i, j | 0 <= i < j < |managers| :: managers[i] != managers[j]
      requires forall i | 0 <= i < |managers| :: Holds(managers[i], hs[i])
      modifies this`ackMgr, this`managers, this`histories
      ensures fresh(ackMgr) && !ackMgr.stopped && managers == old(managers) + [ackMgr] && histories == hs + [[]]
      ensures forall i, j | 0 <= i < j < |managers| :: managers[i] != managers[j]
      ensures forall i | 0 <= i < |managers| :: Holds(managers[i], histories[i])
    {
      hide Legal, After, Acks.Legal, Acks.Replay, AckManager.Valid;
      var m := new AckManager(pendingAckTimeout, maxPendingAcks);
      ackMgr := m;
      managers := managers + [m];
      histories := hs + [[]];
    }

    /** Start, up to handing the configuration to the connection library. */
    method StartBegin(urlsOk: bool) returns (err: Option<ClientError>)
      requires Valid()
      modifies this
      ensures Valid() && run == old(run) + [Event.StartBegin(urlsOk)]
              && fresh(set m | m in managers && m !in old(managers))
      ensures err == if old(stopped) then Some(ErrClientStopped) else if urlsOk then None else Some(InvalidServerURLs)
    {
      hide Legal, After, Acks.Legal, Acks.Replay, AckManager.Valid;
      ghost var e := Event.StartBegin(urlsOk);
      Extend(cfg, run, e);
      run := run + [e];
      if stopped { return Some(ErrClientStopped); }
      state := StateConnecting;
      if !urlsOk { return Some(InvalidServerURLs); }
      Replace(histories);
      return None;
    }

    /** Start, once the connection attempt has succeeded or failed. */
    method StartDone(connected: bool, message: string) returns (err: Option<ClientError>)
      requires Valid()
      modifies this
      ensures Valid() && run == old(run) + [Event.StartDone(connected)] && managers == old(managers)
      ensures err.None? <==> connected
      ensures state == if connected then StateConnected else StateDisconnected
      ensures lastError == if connected then old(lastError) else Some(ConnectFailed(message))
    {
      hide Legal, After, Acks.Legal, Acks.Replay, AckManager.Valid;
      ghost var e := Event.StartDone(connected);
      Extend(cfg, run, e);
      run := run + [e];
      if !connected {
        state, lastError := StateDisconnected, Some(ConnectFailed(message));
        return Some(ConnectFailed(message));
      }
      state := StateConnected;
      return None;
    }

    /** Stops the current manager, if any. */
    method StopCurrent()
      requires Valid()
      modifies this`histories, managers
      ensures histories == StopLast(old(histories)) && (ackMgr != null ==> ackMgr.stopped)
      ensures forall i | 0 <= i < |managers| :: Holds(managers[i], histories[i])
    {
      hide Legal, After, Acks.Legal, Acks.Replay, AckManager.Valid;
      if ackMgr != null {
        assert Holds(ackMgr, histories[|managers| - 1]);
        ackMgr.Stop();
        histories := Append(histories, |histories| - 1, Acks.Halted);
      }
    }

    /** The connection-scoped reset: the old manager is stopped, a fresh one takes its place. */
    method ResetManager()
      requires Valid()
      modifies this`ackMgr, this`managers, this`histories, this`reconnectCount, managers
      ensures histories == StopLast(old(histories)) + [[]] && reconnectCount == old(reconnectCount) + 1
      ensures managers == old(managers) + [ackMgr] && fresh(ackMgr) && !ackMgr.stopped
      ensures |histories| == |managers|
      ensures forall i, j | 0 <= i < j < |managers| :: managers[i] != managers[j]
      ensures forall i | 0 <= i < |managers| :: Holds(managers[i], histories[i])
    {
      hide Legal, After, Acks.Legal, Acks.Replay, AckManager.Valid;
      StopCurrent();
      reconnectCount := reconnectCount + 1;
      Replace(histories);
    }

    method OnConnectionUp(sharedSubAvailable: bool, subscribeFailure: Option<string>)
      requires Valid()
      modifies this, managers
      ensures Valid() && run == old(run) + [ConnectionUp]
      ensures lastError == if !sharedSubAvailable then Some(SharedSubNotSupported)
                           else if subscribeFailure.Some? then Some(SubscribeFailed(subscribeFailure.value))
                           else old(lastError)
      ensures old(state) != StateConnected ==> managers == old(managers) && reconnectCount == old(reconnectCount)
      ensures old(state) == StateConnected ==>
                && |managers| == |old(managers)| + 1 && fresh(ackMgr) && !ackMgr.stopped
                && reconnectCount == old(reconnectCount) + 1
    {
      hide Legal, After, Acks.Legal, Acks.Replay, AckManager.Valid;
      hide Step;
      ExtendUp(cfg, run);
      ghost var r := run + [ConnectionUp];
      if state == StateConnected {
        ResetManager();
      }
      state := StateConnected;
      run := r;
      if !sharedSubAvailable {
        lastError := Some(SharedSubNotSupported);
      } else if subscribeFailure.Some? {
        lastError := Some(SubscribeFailed(subscribeFailure.value));
      }
    }

    method OnConnectError(message: string)
      requires Valid()
      modifies this
      ensures Valid() && run == old(run) + [ConnectError] && lastError == Some(ConnectFailed(message))
      ensures managers == old(managers) && ackMgr == old(ackMgr) && state == StateConnecting
    {
      hide Legal, After, Acks.Legal, Acks.Replay, AckManager.Valid;
      Extend(cfg, run, ConnectError);
      run := run + [ConnectError];
      state, lastError := StateConnecting, Some(ConnectFailed(message));
    }

    method OnServerDisconnect(message: string)
      requires Valid()
      modifies this, managers
      ensures Valid() && run == old(run) + [ServerDisconnect] && managers == old(managers)
      ensures ackMgr != null ==> ackMgr.stopped
      ensures state == StateDisconnected && lastError == Some(ServerDisconnected(message))
    {
      hide Legal, After, Acks.Legal, Acks.Replay, AckManager.Valid;
      Extend(cfg, run, ServerDisconnect);
      StopCurrent();
      state, lastError := StateDisconnected, Some(ServerDisconnected(message));
      run := run + [ServerDisconnect];
    }

    method Stop(disconnectFailure: Option<string>)
      requires Valid()
      modifies this, managers
      ensures Valid() && run == old(run) + [StopCalled] && stopped
      ensures managers == old(managers) && ackMgr == old(ackMgr)
      ensures lastError == if old(stopped) || disconnectFailure.None? then old(lastError)
                           else Some(DisconnectFailed(disconnectFailure.value))
      ensures if old(stopped) then state == old(state) && forall m | m in managers :: m.View() == old(m.View())
              else state == StateDisconnected && (ackMgr != null ==> ackMgr.stopped)
    {
      hide Legal, After, Acks.Legal, Acks.Replay, AckManager.Valid;
      hide Step;
      ExtendStop(cfg, run);
      if stopped {
        run := run + [StopCalled];
        return;
      }
      StopCurrent();
      if disconnectFailure.Some? {
        lastError := Some(DisconnectFailed(disconnectFailure.value));
      }
      stopped, state := true, StateDisconnected;
      run := run + [StopCalled];
    }

    /** Answers whether the library should acknowledge at once, and the number handed to the handler. */
    method OnPublishReceived(packet: nat, now: int) returns (ackNow: bool, recvSeq: nat)
      requires Valid() && (!stopped ==> ackMgr != null)
      modifies this, managers
      ensures Valid() && managers == old(managers)
      ensures ackNow <==> old(stopped) || old(ackMgr.stopped)
      ensures AckLog(run) == AckLog(old(run)) + if ackNow then [AtOnce(packet)] else []
      ensures Received(run) == Received(old(run)) + [packet]
      ensures messagesReceived == old(messagesReceived) + if old(stopped) then 0 else 1
      ensures !ackNow ==> recvSeq == old(ackMgr.nextRecvSeq)
      ensures !ackNow ==> recvSeq in ackMgr.pending && ackMgr.pending[recvSeq].ackFn == Some(packet)
      ensures |run| == |old(run)| + 1 && run[..|old(run)|] == old(run) && run[|old(run)|].Publish?
              && run[|old(run)|].packet == packet
    {
      hide Legal, After, AckLog, Received, ArrivedDeaf, Acks.Legal, Acks.Replay, Acks.Observe, AckManager.Valid;
      hide JournalOf, Record, DistinctPackets;
      if stopped {
        ghost var e := Publish(packet, Acks.RegisterRefused);
        Extend(cfg, run, e);
        LogExtends(run, e);
        run := run + [e];
        return true, 0;
      }
      messagesReceived := messagesReceived + 1;
      ghost var h := ackMgr.history;
      assert Holds(ackMgr, histories[|managers| - 1]);
      var ok;
      ghost var victim;
      recvSeq, ok, victim := ackMgr.Register(Some(packet), now);
      ackNow := !ok;
      ghost var entry := if ok then Acks.Registered(recvSeq, Some(packet), now, victim) else Acks.RegisterRefused;
      LogExtends(run, Publish(packet, entry));
      Took(Publish(packet, entry), |managers| - 1, h, entry);
    }

    /** `author` is the packet whose worker is calling; the code does not know it. */
    method AckMessage(recvSeq: nat, decision: Acks.AckDecision, now: int, ghost author: nat) returns (ok: bool)
      requires Valid()
      modifies this, managers
      ensures Valid() && managers == old(managers)
      ensures run == old(run) + [Report(author, Acks.Completed(recvSeq, decision, now, ok))]
      ensures ok == (old(ackMgr) != null && !old(ackMgr.stopped) && recvSeq in old(ackMgr.pending))
    {
      hide Legal, After, Acks.Legal, Acks.Replay, AckManager.Valid;
      if ackMgr == null {
        ghost var e := Report(author, Acks.Completed(recvSeq, decision, now, false));
        Extend(cfg, run, e);
        run := run + [e];
        return false;
      }
      ghost var h := ackMgr.history;
      assert Holds(ackMgr, histories[|managers| - 1]);
      ok := ackMgr.Complete(recvSeq, decision, now);
      ghost var entry := Acks.Completed(recvSeq, decision, now, ok);
      Took(Report(author, entry), |managers| - 1, h, entry);
    }

    method UpdateRetryToAck(recvSeq: nat, ghost author: nat) returns (ok: bool)
      requires Valid()
      modifies this, managers
      ensures Valid() && managers == old(managers)
      ensures run == old(run) + [Report(author, Acks.RetryResolved(recvSeq, ok))]
      ensures ok == (old(ackMgr) != null && !old(ackMgr.stopped) && recvSeq in old(ackMgr.pending) &&
                     old(ackMgr.pending)[recvSeq].completed && old(ackMgr.pending)[recvSeq].decision == Acks.Retry)
    {
      hide Legal, After, Acks.Legal, Acks.Replay, AckManager.Valid;
      if ackMgr == null {
        ghost var e := Report(author, Acks.RetryResolved(recvSeq, false));
        Extend(cfg, run, e);
        run := run + [e];
        return false;
      }
      ghost var h := ackMgr.history;
      assert Holds(ackMgr, histories[|managers| - 1]);
      ok := ackMgr.UpdateRetryToAck(recvSeq);
      ghost var entry := Acks.RetryResolved(recvSeq, ok);
      Took(Report(author, entry), |managers| - 1, h, entry);
    }

    /** One turn of some manager's flush loop. */
    method FlushTick(m: AckManager) returns (acked: nat)
      requires Valid() && m in managers
      modifies this, managers
      ensures Valid() && managers == old(managers)
      ensures old(m.stopped) ==> acked == 0 && m.wire == old(m.wire)
    {
      hide Legal, After, Acks.Legal, Acks.Replay, AckManager.Valid;
      ghost var i :| 0 <= i < |managers| && managers[i] == m;
      ghost var h, was := m.history, m.View();
      assert Holds(m, histories[i]);
      acked := m.Flush();
      ghost var entry := Acks.Flushed(Acks.Interval(was.nextAckSeq, was.nextAckSeq + acked));
      Took(Tick(i, entry), i, h, entry);
    }

    method EvictTick(m: AckManager, now: int)
      requires Valid() && m in managers
      modifies this, managers
      ensures Valid() && managers == old(managers)
    {
      hide Legal, After, Acks.Legal, Acks.Replay, AckManager.Valid;
      ghost var i :| 0 <= i < |managers| && managers[i] == m;
      ghost var h, was := m.history, m.View();
      assert Holds(m, histories[i]);
      m.EvictTimedOut(now);
      ghost var stale := if was.stopped then {} else Acks.TimedOut(was.pending, now - cfg.pendingTimeout);
      ghost var entry := Acks.Swept(now, stale);
      Took(Tick(i, entry), i, h, entry);
    }

    /** Records that manager `i`, whose history was `h`, has taken `entry`. */
    ghost method Took(e: Event, i: nat, h: Acks.History, entry: Acks.Entry)
      requires i < |managers| == |histories| && histories[i] == h
      requires cfg.maxPendingSize >= 1
      requires cfg == Acks.Config(if pendingAckTimeout <= 0 then DEFAULT_PENDING_TIMEOUT else pendingAckTimeout,
                                  if maxPendingAcks <= 0 then DEFAULT_MAX_PENDING_SIZE else maxPendingAcks)
      requires ackMgr == managers[|managers| - 1]
      requires forall k, j | 0 <= k < j < |managers| :: managers[k] != managers[j]
      requires forall k | 0 <= k < |managers| :: Holds(managers[k], if k == i then h + [entry] else histories[k])
      requires Legal(cfg, run) && After(run) == Client(state, stopped, histories)
      requires match e
               case Publish(p, x) => x == entry && !stopped && i == |managers| - 1 &&
                                     (x.RegisterRefused? || (x.Registered? && x.ackFn == Some(p)))
               case Report(_, x) => x == entry && i == |managers| - 1 && (x.Completed? || x.RetryResolved?)
               case Tick(k, x) => x == entry && k == i && (x.Flushed? || x.Swept?)
               case _ => false
      modifies this`histories, this`run
      ensures Valid() && run == old(run) + [e]
    {
      hide Legal, After, Acks.Legal, Acks.Replay;
      assert Holds(managers[i], h + [entry]);
      LastWasEnabled(cfg, h, entry);
      Extend(cfg, run, e);
      histories := Append(histories, i, entry);
      run := run + [e];
    }
  }

  lemma ExtendStop(cfg: Acks.Config, run: seq<Event>)
    requires Legal(cfg, run)
    ensures Legal(cfg, run + [StopCalled])
    ensures var c := After(run);
            After(run + [StopCalled]) == if c.stopped then c else Client(StateDisconnected, true, StopLast(c.managers))
  {
    Extend(cfg, run, StopCalled);
  }

  lemma ExtendUp(cfg: Acks.Config, run: seq<Event>)
    requires Legal(cfg, run)
    ensures Legal(cfg, run + [ConnectionUp])
    ensures var c := After(run);
            After(run + [ConnectionUp]) ==
              Client(StateConnected, c.stopped,
                     if c.state == StateConnected then StopLast(c.managers) + [[]] else c.managers)
  {
    Extend(cfg, run, ConnectionUp);
  }

  lemma LastWasEnabled(cfg: Acks.Config, h: Acks.History, e: Acks.Entry)
    requires Acks.Legal(cfg, h + [e])
    ensures LegalIn(cfg, h, e)
  {
    assert Acks.Before(h + [e]) == h;
  }
}
