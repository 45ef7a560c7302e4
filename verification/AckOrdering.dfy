/** The ordered-acknowledgement protocol of one MQTT connection, as a state machine.

    Every locked method of the manager is one atomic step.  A run is a history of
    `Entry` values: what was called, with which clock reading, and what it answered.
    `Replay` gives the state a history leads to and `Legal` says that each entry is
    what the code could have done in the state before it.  The ordering rule of
    section 4.6 of MQTT Version 5.0 is stated on histories alone (`OrderedAcks`),
    without mentioning the manager's fields.
 */
module AckOrdering {
  import opened Common

  /** `Unnamed` covers the other values of the underlying integer type: the code only
      ever compares a decision with Retry. */
  datatype AckDecision = ACK | Retry | Unnamed(code: int)

  /** `ackFn` names the PUBLISH packet whose PUBACK the closure sends; `None` is nil. */
  datatype PendingAck = PendingAck(recvSeq: nat, ackFn: Option<nat>, decision: AckDecision,
                                   completed: bool, registerAt: int, completeAt: int)

  datatype Config = Config(pendingTimeout: int, maxPendingSize: nat)

  /** `wire` is the environment's view: the PUBACKs sent, in order. */
  datatype State = State(nextRecvSeq: nat, nextAckSeq: nat, pending: map<nat, PendingAck>, stopped: bool,
                         ackedCount: nat, retriedCount: nat, evictedCount: nat, outOfOrderCount: nat,
                         wire: seq<nat>)

  datatype Entry =
    | Registered(recvSeq: nat, ackFn: Option<nat>, now: int, victim: Option<nat>)
    | RegisterRefused
    | Completed(recvSeq: nat, decision: AckDecision, now: int, ok: bool)
    | RetryResolved(recvSeq: nat, ok: bool)
    | Flushed(sent: seq<nat>)
    | Swept(now: int, evicted: set<nat>)
    | Halted

  type History = seq<Entry>

  const INITIAL := State(1, 1, map[], false, 0, 0, 0, 0, [])

  predicate Sendable(p: PendingAck) {
    p.completed && p.decision != Retry
  }

  /** No entry was registered before `v`; ties leave several candidates, and Go's map
      iteration order decides among them. */
  ghost predicate IsOldest(pending: map<nat, PendingAck>, v: nat) {
    v in pending && forall m | m in pending :: pending[v].registerAt <= pending[m].registerAt
  }

  /** End of the run of sendable entries that starts at `n`. */
  function RunEnd(pending: map<nat, PendingAck>, n: nat, limit: nat): (r: nat)
    ensures n <= r <= if n <= limit then limit else n
    ensures forall m | n <= m < r :: m in pending && Sendable(pending[m])
    ensures r < limit && r in pending ==> !Sendable(pending[r])
    decreases limit - n
  {
    if n < limit && n in pending && Sendable(pending[n]) then RunEnd(pending, n + 1, limit) else n
  }

  /** First number from `n` on that is pending, or the limit. */
  function SkipGaps(pending: map<nat, PendingAck>, n: nat, limit: nat): (r: nat)
    ensures n <= r <= if n <= limit then limit else n
    ensures forall m | n <= m < r :: m !in pending
    ensures r < limit ==> r in pending
    decreases limit - n
  {
    if n < limit && n !in pending then SkipGaps(pending, n + 1, limit) else n
  }

  function Interval(lo: nat, hi: nat): (r: seq<nat>)
    requires lo <= hi
    ensures |r| == hi - lo
    ensures forall i | 0 <= i < |r| :: r[i] == lo + i
  {
    seq(hi - lo, i requires 0 <= i => lo + i)
  }

  /** `p` without the keys in `[lo, hi)`. */
  function Without(p: map<nat, PendingAck>, lo: nat, hi: nat): map<nat, PendingAck> {
    map n | n in p && !(lo <= n < hi) :: p[n]
  }

  /** The packets answered when the numbers `lo..hi` are released. */
  function Packets(pending: map<nat, PendingAck>, lo: nat, hi: nat): seq<nat>
    requires lo <= hi
    requires forall m | lo <= m < hi :: m in pending
  {
    if lo == hi then [] else
      Packets(pending, lo, hi - 1) +
      (match pending[hi - 1].ackFn case Some(packet) => [packet] case None => [])
  }

  ghost function TimedOut(pending: map<nat, PendingAck>, cutoff: int): set<nat> {
    set n | n in pending && pending[n].registerAt < cutoff
  }

  /** Both evictions: `gone` is deleted and the ack counter moves to `ack`. */
  function Discard(s: State, gone: set<nat>, ack: nat): State {
    s.(pending := s.pending - gone, evictedCount := s.evictedCount + |gone|, nextAckSeq := ack)
  }

  function Evict(s: State, v: nat): State {
    Discard(s, {v}, if v == s.nextAckSeq then SkipGaps(s.pending - {v}, s.nextAckSeq, s.nextRecvSeq) else s.nextAckSeq)
  }

  function FreshEntry(n: nat, ackFn: Option<nat>, now: int): PendingAck {
    PendingAck(n, ackFn, ACK, false, now, 0)
  }

  /** Issues the next number. */
  function Admit(s: State, ackFn: Option<nat>, now: int): State {
    var n := s.nextRecvSeq;
    s.(nextRecvSeq := n + 1, pending := s.pending[n := FreshEntry(n, ackFn, now)])
  }

  /** Sends the PUBACKs of the numbers from nextAckSeq up to `r`. */
  function Release(s: State, r: nat): State
    requires s.nextAckSeq <= r && forall m | s.nextAckSeq <= m < r :: m in s.pending
  {
    s.(pending := Without(s.pending, s.nextAckSeq, r),
       nextAckSeq := r, ackedCount := s.ackedCount + (r - s.nextAckSeq),
       wire := s.wire + Packets(s.pending, s.nextAckSeq, r))
  }

  ghost predicate Enabled(cfg: Config, s: State, e: Entry) {
    match e
    case Registered(n, _, _, victim) =>
      && !s.stopped && n == s.nextRecvSeq
      && (victim.Some? <==> |s.pending| >= cfg.maxPendingSize)
      && (victim.Some? ==> IsOldest(s.pending, victim.value))
    case RegisterRefused => s.stopped
    case Completed(n, _, _, ok) => ok == (!s.stopped && n in s.pending)
    case RetryResolved(n, ok) =>
      ok == (!s.stopped && n in s.pending && s.pending[n].completed && s.pending[n].decision == Retry)
    case Flushed(sent) =>
      if s.stopped then sent == []
      else sent == Interval(s.nextAckSeq, RunEnd(s.pending, s.nextAckSeq, s.nextRecvSeq))
    case Swept(now, evicted) =>
      evicted == if s.stopped then {} else TimedOut(s.pending, now - cfg.pendingTimeout)
    case Halted => true
  }

  ghost function Step(cfg: Config, s: State, e: Entry): State
    requires Enabled(cfg, s, e)
  {
    match e
    case Registered(n, ackFn, now, victim) =>
      Admit(if victim.Some? then Evict(s, victim.value) else s, ackFn, now)
    case RegisterRefused => s
    case Completed(n, d, now, ok) =>
      if !ok then s else
      s.(pending := s.pending[n := s.pending[n].(decision := d, completed := true, completeAt := now)],
         outOfOrderCount := s.outOfOrderCount + if n != s.nextAckSeq then 1 else 0)
    case RetryResolved(n, ok) =>
      if !ok then s else s.(pending := s.pending[n := s.pending[n].(decision := ACK)])
    case Flushed(sent) =>
      if s.stopped then s else Release(s, s.nextAckSeq + |sent|)
    case Swept(now, evicted) =>
      if s.stopped then s else
      Discard(s, evicted, SkipGaps(s.pending - evicted, s.nextAckSeq, s.nextRecvSeq))
    case Halted => if s.stopped then s else s.(stopped := true, pending := map[])
  }

  ghost predicate Legal(cfg: Config, h: History)
    decreases |h|, 0
  {
    h == [] || (Legal(cfg, Before(h)) && Enabled(cfg, Replay(cfg, Before(h)), Last(h)))
  }

  ghost function Replay(cfg: Config, h: History): State
    requires Legal(cfg, h)
    decreases |h|, 1
  {
    if h == [] then INITIAL else Step(cfg, Replay(cfg, Before(h)), Last(h))
  }

  function Before(h: History): History requires h != [] { h[..|h| - 1] }
  function Last(h: History): Entry requires h != [] { h[|h| - 1] }

  // ---------------------------------------------------------------------------
  // What a history shows, independently of the manager's fields
  // ---------------------------------------------------------------------------

  /** What an observer of the calls and answers writes down: the packet each number was
      issued to, the numbers released (in order), those evicted, the decision most
      recently accepted for each number, and whether the manager was stopped. */
  datatype Ledger = Ledger(issued: map<nat, Option<nat>>, acked: seq<nat>, evicted: set<nat>,
                           latest: map<nat, AckDecision>, halted: bool)

  const BLANK := Ledger(map[], [], {}, map[], false)

  function Note(l: Ledger, e: Entry): Ledger {
    match e
    case Registered(n, ackFn, _, None) => l.(issued := l.issued[n := ackFn])
    case Registered(n, ackFn, _, Some(v)) => l.(issued := l.issued[n := ackFn], evicted := l.evicted + {v})
    case RegisterRefused => l
    case Completed(n, d, _, ok) => if ok then l.(latest := l.latest[n := d]) else l
    case RetryResolved(n, ok) => if ok then l.(latest := l.latest[n := ACK]) else l
    case Flushed(sent) => l.(acked := l.acked + sent)
    case Swept(_, evicted) => l.(evicted := l.evicted + evicted)
    case Halted => l.(halted := true)
  }

  function Observe(h: History): Ledger {
    if h == [] then BLANK else Note(Observe(Before(h)), Last(h))
  }

  /** The PUBACKs that releasing `log` puts on the wire: the packets its numbers were issued to. */
  function WireOf(issued: map<nat, Option<nat>>, log: seq<nat>): seq<nat> {
    if log == [] then [] else
      var n := log[|log| - 1];
      WireOf(issued, log[..|log| - 1]) +
      (if n in issued && issued[n].Some? then [issued[n].value] else [])
  }

  /** Releasing `sent[k]` when `l` is what happened before respects the ordering rule. */
  ghost predicate ReleaseJustified(l: Ledger, sent: seq<nat>, k: nat)
    requires k < |sent|
  {
    var n := sent[k];
    var released := l.acked + sent[..k];
    && n in l.issued && n !in l.evicted && !l.halted
    && n in l.latest && l.latest[n] != Retry
    && (forall m | m in released :: m < n)
    && (forall m | m in l.issued && m < n :: m in released || m in l.evicted)
  }

  ghost predicate OrderedAcks(h: History) {
    forall i, k | 0 <= i < |h| && h[i].Flushed? && 0 <= k < |h[i].sent| ::
      ReleaseJustified(Observe(h[..i]), h[i].sent, k)
  }

  ghost predicate Increasing(s: seq<nat>) {
    forall i, j | 0 <= i < j < |s| :: s[i] < s[j]
  }

  // ---------------------------------------------------------------------------
  // The invariant that ties the fields to what was observed
  // ---------------------------------------------------------------------------

  ghost predicate EntryMatches(p: PendingAck, l: Ledger, n: nat) {
    && n in l.issued && p.recvSeq == n && p.ackFn == l.issued[n]
    && (p.completed <==> n in l.latest)
    && (p.completed ==> l.latest[n] == p.decision)
  }

  ghost predicate Numbering(s: State, l: Ledger) {
    && 1 <= s.nextAckSeq <= s.nextRecvSeq
    && (forall n: nat :: n in l.issued <==> 1 <= n < s.nextRecvSeq)
    && (forall n | n in l.latest :: n < s.nextRecvSeq)
    && (forall n | n in l.acked :: 1 <= n < s.nextAckSeq)
    && (forall n | n in l.evicted :: 1 <= n < s.nextRecvSeq)
    && (forall n | n in s.pending :: s.nextAckSeq <= n < s.nextRecvSeq)
  }

  /** Each issued number is in exactly one of: pending, released, evicted. */
  ghost predicate Partition(s: State, l: Ledger) {
    && s.pending.Keys !! l.evicted
    && (forall n | n in l.acked :: n !in l.evicted)
    && (!s.stopped ==> forall n | n in l.issued :: n in s.pending || n in l.acked || n in l.evicted)
  }

  /** Conservation: while the manager runs, everything issued is released, evicted or pending. */
  ghost predicate Accounts(cfg: Config, s: State, l: Ledger) {
    && s.ackedCount == |l.acked|
    && s.evictedCount == |l.evicted|
    && s.retriedCount == 0
    && |s.pending| <= cfg.maxPendingSize
    && (!s.stopped ==> s.nextRecvSeq - 1 == s.ackedCount + s.evictedCount + |s.pending|)
    && (s.stopped ==> s.pending == map[])
    && (s.stopped <==> l.halted)
  }

  ghost predicate Inv(cfg: Config, s: State, l: Ledger) {
    && Numbering(s, l)
    && Partition(s, l)
    && Accounts(cfg, s, l)
    && Increasing(l.acked)
    && (forall n | n in s.pending :: EntryMatches(s.pending[n], l, n))
    && s.wire == WireOf(l.issued, l.acked)
  }
}
