/** The bounded ingest queue as a plain list, and what its histories show.

    `Offer` and `Take` are the list machine.  The theorems relate a history of calls and answers
    to what went in: first-in first-out order, conservation, and the coalescing of later
    messages of a bus into its queued one.
 */
module IngestQueue {
  import opened Common

  datatype DropPolicy = DropNew | CoalesceLatest

  datatype Item = Item(recvSeq: nat, busId: string, topic: string, payload: seq<int>, receivedAt: int)

  datatype EnqueueResult = EnqueueSuccess | EnqueueDropped | EnqueueCoalesced | EnqueueClosed

  datatype Config = Config(capacity: nat, policy: DropPolicy)

  datatype Queue = Queue(items: seq<Item>, closed: bool, dropped: nat, coalesced: nat)

  const EMPTY := Queue([], false, 0, 0)

  /** Position of the first queued item of a bus, or the length. */
  function FindBus(items: seq<Item>, bus: string): (i: nat)
    ensures i <= |items|
    ensures i < |items| ==> items[i].busId == bus
    ensures forall k | 0 <= k < i :: items[k].busId != bus
  {
    if items == [] || items[0].busId == bus then 0 else 1 + FindBus(items[1..], bus)
  }

  /** The later message's data under the earlier message's number. */
  function Merge(kept: Item, latest: Item): Item {
    kept.(payload := latest.payload, receivedAt := latest.receivedAt)
  }

  function Offer(cfg: Config, q: Queue, item: Item): (Queue, EnqueueResult) {
    var i := FindBus(q.items, item.busId);
    if q.closed then (q, EnqueueClosed)
    else if cfg.policy == CoalesceLatest && item.busId != "" && i < |q.items| then
      (q.(items := q.items[i := Merge(q.items[i], item)], coalesced := q.coalesced + 1), EnqueueCoalesced)
    else if |q.items| < cfg.capacity then (q.(items := q.items + [item]), EnqueueSuccess)
    else (q.(dropped := q.dropped + 1), EnqueueDropped)
  }

  datatype Entry = Offered(item: Item, result: EnqueueResult) | Taken(item: Item) | Nothing | Closed

  type History = seq<Entry>

  predicate Enabled(cfg: Config, q: Queue, e: Entry) {
    match e
    case Offered(item, result) => result == Offer(cfg, q, item).1
    case Taken(item) => q.items != [] && item == q.items[0]
    case _ => true
  }

  function Step(cfg: Config, q: Queue, e: Entry): Queue {
    match e
    case Offered(item, _) => Offer(cfg, q, item).0
    case Taken(_) => if q.items == [] then q else q.(items := q.items[1..])
    case Nothing => q
    case Closed => q.(closed := true)
  }

  function Before(h: History): History requires h != [] { h[..|h| - 1] }
  function Last(h: History): Entry requires h != [] { h[|h| - 1] }

  function Replay(cfg: Config, h: History): Queue {
    if h == [] then EMPTY else Step(cfg, Replay(cfg, Before(h)), Last(h))
  }

  predicate Legal(cfg: Config, h: History) {
    h == [] || (Legal(cfg, Before(h)) && Enabled(cfg, Replay(cfg, Before(h)), Last(h)))
  }

  // ---------------------------------------------------------------------------
  // What a history shows
  // ---------------------------------------------------------------------------

  /** `windows[b]` holds the messages of bus `b` accepted since the last one taken. */
  datatype Ledger = Ledger(accepted: seq<Item>, taken: seq<Item>, offers: nat, windows: map<string, seq<Item>>)

  function WindowOf(l: Ledger, bus: string): seq<Item> {
    if bus in l.windows then l.windows[bus] else []
  }

  function Note(l: Ledger, e: Entry): Ledger {
    match e
    case Offered(_, EnqueueClosed) => l
    case Offered(_, EnqueueDropped) => l.(offers := l.offers + 1)
    case Offered(item, EnqueueCoalesced) =>
      l.(offers := l.offers + 1, windows := l.windows[item.busId := WindowOf(l, item.busId) + [item]])
    case Offered(item, EnqueueSuccess) =>
      l.(accepted := l.accepted + [item], offers := l.offers + 1,
         windows := l.windows[item.busId := WindowOf(l, item.busId) + [item]])
    case Taken(item) => l.(taken := l.taken + [item], windows := l.windows[item.busId := []])
    case _ => l
  }

  function Observe(h: History): Ledger {
    if h == [] then Ledger([], [], 0, map[]) else Note(Observe(Before(h)), Last(h))
  }

  /** What coalescing never changes. */
  function Identity(x: Item): Item {
    x.(payload := [], receivedAt := 0)
  }

  function Identities(items: seq<Item>): seq<Item> {
    seq(|items|, i requires 0 <= i < |items| => Identity(items[i]))
  }

  /** First in, first out: the items taken so far, then those still queued, are the items accepted,
      in order (untouched under drop_new); and nothing offered to the open queue is unaccounted for. */
  ghost predicate Conserved(cfg: Config, q: Queue, l: Ledger) {
    && Identities(l.accepted) == Identities(l.taken) + Identities(q.items)
    && (cfg.policy == DropNew ==> l.accepted == l.taken + q.items)
    && l.offers == |l.taken| + |q.items| + q.dropped + q.coalesced
    && |q.items| <= cfg.capacity
  }

  /** An item carries the number, bus and topic of the first message of its window, and the payload
      and receive time of the last. */
  ghost predicate IsMerged(x: Item, w: seq<Item>) {
    && w != []
    && x.recvSeq == w[0].recvSeq && x.busId == w[0].busId && x.topic == w[0].topic
    && x.payload == w[|w| - 1].payload && x.receivedAt == w[|w| - 1].receivedAt
  }

  /** A named bus has at most one queued item, which is its merged window; without one, its window is empty. */
  ghost predicate Coalesced(q: Queue, l: Ledger) {
    && (forall i, j | 0 <= i < j < |q.items| && q.items[i].busId != "" :: q.items[i].busId != q.items[j].busId)
    && (forall i | 0 <= i < |q.items| && q.items[i].busId != "" :: IsMerged(q.items[i], WindowOf(l, q.items[i].busId)))
    && (forall b | b in l.windows && b != "" && l.windows[b] != [] ::
          exists i :: 0 <= i < |q.items| && q.items[i].busId == b)
  }

  lemma IdentitiesAppend(items: seq<Item>, x: Item)
    ensures Identities(items + [x]) == Identities(items) + [Identity(x)]
  {}

  lemma StepConserves(cfg: Config, q: Queue, l: Ledger, e: Entry)
    requires Conserved(cfg, q, l) && Enabled(cfg, q, e)
    ensures Conserved(cfg, Step(cfg, q, e), Note(l, e))
  {
    var q' := Step(cfg, q, e);
    match e
    case Offered(item, EnqueueSuccess) => IdentitiesAppend(q.items, item); IdentitiesAppend(l.accepted, item);
    case Offered(item, EnqueueCoalesced) => assert Identities(q'.items) == Identities(q.items);
    case Taken(item) => IdentitiesAppend(l.taken, item);
      assert Identities(q.items) == [Identity(item)] + Identities(q'.items);
    case _ =>
  }

  /** FIFO and conservation hold of every history, for both drop policies. */
  lemma {:induction false} AlwaysConserved(cfg: Config, h: History)
    requires Legal(cfg, h)
    ensures Conserved(cfg, Replay(cfg, h), Observe(h))
    decreases |h|
  {
    if h != [] {
      AlwaysConserved(cfg, Before(h));
      StepConserves(cfg, Replay(cfg, Before(h)), Observe(Before(h)), Last(h));
    }
  }

  lemma CoalesceStep(cfg: Config, q: Queue, l: Ledger, item: Item)
    requires Coalesced(q, l) && Offer(cfg, q, item).1 == EnqueueCoalesced
    ensures Coalesced(Offer(cfg, q, item).0, Note(l, Offered(item, EnqueueCoalesced)))
  {
    var i := FindBus(q.items, item.busId);
    var q', l' := Offer(cfg, q, item).0, Note(l, Offered(item, EnqueueCoalesced));
    forall k | 0 <= k < |q'.items| && q'.items[k].busId != ""
      ensures IsMerged(q'.items[k], WindowOf(l', q'.items[k].busId))
    {
      assert IsMerged(q.items[k], WindowOf(l, q.items[k].busId));
      assert k != i ==> q.items[k].busId != item.busId;
    }
    forall b | b in l'.windows && b != "" && l'.windows[b] != []
      ensures exists k :: 0 <= k < |q'.items| && q'.items[k].busId == b
    {
      var k :| 0 <= k < |q.items| && q.items[k].busId == b;
      assert q'.items[k].busId == b;
    }
  }

  lemma UnqueuedHasNoWindow(q: Queue, l: Ledger, bus: string)
    requires Coalesced(q, l) && bus != ""
    ensures WindowOf(l, bus) == [] || FindBus(q.items, bus) < |q.items|
  {
    if WindowOf(l, bus) != [] {
      var m :| 0 <= m < |q.items| && q.items[m].busId == bus;
    }
  }

  lemma AppendStep(cfg: Config, q: Queue, l: Ledger, item: Item)
    requires Coalesced(q, l) && cfg.policy == CoalesceLatest && Offer(cfg, q, item).1 == EnqueueSuccess
    ensures Coalesced(Offer(cfg, q, item).0, Note(l, Offered(item, EnqueueSuccess)))
  {
    var q', l' := Offer(cfg, q, item).0, Note(l, Offered(item, EnqueueSuccess));
    var n := |q.items|;
    forall k | 0 <= k < |q'.items| && q'.items[k].busId != ""
      ensures IsMerged(q'.items[k], WindowOf(l', q'.items[k].busId))
    {
      if k < n { assert IsMerged(q.items[k], WindowOf(l, q.items[k].busId)); }
      else { UnqueuedHasNoWindow(q, l, item.busId); }
    }
    forall b | b in l'.windows && b != "" && l'.windows[b] != []
      ensures exists k :: 0 <= k < |q'.items| && q'.items[k].busId == b
    {
      if b == item.busId { assert q'.items[n].busId == b; }
      else {
        var k :| 0 <= k < n && q.items[k].busId == b;
        assert q'.items[k].busId == b;
      }
    }
  }

  lemma TakeStep(cfg: Config, q: Queue, l: Ledger)
    requires Coalesced(q, l) && q.items != []
    ensures Coalesced(Step(cfg, q, Taken(q.items[0])), Note(l, Taken(q.items[0])))
  {
    var x := q.items[0];
    var q', l' := Step(cfg, q, Taken(x)), Note(l, Taken(x));
    forall k | 0 <= k < |q'.items| && q'.items[k].busId != ""
      ensures IsMerged(q'.items[k], WindowOf(l', q'.items[k].busId))
    {
      assert q'.items[k] == q.items[k + 1] && IsMerged(q.items[k + 1], WindowOf(l, q.items[k + 1].busId));
    }
    forall b | b in l'.windows && b != "" && l'.windows[b] != []
      ensures exists k :: 0 <= k < |q'.items| && q'.items[k].busId == b
    {
      var k :| 0 <= k < |q.items| && q.items[k].busId == b;
      assert q'.items[k - 1].busId == b;
    }
  }

  lemma {:induction false} AlwaysCoalesced(cfg: Config, h: History)
    requires Legal(cfg, h) && cfg.policy == CoalesceLatest
    ensures Coalesced(Replay(cfg, h), Observe(h))
    decreases |h|
  {
    if h != [] {
      AlwaysCoalesced(cfg, Before(h));
      var q, l := Replay(cfg, Before(h)), Observe(Before(h));
      match Last(h)
      case Offered(item, EnqueueSuccess) => AppendStep(cfg, q, l, item);
      case Offered(item, EnqueueCoalesced) => CoalesceStep(cfg, q, l, item);
      case Taken(_) => TakeStep(cfg, q, l);
      case _ =>
    }
  }

  lemma Extend(cfg: Config, h: History, e: Entry)
    requires Legal(cfg, h) && Enabled(cfg, Replay(cfg, h), e)
    ensures Legal(cfg, h + [e]) && Replay(cfg, h + [e]) == Step(cfg, Replay(cfg, h), e)
  {
    assert Before(h + [e]) == h;
  }

  lemma {:induction false} LegalPrefix(cfg: Config, h: History, i: nat)
    requires Legal(cfg, h) && i <= |h|
    ensures Legal(cfg, h[..i]) && (i < |h| ==> Enabled(cfg, Replay(cfg, h[..i]), h[i]))
    decreases |h| - i
  {
    if i < |h| {
      LegalPrefix(cfg, h, i + 1);
      assert Before(h[..i + 1]) == h[..i];
    } else {
      assert h[..i] == h;
    }
  }

  /** Under coalesce_latest, an item taken for a named bus carries the number (and topic) of the
      first message accepted for that bus since the previous one taken, and the payload and
      receive time of the last. */
  lemma TakenIsMerged(cfg: Config, h: History, i: nat)
    requires Legal(cfg, h) && cfg.policy == CoalesceLatest && i < |h| && h[i].Taken? && h[i].item.busId != ""
    ensures var x, w := h[i].item, MessagesSince(h[..i], h[i].item.busId);
            && w != []
            && x.recvSeq == w[0].recvSeq && x.topic == w[0].topic
            && x.payload == w[|w| - 1].payload && x.receivedAt == w[|w| - 1].receivedAt
  {
    LegalPrefix(cfg, h, i);
    AlwaysCoalesced(cfg, h[..i]);
    WindowIs(h[..i], h[i].item.busId);
  }

  /** The messages of a bus accepted since its last item was taken, read off the history alone. */
  function MessagesSince(h: History, bus: string): seq<Item> {
    if h == [] then [] else
    var e := h[|h| - 1];
    if e.Taken? && e.item.busId == bus then []
    else if e.Offered? && e.item.busId == bus && (e.result == EnqueueSuccess || e.result == EnqueueCoalesced) then
      MessagesSince(h[..|h| - 1], bus) + [e.item]
    else MessagesSince(h[..|h| - 1], bus)
  }

  lemma {:induction false} WindowIs(h: History, bus: string)
    ensures WindowOf(Observe(h), bus) == MessagesSince(h, bus)
    decreases |h|
  {
    if h != [] { WindowIs(Before(h), bus); }
  }

  /** Whether the queue can merge the message into a queued item of its bus. */
  predicate CanCoalesce(cfg: Config, q: Queue, item: Item) {
    cfg.policy == CoalesceLatest && item.busId != "" && exists x | x in q.items :: x.busId == item.busId
  }

  /** What becomes of an offered message: refused once the queue is closed, merged into the queued item of
      its bus if it can be, full or not, otherwise appended while there is room and dropped if not. */
  lemma OfferDoes(cfg: Config, q: Queue, item: Item)
    ensures var (q', r) := Offer(cfg, q, item);
            && r == (if q.closed then EnqueueClosed else if CanCoalesce(cfg, q, item) then EnqueueCoalesced
                     else if |q.items| < cfg.capacity then EnqueueSuccess else EnqueueDropped)
            && q'.closed == q.closed
            && q'.dropped == q.dropped + (if r == EnqueueDropped then 1 else 0)
            && q'.coalesced == q.coalesced + (if r == EnqueueCoalesced then 1 else 0)
            && (r == EnqueueClosed || r == EnqueueDropped ==> q'.items == q.items)
            && (r == EnqueueSuccess ==> q'.items == q.items + [item])
            && (r == EnqueueCoalesced ==> exists i :: MergedAt(q.items, q'.items, item, i))
  {
    var i := FindBus(q.items, item.busId);
    if i < |q.items| { assert q.items[i] in q.items; }
    if Offer(cfg, q, item).1 == EnqueueCoalesced { assert MergedAt(q.items, Offer(cfg, q, item).0.items, item, i); }
  }

  /** Only the first item of the bus changed, in its payload and receive time. */
  predicate MergedAt(was: seq<Item>, items: seq<Item>, item: Item, i: int) {
    && 0 <= i < |was| == |items| && was[i].busId == item.busId
    && (forall k | 0 <= k < i :: was[k].busId != item.busId)
    && (forall k | 0 <= k < |was| && k != i :: items[k] == was[k])
    && items[i] == Item(was[i].recvSeq, was[i].busId, was[i].topic, item.payload, item.receivedAt)
  }

  /** Taking removes the oldest item, closed or not; closing and an empty answer keep every item. */
  lemma TakeDoes(cfg: Config, q: Queue, e: Entry)
    requires Enabled(cfg, q, e) && !e.Offered?
    ensures var q' := Step(cfg, q, e);
            && (e.Taken? ==> q.items == [e.item] + q'.items && q'.closed == q.closed)
            && (e.Nothing? ==> q' == q)
            && (e.Closed? ==> q'.closed && q'.items == q.items)
            && q'.dropped == q.dropped && q'.coalesced == q.coalesced
  {}

  // ---------------------------------------------------------------------------
  // Numbers offered in increasing order are taken in increasing order
  // ---------------------------------------------------------------------------

  ghost predicate Increasing(s: seq<Item>) {
    forall i, j | 0 <= i < j < |s| :: s[i].recvSeq < s[j].recvSeq
  }

  function OfferedItems(h: History): seq<Item> {
    if h == [] then [] else
      OfferedItems(Before(h)) + if Last(h).Offered? then [Last(h).item] else []
  }

  lemma {:induction false} AcceptedIncrease(h: History)
    requires Increasing(OfferedItems(h))
    ensures Increasing(Observe(h).accepted)
    ensures forall x | x in Observe(h).accepted :: x in OfferedItems(h)
    decreases |h|
  {
    if h != [] {
      var before, all := OfferedItems(Before(h)), OfferedItems(h);
      assert before == all[..|before|];
      assert Increasing(before) by {
        assert forall i | 0 <= i < |before| :: before[i] == all[i];
      }
      AcceptedIncrease(Before(h));
      if Last(h).Offered? {
        var x := Last(h).item;
        assert all == before + [x];
        forall y | y in before
          ensures y.recvSeq < x.recvSeq
        {
          var i :| 0 <= i < |before| && before[i] == y;
          assert all[i].recvSeq < all[|before|].recvSeq;
        }
        IncreasingAppend(Observe(Before(h)).accepted, x);
      }
    }
  }

  lemma IncreasingAppend(s: seq<Item>, x: Item)
    requires Increasing(s) && forall y | y in s :: y.recvSeq < x.recvSeq
    ensures Increasing(s + [x])
  {
    var t := s + [x];
    forall i, j | 0 <= i < j < |t|
      ensures t[i].recvSeq < t[j].recvSeq
    {
      if j == |s| { assert t[i] in s; }
    }
  }

  lemma TakenIncrease(cfg: Config, h: History)
    requires Legal(cfg, h) && Increasing(OfferedItems(h))
    ensures Increasing(Observe(h).taken)
  {
    AlwaysConserved(cfg, h);
    AcceptedIncrease(h);
    var l := Observe(h);
    forall i | 0 <= i < |l.taken|
      ensures i < |l.accepted| && l.accepted[i].recvSeq == l.taken[i].recvSeq
    {
      assert Identities(l.accepted)[i] == Identities(l.taken)[i];
    }
  }

  // ---------------------------------------------------------------------------
  // Where the documented behaviour and the code part
  // ---------------------------------------------------------------------------

  /** A full queue drops the message offered and keeps every queued one, under either policy,
      exactly when it cannot coalesce: nothing is evicted to make room. */
  lemma FullQueueDropsNewIff(cfg: Config, q: Queue, item: Item)
    requires !q.closed && |q.items| >= cfg.capacity
    ensures var (q', r) := Offer(cfg, q, item);
            && (r == EnqueueDropped <==> cfg.policy == DropNew || item.busId == "" ||
                                         forall x | x in q.items :: x.busId != item.busId)
            && (r == EnqueueDropped ==> q'.items == q.items)
  {
    var i := FindBus(q.items, item.busId);
    if i < |q.items| { assert q.items[i] in q.items; }
  }

  /** Reached with room for one message: the queued message stays and is the next one taken, and the
      one offered after it is the one lost, exactly when it is for no bus or for another. */
  lemma SecondMessageIsLostIff(first: Item, second: Item)
    requires first.busId != ""
    ensures Legal(Config(1, CoalesceLatest),
                  [Offered(first, EnqueueSuccess), Offered(second, EnqueueDropped), Taken(first)])
            <==> second.busId == "" || second.busId != first.busId
  {
    var cfg := Config(1, CoalesceLatest);
    var a, b, c := Offered(first, EnqueueSuccess), Offered(second, EnqueueDropped), Taken(first);
    assert Before([a, b, c]) == [a, b] && Before([a, b]) == [a] && Before([a]) == [];
    assert Replay(cfg, []) == EMPTY && Legal(cfg, []);
    assert Replay(cfg, [a]) == Queue([first], false, 0, 0) && Legal(cfg, [a]);
    assert FindBus([first], second.busId) == if second.busId == first.busId then 0 else 1;
    assert Legal(cfg, [a, b]) <==> Offer(cfg, Replay(cfg, [a]), second).1 == EnqueueDropped;
    if Legal(cfg, [a, b]) { assert Replay(cfg, [a, b]).items == [first]; }
  }
}
