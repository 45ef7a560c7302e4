/** The bounded queue itself: a circular array of shared work items, and an index from bus id to the
    queued item, through which Enqueue edits that item in place.  Every method is proved to take
    the step of the list machine in IngestQueue that its history entry names. */
module BoundedQueues {
  import opened Common
  import opened IngestQueue

  /** RetryCount belongs to the workers; ResultCh goes with the object's identity. */
  class WorkItem {
    const recvSeq: nat
    const busId: string
    const topic: string
    var rawPayload: seq<int>
    var receivedAt: int
    var retryCount: nat

    constructor (recvSeq: nat, busId: string, topic: string, payload: seq<int>, now: int)
      ensures Value() == Item(recvSeq, busId, topic, payload, now) && retryCount == 0
    {
      this.recvSeq, this.busId, this.topic := recvSeq, busId, topic;
      rawPayload, receivedAt, retryCount := payload, now, 0;
    }

    ghost function Value(): Item
      reads this
    {
      Item(recvSeq, busId, topic, rawPayload, receivedAt)
    }
  }

  ghost function Values(c: seq<WorkItem>): (v: seq<Item>)
    reads c
    ensures |v| == |c| && forall i | 0 <= i < |c| :: v[i] == c[i].Value()
  {
    seq(|c|, i requires 0 <= i < |c| reads c => c[i].Value())
  }

  /** The index never points outside the queue; under coalesce_latest it is exact. */
  ghost predicate Indexes(policy: DropPolicy, index: map<string, WorkItem>, contents: seq<WorkItem>) {
    && (forall b | b in index :: b != "" && index[b].busId == b && index[b] in contents)
    && (policy == CoalesceLatest ==>
          (forall x | x in contents && x.busId != "" :: x.busId in index && index[x.busId] == x)
          && (forall i, j | 0 <= i < j < |contents| && contents[i].busId != "" :: contents[i] != contents[j]))
  }

  /** No object is queued twice or both queued and in a worker's hands. */
  ghost predicate Separate(contents: seq<WorkItem>, handed: set<WorkItem>) {
    && (forall x | x in contents :: x !in handed)
    && (forall i, j | 0 <= i < j < |contents| :: contents[i] != contents[j])
  }

  lemma IndexesAppend(policy: DropPolicy, index: map<string, WorkItem>, contents: seq<WorkItem>, item: WorkItem)
    requires Indexes(policy, index, contents)
    requires policy == CoalesceLatest && item.busId != "" ==> item.busId !in index
    ensures Indexes(policy, if item.busId != "" then index[item.busId := item] else index, contents + [item])
  {
    var c := contents + [item];
    assert c[|contents|] == item && forall i | 0 <= i < |contents| :: c[i] == contents[i];
    assert policy == CoalesceLatest && item.busId != "" ==> item !in contents;
  }

  lemma IndexesTail(policy: DropPolicy, index: map<string, WorkItem>, contents: seq<WorkItem>)
    requires Indexes(policy, index, contents) && contents != []
    ensures var b := contents[0].busId; Indexes(policy, if b != "" then index - {b} else index, contents[1..])
  {
    var c, item := contents[1..], contents[0];
    assert forall i | 0 <= i < |c| :: c[i] == contents[i + 1];
    assert forall x | x in contents :: x == item || x in c;
    assert policy == CoalesceLatest && item.busId != "" ==> item !in c;
  }

  lemma SeparateAppend(contents: seq<WorkItem>, handed: set<WorkItem>, item: WorkItem)
    requires Separate(contents, handed) && item !in contents && item !in handed
    ensures Separate(contents + [item], handed)
  {}

  lemma SeparateTail(contents: seq<WorkItem>, handed: set<WorkItem>)
    requires Separate(contents, handed) && contents != []
    ensures Separate(contents[1..], handed + {contents[0]})
  {
    var c := contents[1..];
    assert forall i | 0 <= i < |c| :: c[i] == contents[i + 1];
  }

  /** The queued item of a bus that is in the index is the only one, and FindBus finds it. */
  lemma FoundInIndex(index: map<string, WorkItem>, contents: seq<WorkItem>, bus: string)
    requires Indexes(CoalesceLatest, index, contents) && bus in index
    ensures var i := FindBus(Values(contents), bus);
            && bus != "" && i < |contents| && contents[i] == index[bus]
            && forall k | 0 <= k < |contents| && k != i :: contents[k] != index[bus]
  {
    var k :| 0 <= k < |contents| && contents[k] == index[bus];
    var i := FindBus(Values(contents), bus);
    assert Values(contents)[k].busId == bus;
    assert contents[i] in contents;
  }

  lemma NotInIndex(index: map<string, WorkItem>, contents: seq<WorkItem>, bus: string)
    requires Indexes(CoalesceLatest, index, contents) && bus !in index && bus != ""
    ensures FindBus(Values(contents), bus) == |contents|
  {
    assert forall i | 0 <= i < |contents| :: contents[i] in contents;
  }

  /** Array position of the `i`-th queued item. */
  function Slot(head: nat, i: nat, capacity: nat): nat {
    if head + i < capacity then head + i else head + i - capacity
  }

  /** How far position `k` is from the head. */
  function Offset(head: nat, k: nat, capacity: nat): int {
    if head <= k then k - head else k + capacity - head
  }

  class BoundedQueue {
    const capacity: nat
    const dropPolicy: string
    const items: array<WorkItem?>
    var head: nat
    var tail: nat
    var count: nat
    var closed: bool
    var coalesce: map<string, WorkItem>
    var droppedCount: nat
    var coalescedCount: nat
    ghost var contents: seq<WorkItem>   // the queued objects, oldest first
    ghost var handed: set<WorkItem>     // the objects given to workers
    ghost var history: History

    ghost function Cfg(): Config {
      Config(capacity, if dropPolicy == "drop_new" then DropNew else CoalesceLatest)
    }

    ghost predicate Ring()
      reads `head, `tail, `count, `contents, items
    {
      && items.Length == capacity >= 1 && head < capacity
      && |contents| == count <= capacity && tail == Slot(head, count, capacity)
      && (forall i | 0 <= i < count :: items[Slot(head, i, capacity)] == contents[i])
      && (forall k | 0 <= k < capacity && Offset(head, k, capacity) >= count :: items[k] == null)
    }

    ghost predicate Valid()
      reads this, items, contents
    {
      && (dropPolicy == "drop_new" || dropPolicy == "coalesce_latest")
      && Ring() && Indexes(Cfg().policy, coalesce, contents)
      && Legal(Cfg(), history)
      && Replay(Cfg(), history) == Queue(Values(contents), closed, droppedCount, coalescedCount)
    }

    ghost predicate Apart()
      reads `contents, `handed
    {
      Separate(contents, handed)
    }

    constructor (capacity: int, dropPolicy: string)
      ensures Valid() && Apart() && contents == [] && history == [] && fresh(items)
      ensures this.capacity == if capacity < 1 then 1 else capacity
      ensures Cfg().policy == if dropPolicy == "drop_new" then DropNew else CoalesceLatest
    {
      var n := if capacity < 1 then 1 else capacity;
      this.capacity := n;
      this.dropPolicy :=
        if dropPolicy != "drop_new" && dropPolicy != "coalesce_latest" then "coalesce_latest" else dropPolicy;
      items := new WorkItem?[n](_ => null);
      head, tail, count, closed := 0, 0, 0, false;
      coalesce, droppedCount, coalescedCount := map[], 0, 0;
      contents, handed, history := [], {}, [];
    }

    /** Under coalesce_latest a bus is in the index exactly when an item of that bus is queued; then
        only one is, and the index holds that very object. */
    lemma IndexIsExact(bus: string, i: nat)
      requires Valid() && Cfg().policy == CoalesceLatest && bus != ""
      ensures bus in coalesce <==> exists k :: 0 <= k < |contents| && contents[k].busId == bus
      ensures i < |contents| && contents[i].busId == bus ==>
                coalesce[bus] == contents[i] && forall k | 0 <= k < |contents| && k != i :: contents[k].busId != bus
    {
      if bus in coalesce {
        FoundInIndex(coalesce, contents, bus);
      }
      assert forall k | 0 <= k < |contents| :: contents[k] in contents;
    }

    /** What the list machine's histories show holds of the object's own past. */
    lemma PastIsConserved()
      requires Valid()
      ensures Conserved(Cfg(), Replay(Cfg(), history), Observe(history))
    {
      AlwaysConserved(Cfg(), history);
    }

    method Enqueue(item: WorkItem) returns (result: EnqueueResult)
      requires Valid()
      modifies this, items, contents
      ensures Valid() && handed == old(handed)
      ensures history == old(history) + [Offered(old(item.Value()), result)]
      ensures contents == if result == EnqueueSuccess then old(contents) + [item] else old(contents)
      ensures closed == old(closed) && (result == EnqueueClosed <==> old(closed))
      ensures result == EnqueueCoalesced ==> item.busId in coalesce && TookData(coalesce[item.busId], old(item.Value()))
      ensures forall x | x in old(contents) && (result != EnqueueCoalesced || x.busId != item.busId) ::
                x.Value() == old(x.Value())
      ensures forall x | x in old(contents) :: x.retryCount == old(x.retryCount)
      ensures old(Apart()) ==> forall x | x in handed ::
                x.Value() == old(x.Value()) && x.retryCount == old(x.retryCount)
      ensures old(Apart()) && item !in old(handed) && item !in old(contents) ==> Apart()
    {
      hide Legal, Replay, Ring, Indexes, Separate;
      ghost var e, h, cfg := item.Value(), history, Cfg();
      HandedAreElsewhere();
      if closed {
        result := EnqueueClosed;
        Extend(cfg, h, Offered(e, result));
      } else if item.busId in coalesce && dropPolicy == "coalesce_latest" {
        CoalesceInto(item);
        return EnqueueCoalesced;
      } else {
        if cfg.policy == CoalesceLatest && item.busId != "" { NotInIndex(coalesce, contents, item.busId); }
        CountIsLength();
        if count < capacity {
          result := EnqueueSuccess;
          Extend(cfg, h, Offered(e, result));
          if Apart() && item !in handed && item !in contents { SeparateAppend(contents, handed, item); }
          InsertItem(item);
        } else {
          result := EnqueueDropped;
          Extend(cfg, h, Offered(e, result));
          droppedCount := droppedCount + 1;
        }
      }
      history := h + [Offered(e, result)];
    }

    /** `x` is queued for the message's bus and carries its data. */
    ghost predicate TookData(x: WorkItem, message: Item)
      reads this, x
    {
      x in contents && x.busId == message.busId && x.rawPayload == message.payload && x.receivedAt == message.receivedAt
    }

    /** The coalescing branch of Enqueue: no space is needed and nobody is woken. */
    method CoalesceInto(item: WorkItem)
      requires Valid() && !closed && item.busId in coalesce && dropPolicy == "coalesce_latest"
      modifies `coalescedCount, `history, contents
      ensures Valid()
      ensures history == old(history) + [Offered(old(item.Value()), EnqueueCoalesced)]
      ensures forall x | x in contents && x.busId != item.busId :: x.Value() == old(x.Value())
      ensures forall x | x in contents :: x.retryCount == old(x.retryCount)
      ensures TookData(coalesce[item.busId], old(item.Value()))
    {
      hide Legal, Replay, Ring, Indexes;
      ghost var e, h, q := item.Value(), history, Queue(Values(contents), closed, droppedCount, coalescedCount);
      FoundInIndex(coalesce, contents, item.busId);
      ghost var i := FindBus(Values(contents), item.busId);
      assert Offer(Cfg(), q, e) == (q.(items := q.items[i := Merge(q.items[i], e)], coalesced := q.coalesced + 1),
                                    EnqueueCoalesced);
      Extend(Cfg(), h, Offered(e, EnqueueCoalesced));
      hide Offer;
      Overwrite(coalesce[item.busId], item, i);
      coalescedCount := coalescedCount + 1;
      history := h + [Offered(e, EnqueueCoalesced)];
    }

    /** The queued item takes the new message's data and keeps its own number and result channel. */
    method Overwrite(existing: WorkItem, item: WorkItem, ghost i: nat)
      requires i < |contents| && contents[i] == existing
      requires forall k | 0 <= k < |contents| && k != i :: contents[k] != existing
      modifies existing`rawPayload, existing`receivedAt
      ensures Values(contents) == old(Values(contents))[i := Merge(old(existing.Value()), old(item.Value()))]
      ensures existing.rawPayload == old(item.rawPayload) && existing.receivedAt == old(item.receivedAt)
    {
      existing.rawPayload := item.rawPayload;
      existing.receivedAt := item.receivedAt;
    }

    lemma HandedAreElsewhere()
      ensures Apart() ==> forall x | x in handed :: x !in contents
    {}

    lemma CountIsLength()
      requires Ring()
      ensures |contents| == count <= capacity
    {}

    /** Puts an item at the tail. */
    method InsertItem(item: WorkItem)
      requires Ring() && Indexes(Cfg().policy, coalesce, contents) && count < capacity
      requires Cfg().policy == CoalesceLatest && item.busId != "" ==> item.busId !in coalesce
      modifies this`tail, this`count, this`coalesce, this`contents, items
      ensures Ring() && Indexes(Cfg().policy, coalesce, contents) && contents == old(contents) + [item]
    {
      hide Ring, Indexes;
      IndexesAppend(Cfg().policy, coalesce, contents, item);
      PlaceAtTail(item);
      if item.busId != "" {
        coalesce := coalesce[item.busId := item];
      }
    }

    method PlaceAtTail(item: WorkItem)
      requires Ring() && count < capacity
      modifies this`tail, this`count, this`contents, items
      ensures Ring() && contents == old(contents) + [item]
    {
      Wraps(tail, capacity);
      items[tail] := item;
      tail := (tail + 1) % capacity;
      count := count + 1;
      contents := contents + [item];
    }

    method ClearHead() returns (item: WorkItem)
      requires Ring() && count > 0
      modifies this`head, this`count, this`contents, items
      ensures Ring() && [item] + contents == old(contents)
    {
      Wraps(head, capacity);
      assert items[Slot(head, 0, capacity)] == contents[0];
      item := items[head];
      ghost var before, from := contents, head;
      items[head] := null;
      head := (head + 1) % capacity;
      count := count - 1;
      contents := contents[1..];
      forall i | 0 <= i < count
        ensures items[Slot(head, i, capacity)] == contents[i]
      {
        assert Slot(head, i, capacity) == Slot(from, i + 1, capacity) != from;
        assert old(items[Slot(from, i + 1, capacity)]) == before[i + 1];
      }
    }

    /** Takes the oldest item out; the end of both Dequeue and TryDequeue. */
    method RemoveHead() returns (item: WorkItem)
      requires Valid() && count > 0
      modifies this, items
      ensures Valid() && [item] + contents == old(contents) && handed == old(handed) + {item}
      ensures history == old(history) + [Taken(item.Value())]
      ensures closed == old(closed)
      ensures old(Apart()) ==> Apart()
    {
      hide Legal, Replay, Ring, Indexes, Separate;
      CountIsLength();
      ghost var h, before := history, contents;
      assert Values(before)[0] == before[0].Value();
      Extend(Cfg(), h, Taken(before[0].Value()));
      IndexesTail(Cfg().policy, coalesce, contents);
      if Apart() { SeparateTail(contents, handed); }
      item := ClearHead();
      assert contents == before[1..] && item == before[0];
      if item.busId != "" {
        coalesce := coalesce - {item.busId};
      }
      handed := handed + {item};
      history := h + [Taken(item.Value())];
      assert Values(contents) == Values(before)[1..];
    }

    /** The wait loop has ended: there is an item, or the queue is closed, or it found the context cancelled. */
    method Dequeue(cancelled: bool) returns (item: WorkItem?, ok: bool)
      requires Valid() && (count > 0 || closed || cancelled)
      modifies this, items
      ensures Valid() && closed == old(closed) && (old(Apart()) ==> Apart())
      ensures ok <==> old(contents) != [] && !cancelled
      ensures ok ==> item != null && [item] + contents == old(contents)
                     && history == old(history) + [Taken(item.Value())]
      ensures handed == if ok then old(handed) + {item} else old(handed)
      ensures !ok ==> item == null && contents == old(contents) && history == old(history) + [Nothing]
    {
      hide Legal, Replay;
      if cancelled || (closed && count == 0) {
        Extend(Cfg(), history, Nothing);
        history := history + [Nothing];
        return null, false;
      }
      item := RemoveHead();
      ok := true;
    }

    method TryDequeue() returns (item: WorkItem?, ok: bool)
      requires Valid()
      modifies this, items
      ensures Valid() && closed == old(closed) && (old(Apart()) ==> Apart())
      ensures ok <==> old(contents) != []
      ensures ok ==> item != null && [item] + contents == old(contents)
                     && history == old(history) + [Taken(item.Value())]
      ensures handed == if ok then old(handed) + {item} else old(handed)
      ensures !ok ==> item == null && contents == old(contents) && history == old(history) + [Nothing]
    {
      hide Legal, Replay;
      if count == 0 {
        Extend(Cfg(), history, Nothing);
        history := history + [Nothing];
        return null, false;
      }
      item := RemoveHead();
      ok := true;
    }

    method Close()
      requires Valid()
      modifies this
      ensures Valid() && closed && contents == old(contents) && handed == old(handed)
      ensures history == old(history) + [Closed]
    {
      hide Legal, Replay;
      Extend(Cfg(), history, Closed);
      closed := true;
      history := history + [Closed];
    }
  }
}
