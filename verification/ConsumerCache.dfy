/** The consumer's cache of slot buffers stays coherent with the queue, although the queue
    does not send a buffer that the consumer has seen before. */
module ConsumerCache {
  import opened BufferQueueTypes
  import opened BufferQueueSpec
  import opened SlotScans
  import opened Correspondence
  import opened QueueRuns
  import opened QueueInvariant
  import opened QueueHistory
  import opened SlotOwnership

  /** The consumer's record of a slot. */
  datatype CacheSlot = CacheSlot(buffer: Option<Buffer>, frame: nat, fence: Fence)

  const EMPTY_CACHE_SLOT := CacheSlot(None, 0, NO_FENCE)

  type Cache = c: seq<CacheSlot> | |c| == NUM_BUFFER_SLOTS witness seq(NUM_BUFFER_SLOTS, _ => EMPTY_CACHE_SLOT)

  function EmptyCache(): (r: Cache)
    ensures forall b :: 0 <= b < NUM_BUFFER_SLOTS ==> r[b] == EMPTY_CACHE_SLOT
  {
    seq(NUM_BUFFER_SLOTS, _ => EMPTY_CACHE_SLOT)
  }

  predicate CacheHolds(entry: CacheSlot, h: nat) {
    entry.buffer.Some? && entry.buffer.value.handle == h
  }

  /** A buffer that the consumer has acquired and not yet released. */
  datatype Lease = Lease(slot: nat, handle: nat)

  // ---------- the coherence of slots, queue, cache and leases ----------

  /** An item whose buffer will not be sent finds it in the cache. */
  predicate ItemsCached(queue: seq<Item>, cache: Cache)
    requires NamesSlots(queue)
  {
    forall i :: 0 <= i < |queue| && queue[i].acquireCalled ==> cache[queue[i].slot].buffer == Some(queue[i].buffer)
  }

  predicate SlotCached(s: Slot, entry: CacheSlot) {
    s.acquireCalled ==> s.buffer.Some? && entry.buffer == s.buffer
  }

  predicate SlotsCached(slots: seq<Slot>, cache: Cache)
    requires |slots| == NUM_BUFFER_SLOTS
  {
    forall b :: 0 <= b < NUM_BUFFER_SLOTS ==> SlotCached(slots[b], cache[b])
  }

  /** A slot whose buffer the consumer has seen has no stale items. */
  predicate NoStaleItems(slots: seq<Slot>, queue: seq<Item>)
    requires NamesSlots(queue) && |slots| == NUM_BUFFER_SLOTS
  {
    forall i :: 0 <= i < |queue| && slots[queue[i].slot].acquireCalled ==> Tracks(slots, queue[i])
  }

  /** Of the items that name one slot, only the last can be tracked, and only the first can
      have been queued with a buffer that the consumer had seen. */
  predicate Succession(slots: seq<Slot>, queue: seq<Item>)
    requires NamesSlots(queue) && |slots| == NUM_BUFFER_SLOTS
  {
    forall i, j :: 0 <= i < j < |queue| && queue[i].slot == queue[j].slot ==>
                     !queue[j].acquireCalled && !Tracks(slots, queue[i])
  }

  /** The slot is still out on this lease, or the queue has forgotten what the consumer has. */
  predicate LeaseCurrent(s: Slot, entry: CacheSlot, h: nat) {
    || (s.state == ACQUIRED && HoldsHandle(s, h) && s.frame == entry.frame)
    || !s.acquireCalled
  }

  predicate LeaseKept(slots: seq<Slot>, queue: seq<Item>, cache: Cache, lease: Lease)
    requires NamesSlots(queue) && |slots| == NUM_BUFFER_SLOTS
  {
    && lease.slot < NUM_BUFFER_SLOTS
    && (CacheHolds(cache[lease.slot], lease.handle) ==>
          && !NamedByAcquired(queue, lease.slot)
          && LeaseCurrent(slots[lease.slot], cache[lease.slot], lease.handle))
  }

  predicate LeasesKept(slots: seq<Slot>, queue: seq<Item>, cache: Cache, held: set<Lease>)
    requires NamesSlots(queue) && |slots| == NUM_BUFFER_SLOTS
  {
    forall lease :: lease in held ==> LeaseKept(slots, queue, cache, lease)
  }

  predicate Coherent(slots: seq<Slot>, queue: seq<Item>, cache: Cache, held: set<Lease>) {
    && Corresponds(slots, queue)
    && ItemsCached(queue, cache)
    && SlotsCached(slots, cache)
    && NoStaleItems(slots, queue)
    && Succession(slots, queue)
    && LeasesKept(slots, queue, cache, held)
  }

  // ---------- updates by the producer ----------

  /** The slot update neither makes the consumer's knowledge wrong nor upsets a lease. */
  predicate Forgets(s: Slot, t: Slot) {
    && (t.acquireCalled ==> s.acquireCalled && t.buffer == s.buffer)
    && (s.state == ACQUIRED ==> !t.acquireCalled || (t.state == ACQUIRED && t.buffer == s.buffer && t.frame == s.frame))
  }

  lemma SlotsChange(slots: seq<Slot>, after: seq<Slot>, queue: seq<Item>, cache: Cache, held: set<Lease>)
    requires Coherent(slots, queue, cache, held) && Corresponds(after, queue)
    requires forall b :: 0 <= b < NUM_BUFFER_SLOTS ==> Forgets(slots[b], after[b])
    requires forall i :: 0 <= i < |queue| && Tracks(after, queue[i]) ==> Tracks(slots, queue[i])
    ensures Coherent(after, queue, cache, held)
  {
    assert NoStaleItems(after, queue) by {
      forall i | 0 <= i < |queue| && after[queue[i].slot].acquireCalled
        ensures Tracks(after, queue[i])
      {
        assert Forgets(slots[queue[i].slot], after[queue[i].slot]);
        assert Tracks(slots, queue[i]);
      }
    }
    assert LeasesKept(after, queue, cache, held) by {
      forall lease | lease in held
        ensures LeaseKept(after, queue, cache, lease)
      {
        assert LeaseKept(slots, queue, cache, lease);
        assert Forgets(slots[lease.slot], after[lease.slot]);
      }
    }
    forall b | 0 <= b < NUM_BUFFER_SLOTS
      ensures SlotCached(after[b], cache[b])
    {
      assert Forgets(slots[b], after[b]) && SlotCached(slots[b], cache[b]);
    }
  }

  /** The front item leaves the queue without being acquired. */
  lemma FrontLeaves(slots: seq<Slot>, queue: seq<Item>, cache: Cache, held: set<Lease>, after: seq<Slot>)
    requires Coherent(slots, queue, cache, held) && |queue| > 0
    requires Corresponds(after, queue[1..])
    requires forall b :: 0 <= b < NUM_BUFFER_SLOTS ==>
                           after[b].buffer == slots[b].buffer && after[b].acquireCalled == slots[b].acquireCalled
                           && (slots[b].state == ACQUIRED ==> after[b] == slots[b])
    ensures Coherent(after, queue[1..], cache, held)
  {
    var q := queue[1..];
    assert forall i :: 0 <= i < |q| ==> q[i] == queue[i + 1];
    assert forall i :: 0 <= i < |q| ==> (Tracks(after, q[i]) <==> Tracks(slots, queue[i + 1]));
    assert LeasesKept(after, q, cache, held) by {
      forall lease | lease in held
        ensures LeaseKept(after, q, cache, lease)
      {
        assert LeaseKept(slots, queue, cache, lease);
        NamedByTail(queue, lease.slot);
      }
    }
    forall b | 0 <= b < NUM_BUFFER_SLOTS
      ensures SlotCached(after[b], cache[b])
    {
      assert SlotCached(slots[b], cache[b]);
    }
  }

  lemma NamedByTail(queue: seq<Item>, b: nat)
    requires |queue| > 0
    ensures NamedByAcquired(queue[1..], b) ==> NamedByAcquired(queue, b)
  {
    if NamedByAcquired(queue[1..], b) {
      var i :| 0 <= i < |queue[1..]| && queue[1..][i].slot == b && queue[1..][i].acquireCalled;
      assert queue[i + 1].slot == b && queue[i + 1].acquireCalled;
    }
  }

  /** A DEQUEUED slot is queued at the end. */
  lemma SlotQueued(slots: seq<Slot>, queue: seq<Item>, cache: Cache, held: set<Lease>, b: nat, s: Slot, item: Item)
    requires Coherent(slots, queue, cache, held) && b < NUM_BUFFER_SLOTS
    requires slots[b].state == DEQUEUED && slots[b].buffer == Some(item.buffer)
    requires slots[b].acquireCalled == item.acquireCalled && item.slot == b && Matches(s, item)
    ensures Coherent(slots[b := s], queue + [item], cache, held)
  {
    var after := slots[b := s];
    var q := queue + [item];
    QueueSlot(slots, queue, b, s, item, |queue|);
    assert queue[..|queue|] + [item] + queue[|queue|..] == q;
    // An item that names the slot is not tracked, for a tracked item's slot is QUEUED.
    forall i | 0 <= i < |queue| && queue[i].slot == b
      ensures !Tracks(slots, queue[i]) && !slots[b].acquireCalled
    {
      if Tracks(slots, queue[i]) {
        TrackedItemMatches(slots, queue, i);
      }
    }
    assert forall i :: 0 <= i < |q| ==> q[i] == if i < |queue| then queue[i] else item;
    assert SlotCached(slots[b], cache[b]);
    assert forall i :: 0 <= i < |queue| ==> (Tracks(after, queue[i]) <==> Tracks(slots, queue[i]));
    assert LeasesKept(after, q, cache, held) by {
      forall lease | lease in held
        ensures LeaseKept(after, q, cache, lease)
      {
        assert LeaseKept(slots, queue, cache, lease);
      }
    }
    forall k | 0 <= k < NUM_BUFFER_SLOTS
      ensures SlotCached(after[k], cache[k])
    {
      assert SlotCached(slots[k], cache[k]);
    }
  }

  // ---------- updates by the consumer ----------

  /** What acquireBufferLocked writes into the cache. */
  function Recorded(cache: Cache, item: Item): Cache
    requires item.slot < NUM_BUFFER_SLOTS
  {
    var entry := cache[item.slot];
    var buffer := if item.acquireCalled then entry.buffer else Some(item.buffer);
    cache[item.slot := CacheSlot(buffer, item.frame, item.fence)]
  }

  /** The front item is acquired: the cache then holds its buffer, sent or not. */
  lemma FrontAcquired(slots: seq<Slot>, queue: seq<Item>, cache: Cache, held: set<Lease>)
    requires Coherent(slots, queue, cache, held) && |queue| > 0
    ensures Recorded(cache, queue[0])[queue[0].slot].buffer == Some(queue[0].buffer)
    ensures Corresponds(TakenSlots(slots, queue[0]), queue[1..]) ==>
              Coherent(TakenSlots(slots, queue[0]), queue[1..], Recorded(cache, queue[0]),
                       held + {Lease(queue[0].slot, queue[0].buffer.handle)})
  {
    var item := queue[0];
    var q := queue[1..];
    var after := TakenSlots(slots, item);
    var cache' := Recorded(cache, item);
    var held' := held + {Lease(item.slot, item.buffer.handle)};
    assert forall i :: 0 <= i < |q| ==> q[i] == queue[i + 1];
    assert forall i :: 0 <= i < |q| ==> (Tracks(after, q[i]) <==> Tracks(slots, queue[i + 1]));
    if Tracks(slots, item) {
      TrackedItemMatches(slots, queue, 0);
      // A tracked front item is the last that names its slot.
      assert forall j :: 0 <= j < |q| ==> q[j].slot != item.slot;
    }
    forall lease | lease in held'
      ensures LeaseKept(after, q, cache', lease)
    {
      if lease in held {
        assert LeaseKept(slots, queue, cache, lease);
        NamedByTail(queue, lease.slot);
      }
      NoneNamedByAcquired(slots, queue, item.slot);
    }
    forall b | 0 <= b < NUM_BUFFER_SLOTS
      ensures SlotCached(after[b], cache'[b])
    {
      assert SlotCached(slots[b], cache[b]);
    }
  }

  lemma NoneNamedByAcquired(slots: seq<Slot>, queue: seq<Item>, b: nat)
    requires NamesSlots(queue) && |slots| == NUM_BUFFER_SLOTS && Succession(slots, queue)
    requires |queue| > 0 && queue[0].slot == b
    ensures !NamedByAcquired(queue[1..], b)
  {
  }

  function Forgotten(cache: Cache, mask: set<nat>): (r: Cache)
    ensures forall b :: 0 <= b < NUM_BUFFER_SLOTS ==> r[b] == if b in mask then EMPTY_CACHE_SLOT else cache[b]
  {
    seq(NUM_BUFFER_SLOTS, b requires 0 <= b < NUM_BUFFER_SLOTS => if b in mask then EMPTY_CACHE_SLOT else cache[b])
  }

  /** Forgetting the slots that the queue reports as released, however late. */
  lemma MaskForgotten(c: Core, cache: Cache, held: set<Lease>)
    requires WellFormed(c) && Coherent(c.slots, c.queue, cache, held)
    ensures Coherent(c.slots, c.queue, Forgotten(cache, ReleasedSlots(c)), held)
  {
    var mask := ReleasedSlots(c);
    var cache' := Forgotten(cache, mask);
    forall i | 0 <= i < |c.queue| && c.queue[i].acquireCalled
      ensures cache'[c.queue[i].slot].buffer == Some(c.queue[i].buffer)
    {
      assert NamedByAcquired(c.queue, c.queue[i].slot);
    }
    forall lease | lease in held
      ensures LeaseKept(c.slots, c.queue, cache', lease)
    {
      assert LeaseKept(c.slots, c.queue, cache, lease);
    }
    forall b | 0 <= b < NUM_BUFFER_SLOTS
      ensures SlotCached(c.slots[b], cache'[b])
    {
      assert SlotCached(c.slots[b], cache[b]);
    }
  }

  /** What the callback leaves: an entry stays exactly if the slot's buffer is seen or an item
      queued with a seen buffer names the slot; every other entry is emptied. */
  lemma CallbackKeepsIff(c: Core, cache: Cache, b: nat)
    requires WellFormed(c) && !c.abandoned && b < NUM_BUFFER_SLOTS
    ensures var after := Forgotten(cache, ReleasedSlots(c))[b];
            var needed := c.slots[b].acquireCalled
                          || exists i :: 0 <= i < |c.queue| && c.queue[i].slot == b && c.queue[i].acquireCalled;
            && (needed ==> after == cache[b])
            && (!needed ==> after.buffer == None && after.frame == 0 && after.fence == NO_FENCE)
  {
    assert NamedByAcquired(c.queue, b)
           <==> exists i :: 0 <= i < |c.queue| && c.queue[i].slot == b && c.queue[i].acquireCalled;
  }

  /** From an abandoned queue the callback learns nothing, and the cache stays. */
  lemma CallbackOnAbandoned(c: Core, cache: Cache)
    requires WellFormed(c) && c.abandoned
    ensures Forgotten(cache, ReleasedSlots(c)) == cache
  {
  }

  /** When the producer has disconnected and nothing is queued, the callback empties the cache. */
  lemma CallbackEmptiesCache(c: Core, api: int, cache: Cache)
    requires WellFormed(c) && !c.abandoned && 1 <= api <= 4 && c.connectedApi == api && c.queue == []
    ensures forall b :: 0 <= b < NUM_BUFFER_SLOTS ==>
                          Forgotten(cache, ReleasedSlots(DisconnectProducer(c, api)))[b].buffer == None
  {
    var d := DisconnectProducer(c, api);
    forall b | 0 <= b < NUM_BUFFER_SLOTS
      ensures Forgotten(cache, ReleasedSlots(d))[b].buffer == None
    {
      CallbackKeepsIff(d, cache, b);
    }
  }

  /** What releaseBufferLocked leaves in the cache. */
  function AfterRelease(cache: Cache, b: nat, status: Status): Cache
    requires b < NUM_BUFFER_SLOTS
  {
    if status == STALE_BUFFER_SLOT then cache[b := EMPTY_CACHE_SLOT] else cache[b := cache[b].(fence := NO_FENCE)]
  }

  /** If the queue knows that the consumer has the buffer, the slot is out on the lease,
      no item names it, and the release is accepted. */
  lemma ReleaseAccepted(c: Core, cache: Cache, held: set<Lease>, lease: Lease)
    requires WellFormed(c) && Coherent(c.slots, c.queue, cache, held) && lease in held
    requires CacheHolds(cache[lease.slot], lease.handle) && c.slots[lease.slot].acquireCalled
    ensures c.slots[lease.slot].state == ACQUIRED && HoldsHandle(c.slots[lease.slot], lease.handle)
    ensures ReleaseStatus(c, lease.slot, cache[lease.slot].frame, Some(cache[lease.slot].fence)) == NO_ERROR
  {
    assert LeaseKept(c.slots, c.queue, cache, lease);
    if i :| 0 <= i < |c.queue| && c.queue[i].slot == lease.slot {
      TrackedItemMatches(c.slots, c.queue, i);
      assert false;
    }
  }

  /** The slot comes back from the consumer, its buffer staying in the cache. */
  lemma SlotReturned(slots: seq<Slot>, queue: seq<Item>, cache: Cache, held: set<Lease>, lease: Lease, fence: Fence)
    requires Coherent(slots, queue, cache, held) && lease in held
    requires CacheHolds(cache[lease.slot], lease.handle)
    requires slots[lease.slot].state == ACQUIRED
    requires Corresponds(slots[lease.slot := ReleasedSlot(slots[lease.slot], fence)], queue)
    ensures Coherent(slots[lease.slot := ReleasedSlot(slots[lease.slot], fence)], queue,
                     cache[lease.slot := cache[lease.slot].(fence := NO_FENCE)], held - {lease})
  {
    var b := lease.slot;
    var after := slots[b := ReleasedSlot(slots[b], fence)];
    var cache' := cache[b := cache[b].(fence := NO_FENCE)];
    assert forall i :: 0 <= i < |queue| ==> (Tracks(after, queue[i]) <==> Tracks(slots, queue[i]));
    forall other | other in held - {lease}
      ensures LeaseKept(after, queue, cache', other)
    {
      assert LeaseKept(slots, queue, cache, other);
    }
    forall k | 0 <= k < NUM_BUFFER_SLOTS
      ensures SlotCached(after[k], cache'[k])
    {
      assert SlotCached(slots[k], cache[k]);
    }
  }

  /** A lease on a slot that the queue has forgotten ends; the entry may be cleared. */
  lemma LeaseForgotten(slots: seq<Slot>, queue: seq<Item>, cache: Cache, held: set<Lease>, lease: Lease, status: Status)
    requires Coherent(slots, queue, cache, held) && lease in held
    requires CacheHolds(cache[lease.slot], lease.handle) && !slots[lease.slot].acquireCalled
    ensures Coherent(slots, queue, AfterRelease(cache, lease.slot, status), held - {lease})
  {
    var cache' := AfterRelease(cache, lease.slot, status);
    assert LeaseKept(slots, queue, cache, lease);
    forall i | 0 <= i < |queue| && queue[i].acquireCalled
      ensures cache'[queue[i].slot].buffer == Some(queue[i].buffer)
    {
      assert queue[i].slot != lease.slot;
    }
    forall other | other in held - {lease}
      ensures LeaseKept(slots, queue, cache', other)
    {
      assert LeaseKept(slots, queue, cache, other);
    }
    forall k | 0 <= k < NUM_BUFFER_SLOTS
      ensures SlotCached(slots[k], cache'[k])
    {
      assert SlotCached(slots[k], cache[k]);
    }
  }

  /** Returning a lease keeps everything coherent, whatever the queue answers. */
  lemma LeaseReturned(c: Core, cache: Cache, held: set<Lease>, lease: Lease)
    requires WellFormed(c) && Coherent(c.slots, c.queue, cache, held) && lease in held
    requires CacheHolds(cache[lease.slot], lease.handle)
    requires var d := ReleaseBuffer(c, lease.slot, cache[lease.slot].frame, Some(cache[lease.slot].fence));
             Corresponds(d.slots, d.queue)
    ensures var entry := cache[lease.slot];
            var status := ReleaseStatus(c, lease.slot, entry.frame, Some(entry.fence));
            var d := ReleaseBuffer(c, lease.slot, entry.frame, Some(entry.fence));
            Coherent(d.slots, d.queue, AfterRelease(cache, lease.slot, status), held - {lease})
  {
    var b := lease.slot;
    var entry := cache[b];
    var status := ReleaseStatus(c, b, entry.frame, Some(entry.fence));
    var d := ReleaseBuffer(c, b, entry.frame, Some(entry.fence));
    if c.slots[b].acquireCalled {
      ReleaseAccepted(c, cache, held, lease);
    }
    if status == NO_ERROR {
      hide Coherent, Corresponds;
      SlotReturned(c.slots, c.queue, cache, held, lease, entry.fence);
    } else {
      ReleaseLeavesSlots(c, b, entry.frame, Some(entry.fence));
      hide ReleaseBuffer;
      LeaseStays(c.slots, d.slots, c.queue, cache, held);
      hide Coherent, Corresponds;
      LeaseForgotten(d.slots, d.queue, cache, held, lease, status);
    }
  }

  lemma ReleaseLeavesSlots(c: Core, b: nat, frame: nat, fence: Option<Fence>)
    requires WellFormed(c) && b < NUM_BUFFER_SLOTS && ReleaseStatus(c, b, frame, fence) != NO_ERROR
    ensures var d := ReleaseBuffer(c, b, frame, fence);
            d.queue == c.queue && (d.slots == c.slots || d.slots == c.slots[b := CleanedSlot(c.slots[b])])
  {
    hide NamesSlot, WellFormed;
  }

  /** The clean-up flag is no part of the coherence. */
  lemma LeaseStays(slots: seq<Slot>, after: seq<Slot>, queue: seq<Item>, cache: Cache, held: set<Lease>)
    requires Coherent(slots, queue, cache, held) && Corresponds(after, queue)
    requires forall b :: 0 <= b < NUM_BUFFER_SLOTS ==> after[b] == slots[b] || after[b] == CleanedSlot(slots[b])
    ensures Coherent(after, queue, cache, held)
  {
    SlotsChange(slots, after, queue, cache, held);
  }

  // ---------- runs ----------

  /** The queue and its consumer. `held` is the set of leases not yet returned. */
  datatype World = World(sys: Sys, cache: Cache, held: set<Lease>)

  /** A step of the producer or the queue's owner, or one of the consumer's calls, each of
      which makes one call to the queue with the consumer's mutex held. */
  datatype Step =
    | QueueStep(op: Op)
    | AcquireLocked(expected: int)
    | ReleaseLocked(slot: int, handle: nat)
    | BuffersReleased
    | Abandon

  predicate StillTracking(cache: Cache, slot: int, handle: nat) {
    0 <= slot < NUM_BUFFER_SLOTS && CacheHolds(cache[slot], handle)
  }

  /** The item that an acquire returns, its buffer included whether it is sent or not. */
  function AcquiredItem(c: Core, expected: int): Item
    requires WellFormed(c) && AcquireStatus(c, expected) == NO_ERROR
  {
    Pruned(c, expected).queue[0]
  }

  function Acquire(w: World, expected: int): World
    requires WellFormed(w.sys.core)
  {
    var c := w.sys.core;
    var t := Next(w.sys, AcquireBufferOp(expected));
    if AcquireStatus(c, expected) != NO_ERROR then w.(sys := t)
    else
      var item := AcquiredItem(c, expected);
      assert item.slot < NUM_BUFFER_SLOTS by { assert NamesSlots(Pruned(c, expected).queue); }
      World(t, Recorded(w.cache, item), w.held + {Lease(item.slot, item.buffer.handle)})
  }

  function Release(w: World, slot: int, handle: nat): World
    requires WellFormed(w.sys.core)
  {
    if !StillTracking(w.cache, slot, handle) then w.(held := Returned(w.held, slot, handle))
    else
      var entry := w.cache[slot];
      var status := ReleaseStatus(w.sys.core, slot, entry.frame, Some(entry.fence));
      World(Next(w.sys, ReleaseBufferOp(slot, entry.frame, Some(entry.fence))),
            AfterRelease(w.cache, slot, status), Returned(w.held, slot, handle))
  }

  function Returned(held: set<Lease>, slot: int, handle: nat): set<Lease> {
    if slot < 0 then held else held - {Lease(slot, handle)}
  }

  function NextWorld(w: World, step: Step): (v: World)
    requires WellFormed(w.sys.core)
    ensures WellFormed(v.sys.core)
  {
    match step
    case QueueStep(op) => w.(sys := Next(w.sys, op))
    case AcquireLocked(expected) => Acquire(w, expected)
    case ReleaseLocked(slot, handle) => Release(w, slot, handle)
    case BuffersReleased => w.(cache := Forgotten(w.cache, ReleasedSlots(w.sys.core)))
    case Abandon => World(Next(w.sys, DisconnectConsumerOp), EmptyCache(), w.held)
  }

  predicate ByConsumerBase(op: Op) {
    op.AcquireBufferOp? || op.ReleaseBufferOp?
  }

  /** The producer attaches a buffer only where AttachKeepsCacheIff allows it: to a slot whose
      buffer the consumer has not seen. */
  predicate AttachesUnseen(c: Core, op: Op)
    requires WellFormed(c)
  {
    op.AttachByProducerOp? && Pass(c, false).Found? ==> !c.slots[Pass(c, false).slot].acquireCalled
  }

  /** The consumer acquires and releases through its cache only, and releases what it holds;
      all buffers are queued with one droppability. */
  predicate LegalStep(w: World, step: Step, droppable: bool)
    requires WellFormed(w.sys.core)
  {
    match step
    case QueueStep(op) =>
      && Legal(w.sys, op) && !ByConsumerBase(op) && AttachesUnseen(w.sys.core, op)
      && QueuesLike(w.sys.core, op, droppable)
    case ReleaseLocked(slot, handle) => 0 <= slot && Lease(slot, handle) in w.held
    case Abandon => w.sys.core.hasConsumer
    case _ => true
  }

  predicate WorldInv(w: World, droppable: bool) {
    && Inv(w.sys)
    && Coherent(w.sys.core.slots, w.sys.core.queue, w.cache, w.held)
    && InOrder(w.sys.core.queue, w.sys.core.frameCounter, droppable)
  }

  // ---------- the steps of the queue ----------

  predicate StaysCoherent(w: World, d: Core) {
    Coherent(d.slots, d.queue, w.cache, w.held)
  }

  /** One slot changes, to one that forgets or keeps what the consumer knows. */
  lemma OneSlotChanges(w: World, d: Core, b: nat, slot: Slot)
    requires Coherent(w.sys.core.slots, w.sys.core.queue, w.cache, w.held) && Corresponds(d.slots, d.queue)
    requires b < NUM_BUFFER_SLOTS && d.slots == w.sys.core.slots[b := slot] && d.queue == w.sys.core.queue
    requires Forgets(w.sys.core.slots[b], slot)
    requires || slot.buffer == w.sys.core.slots[b].buffer || slot.buffer.None?
             || GetsFresh(w.sys.core.slots, w.sys.core.queue, slot)
    ensures StaysCoherent(w, d)
  {
    SlotsChange(w.sys.core.slots, d.slots, d.queue, w.cache, w.held);
  }

  lemma ManyFreed(w: World, d: Core)
    requires Coherent(w.sys.core.slots, w.sys.core.queue, w.cache, w.held) && Corresponds(d.slots, d.queue)
    requires d.queue == w.sys.core.queue
    requires forall b :: 0 <= b < NUM_BUFFER_SLOTS ==>
                           d.slots[b] == w.sys.core.slots[b] || d.slots[b] == FreedSlot(w.sys.core.slots[b])
    ensures StaysCoherent(w, d)
  {
    SlotsChange(w.sys.core.slots, d.slots, d.queue, w.cache, w.held);
  }

  lemma DequeueCoheres(w: World, isAsync: bool, req: Request, droppable: bool)
    requires WorldInv(w, droppable)
    ensures StaysCoherent(w, BeginDequeue(w.sys.core, isAsync, req))
  {
    var c := w.sys.core;
    var d := BeginDequeue(c, isAsync, req);
    KeepsBeginDequeue(w.sys, isAsync, req);
    KeepsTrim(w.sys, isAsync);
    hide Coherent, Corresponds;
    var t := Trim(c, isAsync);
    ManyFreed(w, t);
    if !BadSize(req) && Pass(c, isAsync).Found? {
      var b := Pass(c, isAsync).slot;
      FoundLeavesRoom(c, isAsync);
      TrimKeepsLow(c, isAsync, b);
      OneSlotChanges(w.(sys := Sys(t, w.sys.pending)), d, b, DequeuedSlot(t.slots[b], Resolve(c, req)));
    }
  }

  lemma QueueCoheres(w: World, slot: int, input: QueueInput, droppable: bool)
    requires WorldInv(w, droppable) && slot !in w.sys.pending
    requires QueuesLike(w.sys.core, QueueBufferOp(slot, input), droppable)
    ensures StaysCoherent(w, QueueBuffer(w.sys.core, slot, input))
  {
    var c := w.sys.core;
    if QueueStatus(c, slot, input) == NO_ERROR {
      QueueBufferItems(c, slot, input);
      var item := QueuedItem(c, slot, input);
      var marked := MarkQueued(c, slot, input);
      if Overwrites(c) {
        // All items are droppable, so the one overwritten is alone.
        var front := c.queue[0];
        var cleared := OverwrittenSlots(c.slots, front);
        if Tracks(c.slots, front) {
          TrackedItemMatches(c.slots, c.queue, 0);
        }
        assert cleared[slot] == c.slots[slot] && cleared[slot := marked[slot]] == OverwrittenSlots(marked, front);
        assert c.queue[1..] == [] && [] + [item] == c.queue[0 := item];
        RemoveFront(c.slots, c.queue, OverwrittenSlot(c.slots[front.slot]));
        hide Coherent, Corresponds;
        FrontLeaves(c.slots, c.queue, w.cache, w.held, cleared);
        SlotQueued(cleared, [], w.cache, w.held, slot, marked[slot], item);
      } else {
        hide Coherent, Corresponds;
        SlotQueued(c.slots, c.queue, w.cache, w.held, slot, marked[slot], item);
      }
    }
  }

  lemma SlotOpsCohere(w: World, op: Op, droppable: bool)
    requires WorldInv(w, droppable) && Legal(w.sys, op)
    requires op.RequestBufferOp? || op.DetachByProducerOp? || op.CancelBufferOp? || op.DetachByConsumerOp?
    ensures StaysCoherent(w, Apply(w.sys.core, op))
  {
    var c := w.sys.core;
    var d := Apply(c, op);
    StepKeepsInv(w.sys, op);
    hide Coherent, Corresponds;
    if d != c {
      OneSlotChanges(w, d, op.slot, d.slots[op.slot]);
    }
  }

  lemma DetachNextCoheres(w: World, droppable: bool)
    requires WorldInv(w, droppable)
    ensures StaysCoherent(w, DetachNext(w.sys.core))
  {
    var c := w.sys.core;
    var d := DetachNext(c);
    KeepsDetachNext(w.sys);
    hide Coherent, Corresponds;
    if d != c {
      var b := Oldest(c.slots, NUM_BUFFER_SLOTS, true);
      OneSlotChanges(w, d, b, FreedSlot(c.slots[b]));
    }
  }

  lemma ProducerAttachCoheres(w: World, buffer: Buffer, droppable: bool)
    requires WorldInv(w, droppable) && Legal(w.sys, AttachByProducerOp(buffer))
    requires AttachesUnseen(w.sys.core, AttachByProducerOp(buffer))
    ensures StaysCoherent(w, AttachByProducer(w.sys.core, buffer))
  {
    var c := w.sys.core;
    var d := AttachByProducer(c, buffer);
    KeepsAttachByProducer(w.sys, buffer);
    KeepsTrim(w.sys, false);
    hide Coherent, Corresponds;
    var t := Trim(c, false);
    ManyFreed(w, t);
    if Pass(c, false).Found? {
      var b := Pass(c, false).slot;
      FoundLeavesRoom(c, false);
      TrimKeepsLow(c, false, b);
      OneSlotChanges(w.(sys := Sys(t, w.sys.pending)), d, b, d.slots[b]);
    }
  }

  lemma ConsumerAttachCoheres(w: World, buffer: Buffer, droppable: bool)
    requires WorldInv(w, droppable) && Legal(w.sys, AttachByConsumerOp(buffer))
    ensures StaysCoherent(w, AttachByConsumer(w.sys.core, buffer))
  {
    var c := w.sys.core;
    var d := AttachByConsumer(c, buffer);
    KeepsAttachByConsumer(w.sys, buffer);
    hide Coherent, Corresponds, AtAcquireLimit;
    if AttachByConsumerStatus(c) == NO_ERROR {
      var b := Oldest(c.slots, NUM_BUFFER_SLOTS, false);
      OneSlotChanges(w, d, b, d.slots[b]);
    }
  }

  /** A slot without a buffer has none that the consumer has seen. */
  lemma FinishCoheres(w: World, b: nat, buffer: Buffer, droppable: bool)
    requires WorldInv(w, droppable) && b in w.sys.pending
    requires Fresh(w.sys.core.slots, w.sys.core.queue, buffer.handle)
    ensures StaysCoherent(w, FinishDequeue(w.sys.core, b, buffer))
  {
    var c := w.sys.core;
    KeepsFinishDequeue(w.sys, b, buffer);
    assert SlotCached(c.slots[b], w.cache[b]);
    hide Coherent, Corresponds;
    if !c.abandoned {
      OneSlotChanges(w, FinishDequeue(c, b, buffer), b, c.slots[b].(frame := FREED_FRAME, buffer := Some(buffer)));
    }
  }

  lemma InstalledCorresponds(s: Sys, targets: seq<nat>, buffers: seq<Buffer>, n: nat)
    requires Inv(s) && |targets| == |buffers| && n <= |targets|
    requires forall k :: 0 <= k < |targets| ==> targets[k] < NUM_BUFFER_SLOTS
    requires FreshHandles(s.core.slots, s.core.queue, buffers)
    ensures var slots := Installed(s.core.slots, targets, buffers, n);
            && Corresponds(slots, s.core.queue)
            && forall k :: n <= k < |buffers| ==> Fresh(slots, s.core.queue, buffers[k].handle)
  {
    hide Corresponds, FreshHandles, Installed, Fresh;
    var d := s.core.(slots := Installed(s.core.slots, targets, buffers, n));
    KeepsInstalled(s, targets, buffers, n, Sys(d, s.pending));
  }

  lemma {:induction false} InstallCoheres(
    w: World, targets: seq<nat>, buffers: seq<Buffer>, n: nat, d: Core, droppable: bool)
    requires WorldInv(w, droppable) && |targets| == |buffers| && n <= |targets|
    requires forall k :: 0 <= k < |targets| ==> targets[k] < NUM_BUFFER_SLOTS
    requires FreshHandles(w.sys.core.slots, w.sys.core.queue, buffers)
    requires d.slots == Installed(w.sys.core.slots, targets, buffers, n) && d.queue == w.sys.core.queue
    ensures StaysCoherent(w, d)
  {
    var c := w.sys.core;
    assert WellFormed(c);
    hide Coherent, Corresponds, Fresh, FreshHandles, Inv, InOrder, WellFormed;
    if n > 0 {
      var m := c.(slots := Installed(c.slots, targets, buffers, n - 1));
      InstallCoheres(w, targets, buffers, n - 1, m, droppable);
      InstalledCorresponds(w.sys, targets, buffers, n - 1);
      InstalledCorresponds(w.sys, targets, buffers, n);
      var b := targets[n - 1];
      if m.slots[b].state == FREE {
        OneSlotChanges(w.(sys := Sys(m, w.sys.pending)), d, b, d.slots[b]);
      }
    }
  }

  lemma InstallOpCoheres(w: World, op: Op, droppable: bool)
    requires WorldInv(w, droppable) && op.InstallBuffersOp? && Legal(w.sys, op)
    ensures StaysCoherent(w, Apply(w.sys.core, op))
  {
    hide Coherent, Corresponds;
    if InstallFits(op) {
      InstallCoheres(w, op.targets, op.buffers, |op.buffers|, Apply(w.sys.core, op), droppable);
    }
  }

  lemma FreeAllCoheres(w: World, op: Op, droppable: bool)
    requires WorldInv(w, droppable) && Legal(w.sys, op)
    requires op.SetBufferCountOp? || op.DisconnectProducerOp?
    ensures StaysCoherent(w, Apply(w.sys.core, op))
  {
    StepKeepsInv(w.sys, op);
    hide Coherent, Corresponds, SetBufferCountStatus;
    ManyFreed(w, Apply(w.sys.core, op));
  }

  lemma ClearCoheres(w: World, droppable: bool)
    requires WorldInv(w, droppable)
    ensures StaysCoherent(w, DisconnectConsumer(w.sys.core))
  {
    var c := w.sys.core;
    KeepsDisconnectConsumer(w.sys);
    if c.hasConsumer {
      FreeSlots(c.slots, AllFreed(c.slots), c.queue);
      ManyFreed(w, c.(slots := AllFreed(c.slots)));
      EmptyCoheres(AllFreed(c.slots), c.queue, w.cache, w.held);
    }
  }

  lemma EmptyCoheres(slots: seq<Slot>, queue: seq<Item>, cache: Cache, held: set<Lease>)
    requires Coherent(slots, queue, cache, held)
    requires forall b :: 0 <= b < NUM_BUFFER_SLOTS ==> slots[b].state != QUEUED
    ensures Coherent(slots, [], cache, held)
  {
    EmptyQueue(slots, queue);
    hide Corresponds;
    forall lease | lease in held
      ensures LeaseKept(slots, [], cache, lease)
    {
      assert LeaseKept(slots, queue, cache, lease);
    }
  }

  lemma SettingsCohere(w: World, op: Op, droppable: bool)
    requires WorldInv(w, droppable) && TouchesNoSlot(op)
    ensures StaysCoherent(w, Apply(w.sys.core, op))
  {
    hide Coherent, Corresponds;
    OthersKeepQueue(w.sys.core, op);
    SettingsKeepSlots(w.sys.core, op);
    hide Apply;
  }

  lemma QueueStepCoheres(w: World, op: Op, droppable: bool)
    requires WorldInv(w, droppable) && LegalStep(w, QueueStep(op), droppable)
    ensures StaysCoherent(w, Apply(w.sys.core, op))
  {
    assert WellFormed(w.sys.core);
    hide WorldInv, StaysCoherent, WellFormed;
    match op {
      case BeginDequeueOp(isAsync, req) => DequeueCoheres(w, isAsync, req, droppable);
      case QueueBufferOp(slot, input) => QueueCoheres(w, slot, input, droppable);
      case RequestBufferOp(_) => SlotOpsCohere(w, op, droppable);
      case DetachByProducerOp(_) => SlotOpsCohere(w, op, droppable);
      case CancelBufferOp(_, _) => SlotOpsCohere(w, op, droppable);
      case DetachByConsumerOp(_) => SlotOpsCohere(w, op, droppable);
      case DetachNextOp => DetachNextCoheres(w, droppable);
      case AttachByProducerOp(buffer) => ProducerAttachCoheres(w, buffer, droppable);
      case AttachByConsumerOp(buffer) => ConsumerAttachCoheres(w, buffer, droppable);
      case FinishDequeueOp(b, buffer) => PendingInRange(w, b, droppable); FinishCoheres(w, b, buffer, droppable);
      case InstallBuffersOp(_, _) => InstallOpCoheres(w, op, droppable);
      case SetBufferCountOp(_) => FreeAllCoheres(w, op, droppable);
      case DisconnectProducerOp(_) => FreeAllCoheres(w, op, droppable);
      case DisconnectConsumerOp => ClearCoheres(w, droppable);
      case _ => SettingsCohere(w, op, droppable);
    }
  }

  lemma PendingInRange(w: World, b: nat, droppable: bool)
    requires WorldInv(w, droppable) && b in w.sys.pending
    ensures b < NUM_BUFFER_SLOTS
  {
  }

  // ---------- the steps of the consumer ----------

  lemma {:induction false} DropLateCoheres(w: World, expected: int)
    requires Inv(w.sys) && Coherent(w.sys.core.slots, w.sys.core.queue, w.cache, w.held)
    ensures StaysCoherent(w, DropLate(w.sys.core, expected))
    decreases |w.sys.core.queue|
  {
    var c := w.sys.core;
    hide Coherent, Corresponds;
    if DropsFront(c.queue, expected) {
      DropCoheres(w);
      KeepsDropFront(w.sys);
      DropLateCoheres(w.(sys := Sys(DropFront(c), w.sys.pending)), expected);
    }
  }

  lemma DropCoheres(w: World)
    requires Inv(w.sys) && Coherent(w.sys.core.slots, w.sys.core.queue, w.cache, w.held) && |w.sys.core.queue| > 0
    ensures StaysCoherent(w, DropFront(w.sys.core))
  {
    var c := w.sys.core;
    KeepsDropFront(w.sys);
    if Tracks(c.slots, c.queue[0]) {
      TrackedItemMatches(c.slots, c.queue, 0);
    }
    hide Coherent, Corresponds;
    FrontLeaves(c.slots, c.queue, w.cache, w.held, DropFront(c).slots);
  }

  lemma PrunedCoheres(w: World, expected: int)
    requires Inv(w.sys) && Coherent(w.sys.core.slots, w.sys.core.queue, w.cache, w.held)
    ensures StaysCoherent(w, Pruned(w.sys.core, expected))
    ensures Inv(Sys(Pruned(w.sys.core, expected), w.sys.pending))
  {
    hide Coherent, Corresponds;
    DropLateCoheres(w, expected);
    KeepsDropLate(w.sys, expected);
  }

  /** The front of the pruned queue, acquired. */
  lemma FrontTaken(w: World, p: Core)
    requires WellFormed(p) && Coherent(p.slots, p.queue, w.cache, w.held) && |p.queue| > 0
    requires Corresponds(TakeFront(p).slots, TakeFront(p).queue)
    ensures var item := p.queue[0]; var d := TakeFront(p);
            && item.slot < NUM_BUFFER_SLOTS
            && Recorded(w.cache, item)[item.slot].buffer == Some(item.buffer)
            && Coherent(d.slots, d.queue, Recorded(w.cache, item), w.held + {Lease(item.slot, item.buffer.handle)})
  {
    hide Coherent, Corresponds, Recorded;
    FrontAcquired(p.slots, p.queue, w.cache, w.held);
  }

  lemma NextIsAcquire(s: Sys, expected: int)
    requires WellFormed(s.core)
    ensures var c := s.core; var d := Next(s, AcquireBufferOp(expected)).core;
            && d == AcquireBuffer(c, expected)
            && (AcquireStatus(c, expected) == NO_ERROR ==> c.queue != [] && d == TakeFront(Pruned(c, expected)))
            && (AcquireStatus(c, expected) != NO_ERROR ==> d == c || d == Pruned(c, expected))
  {
    hide Pruned, TakeFront, WellFormed, AtAcquireLimit;
  }

  lemma AcquireKeepsCorrespondence(s: Sys, expected: int)
    requires Inv(s)
    ensures var d := AcquireBuffer(s.core, expected); Corresponds(d.slots, d.queue)
  {
    KeepsAcquire(s, expected);
    NextIsAcquire(s, expected);
    hide Next, AcquireBuffer, WellFormed, Corresponds;
  }

  lemma AcquireCoheres(w: World, expected: int, droppable: bool)
    requires WorldInv(w, droppable)
    ensures var v := Acquire(w, expected); Coherent(v.sys.core.slots, v.sys.core.queue, v.cache, v.held)
    ensures AcquireStatus(w.sys.core, expected) == NO_ERROR ==>
              var item := AcquiredItem(w.sys.core, expected);
              item.slot < NUM_BUFFER_SLOTS && Acquire(w, expected).cache[item.slot].buffer == Some(item.buffer)
  {
    var c := w.sys.core;
    assert WellFormed(c);
    NextIsAcquire(w.sys, expected);
    hide Corresponds, Recorded, Pruned, TakeFront, Coherent, Inv, InOrder, AcquireBuffer, AcquireStatus;
    hide WellFormed, Next;
    AcquireKeepsCorrespondence(w.sys, expected);
    PrunedCoheres(w, expected);
    if AcquireStatus(c, expected) == NO_ERROR {
      FrontTaken(w, Pruned(c, expected));
    }
  }

  lemma HeldSlotInRange(w: World, lease: Lease)
    requires Coherent(w.sys.core.slots, w.sys.core.queue, w.cache, w.held) && lease in w.held
    ensures lease.slot < NUM_BUFFER_SLOTS
  {
    assert LeaseKept(w.sys.core.slots, w.sys.core.queue, w.cache, lease);
  }

  lemma NextIsRelease(s: Sys, slot: nat, frame: nat, fence: Option<Fence>)
    requires WellFormed(s.core)
    ensures Next(s, ReleaseBufferOp(slot, frame, fence)).core == ReleaseBuffer(s.core, slot, frame, fence)
  {
    hide ReleaseBuffer, WellFormed;
  }

  lemma ReleaseKeepsCorrespondence(w: World, slot: nat, frame: nat, fence: Option<Fence>)
    requires Inv(w.sys)
    ensures var d := ReleaseBuffer(w.sys.core, slot, frame, fence); Corresponds(d.slots, d.queue)
  {
    KeepsRelease(w.sys, slot, frame, fence);
    NextIsRelease(w.sys, slot, frame, fence);
    hide Next, ReleaseBuffer, WellFormed, Corresponds;
  }

  lemma ReleaseCoheres(w: World, slot: int, handle: nat, droppable: bool)
    requires WorldInv(w, droppable) && LegalStep(w, ReleaseLocked(slot, handle), droppable)
    ensures var v := Release(w, slot, handle); Coherent(v.sys.core.slots, v.sys.core.queue, v.cache, v.held)
  {
    var lease := Lease(slot, handle);
    assert WellFormed(w.sys.core);
    hide Coherent, Corresponds, ReleaseBuffer, ReleaseStatus, AfterRelease, Inv, InOrder, WellFormed;
    HeldSlotInRange(w, lease);
    if StillTracking(w.cache, slot, handle) {
      ReleaseKeepsCorrespondence(w, slot, w.cache[slot].frame, Some(w.cache[slot].fence));
      LeaseReturned(w.sys.core, w.cache, w.held, lease);
    } else {
      FewerLeases(w.sys.core.slots, w.sys.core.queue, w.cache, w.held, lease);
    }
  }

  lemma FewerLeases(slots: seq<Slot>, queue: seq<Item>, cache: Cache, held: set<Lease>, lease: Lease)
    requires Coherent(slots, queue, cache, held)
    ensures Coherent(slots, queue, cache, held - {lease})
  {
  }

  lemma AbandonCoheres(w: World)
    requires Inv(w.sys) && w.sys.core.hasConsumer
    requires Coherent(w.sys.core.slots, w.sys.core.queue, w.cache, w.held)
    ensures var v := NextWorld(w, Abandon); Coherent(v.sys.core.slots, v.sys.core.queue, v.cache, v.held)
  {
    KeepsDisconnectConsumer(w.sys);
    var d := DisconnectConsumer(w.sys.core);
    forall lease | lease in w.held
      ensures LeaseKept(d.slots, d.queue, EmptyCache(), lease)
    {
      assert LeaseKept(w.sys.core.slots, w.sys.core.queue, w.cache, lease);
    }
  }

  /** The queue's side of a step of the world. */
  function QueueOpOf(w: World, step: Step): Op {
    match step
    case QueueStep(op) => op
    case AcquireLocked(expected) => AcquireBufferOp(expected)
    case ReleaseLocked(slot, handle) =>
      if StillTracking(w.cache, slot, handle) then ReleaseBufferOp(slot, w.cache[slot].frame, Some(w.cache[slot].fence))
      else AllocationFailedOp(NUM_BUFFER_SLOTS)
    case BuffersReleased => AllocationFailedOp(NUM_BUFFER_SLOTS)
    case Abandon => DisconnectConsumerOp
  }

  lemma StepQueueSide(w: World, step: Step, droppable: bool)
    requires WorldInv(w, droppable) && LegalStep(w, step, droppable)
    ensures Inv(NextWorld(w, step).sys)
    ensures var d := NextWorld(w, step).sys.core; InOrder(d.queue, d.frameCounter, droppable)
  {
    var op := QueueOpOf(w, step);
    StepKeepsInv(w.sys, op);
    StepKeepsOrder(w.sys.core, op, droppable, []);
    hide Coherent, Corresponds, Apply, InOrder, Inv, WellFormed;
  }

  lemma StepKeepsWorld(w: World, step: Step, droppable: bool)
    requires WorldInv(w, droppable) && LegalStep(w, step, droppable)
    ensures WorldInv(NextWorld(w, step), droppable)
  {
    StepQueueSide(w, step, droppable);
    hide Inv, InOrder;
    match step {
      case QueueStep(op) => QueueStepCoheres(w, op, droppable);
      case AcquireLocked(expected) => AcquireCoheres(w, expected, droppable);
      case ReleaseLocked(slot, handle) => ReleaseCoheres(w, slot, handle, droppable);
      case BuffersReleased => MaskForgotten(w.sys.core, w.cache, w.held);
      case Abandon => AbandonCoheres(w);
    }
  }

  // ---------- runs ----------

  function RunWorld(w: World, steps: seq<Step>): (v: World)
    requires WellFormed(w.sys.core)
    ensures WellFormed(v.sys.core)
  {
    if steps == [] then w else NextWorld(RunWorld(w, steps[..|steps| - 1]), steps[|steps| - 1])
  }

  predicate LegalWorldRun(w: World, steps: seq<Step>, droppable: bool)
    requires WellFormed(w.sys.core)
  {
    steps == [] || (&& LegalWorldRun(w, steps[..|steps| - 1], droppable)
                    && LegalStep(RunWorld(w, steps[..|steps| - 1]), steps[|steps| - 1], droppable))
  }

  /** A new queue and a consumer that has seen no buffer. */
  const START_WORLD := World(START, EmptyCache(), {})

  lemma StartCoheres(droppable: bool)
    ensures WorldInv(START_WORLD, droppable)
  {
    StartInv();
  }

  lemma {:induction false} RunKeepsWorld(steps: seq<Step>, droppable: bool)
    requires LegalWorldRun(START_WORLD, steps, droppable)
    ensures WorldInv(RunWorld(START_WORLD, steps), droppable)
  {
    hide WorldInv, NextWorld, LegalStep;
    if steps == [] {
      StartCoheres(droppable);
    } else {
      RunKeepsWorld(steps[..|steps| - 1], droppable);
      StepKeepsWorld(RunWorld(START_WORLD, steps[..|steps| - 1]), steps[|steps| - 1], droppable);
    }
  }

  /** On every run, a successful acquire leaves in the cache the buffer that was queued in
      the item it takes, although the queue may have sent none, with the item's frame number
      and fence; no other entry changes. */
  lemma CacheHoldsQueuedBuffer(steps: seq<Step>, expected: int, droppable: bool)
    requires LegalWorldRun(START_WORLD, steps, droppable)
    requires AcquireStatus(RunWorld(START_WORLD, steps).sys.core, expected) == NO_ERROR
    ensures var w := RunWorld(START_WORLD, steps); var item := AcquiredItem(w.sys.core, expected);
            && item.slot < NUM_BUFFER_SLOTS
            && Acquire(w, expected).cache[item.slot] == CacheSlot(Some(item.buffer), item.frame, item.fence)
            && forall b :: 0 <= b < NUM_BUFFER_SLOTS && b != item.slot ==> Acquire(w, expected).cache[b] == w.cache[b]
  {
    RunKeepsWorld(steps, droppable);
    AcquireCoheres(RunWorld(START_WORLD, steps), expected, droppable);
    AcquireRecords(RunWorld(START_WORLD, steps), expected);
  }

  lemma AcquireRecords(w: World, expected: int)
    requires WellFormed(w.sys.core) && AcquireStatus(w.sys.core, expected) == NO_ERROR
    ensures var item := AcquiredItem(w.sys.core, expected); var cache := Acquire(w, expected).cache;
            && item.slot < NUM_BUFFER_SLOTS
            && cache[item.slot].frame == item.frame && cache[item.slot].fence == item.fence
            && forall b :: 0 <= b < NUM_BUFFER_SLOTS && b != item.slot ==> cache[b] == w.cache[b]
  {
    assert NamesSlots(Pruned(w.sys.core, expected).queue);
    hide Pruned, AcquireStatus, Next;
  }

  // ---------- giving back ----------

  /** The buffers in the cache were shown under numbers that queueBuffer has issued. */
  predicate CacheNumbered(cache: Cache) {
    forall b :: 0 <= b < NUM_BUFFER_SLOTS && cache[b].buffer.Some? ==> cache[b].frame > 0
  }

  predicate ItemsNumbered(queue: seq<Item>) {
    forall i :: 0 <= i < |queue| ==> queue[i].frame > 0
  }

  predicate Numbered(w: World)
    requires WellFormed(w.sys.core)
  {
    SlotFacts(w.sys.core) && ItemsNumbered(w.sys.core.queue) && CacheNumbered(w.cache)
  }

  lemma {:induction false} DropLateNumbered(c: Core, expected: int)
    requires WellFormed(c) && ItemsNumbered(c.queue)
    ensures ItemsNumbered(DropLate(c, expected).queue)
    decreases |c.queue|
  {
    hide DroppedSlots;
    if DropsFront(c.queue, expected) {
      DropLateNumbered(DropFront(c), expected);
    }
  }

  lemma AcquireNumbered(c: Core, expected: int)
    requires WellFormed(c) && ItemsNumbered(c.queue)
    ensures ItemsNumbered(AcquireBuffer(c, expected).queue)
    ensures AcquireStatus(c, expected) == NO_ERROR ==> AcquiredItem(c, expected).frame > 0
  {
    DropLateNumbered(c, expected);
    hide DropLate, TakenSlots, AtAcquireLimit;
  }

  lemma QueueNumbered(c: Core, slot: int, input: QueueInput)
    requires WellFormed(c) && ItemsNumbered(c.queue)
    ensures ItemsNumbered(QueueBuffer(c, slot, input).queue)
  {
    hide QueueStatus, OverwrittenSlots, MarkQueued;
    if QueueStatus(c, slot, input) == NO_ERROR {
      QueueBufferItems(c, slot, input);
    }
  }

  lemma StepKeepsItemsNumbered(c: Core, op: Op)
    requires WellFormed(c) && ItemsNumbered(c.queue)
    ensures ItemsNumbered(Apply(c, op).queue)
  {
    hide WellFormed;
    if op.AcquireBufferOp? {
      AcquireNumbered(c, op.expected);
      hide AcquireBuffer;
    } else if op.QueueBufferOp? {
      QueueNumbered(c, op.slot, op.input);
      hide QueueBuffer;
    } else if op.DisconnectConsumerOp? {
      hide FreeAll;
    } else {
      OthersKeepQueue(c, op);
      hide Apply;
    }
  }

  lemma StepKeepsNumbered(w: World, step: Step, droppable: bool)
    requires WorldInv(w, droppable) && LegalStep(w, step, droppable) && Numbered(w)
    ensures Numbered(NextWorld(w, step))
  {
    var op := QueueOpOf(w, step);
    assert Inv(w.sys) && WellFormed(w.sys.core);
    StepKeepsFacts(w.sys, op);
    StepKeepsItemsNumbered(w.sys.core, op);
    hide Inv, Apply, SlotFacts, Coherent, InOrder, WellFormed, Legal;
    match step {
      case AcquireLocked(expected) => AcquireNumbered(w.sys.core, expected);
      case _ =>
    }
  }

  lemma {:induction false} RunKeepsNumbered(steps: seq<Step>, droppable: bool)
    requires LegalWorldRun(START_WORLD, steps, droppable)
    ensures Numbered(RunWorld(START_WORLD, steps))
  {
    hide WorldInv, Numbered, NextWorld, LegalStep;
    if steps == [] {
      StartNumbered();
    } else {
      RunKeepsWorld(steps[..|steps| - 1], droppable);
      RunKeepsNumbered(steps[..|steps| - 1], droppable);
      StepKeepsNumbered(RunWorld(START_WORLD, steps[..|steps| - 1]), steps[|steps| - 1], droppable);
    }
  }

  lemma StartNumbered()
    ensures Numbered(START_WORLD)
  {
    StartFacts();
  }

  /** A slot whose buffer the queue does not count as seen takes back none. */
  lemma UnseenIsRefused(c: Core, cache: Cache, b: nat)
    requires WellFormed(c) && b < NUM_BUFFER_SLOTS && SlotFacts(c) && CacheNumbered(cache)
    requires cache[b].buffer.Some? && !c.slots[b].acquireCalled
    ensures ReleaseStatus(c, b, cache[b].frame, Some(cache[b].fence)) != NO_ERROR
  {
    assert SlotFact(c.slots[b], c.frameCounter);
    hide NamesSlot;
  }

  /** On every run, a held buffer that is still in the cache is accepted back if and only if
      the queue still counts its slot's buffer as seen; and then the slot that becomes FREE is
      out with the consumer and holds that buffer and no other. */
  lemma HeldBufferIsAcceptedBackIff(steps: seq<Step>, lease: Lease, droppable: bool)
    requires LegalWorldRun(START_WORLD, steps, droppable)
    requires var w := RunWorld(START_WORLD, steps);
             lease in w.held && StillTracking(w.cache, lease.slot, lease.handle)
    ensures var w := RunWorld(START_WORLD, steps);
            var entry := w.cache[lease.slot]; var s := w.sys.core.slots[lease.slot];
            && (ReleaseStatus(w.sys.core, lease.slot, entry.frame, Some(entry.fence)) == NO_ERROR <==> s.acquireCalled)
            && (s.acquireCalled ==> s.state == ACQUIRED && HoldsHandle(s, lease.handle))
  {
    RunKeepsWorld(steps, droppable);
    RunKeepsNumbered(steps, droppable);
    var w := RunWorld(START_WORLD, steps);
    hide Corresponds, Inv, InOrder, SlotFacts, CacheNumbered, ReleaseStatus, RunWorld, LegalWorldRun;
    if w.sys.core.slots[lease.slot].acquireCalled {
      ReleaseAccepted(w.sys.core, w.cache, w.held, lease);
    } else {
      UnseenIsRefused(w.sys.core, w.cache, lease.slot);
    }
  }

  /** What a release does to the cache: the entry is emptied if the queue answers that it is
      stale, and otherwise loses its fence only; nothing is released, and nothing changes, if
      the entry no longer holds the buffer. */
  lemma ReleaseLeaves(w: World, slot: nat, handle: nat)
    requires WellFormed(w.sys.core) && slot < NUM_BUFFER_SLOTS
    ensures var v := Release(w, slot, handle); var entry := w.cache[slot]; var c := w.sys.core;
            var held := entry.buffer.Some? && entry.buffer.value.handle == handle;
            var answer := ReleaseStatus(c, slot, entry.frame, Some(entry.fence));
            && (!held ==> v.sys == w.sys && v.cache == w.cache)
            && (held ==> v.sys.core == ReleaseBuffer(c, slot, entry.frame, Some(entry.fence)))
            && (held && answer == STALE_BUFFER_SLOT ==> v.cache[slot] == CacheSlot(None, 0, NO_FENCE))
            && (held && answer != STALE_BUFFER_SLOT ==> v.cache[slot] == CacheSlot(entry.buffer, entry.frame, NO_FENCE))
            && forall b :: 0 <= b < NUM_BUFFER_SLOTS && b != slot ==> v.cache[b] == w.cache[b]
  {
    hide ReleaseStatus, ReleaseBuffer;
  }

  // ---------- attaching by the producer ----------

  /** The producer's attachBuffer does not reset the acquire flag: the cache still holds what
      the queue takes it to hold if and only if the slot found was unseen. */
  lemma AttachKeepsCacheIff(c: Core, cache: Cache, buffer: Buffer)
    requires WellFormed(c) && Corresponds(c.slots, c.queue) && SlotsCached(c.slots, cache)
    requires Fresh(c.slots, c.queue, buffer.handle) && Pass(c, false).Found?
    ensures SlotsCached(AttachByProducer(c, buffer).slots, cache) <==> !c.slots[Pass(c, false).slot].acquireCalled
  {
    var b := Pass(c, false).slot;
    var d := AttachByProducer(c, buffer);
    FoundLeavesRoom(c, false);
    TrimKeepsLow(c, false, b);
    assert d.slots[b].buffer == Some(buffer) && d.slots[b].acquireCalled == c.slots[b].acquireCalled;
    hide Corresponds, MaxBufferCount, Pass;
    assert SlotCached(c.slots[b], cache[b]) && !HoldsHandle(c.slots[b], buffer.handle);
    forall k | 0 <= k < NUM_BUFFER_SLOTS && k != b
      ensures SlotCached(d.slots[k], cache[k])
    {
      assert SlotCached(c.slots[k], cache[k]);
    }
    if c.slots[b].acquireCalled {
      assert !SlotCached(d.slots[b], cache[b]);
    }
  }

  /** And so an attached buffer that goes through an empty queue is in the cache when it is
      acquired if and only if the slot found was unseen. */
  lemma AttachedBufferIsCachedIff(c: Core, cache: Cache, buffer: Buffer, input: QueueInput, expected: int)
    requires WellFormed(c) && SlotsCached(c.slots, cache) && Fresh(c.slots, c.queue, buffer.handle)
    requires Pass(c, false).Found? && c.queue == []
    requires var d := AttachByProducer(c, buffer); var b := Pass(c, false).slot;
             && QueueStatus(d, b, input) == NO_ERROR
             && AcquireStatus(QueueBuffer(d, b, input), expected) == NO_ERROR
    ensures var b := Pass(c, false).slot;
            var item := AcquiredItem(QueueBuffer(AttachByProducer(c, buffer), b, input), expected);
            && item.slot == b && item.buffer == buffer
            && (Recorded(cache, item)[b].buffer == Some(buffer) <==> !c.slots[b].acquireCalled)
  {
    var b := Pass(c, false).slot;
    var d := AttachByProducer(c, buffer);
    FoundLeavesRoom(c, false);
    TrimKeepsLow(c, false, b);
    assert SlotCached(c.slots[b], cache[b]) && !HoldsHandle(c.slots[b], buffer.handle);
    assert d.slots[b].buffer == Some(buffer) && d.slots[b].acquireCalled == c.slots[b].acquireCalled && d.queue == [];
    hide MaxBufferCount, Pass, AttachByProducer, QueueStatus, AcquireStatus, WellFormed, SlotsCached, Fresh;
    QueuedAlone(d, b, input, expected);
  }

  /** A buffer queued into an empty queue is the one acquired. */
  lemma QueuedAlone(d: Core, b: nat, input: QueueInput, expected: int)
    requires WellFormed(d) && b < NUM_BUFFER_SLOTS && d.queue == []
    requires QueueStatus(d, b, input) == NO_ERROR && AcquireStatus(QueueBuffer(d, b, input), expected) == NO_ERROR
    ensures d.slots[b].buffer.Some? && input.fence.Some?
    ensures AcquiredItem(QueueBuffer(d, b, input), expected) == QueuedItem(d, b, input)
  {
    hide MaxBufferCount, AcquireStatus;
    assert QueueBuffer(d, b, input).queue == [QueuedItem(d, b, input)];
  }
}
