/** The correspondence between the QUEUED slots and the queue, on the slot array and the
    queue alone: what it says, and which updates keep it. */
module Correspondence {
  import opened BufferQueueTypes
  import opened BufferQueueSpec

  predicate HoldsHandle(s: Slot, h: nat) {
    s.buffer.Some? && s.buffer.value.handle == h
  }

  /** Distinct slots hold distinct buffers. */
  predicate DistinctBuffers(slots: seq<Slot>) {
    forall a, b :: 0 <= a < b < |slots| && slots[a].buffer.Some? ==>
                     !HoldsHandle(slots[b], slots[a].buffer.value.handle)
  }

  predicate DistinctItems(queue: seq<Item>) {
    forall i, j :: 0 <= i < j < |queue| ==> queue[i].buffer.handle != queue[j].buffer.handle
  }

  /** The slot is the one that the item was queued from, unchanged since. */
  predicate Matches(s: Slot, item: Item) {
    && s.state == QUEUED
    && s.buffer == Some(item.buffer)
    && s.frame == item.frame
    && s.fence == item.fence
    && s.acquireCalled == item.acquireCalled
  }

  /** A queued buffer is in no slot but its own, and there only while the slot is QUEUED. */
  predicate ItemsMatch(slots: seq<Slot>, queue: seq<Item>) {
    forall i, b :: 0 <= i < |queue| && 0 <= b < |slots| && HoldsHandle(slots[b], queue[i].buffer.handle) ==>
                     queue[i].slot == b && Matches(slots[b], queue[i])
  }

  predicate HasItem(queue: seq<Item>, b: nat, h: nat) {
    exists i :: 0 <= i < |queue| && queue[i].slot == b && queue[i].buffer.handle == h
  }

  /** Every QUEUED slot has an item that names it and holds its buffer. */
  predicate QueuedHasItem(slots: seq<Slot>, queue: seq<Item>) {
    forall b :: 0 <= b < |slots| && slots[b].state == QUEUED ==>
                  slots[b].buffer.Some? && HasItem(queue, b, slots[b].buffer.value.handle)
  }

  /** The fence has been handed over with the ownership of the buffer. */
  predicate FencePassed(s: Slot) {
    s.state == DEQUEUED || s.state == ACQUIRED ==> s.fence == NO_FENCE
  }

  predicate FencesPassed(slots: seq<Slot>) {
    forall b :: 0 <= b < |slots| ==> FencePassed(slots[b])
  }

  predicate Corresponds(slots: seq<Slot>, queue: seq<Item>) {
    && NamesSlots(queue) && |slots| == NUM_BUFFER_SLOTS
    && DistinctBuffers(slots)
    && DistinctItems(queue)
    && ItemsMatch(slots, queue)
    && QueuedHasItem(slots, queue)
    && FencesPassed(slots)
  }

  /** The handle is in no slot and in no queued item. */
  predicate Fresh(slots: seq<Slot>, queue: seq<Item>, h: nat) {
    && (forall b :: 0 <= b < |slots| ==> !HoldsHandle(slots[b], h))
    && (forall i :: 0 <= i < |queue| ==> queue[i].buffer.handle != h)
  }

  // ---------- what the correspondence says ----------

  /** A QUEUED slot has exactly one tracked item, and it carries the slot's frame number. */
  lemma QueuedSlotHasOneItem(slots: seq<Slot>, queue: seq<Item>, b: nat) returns (i: nat)
    requires Corresponds(slots, queue) && b < |slots| && slots[b].state == QUEUED
    ensures i < |queue| && queue[i].slot == b && Tracks(slots, queue[i]) && queue[i].frame == slots[b].frame
    ensures forall j :: 0 <= j < |queue| && queue[j].slot == b && Tracks(slots, queue[j]) ==> j == i
  {
    assert HasItem(queue, b, slots[b].buffer.value.handle);
    i :| 0 <= i < |queue| && queue[i].slot == b && queue[i].buffer.handle == slots[b].buffer.value.handle;
    assert Matches(slots[b], queue[i]);
    forall j | 0 <= j < |queue| && queue[j].slot == b && Tracks(slots, queue[j])
      ensures j == i
    {
      assert queue[j].buffer.handle == queue[i].buffer.handle;
    }
  }

  /** A tracked item's slot is QUEUED and unchanged since the item was queued. */
  lemma TrackedItemMatches(slots: seq<Slot>, queue: seq<Item>, i: nat)
    requires Corresponds(slots, queue) && i < |queue| && Tracks(slots, queue[i])
    ensures Matches(slots[queue[i].slot], queue[i])
  {
    assert HoldsHandle(slots[queue[i].slot], queue[i].buffer.handle);
  }

  /** An item is tracked exactly when its slot is as it was queued. */
  lemma TracksIffUnchanged(slots: seq<Slot>, queue: seq<Item>, item: Item)
    requires Corresponds(slots, queue) && item in queue
    ensures Tracks(slots, item) <==> Matches(slots[item.slot], item)
  {
    var i :| 0 <= i < |queue| && queue[i] == item;
    if Tracks(slots, item) {
      TrackedItemMatches(slots, queue, i);
    }
  }

  // ---------- which updates keep it ----------

  predicate KeepsBuffer(before: Slot, after: Slot) {
    after.buffer == before.buffer && before.state != QUEUED
  }

  predicate GetsFresh(slots: seq<Slot>, queue: seq<Item>, s: Slot) {
    s.buffer.Some? && Fresh(slots, queue, s.buffer.value.handle)
  }

  /** A slot may leave any state but QUEUED with its buffer, or any state without it. */
  lemma UpdateSlot(slots: seq<Slot>, queue: seq<Item>, b: nat, s: Slot)
    requires Corresponds(slots, queue) && b < |slots|
    requires s.state != QUEUED && FencePassed(s)
    requires s.buffer.None? || KeepsBuffer(slots[b], s) || GetsFresh(slots, queue, s)
    ensures Corresponds(slots[b := s], queue)
  {
    var after := slots[b := s];
    if KeepsBuffer(slots[b], s) && s.buffer.Some? {
      // A buffer outside the QUEUED state is in no item.
      forall i | 0 <= i < |queue|
        ensures queue[i].buffer.handle != s.buffer.value.handle
      {
        if queue[i].buffer.handle == s.buffer.value.handle {
          assert HoldsHandle(slots[b], queue[i].buffer.handle);
          assert false;
        }
      }
    }
    assert DistinctBuffers(after) by {
      forall x, y | 0 <= x < y < |after| && after[x].buffer.Some?
        ensures !HoldsHandle(after[y], after[x].buffer.value.handle)
      {
        if x == b && s.buffer.Some? && GetsFresh(slots, queue, s) {
          assert !HoldsHandle(slots[y], s.buffer.value.handle);
        } else if y == b && s.buffer.Some? && GetsFresh(slots, queue, s) {
          assert !HoldsHandle(slots[x], s.buffer.value.handle);
        } else {
          assert !HoldsHandle(slots[y], slots[x].buffer.value.handle) || y == b;
        }
      }
    }
    assert ItemsMatch(after, queue) by {
      forall i, k | 0 <= i < |queue| && 0 <= k < |after| && HoldsHandle(after[k], queue[i].buffer.handle)
        ensures queue[i].slot == k && Matches(after[k], queue[i])
      {
        if k != b {
          assert HoldsHandle(slots[k], queue[i].buffer.handle);
        }
      }
    }
  }

  /** Queueing a DEQUEUED slot, the item going anywhere into the queue. */
  lemma QueueSlot(slots: seq<Slot>, queue: seq<Item>, b: nat, s: Slot, item: Item, p: nat)
    requires Corresponds(slots, queue) && b < |slots| && p <= |queue|
    requires slots[b].state == DEQUEUED && slots[b].buffer == Some(item.buffer)
    requires item.slot == b && Matches(s, item)
    ensures Corresponds(slots[b := s], queue[..p] + [item] + queue[p..])
  {
    var after := slots[b := s];
    var q := queue[..p] + [item] + queue[p..];
    forall i | 0 <= i < |queue|
      ensures queue[i].buffer.handle != item.buffer.handle
    {
      if queue[i].buffer.handle == item.buffer.handle {
        assert HoldsHandle(slots[b], queue[i].buffer.handle);
        assert false;
      }
    }
    assert forall i :: 0 <= i < |q| ==> q[i] == if i < p then queue[i] else if i == p then item else queue[i - 1];
    assert DistinctBuffers(after) by {
      forall x, y | 0 <= x < y < |after| && after[x].buffer.Some?
        ensures !HoldsHandle(after[y], after[x].buffer.value.handle)
      {
        assert after[x].buffer == slots[x].buffer && after[y].buffer == slots[y].buffer;
        assert !HoldsHandle(slots[y], slots[x].buffer.value.handle);
      }
    }
    assert ItemsMatch(after, q) by {
      forall i, k | 0 <= i < |q| && 0 <= k < |after| && HoldsHandle(after[k], q[i].buffer.handle)
        ensures q[i].slot == k && Matches(after[k], q[i])
      {
        assert HoldsHandle(slots[k], q[i].buffer.handle);
      }
    }
    assert QueuedHasItem(after, q) by {
      forall k | 0 <= k < |after| && after[k].state == QUEUED
        ensures after[k].buffer.Some? && HasItem(q, k, after[k].buffer.value.handle)
      {
        if k == b {
          assert q[p] == item;
        } else {
          assert HasItem(queue, k, slots[k].buffer.value.handle);
          var i :| 0 <= i < |queue| && queue[i].slot == k && queue[i].buffer.handle == slots[k].buffer.value.handle;
          assert q[if i < p then i else i + 1] == queue[i];
        }
      }
    }
  }

  /** Taking the front item off the queue, its slot, if tracked, leaving the QUEUED state. */
  lemma RemoveFront(slots: seq<Slot>, queue: seq<Item>, s: Slot)
    requires Corresponds(slots, queue) && |queue| > 0
    requires Tracks(slots, queue[0]) ==>
               s.state != QUEUED && s.buffer == slots[queue[0].slot].buffer && FencePassed(s)
    ensures Corresponds(if Tracks(slots, queue[0]) then slots[queue[0].slot := s] else slots, queue[1..])
  {
    var front := queue[0];
    var after := if Tracks(slots, front) then slots[front.slot := s] else slots;
    var q := queue[1..];
    assert DistinctBuffers(after) by {
      forall x, y | 0 <= x < y < |after| && after[x].buffer.Some?
        ensures !HoldsHandle(after[y], after[x].buffer.value.handle)
      {
        assert after[x].buffer == slots[x].buffer && after[y].buffer == slots[y].buffer;
        assert !HoldsHandle(slots[y], slots[x].buffer.value.handle);
      }
    }
    assert ItemsMatch(after, q) by {
      forall i, k | 0 <= i < |q| && 0 <= k < |after| && HoldsHandle(after[k], q[i].buffer.handle)
        ensures q[i].slot == k && Matches(after[k], q[i])
      {
        assert q[i] == queue[i + 1];
        assert HoldsHandle(slots[k], queue[i + 1].buffer.handle);
        assert queue[0].buffer.handle != queue[i + 1].buffer.handle;
      }
    }
    assert QueuedHasItem(after, q) by {
      forall k | 0 <= k < |after| && after[k].state == QUEUED
        ensures after[k].buffer.Some? && HasItem(q, k, after[k].buffer.value.handle)
      {
        assert after[k] == slots[k];
        assert HasItem(queue, k, slots[k].buffer.value.handle);
        var i :| 0 <= i < |queue| && queue[i].slot == k && queue[i].buffer.handle == slots[k].buffer.value.handle;
        assert i != 0;
        assert q[i - 1] == queue[i];
      }
    }
  }

  /** Freeing any set of slots. */
  lemma FreeSlots(slots: seq<Slot>, after: seq<Slot>, queue: seq<Item>)
    requires Corresponds(slots, queue) && |after| == |slots|
    requires forall b :: 0 <= b < |slots| ==> after[b] == slots[b] || after[b] == FreedSlot(slots[b])
    ensures Corresponds(after, queue)
  {
    assert DistinctBuffers(after) by {
      forall x, y | 0 <= x < y < |after| && after[x].buffer.Some?
        ensures !HoldsHandle(after[y], after[x].buffer.value.handle)
      {
        assert !HoldsHandle(slots[y], slots[x].buffer.value.handle);
      }
    }
    assert ItemsMatch(after, queue) by {
      forall i, k | 0 <= i < |queue| && 0 <= k < |after| && HoldsHandle(after[k], queue[i].buffer.handle)
        ensures queue[i].slot == k && Matches(after[k], queue[i])
      {
        assert HoldsHandle(slots[k], queue[i].buffer.handle);
      }
    }
  }

  /** Clearing the queue when no slot is QUEUED. */
  lemma EmptyQueue(slots: seq<Slot>, queue: seq<Item>)
    requires Corresponds(slots, queue)
    requires forall b :: 0 <= b < |slots| ==> slots[b].state != QUEUED
    ensures Corresponds(slots, [])
  {
  }
}
