/** The consumer base class, which keeps the cache of slot buffers. */
module ConsumerBase {
  import opened BufferQueueTypes
  import opened BufferQueueSpec
  import opened ConsumerCache
  import opened QueueConsumer

  class ConsumerBase {
    const consumer: BufferQueueConsumer
    const slots: array<CacheSlot>
    var abandoned: bool

    /** Connects to the queue, which an abandoned one refuses. */
    constructor (consumer: BufferQueueConsumer, controlledByApp: bool)
      requires consumer.core.Valid()
      modifies consumer.core
      ensures this.consumer == consumer && fresh(slots) && Valid() && slots[..] == EmptyCache() && !abandoned
      ensures consumer.core.Model() == ConnectConsumer(old(consumer.core.Model()), controlledByApp)
    {
      this.consumer := consumer;
      slots := new CacheSlot[NUM_BUFFER_SLOTS](_ => EMPTY_CACHE_SLOT);
      abandoned := false;
      new;
      var _ := consumer.Connect(controlledByApp);
    }

    ghost predicate Valid()
      reads this, slots, consumer.core, consumer.core.slots
    {
      slots.Length == NUM_BUFFER_SLOTS && consumer.core.Valid()
    }

    method FreeBuffer(s: nat)
      requires s < slots.Length
      modifies slots
      ensures slots[..] == old(slots[..])[s := EMPTY_CACHE_SLOT]
    {
      slots[s] := slots[s].(buffer := None);
      slots[s] := slots[s].(fence := NO_FENCE);
      slots[s] := slots[s].(frame := 0);
    }

    method OnBuffersReleased()
      requires Valid()
      modifies slots
      ensures Valid() && consumer.core.Model() == old(consumer.core.Model())
      ensures slots[..] == if abandoned then old(slots[..])
                           else Forgotten(old(slots[..]), ReleasedSlots(old(consumer.core.Model())))
    {
      if abandoned {
        return;
      }
      var _, mask := consumer.GetReleasedBuffers();
      for i := 0 to NUM_BUFFER_SLOTS
        invariant forall b :: 0 <= b < NUM_BUFFER_SLOTS ==>
                                slots[b] == if b < i && b in mask then EMPTY_CACHE_SLOT else old(slots[b])
      {
        if i in mask {
          FreeBuffer(i);
        }
      }
    }

    method AbandonLocked()
      requires Valid()
      modifies this, slots, consumer.core, consumer.core.slots
      ensures Valid() && abandoned
      ensures slots[..] == if old(abandoned) then old(slots[..]) else EmptyCache()
      ensures consumer.core.Model()
              == if old(abandoned) then old(consumer.core.Model()) else DisconnectConsumer(old(consumer.core.Model()))
    {
      if abandoned {
        return;
      }
      for i := 0 to NUM_BUFFER_SLOTS
        invariant forall b :: 0 <= b < i ==> slots[b] == EMPTY_CACHE_SLOT
        invariant consumer.core.Model() == old(consumer.core.Model())
      {
        FreeBuffer(i);
      }
      var _ := consumer.Disconnect();
      abandoned := true;
    }

    method AcquireBufferLocked(presentWhen: int) returns (status: Status, item: Option<Item>)
      requires Valid() && !abandoned
      modifies slots, consumer.core, consumer.core.slots
      ensures Valid() && consumer.core.Model() == AcquireBuffer(old(consumer.core.Model()), presentWhen)
      ensures status == AcquireStatus(old(consumer.core.Model()), presentWhen)
      ensures if status == NO_ERROR
              then && item == Some(AcquiredItem(old(consumer.core.Model()), presentWhen))
                   && item.value.slot < NUM_BUFFER_SLOTS
                   && slots[..] == Recorded(old(slots[..]), item.value)
              else item == None && slots[..] == old(slots[..])
    {
      hide AcquireBuffer, AcquireStatus, Pruned;
      var sent;
      status, item, sent := consumer.AcquireBuffer(presentWhen);
      if status != NO_ERROR {
        return status, None;
      }
      AcquiredInRange(old(consumer.core.Model()), presentWhen);
      var b := item.value.slot;
      if sent.Some? {
        slots[b] := slots[b].(buffer := sent);
      }
      slots[b] := slots[b].(frame := item.value.frame);
      slots[b] := slots[b].(fence := item.value.fence);
    }

    method ReleaseBufferLocked(slot: int, handle: nat) returns (status: Status)
      requires Valid() && !abandoned
      modifies slots, consumer.core, consumer.core.slots
      ensures Valid()
      ensures if StillTracking(old(slots[..]), slot, handle)
              then var entry := old(slots[..])[slot]; var c := old(consumer.core.Model());
                   && status == ReleaseStatus(c, slot, entry.frame, Some(entry.fence))
                   && consumer.core.Model() == ReleaseBuffer(c, slot, entry.frame, Some(entry.fence))
                   && slots[..] == AfterRelease(old(slots[..]), slot, status)
              else && status == NO_ERROR && consumer.core.Model() == old(consumer.core.Model())
                   && slots[..] == old(slots[..])
    {
      hide ReleaseBuffer, ReleaseStatus;
      var tracking := Tracking(slot, handle);
      if !tracking {
        return NO_ERROR;
      }
      var notified;
      status, notified := consumer.ReleaseBuffer(slot, slots[slot].frame, Some(slots[slot].fence));
      if status == STALE_BUFFER_SLOT {
        FreeBuffer(slot);
      }
      slots[slot] := slots[slot].(fence := NO_FENCE);
    }

    function Tracking(slot: int, handle: nat): (r: bool)
      requires slots.Length == NUM_BUFFER_SLOTS
      reads this, slots
      ensures r == StillTracking(slots[..], slot, handle)
    {
      if slot < 0 || slot >= NUM_BUFFER_SLOTS then false
      else slots[slot].buffer.Some? && slots[slot].buffer.value.handle == handle
    }
  }

  lemma AcquiredInRange(c: Core, expected: int)
    requires WellFormed(c) && AcquireStatus(c, expected) == NO_ERROR
    ensures AcquiredItem(c, expected).slot < NUM_BUFFER_SLOTS
  {
    assert NamesSlots(Pruned(c, expected).queue);
  }
}
