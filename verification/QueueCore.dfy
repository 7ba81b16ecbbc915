/** The state that the producer and the consumer share, as the object that both update. */
module QueueCore {
  import opened BufferQueueTypes
  import opened SlotScans
  import opened BufferQueueSpec
  import opened Correspondence

  class BufferQueueCore {
    var isAbandoned: bool
    var hasConsumerListener: bool
    var consumerControlledByApp: bool
    var connectedApi: int
    var hasProducerListener: bool
    const slots: array<Slot>
    var queue: seq<Item>
    var overrideMaxBufferCount: int
    var useAsyncBuffer: bool
    var dequeueBufferCannotBlock: bool
    var defaultMaxBufferCount: int
    var maxAcquiredBufferCount: int
    var bufferHasBeenQueued: bool
    var frameCounter: nat
    var isAllocating: bool
    var defaultWidth: nat
    var defaultHeight: nat
    var defaultBufferFormat: nat
    var consumerUsageBits: Usage
    var dequeueBroadcasts: nat

    ghost function Model(): Core
      reads this, slots
    {
      Core(isAbandoned, hasConsumerListener, consumerControlledByApp, connectedApi, hasProducerListener,
           slots[..], queue, overrideMaxBufferCount, useAsyncBuffer, dequeueBufferCannotBlock,
           defaultMaxBufferCount, maxAcquiredBufferCount, bufferHasBeenQueued, frameCounter, isAllocating,
           defaultWidth, defaultHeight, defaultBufferFormat, consumerUsageBits, dequeueBroadcasts)
    }

    ghost predicate Valid()
      reads this, slots
    {
      WellFormed(Model())
    }

    constructor ()
      ensures Valid() && fresh(slots) && Model() == NewCore()
    {
      isAbandoned, hasConsumerListener, consumerControlledByApp := false, false, false;
      connectedApi, hasProducerListener := NO_CONNECTED_API, false;
      slots := new Slot[NUM_BUFFER_SLOTS](_ => NEW_SLOT);
      queue := [];
      overrideMaxBufferCount, useAsyncBuffer, dequeueBufferCannotBlock := 0, true, false;
      defaultMaxBufferCount, maxAcquiredBufferCount := 2, 1;
      bufferHasBeenQueued, frameCounter, isAllocating := false, 0, false;
      defaultWidth, defaultHeight, defaultBufferFormat, consumerUsageBits := 1, 1, 1, {};
      dequeueBroadcasts := 0;
    }

    method BroadcastDequeueCondition()
      requires Valid()
      modifies this`dequeueBroadcasts
      ensures Valid() && Model() == Broadcast(old(Model()))
    {
      dequeueBroadcasts := dequeueBroadcasts + 1;
    }

    function GetMinUndequeuedBufferCount(isAsync: bool): (n: int)
      reads this, slots
      ensures n == MinUndequeued(Model(), isAsync)
    {
      if !useAsyncBuffer then maxAcquiredBufferCount
      else if dequeueBufferCannotBlock || isAsync then maxAcquiredBufferCount + 1
      else maxAcquiredBufferCount
    }

    function GetMinMaxBufferCount(isAsync: bool): int
      reads this, slots
    {
      GetMinUndequeuedBufferCount(isAsync) + 1
    }

    /** The scan runs upwards, the limit being that of the slots seen so far. */
    method GetMaxBufferCount(isAsync: bool) returns (max: nat)
      requires Valid()
      ensures max == MaxBufferCount(Model(), isAsync)
    {
      var minMax := GetMinMaxBufferCount(isAsync);
      max := if defaultMaxBufferCount > minMax then defaultMaxBufferCount else minMax;
      if overrideMaxBufferCount != 0 {
        max := overrideMaxBufferCount;
      }
      var base := max;
      for s := max to NUM_BUFFER_SLOTS
        invariant max == InUseEnd(slots[..], base, s)
      {
        if slots[s].state == QUEUED || slots[s].state == DEQUEUED {
          max := s + 1;
        }
      }
    }

    method SetDefaultMaxBufferCount(count: int) returns (status: Status)
      requires Valid()
      modifies this`defaultMaxBufferCount, this`dequeueBroadcasts
      ensures Valid() && Model() == SetDefaultMax(old(Model()), count)
      ensures status == if (if useAsyncBuffer then 2 else 1) <= count <= NUM_BUFFER_SLOTS then NO_ERROR else BAD_VALUE
    {
      var minBufferCount := if useAsyncBuffer then 2 else 1;
      if count < minBufferCount || count > NUM_BUFFER_SLOTS {
        return BAD_VALUE;
      }
      defaultMaxBufferCount := count;
      BroadcastDequeueCondition();
      status := NO_ERROR;
    }

    method FreeBuffer(s: nat)
      requires s < slots.Length
      modifies slots
      ensures slots[..] == old(slots[..])[s := FreedSlot(old(slots[s]))]
    {
      slots[s] := slots[s].(buffer := None);
      if slots[s].state == ACQUIRED {
        slots[s] := slots[s].(needsCleanup := true);
      }
      slots[s] := slots[s].(state := FREE, frame := FREED_FRAME, acquireCalled := false);
      slots[s] := slots[s].(fence := NO_FENCE);
    }

    method FreeAllBuffers()
      requires Valid()
      modifies this`bufferHasBeenQueued, slots
      ensures Valid() && Model() == FreeAll(old(Model()))
    {
      bufferHasBeenQueued := false;
      for s := 0 to NUM_BUFFER_SLOTS
        invariant !bufferHasBeenQueued
        invariant forall b :: 0 <= b < s ==> slots[b] == FreedSlot(old(slots[b]))
        invariant forall b :: s <= b < NUM_BUFFER_SLOTS ==> slots[b] == old(slots[b])
      {
        FreeBuffer(s);
      }
      assert slots[..] == AllFreed(old(slots[..]));
    }

    /** For an item of the queue, whether its slot is unchanged since it was queued. */
    function StillTracking(item: Item): (t: bool)
      requires item.slot < slots.Length
      reads this, slots
      ensures t == Tracks(slots[..], item)
      ensures Corresponds(slots[..], queue) && item in queue ==> (t <==> Matches(slots[item.slot], item))
    {
      TrackingMeans(item);
      var slot := slots[item.slot];
      slot.buffer.Some? && item.buffer.handle == slot.buffer.value.handle
    }

    lemma TrackingMeans(item: Item)
      requires item.slot < slots.Length
      ensures Corresponds(slots[..], queue) && item in queue ==>
                (Tracks(slots[..], item) <==> Matches(slots[item.slot], item))
    {
      if Corresponds(slots[..], queue) && item in queue {
        TracksIffUnchanged(slots[..], queue, item);
      }
    }
  }
}
