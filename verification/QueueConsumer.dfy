/** The consumer's side of the queue. Each method is one locked section of the source's
    method of the same name, and is proved to compute the specification's function. */
module QueueConsumer {
  import opened BufferQueueTypes
  import opened SlotScans
  import opened BufferQueueSpec
  import opened QueueCore

  class BufferQueueConsumer {
    const core: BufferQueueCore

    constructor (core: BufferQueueCore)
      ensures this.core == core
    {
      this.core := core;
    }

    method CountAcquired() returns (n: nat)
      requires core.Valid()
      ensures n == Count(core.slots[..], ACQUIRED, NUM_BUFFER_SLOTS)
    {
      n := 0;
      for s := 0 to NUM_BUFFER_SLOTS
        invariant n == Count(core.slots[..], ACQUIRED, s)
      {
        if core.slots[s].state == ACQUIRED {
          n := n + 1;
        }
      }
    }

    /** The loop that drops late items. */
    method DropLateItems(expectedPresent: int)
      requires core.Valid() && core.queue != []
      modifies core`queue, core.slots
      ensures core.Valid() && core.Model() == DropLate(old(core.Model()), expectedPresent)
    {
      while |core.queue| > 1 && !core.queue[0].isAuto
        invariant core.Valid() && core.queue != []
        invariant DropLate(core.Model(), expectedPresent) == DropLate(old(core.Model()), expectedPresent)
        decreases |core.queue|
      {
        var desiredPresent := core.queue[1].timestamp;
        if desiredPresent < expectedPresent - MAX_REASONABLE_NSEC || desiredPresent > expectedPresent {
          break;
        }
        DropFrontItem();
      }
    }

    method DropFrontItem()
      requires core.Valid() && core.queue != []
      modifies core`queue, core.slots
      ensures core.Valid() && core.Model() == DropFront(old(core.Model()))
    {
      var front := core.queue[0];
      if core.StillTracking(front) {
        core.slots[front.slot] := core.slots[front.slot].(state := FREE);
      }
      core.queue := core.queue[1..];
    }

    /** On success, the item at the front, less its buffer if the consumer has seen it. */
    method AcquireBuffer(expectedPresent: int) returns (status: Status, item: Option<Item>, sent: Option<Buffer>)
      requires core.Valid()
      modifies core, core.slots
      ensures core.Valid() && core.Model() == BufferQueueSpec.AcquireBuffer(old(core.Model()), expectedPresent)
      ensures status == AcquireStatus(old(core.Model()), expectedPresent)
      ensures status == NO_ERROR ==>
                var front := Pruned(old(core.Model()), expectedPresent).queue[0];
                item == Some(front) && sent == SentBuffer(front)
    {
      hide DropLate, Deferred, Count;
      item, sent := None, None;
      var numAcquiredBuffers := CountAcquired();
      if numAcquiredBuffers >= core.maxAcquiredBufferCount + 1 {
        return INVALID_OPERATION, None, None;
      }
      if core.queue == [] {
        return NO_BUFFER_AVAILABLE, None, None;
      }
      if expectedPresent != 0 {
        DropLateItems(expectedPresent);
        if IsDeferred(core.queue[0].timestamp, expectedPresent) {
          return PRESENT_LATER, None, None;
        }
      }
      item := Some(core.queue[0]);
      sent := TakeFrontItem();
      status := NO_ERROR;
    }

    function IsDeferred(desiredPresent: int, expectedPresent: int): (r: bool)
      ensures r == Deferred(desiredPresent, expectedPresent)
    {
      desiredPresent > expectedPresent && desiredPresent < expectedPresent + MAX_REASONABLE_NSEC
    }

    method TakeFrontItem() returns (sent: Option<Buffer>)
      requires core.Valid() && core.queue != []
      modifies core`queue, core`dequeueBroadcasts, core.slots
      ensures core.Valid() && core.Model() == TakeFront(old(core.Model()))
      ensures sent == SentBuffer(old(core.queue[0]))
    {
      var front := core.queue[0];
      if core.StillTracking(front) {
        MarkAcquired(front.slot);
      }
      sent := Some(front.buffer);
      if front.acquireCalled {
        sent := None;
      }
      core.queue := core.queue[1..];
      core.BroadcastDequeueCondition();
    }

    method MarkAcquired(slot: nat)
      requires slot < core.slots.Length
      modifies core.slots
      ensures core.slots[..] == old(core.slots[..])[slot := AcquiredSlot(old(core.slots[slot]))]
    {
      core.slots[slot] := core.slots[slot].(acquireCalled := true);
      core.slots[slot] := core.slots[slot].(needsCleanup := false);
      core.slots[slot] := core.slots[slot].(state := ACQUIRED);
      core.slots[slot] := core.slots[slot].(fence := NO_FENCE);
    }

    method DetachBuffer(slot: int) returns (status: Status)
      requires core.Valid()
      modifies core, core.slots
      ensures core.Valid() && core.Model() == DetachByConsumer(old(core.Model()), slot)
      ensures var c := old(core.Model());
              status == if c.abandoned then NO_INIT
                        else if 0 <= slot < NUM_BUFFER_SLOTS && c.slots[slot].state == ACQUIRED then NO_ERROR
                        else BAD_VALUE
    {
      if core.isAbandoned {
        return NO_INIT;
      }
      if slot < 0 || slot >= NUM_BUFFER_SLOTS {
        return BAD_VALUE;
      } else if core.slots[slot].state != ACQUIRED {
        return BAD_VALUE;
      }
      core.FreeBuffer(slot);
      core.BroadcastDequeueCondition();
      status := NO_ERROR;
    }

    method AttachBuffer(buffer: Buffer) returns (status: Status, slot: int)
      requires core.Valid()
      modifies core.slots
      ensures core.Valid() && core.Model() == AttachByConsumer(old(core.Model()), buffer)
      ensures status == AttachByConsumerStatus(old(core.Model()))
      ensures slot == if status == NO_ERROR then Oldest(old(core.slots[..]), NUM_BUFFER_SLOTS, false)
                      else INVALID_BUFFER_SLOT
    {
      var numAcquiredBuffers := 0;
      var found := INVALID_BUFFER_SLOT;
      for s := 0 to NUM_BUFFER_SLOTS
        invariant numAcquiredBuffers == Count(core.slots[..], ACQUIRED, s)
        invariant found == Oldest(core.slots[..], s, false)
        invariant core.slots[..] == old(core.slots[..])
      {
        if core.slots[s].state == ACQUIRED {
          numAcquiredBuffers := numAcquiredBuffers + 1;
        } else if core.slots[s].state == FREE {
          if found == INVALID_BUFFER_SLOT || core.slots[s].frame < core.slots[found].frame {
            found := s;
          }
        }
      }
      if numAcquiredBuffers >= core.maxAcquiredBufferCount + 1 {
        return INVALID_OPERATION, INVALID_BUFFER_SLOT;
      }
      if found == INVALID_BUFFER_SLOT {
        return NO_MEMORY, INVALID_BUFFER_SLOT;
      }
      slot := found;
      core.slots[slot] := core.slots[slot].(buffer := Some(buffer), state := ACQUIRED);
      core.slots[slot] := core.slots[slot].(attachedByConsumer := true, needsCleanup := false);
      core.slots[slot] := core.slots[slot].(fence := NO_FENCE, frame := 0);
      core.slots[slot] := core.slots[slot].(acquireCalled := false);
      status := NO_ERROR;
    }

    method IsQueued(slot: nat) returns (queued: bool)
      requires core.Valid()
      ensures queued == NamesSlot(core.queue, slot)
    {
      for current := 0 to |core.queue|
        invariant forall i :: 0 <= i < current ==> core.queue[i].slot != slot
      {
        if core.queue[current].slot == slot {
          return true;
        }
      }
      queued := false;
    }

    /** `notify` tells whether the producer's listener is called. */
    method ReleaseBuffer(slot: int, frameNumber: nat, releaseFence: Option<Fence>)
      returns (status: Status, notify: bool)
      requires core.Valid()
      modifies core, core.slots
      ensures core.Valid()
      ensures core.Model() == BufferQueueSpec.ReleaseBuffer(old(core.Model()), slot, frameNumber, releaseFence)
      ensures status == ReleaseStatus(old(core.Model()), slot, frameNumber, releaseFence)
      ensures notify == (status == NO_ERROR && core.hasProducerListener)
    {
      if slot < 0 || slot >= NUM_BUFFER_SLOTS || releaseFence.None? {
        return BAD_VALUE, false;
      }
      if frameNumber != core.slots[slot].frame {
        return STALE_BUFFER_SLOT, false;
      }
      hide NamesSlot, ReleasedSlot;
      var queued := IsQueued(slot);
      if queued {
        return BAD_VALUE, false;
      }
      if core.slots[slot].state == ACQUIRED {
        MarkReleased(slot, releaseFence.value);
        notify := core.hasProducerListener;
      } else if core.slots[slot].needsCleanup {
        core.slots[slot] := core.slots[slot].(needsCleanup := false);
        return STALE_BUFFER_SLOT, false;
      } else {
        return BAD_VALUE, false;
      }
      core.BroadcastDequeueCondition();
      status := NO_ERROR;
    }

    method MarkReleased(slot: nat, fence: Fence)
      requires slot < core.slots.Length
      modifies core.slots
      ensures core.slots[..] == old(core.slots[..])[slot := ReleasedSlot(old(core.slots[slot]), fence)]
    {
      core.slots[slot] := core.slots[slot].(fence := fence);
      core.slots[slot] := core.slots[slot].(state := FREE);
    }

    method Connect(controlledByApp: bool) returns (status: Status)
      requires core.Valid()
      modifies core
      ensures core.Valid() && core.Model() == ConnectConsumer(old(core.Model()), controlledByApp)
      ensures status == if core.isAbandoned then NO_INIT else NO_ERROR
    {
      if core.isAbandoned {
        return NO_INIT;
      }
      core.hasConsumerListener := true;
      core.consumerControlledByApp := controlledByApp;
      status := NO_ERROR;
    }

    method Disconnect() returns (status: Status)
      requires core.Valid()
      modifies core, core.slots
      ensures core.Valid() && core.Model() == DisconnectConsumer(old(core.Model()))
      ensures status == if old(core.hasConsumerListener) then NO_ERROR else BAD_VALUE
    {
      if !core.hasConsumerListener {
        return BAD_VALUE;
      }
      core.isAbandoned := true;
      core.hasConsumerListener := false;
      core.queue := [];
      core.FreeAllBuffers();
      core.BroadcastDequeueCondition();
      status := NO_ERROR;
    }

    /** The mask, as the set of its one bits. */
    method GetReleasedBuffers() returns (status: Status, mask: set<nat>)
      requires core.Valid()
      ensures mask == ReleasedSlots(core.Model())
      ensures status == if core.isAbandoned then NO_INIT else NO_ERROR
    {
      if core.isAbandoned {
        return NO_INIT, {};
      }
      mask := {};
      for s := 0 to NUM_BUFFER_SLOTS
        invariant mask == set b: nat | b < s && !core.slots[b].acquireCalled
      {
        if !core.slots[s].acquireCalled {
          mask := mask + {s};
        }
      }
      ghost var all := mask;
      for current := 0 to |core.queue|
        invariant forall b :: b in mask <==>
                              && b in all
                              && !exists i :: 0 <= i < current && core.queue[i].slot == b && core.queue[i].acquireCalled
      {
        if core.queue[current].acquireCalled {
          mask := mask - {core.queue[current].slot};
        }
      }
      status := NO_ERROR;
    }

    method SetDefaultMaxBufferCount(bufferCount: int) returns (status: Status)
      requires core.Valid()
      modifies core
      ensures core.Valid() && core.Model() == SetDefaultMax(old(core.Model()), bufferCount)
    {
      status := core.SetDefaultMaxBufferCount(bufferCount);
    }

    method DisableAsyncBuffer() returns (status: Status)
      requires core.Valid()
      modifies core
      ensures core.Valid() && core.Model() == BufferQueueSpec.DisableAsyncBuffer(old(core.Model()))
      ensures status == if core.hasConsumerListener then INVALID_OPERATION else NO_ERROR
    {
      if core.hasConsumerListener {
        return INVALID_OPERATION;
      }
      core.useAsyncBuffer := false;
      status := NO_ERROR;
    }

    method SetMaxAcquiredBufferCount(maxAcquiredBuffers: int) returns (status: Status)
      requires core.Valid()
      modifies core
      ensures core.Valid() && core.Model() == SetMaxAcquired(old(core.Model()), maxAcquiredBuffers)
      ensures status == if !(1 <= maxAcquiredBuffers <= MAX_MAX_ACQUIRED_BUFFERS) then BAD_VALUE
                        else if core.connectedApi != NO_CONNECTED_API then INVALID_OPERATION else NO_ERROR
    {
      if maxAcquiredBuffers < 1 || maxAcquiredBuffers > MAX_MAX_ACQUIRED_BUFFERS {
        return BAD_VALUE;
      }
      if core.connectedApi != NO_CONNECTED_API {
        return INVALID_OPERATION;
      }
      core.maxAcquiredBufferCount := maxAcquiredBuffers;
      status := NO_ERROR;
    }
  }
}
