/** The producer's side of the queue. Each method is one locked section of the source's
    method of the same name, and is proved to compute the specification's function. */
module QueueProducer {
  import opened BufferQueueTypes
  import opened SlotScans
  import opened BufferQueueSpec
  import opened PreAllocation
  import opened QueueCore

  class BufferQueueProducer {
    const core: BufferQueueCore

    constructor (core: BufferQueueCore)
      ensures this.core == core
    {
      this.core := core;
    }

    method RequestBuffer(slot: int) returns (status: Status, buffer: Option<Buffer>)
      requires core.Valid()
      modifies core.slots
      ensures core.Valid() && core.Model() == BufferQueueSpec.RequestBuffer(old(core.Model()), slot)
      ensures var c := old(core.Model());
              status == if c.abandoned then NO_INIT else if OwnedByProducer(c, slot) then NO_ERROR else BAD_VALUE
      ensures buffer == if status == NO_ERROR then core.slots[slot].buffer else None
    {
      buffer := None;
      if core.isAbandoned {
        return NO_INIT, None;
      }
      if slot < 0 || slot >= NUM_BUFFER_SLOTS {
        return BAD_VALUE, None;
      } else if core.slots[slot].state != DEQUEUED {
        return BAD_VALUE, None;
      }
      core.slots[slot] := core.slots[slot].(requestCalled := true);
      return NO_ERROR, core.slots[slot].buffer;
    }

    /** `notify` tells whether the consumer's listener is told of released buffers. */
    method SetBufferCount(bufferCount: int) returns (status: Status, notify: bool)
      requires core.Valid()
      modifies core, core.slots
      ensures core.Valid() && core.Model() == BufferQueueSpec.SetBufferCount(old(core.Model()), bufferCount)
      ensures status == SetBufferCountStatus(old(core.Model()), bufferCount)
      ensures notify == (status == NO_ERROR && bufferCount != 0 && core.hasConsumerListener)
    {
      if core.isAbandoned {
        return NO_INIT, false;
      }
      if bufferCount > NUM_BUFFER_SLOTS {
        return BAD_VALUE, false;
      }
      for s := 0 to NUM_BUFFER_SLOTS
        invariant Count(core.slots[..], DEQUEUED, s) == 0
        invariant core.Model() == old(core.Model())
      {
        if core.slots[s].state == DEQUEUED {
          CountPrefix(core.slots[..], DEQUEUED, s + 1, NUM_BUFFER_SLOTS);
          return BAD_VALUE, false;
        }
      }
      if bufferCount == 0 {
        core.overrideMaxBufferCount := 0;
        core.BroadcastDequeueCondition();
        return NO_ERROR, false;
      }
      if bufferCount < core.GetMinMaxBufferCount(false) {
        return BAD_VALUE, false;
      }
      core.FreeAllBuffers();
      core.overrideMaxBufferCount := bufferCount;
      core.BroadcastDequeueCondition();
      return NO_ERROR, core.hasConsumerListener;
    }

    /** Frees the buffers in slots beyond the limit; `freed` tells whether there are any. */
    method TrimSlots(maxBufferCount: nat) returns (freed: bool)
      requires core.Valid() && maxBufferCount <= NUM_BUFFER_SLOTS
      modifies core.slots
      ensures core.slots[..] == TrimmedSlots(old(core.slots[..]), maxBufferCount)
      ensures freed == BuffersFrom(old(core.slots[..]), maxBufferCount)
    {
      freed := false;
      for s := maxBufferCount to NUM_BUFFER_SLOTS
        invariant forall b :: 0 <= b < NUM_BUFFER_SLOTS ==>
                                core.slots[b] == if b < s then TrimmedSlots(old(core.slots[..]), maxBufferCount)[b]
                                                 else old(core.slots[b])
        invariant freed == exists b :: maxBufferCount <= b < s && old(core.slots[..])[b].buffer.Some?
      {
        if core.slots[s].buffer.Some? {
          core.FreeBuffer(s);
          freed := true;
        }
      }
    }

    /** One pass of the loop in waitForFreeSlotThenRelock; Wait means that the caller waits
        for the dequeue condition and then makes another pass. `releaseAll` is the flag that
        tells the producer to drop its cached buffers; `earlier` is what the call's earlier
        passes have made of it. */
    method FreeSlotPass(isAsync: bool, earlier: bool) returns (result: PassResult, releaseAll: bool)
      requires core.Valid()
      modifies core.slots
      ensures core.Valid() && core.Model() == Trim(old(core.Model()), isAsync)
      ensures result == Pass(old(core.Model()), isAsync)
      ensures releaseAll == (earlier || ReleasesAll(old(core.Model()), isAsync))
    {
      hide MaxBufferCount, Oldest, Count, TrimmedSlots, BuffersFrom;
      releaseAll := earlier;
      if core.isAbandoned {
        return Fail(NO_INIT), releaseAll;
      }
      var maxBufferCount: int := core.GetMaxBufferCount(isAsync);
      if isAsync && core.overrideMaxBufferCount != 0 {
        if core.overrideMaxBufferCount < maxBufferCount {
          return Fail(BAD_VALUE), releaseAll;
        }
      }
      var freed := TrimSlots(maxBufferCount);
      releaseAll := releaseAll || freed;
      var found, dequeuedCount, acquiredCount := ScanSlots(maxBufferCount);
      ScansBelow(old(core.slots[..]), maxBufferCount);
      if core.overrideMaxBufferCount == 0 && dequeuedCount != 0 {
        return Fail(INVALID_OPERATION), releaseAll;
      }
      if core.bufferHasBeenQueued {
        var newUndequeuedCount := maxBufferCount - (dequeuedCount + 1);
        var minUndequeuedCount := core.GetMinUndequeuedBufferCount(isAsync);
        if newUndequeuedCount < minUndequeuedCount {
          return Fail(INVALID_OPERATION), releaseAll;
        }
      }
      var tooManyBuffers := |core.queue| > maxBufferCount;
      var tryAgain := found == INVALID_BUFFER_SLOT || tooManyBuffers;
      if tryAgain {
        if core.dequeueBufferCannotBlock && acquiredCount <= core.maxAcquiredBufferCount {
          return Fail(WOULD_BLOCK), releaseAll;
        }
        return Wait, releaseAll;
      }
      result := Found(found);
    }

    method ScanSlots(maxBufferCount: nat) returns (found: int, dequeuedCount: int, acquiredCount: int)
      requires maxBufferCount <= core.slots.Length
      ensures found == Oldest(core.slots[..], maxBufferCount, false)
      ensures dequeuedCount == Count(core.slots[..], DEQUEUED, maxBufferCount)
      ensures acquiredCount == Count(core.slots[..], ACQUIRED, maxBufferCount)
    {
      found, dequeuedCount, acquiredCount := INVALID_BUFFER_SLOT, 0, 0;
      for s := 0 to maxBufferCount
        invariant found == Oldest(core.slots[..], s, false)
        invariant dequeuedCount == Count(core.slots[..], DEQUEUED, s)
        invariant acquiredCount == Count(core.slots[..], ACQUIRED, s)
      {
        match core.slots[s].state {
          case DEQUEUED => dequeuedCount := dequeuedCount + 1;
          case ACQUIRED => acquiredCount := acquiredCount + 1;
          case FREE =>
            if found == INVALID_BUFFER_SLOT || core.slots[s].frame < core.slots[found].frame {
              found := s;
            }
          case QUEUED =>
        }
      }
    }

    /** The first locked section of dequeueBuffer, up to the end of one pass. If the pass
        finds a slot whose buffer does not suit, `allocate` says what to allocate for it. The
        flags tell the producer to drop its cached buffers: all of them, or the slot's. */
    method BeginDequeueBuffer(isAsync: bool, req: Request, earlier: bool)
      returns (result: PassResult, fence: Fence, allocate: Option<Request>, releaseAll: bool, reallocated: bool)
      requires core.Valid()
      modifies core.slots
      ensures core.Valid() && core.Model() == BeginDequeue(old(core.Model()), isAsync, req)
      ensures result == if BadSize(req) then Fail(BAD_VALUE) else Pass(old(core.Model()), isAsync)
      ensures allocate == if BeginsAllocation(old(core.Model()), isAsync, req)
                          then Some(Resolve(old(core.Model()), req))
                          else None
      ensures fence == if result.Found? && allocate.None? then old(core.slots[result.slot].fence) else NO_FENCE
      ensures releaseAll == (earlier || (!BadSize(req) && ReleasesAll(old(core.Model()), isAsync)))
      ensures reallocated == (result.Found? && (allocate.Some? || old(core.slots[result.slot].attachedByConsumer)))
    {
      hide Oldest, Count, Suits, DequeuedSlot, BuffersFrom;
      fence, allocate, releaseAll, reallocated := NO_FENCE, None, earlier, false;
      if (req.width != 0 && req.height == 0) || (req.width == 0 && req.height != 0) {
        return Fail(BAD_VALUE), NO_FENCE, None, earlier, false;
      }
      var format := if req.format == 0 then core.defaultBufferFormat else req.format;
      var usage := req.usage + core.consumerUsageBits;
      result, releaseAll := FreeSlotPass(isAsync, earlier);
      if !result.Found? {
        return;
      }
      var attachedByConsumer := core.slots[result.slot].attachedByConsumer;
      var settled := Request(req.width, req.height, format, usage);
      if req.width == 0 && req.height == 0 {
        settled := settled.(width := core.defaultWidth, height := core.defaultHeight);
      }
      fence, allocate := TakeSlot(result.slot, settled);
      reallocated := allocate.Some? || attachedByConsumer;
    }

    /** Marks the slot found, without its buffer if that does not suit. */
    method TakeSlot(found: nat, req: Request) returns (fence: Fence, allocate: Option<Request>)
      requires found < core.slots.Length
      modifies core.slots
      ensures core.slots[..] == old(core.slots[..])[found := DequeuedSlot(old(core.slots[found]), req)]
      ensures if Suits(old(core.slots[found]).buffer, req)
              then allocate == None && fence == old(core.slots[found]).fence
              else allocate == Some(req) && fence == NO_FENCE
    {
      core.slots[found] := core.slots[found].(state := DEQUEUED);
      var buffer := core.slots[found].buffer;
      allocate := None;
      if buffer.None? || buffer.value.width != req.width || buffer.value.height != req.height
         || buffer.value.format != req.format || !(req.usage <= buffer.value.usage) {
        core.slots[found] := core.slots[found].(acquireCalled := false);
        core.slots[found] := core.slots[found].(buffer := None);
        core.slots[found] := core.slots[found].(requestCalled := false);
        core.slots[found] := core.slots[found].(fence := NO_FENCE);
        allocate := Some(req);
      }
      fence := core.slots[found].fence;
      core.slots[found] := core.slots[found].(fence := NO_FENCE);
    }

    /** The second locked section of dequeueBuffer. */
    method FinishDequeueBuffer(slot: nat, buffer: Buffer) returns (status: Status)
      requires core.Valid() && slot < NUM_BUFFER_SLOTS
      modifies core.slots
      ensures core.Valid() && core.Model() == FinishDequeue(old(core.Model()), slot, buffer)
      ensures status == if core.isAbandoned then NO_INIT else NO_ERROR
    {
      if core.isAbandoned {
        return NO_INIT;
      }
      core.slots[slot] := core.slots[slot].(frame := FREED_FRAME);
      core.slots[slot] := core.slots[slot].(buffer := Some(buffer));
      status := NO_ERROR;
    }

    method DetachBuffer(slot: int) returns (status: Status)
      requires core.Valid()
      modifies core, core.slots
      ensures core.Valid() && core.Model() == DetachByProducer(old(core.Model()), slot)
      ensures var c := old(core.Model());
              status == if c.abandoned then NO_INIT
                        else if OwnedByProducer(c, slot) && c.slots[slot].requestCalled then NO_ERROR
                        else BAD_VALUE
    {
      if core.isAbandoned {
        return NO_INIT;
      }
      if slot < 0 || slot >= NUM_BUFFER_SLOTS {
        return BAD_VALUE;
      } else if core.slots[slot].state != DEQUEUED {
        return BAD_VALUE;
      } else if !core.slots[slot].requestCalled {
        return BAD_VALUE;
      }
      core.FreeBuffer(slot);
      core.BroadcastDequeueCondition();
      status := NO_ERROR;
    }

    method DetachNextBuffer() returns (status: Status, buffer: Option<Buffer>, fence: Fence)
      requires core.Valid()
      modifies core.slots
      ensures core.Valid() && core.Model() == DetachNext(old(core.Model()))
      ensures var c := old(core.Model()); var b := Oldest(c.slots, NUM_BUFFER_SLOTS, true);
              && status == (if c.abandoned then NO_INIT else if b == INVALID_BUFFER_SLOT then NO_MEMORY else NO_ERROR)
              && (status == NO_ERROR ==> buffer == c.slots[b].buffer && fence == c.slots[b].fence)
    {
      buffer, fence := None, NO_FENCE;
      if core.isAbandoned {
        return NO_INIT, None, NO_FENCE;
      }
      var found := INVALID_BUFFER_SLOT;
      for s := 0 to NUM_BUFFER_SLOTS
        invariant found == Oldest(core.slots[..], s, true)
        invariant core.slots[..] == old(core.slots[..])
      {
        if core.slots[s].state == FREE && core.slots[s].buffer.Some? {
          if found == INVALID_BUFFER_SLOT || core.slots[s].frame < core.slots[found].frame {
            found := s;
          }
        }
      }
      if found == INVALID_BUFFER_SLOT {
        return NO_MEMORY, None, NO_FENCE;
      }
      status, buffer, fence := NO_ERROR, core.slots[found].buffer, core.slots[found].fence;
      core.FreeBuffer(found);
    }

    method AttachBuffer(buffer: Buffer, earlier: bool) returns (result: PassResult, releaseAll: bool)
      requires core.Valid()
      modifies core.slots
      ensures core.Valid() && core.Model() == AttachByProducer(old(core.Model()), buffer)
      ensures result == Pass(old(core.Model()), false)
      ensures releaseAll == (earlier || ReleasesAll(old(core.Model()), false))
    {
      result, releaseAll := FreeSlotPass(false, earlier);
      if !result.Found? {
        return;
      }
      var s := result.slot;
      core.slots[s] := core.slots[s].(buffer := Some(buffer));
      core.slots[s] := core.slots[s].(state := DEQUEUED);
      core.slots[s] := core.slots[s].(fence := NO_FENCE);
      core.slots[s] := core.slots[s].(requestCalled := true);
    }

    /** `replaced` tells which callback the consumer's listener gets: frame replaced or frame
        available. */
    method QueueBuffer(slot: int, input: QueueInput) returns (status: Status, replaced: bool)
      requires core.Valid()
      modifies core, core.slots
      ensures core.Valid() && core.Model() == BufferQueueSpec.QueueBuffer(old(core.Model()), slot, input)
      ensures status == QueueStatus(old(core.Model()), slot, input)
      ensures replaced == (status == NO_ERROR && Overwrites(old(core.Model())))
    {
      hide Enqueue;
      if input.fence.None? {
        return BAD_VALUE, false;
      }
      if !input.scalingKnown {
        return BAD_VALUE, false;
      }
      if core.isAbandoned {
        return NO_INIT, false;
      }
      var maxBufferCount := core.GetMaxBufferCount(input.isAsync);
      if input.isAsync && core.overrideMaxBufferCount != 0 {
        if core.overrideMaxBufferCount < maxBufferCount {
          return BAD_VALUE, false;
        }
      }
      if slot < 0 || slot >= maxBufferCount {
        return BAD_VALUE, false;
      } else if core.slots[slot].state != DEQUEUED {
        return BAD_VALUE, false;
      } else if !core.slots[slot].requestCalled {
        return BAD_VALUE, false;
      }
      if core.slots[slot].buffer.None? {
        return FAULT, false;
      }
      if !input.cropContained {
        return BAD_VALUE, false;
      }
      replaced := PlaceItem(slot, input);
      status := NO_ERROR;
    }

    /** The part of queueBuffer after its checks. */
    method PlaceItem(slot: nat, input: QueueInput) returns (replaced: bool)
      requires core.Valid() && slot < NUM_BUFFER_SLOTS && core.slots[slot].buffer.Some? && input.fence.Some?
      modifies core, core.slots
      ensures core.Model() == Enqueue(old(core.Model()), slot, input) && core.Valid()
      ensures replaced == Overwrites(old(core.Model()))
    {
      hide OverwrittenSlots, MarkQueued, QueuedItem;
      var item := MarkSlot(slot, input);
      replaced := EnterQueue(item);
      core.bufferHasBeenQueued := true;
      core.dequeueBroadcasts := core.dequeueBroadcasts + 1;
    }

    method MarkSlot(slot: nat, input: QueueInput) returns (item: Item)
      requires core.Valid() && slot < NUM_BUFFER_SLOTS && core.slots[slot].buffer.Some? && input.fence.Some?
      modifies core`frameCounter, core.slots
      ensures core.slots[..] == MarkQueued(old(core.Model()), slot, input)
      ensures core.frameCounter == old(core.frameCounter) + 1
      ensures item == QueuedItem(old(core.Model()), slot, input)
    {
      core.slots[slot] := core.slots[slot].(fence := input.fence.value);
      core.slots[slot] := core.slots[slot].(state := QUEUED);
      core.frameCounter := core.frameCounter + 1;
      core.slots[slot] := core.slots[slot].(frame := core.frameCounter);
      item := Item(slot, core.slots[slot].buffer.value, core.frameCounter, input.fence.value, input.timestamp,
                   input.isAuto, core.dequeueBufferCannotBlock || input.isAsync, core.slots[slot].acquireCalled);
    }

    /** The new item goes to the end, or over a droppable one at the front. */
    method EnterQueue(item: Item) returns (replaced: bool)
      requires NamesSlots(core.queue) && core.slots.Length == NUM_BUFFER_SLOTS
      modifies core`queue, core.slots
      ensures var q := old(core.queue); var overwrites := |q| > 0 && q[0].isDroppable;
              && replaced == overwrites
              && core.queue == (if overwrites then q[0 := item] else q + [item])
              && core.slots[..] == (if overwrites then OverwrittenSlots(old(core.slots[..]), q[0])
                                    else old(core.slots[..]))
    {
      replaced := false;
      if core.queue == [] {
        core.queue := core.queue + [item];
      } else {
        var front := core.queue[0];
        if front.isDroppable {
          if core.StillTracking(front) {
            core.slots[front.slot] := core.slots[front.slot].(state := FREE);
            core.slots[front.slot] := core.slots[front.slot].(frame := 0);
          }
          core.queue := core.queue[0 := item];
          replaced := true;
        } else {
          core.queue := core.queue + [item];
        }
      }
    }

    method CancelBuffer(slot: int, fence: Option<Fence>)
      requires core.Valid()
      modifies core, core.slots
      ensures core.Valid() && core.Model() == BufferQueueSpec.CancelBuffer(old(core.Model()), slot, fence)
    {
      if core.isAbandoned {
        return;
      }
      if slot < 0 || slot >= NUM_BUFFER_SLOTS {
        return;
      } else if core.slots[slot].state != DEQUEUED {
        return;
      } else if fence.None? {
        return;
      }
      core.slots[slot] := core.slots[slot].(state := FREE);
      core.slots[slot] := core.slots[slot].(frame := 0);
      core.slots[slot] := core.slots[slot].(fence := fence.value);
      core.BroadcastDequeueCondition();
    }

    method Connect(api: int, producerControlledByApp: bool, listens: bool) returns (status: Status)
      requires core.Valid()
      modifies core
      ensures core.Valid()
      ensures core.Model() == ConnectProducer(old(core.Model()), api, producerControlledByApp, listens)
      ensures status == ConnectProducerStatus(old(core.Model()), api)
    {
      if core.isAbandoned {
        return NO_INIT;
      }
      if !core.hasConsumerListener {
        return NO_INIT;
      }
      if core.connectedApi != NO_CONNECTED_API {
        return BAD_VALUE;
      }
      if KnownApi(api) {
        core.connectedApi := api;
        core.hasProducerListener := listens;
        status := NO_ERROR;
      } else {
        status := BAD_VALUE;
      }
      core.bufferHasBeenQueued := false;
      core.dequeueBufferCannotBlock := core.consumerControlledByApp && producerControlledByApp;
    }

    method Disconnect(api: int) returns (status: Status, notify: bool)
      requires core.Valid()
      modifies core, core.slots
      ensures core.Valid() && core.Model() == DisconnectProducer(old(core.Model()), api)
      ensures var c := old(core.Model());
              status == if c.abandoned || (KnownApi(api) && c.connectedApi == api) then NO_ERROR else BAD_VALUE
      ensures notify == (!old(core.isAbandoned) && status == NO_ERROR && core.hasConsumerListener)
    {
      if core.isAbandoned {
        return NO_ERROR, false;
      }
      if !KnownApi(api) {
        return BAD_VALUE, false;
      }
      if core.connectedApi != api {
        return BAD_VALUE, false;
      }
      core.FreeAllBuffers();
      core.hasProducerListener := false;
      core.connectedApi := NO_CONNECTED_API;
      core.BroadcastDequeueCondition();
      return NO_ERROR, core.hasConsumerListener;
    }

    // ---------- pre-allocation ----------

    /** The first locked section of allocateBuffers: the slots to
        allocate buffers for; none if nothing is missing or too few slots are free. */
    method BeginAllocation(isAsync: bool, req: Request) returns (targets: seq<nat>, settled: Request)
      requires core.Valid()
      modifies core`isAllocating
      ensures core.Valid()
      ensures if Allocates(old(core.Model()), isAsync)
              then && core.Model() == old(core.Model()).(isAllocating := true)
                   && targets == Targets(old(core.Model()), isAsync)
                   && settled == AllocationRequest(old(core.Model()), req)
              else core.Model() == old(core.Model()) && targets == []
    {
      hide MaxBufferCount, BufferCount, FreeSlots, AllocationRequest, WellFormed;
      var currentBufferCount, freeSlots := ScanBuffers();
      var maxBufferCount: int := core.GetMaxBufferCount(isAsync);
      if maxBufferCount <= currentBufferCount {
        return [], req;
      }
      var missing := maxBufferCount - currentBufferCount;
      if |freeSlots| < missing {
        return [], req;
      }
      targets := freeSlots[..missing];
      settled := SettledRequest(req);
      SetAllocating(true);
    }

    method SetAllocating(allocating: bool)
      requires core.Valid()
      modifies core`isAllocating
      ensures core.Valid() && core.Model() == old(core.Model()).(isAllocating := allocating)
      ensures core.isAllocating == allocating
    {
      core.isAllocating := allocating;
    }

    /** The allocator has failed: the state is again what it was. */
    method GiveUpAllocation(ghost c: Core)
      requires core.Valid() && !c.isAllocating && core.Model() == c.(isAllocating := true)
      modifies core`isAllocating
      ensures core.Valid() && core.Model() == c && !core.isAllocating
    {
      core.isAllocating := false;
    }

    method ScanBuffers() returns (currentBufferCount: int, freeSlots: seq<nat>)
      requires core.Valid()
      ensures currentBufferCount == BufferCount(core.slots[..], NUM_BUFFER_SLOTS)
      ensures freeSlots == FreeSlots(core.Model())
    {
      currentBufferCount, freeSlots := 0, [];
      for s := 0 to NUM_BUFFER_SLOTS
        invariant currentBufferCount == BufferCount(core.slots[..], s)
        invariant freeSlots == Bufferless(core.slots[..], s)
      {
        if core.slots[s].buffer.Some? {
          currentBufferCount := currentBufferCount + 1;
        } else {
          if core.slots[s].state != FREE {
            continue;
          }
          freeSlots := freeSlots + [s];
        }
      }
    }

    function SettledRequest(req: Request): (r: Request)
      reads core, core.slots
      ensures r == AllocationRequest(core.Model(), req)
    {
      Request(if req.width > 0 then req.width else core.defaultWidth,
              if req.height > 0 then req.height else core.defaultHeight,
              if req.format != 0 then req.format else core.defaultBufferFormat,
              req.usage + core.consumerUsageBits)
    }

    /** The last locked section of allocateBuffers. If the defaults have changed meanwhile
        the buffers are discarded; so are those whose slots are no longer FREE. */
    method FinishAllocation(req: Request, settled: Request, targets: seq<nat>, buffers: seq<Buffer>)
      requires core.Valid() && |targets| == |buffers|
      requires forall k :: 0 <= k < |targets| ==> targets[k] < NUM_BUFFER_SLOTS
      modifies core`isAllocating, core.slots
      ensures core.Valid() && !core.isAllocating
      ensures core.Model() == if AllocationRequest(old(core.Model()), req) != settled
                              then old(core.Model()).(isAllocating := false)
                              else InstallBuffers(old(core.Model()), targets, buffers)
    {
      var check := SettledRequest(req);
      if check != settled {
        core.isAllocating := false;
        return;
      }
      for i := 0 to |buffers|
        invariant core.slots[..] == Installed(old(core.slots[..]), targets, buffers, i)
        invariant core.isAllocating == old(core.isAllocating)
      {
        var s := targets[i];
        if core.slots[s].state == FREE {
          core.FreeBuffer(s);
          core.slots[s] := core.slots[s].(buffer := Some(buffers[i]));
          core.slots[s] := core.slots[s].(frame := 0);
          core.slots[s] := core.slots[s].(fence := NO_FENCE);
        }
      }
      core.isAllocating := false;
    }

    /** The allocations between the two sections; the i-th call of the allocator yields
        allocator[i], nothing if it fails. */
    method CreateBuffers(count: nat, allocator: Allocator) returns (ok: bool, buffers: seq<Buffer>)
      requires core.Valid() && count <= NUM_BUFFER_SLOTS
      ensures core.Valid() && core.Model() == old(core.Model())
      ensures ok == AllCreated(allocator, count)
      ensures ok ==> buffers == Created(allocator, count)
    {
      buffers := [];
      for i := 0 to count
        invariant |buffers| == i
        invariant forall k :: 0 <= k < i ==> allocator[k] == Some(buffers[k])
      {
        var graphicBuffer := allocator[i];
        if graphicBuffer.None? {
          return false, [];
        }
        buffers := buffers + [graphicBuffer.value];
      }
      ok := true;
    }

    /** allocateBuffers with nobody else using the queue. It terminates, and touches only
        FREE slots without a buffer. */
    method AllocateBuffers(isAsync: bool, req: Request, allocator: Allocator)
      requires core.Valid() && !core.isAllocating
      modifies core, core.slots
      ensures core.Valid()
      ensures if AllocatesAll(old(core.Model()), isAsync, allocator)
              then ReachesLimit(old(core.Model()), core.Model(), isAsync, allocator)
              else core.Model() == old(core.Model())
    {
      hide ReachesLimit, AllocatesAll, WellFormed, MaxBufferCount;
      while true
        invariant core.Valid() && !core.isAllocating
        invariant core.Model() == old(core.Model()) || ReachesLimit(old(core.Model()), core.Model(), isAsync, allocator)
        decreases Missing(core.Model(), isAsync)
      {
        ghost var before := core.Model();
        var again := AllocateOnce(isAsync, req, allocator);
        if before != old(core.Model()) {
          LimitIsFinal(old(core.Model()), before, isAsync, allocator);
        }
        if !again {
          return;
        }
        LimitIsFinal(before, core.Model(), isAsync, allocator);
      }
    }

    /** One round of the loop in allocateBuffers; another follows unless nothing was missing,
        too few slots were free or the allocator failed. */
    method AllocateOnce(isAsync: bool, req: Request, allocator: Allocator) returns (again: bool)
      requires core.Valid() && !core.isAllocating
      modifies core, core.slots
      ensures core.Valid() && !core.isAllocating
      ensures again == AllocatesAll(old(core.Model()), isAsync, allocator)
      ensures if again then ReachesLimit(old(core.Model()), core.Model(), isAsync, allocator)
              else core.Model() == old(core.Model())
    {
      hide AllCreated, WellFormed, Reached, InstallBuffers, AllocationRequest, Targets, Allocates;
      var targets, settled := BeginAllocation(isAsync, req);
      if targets == [] {
        return false;
      }
      var ok, buffers := CreateBuffers(|targets|, allocator);
      if !ok {
        GiveUpAllocation(old(core.Model()));
        return false;
      }
      InstallingReaches(old(core.Model()), isAsync, buffers);
      FlagIsIgnored(old(core.Model()), req, targets, buffers);
      FinishAllocation(req, settled, targets, buffers);
      again := true;
    }
  }

  /** The scans below the limit do not see the trimming. */
  lemma ScansBelow(slots: seq<Slot>, limit: nat)
    requires limit <= |slots|
    ensures var trimmed := TrimmedSlots(slots, limit);
            && Oldest(trimmed, limit, false) == Oldest(slots, limit, false)
            && Count(trimmed, DEQUEUED, limit) == Count(slots, DEQUEUED, limit)
            && Count(trimmed, ACQUIRED, limit) == Count(slots, ACQUIRED, limit)
  {
    SameScans(slots, TrimmedSlots(slots, limit), limit);
  }

  lemma {:induction false} SameScans(a: seq<Slot>, b: seq<Slot>, n: nat)
    requires n <= |a| && n <= |b|
    requires forall k :: 0 <= k < n ==> a[k] == b[k]
    ensures Oldest(a, n, false) == Oldest(b, n, false)
    ensures Count(a, DEQUEUED, n) == Count(b, DEQUEUED, n) && Count(a, ACQUIRED, n) == Count(b, ACQUIRED, n)
  {
    if n > 0 {
      SameScans(a, b, n - 1);
    }
  }
}
