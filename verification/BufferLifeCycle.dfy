/** One buffer's way through the queue, and what puts a slot first in line. */
module BufferLifeCycle {
  import opened BufferQueueTypes
  import opened SlotScans
  import opened BufferQueueSpec
  import opened QueueRuns
  import opened QueueInvariant
  import opened DequeueLimits
  import opened NonBlocking
  import opened SlotMoves

  // ---------- there and back ----------

  /** The state after a successful dequeue, its allocation included if it makes one. */
  function Dequeued(c: Core, isAsync: bool, req: Request, buffer: Buffer): (d: Core)
    requires WellFormed(c) && Pass(c, isAsync).Found?
    ensures WellFormed(d)
  {
    var d := BeginDequeue(c, isAsync, req);
    if BeginsAllocation(c, isAsync, req) then FinishDequeue(d, Pass(c, isAsync).slot, buffer) else d
  }

  /** The buffer that the dequeue hands out. */
  function HandedOut(c: Core, isAsync: bool, req: Request, buffer: Buffer): Option<Buffer>
    requires WellFormed(c) && Pass(c, isAsync).Found?
  {
    if BeginsAllocation(c, isAsync, req) then Some(buffer) else c.slots[Pass(c, isAsync).slot].buffer
  }

  predicate ValidInput(input: QueueInput) {
    input.fence.Some? && input.scalingKnown && input.cropContained
  }

  lemma BeginTakesFound(c: Core, isAsync: bool, req: Request)
    requires WellFormed(c) && Pass(c, isAsync).Found? && !BadSize(req)
    ensures var b := Pass(c, isAsync).slot;
            && b < MaxBufferCount(c, isAsync) && !c.abandoned && !ConflictsWithOverride(c, isAsync)
            && BeginDequeue(c, isAsync, req)
               == c.(slots := Trim(c, isAsync).slots[b := DequeuedSlot(c.slots[b], Resolve(c, req))])
  {
    hide MaxBufferCount, TooManyDequeued, MustWait, Oldest, Count, DequeuedSlot, Resolve;
    FoundLeavesRoom(c, isAsync);
    TrimKeepsLow(c, isAsync, Pass(c, isAsync).slot);
  }

  /** What the dequeue leaves: the found slot out with the producer, and no other slot
      changed but those trimmed. */
  lemma DequeueHandsOut(c: Core, isAsync: bool, req: Request, buffer: Buffer)
    requires WellFormed(c) && Pass(c, isAsync).Found? && !BadSize(req)
    ensures var d := Dequeued(c, isAsync, req, buffer); var b := Pass(c, isAsync).slot;
            && b < MaxBufferCount(c, isAsync) && !c.abandoned && !ConflictsWithOverride(c, isAsync)
            && d == c.(slots := Trim(c, isAsync).slots[b := d.slots[b]])
            && d.slots[b].state == DEQUEUED
            && d.slots[b].buffer == HandedOut(c, isAsync, req, buffer) && d.slots[b].buffer.Some?
            && (BeginsAllocation(c, isAsync, req) ==> !d.slots[b].requestCalled && !d.slots[b].acquireCalled)
            && (!BeginsAllocation(c, isAsync, req) ==> d.slots[b].requestCalled == c.slots[b].requestCalled)
  {
    hide MaxBufferCount, ConflictsWithOverride, Pass, Trim, BeginDequeue, Resolve, Dequeued, HandedSlot, WellFormed;
    BeginTakesFound(c, isAsync, req);
    DequeuedSlots(c, isAsync, req, buffer);
    HandedSlotFacts(c.slots[Pass(c, isAsync).slot], Resolve(c, req), buffer);
  }

  /** The slot that a dequeue hands out, with a new buffer if its own does not suit. */
  function HandedSlot(s: Slot, req: Request, buffer: Buffer): Slot {
    var t := DequeuedSlot(s, req);
    if Suits(s.buffer, req) then t else t.(frame := FREED_FRAME, buffer := Some(buffer))
  }

  lemma HandedSlotFacts(s: Slot, req: Request, buffer: Buffer)
    ensures var t := HandedSlot(s, req, buffer);
            && t.state == DEQUEUED && t.buffer.Some?
            && t.buffer == (if Suits(s.buffer, req) then s.buffer else Some(buffer))
            && (!Suits(s.buffer, req) ==> !t.requestCalled && !t.acquireCalled)
            && (Suits(s.buffer, req) ==> t.requestCalled == s.requestCalled)
  {
  }

  lemma DequeuedSlots(c: Core, isAsync: bool, req: Request, buffer: Buffer)
    requires WellFormed(c) && Pass(c, isAsync).Found? && !BadSize(req)
    ensures var b := Pass(c, isAsync).slot;
            && b < |c.slots| == |Trim(c, isAsync).slots|
            && Dequeued(c, isAsync, req, buffer)
               == c.(slots := Trim(c, isAsync).slots[b := HandedSlot(c.slots[b], Resolve(c, req), buffer)])
  {
    hide MaxBufferCount, ConflictsWithOverride, Pass, Trim, BeginDequeue, Resolve, DequeuedSlot, Suits;
    BeginTakesFound(c, isAsync, req);
  }

  lemma FinishKeepsLimit(c: Core, b: nat, buffer: Buffer, isAsync: bool)
    requires WellFormed(c) && b < NUM_BUFFER_SLOTS
    ensures MaxBufferCount(FinishDequeue(c, b, buffer), isAsync) == MaxBufferCount(c, isAsync)
  {
    hide MaxBufferCount;
    BeyondLimit(c, isAsync);
    LimitStays(c, FinishDequeue(c, b, buffer), isAsync);
  }

  lemma DequeueKeepsLimit(c: Core, isAsync: bool, req: Request, buffer: Buffer)
    requires WellFormed(c) && Pass(c, isAsync).Found? && !BadSize(req)
    ensures MaxBufferCount(Dequeued(c, isAsync, req, buffer), isAsync) == MaxBufferCount(c, isAsync)
  {
    hide MaxBufferCount, BeginDequeue, Pass, FinishDequeue, BeginsAllocation, WellFormed;
    BeginDequeueKeepsLimit(c, isAsync, req);
    FinishKeepsLimit(BeginDequeue(c, isAsync, req), Pass(c, isAsync).slot, buffer, isAsync);
  }

  // ---------- what queueBuffer accepts ----------

  /** In every state the limit admits every slot that is out with the producer. */
  lemma QueueAcceptsIff(c: Core, slot: int, input: QueueInput)
    requires WellFormed(c)
    ensures QueueStatus(c, slot, input) == NO_ERROR
            <==> (&& ValidInput(input) && !c.abandoned && !ConflictsWithOverride(c, input.isAsync)
                  && OwnedByProducer(c, slot) && c.slots[slot].requestCalled && c.slots[slot].buffer.Some?)
  {
    BeyondLimit(c, input.isAsync);
    hide MaxBufferCount, ConflictsWithOverride;
  }

  /** What queueBuffer answers, every refusal included. A slot without a buffer is only looked
      at when all before it is in order: the source then crashes. */
  lemma QueueAnswers(c: Core, slot: int, input: QueueInput)
    requires WellFormed(c)
    ensures var answer := QueueStatus(c, slot, input);
            var valid := input.fence.Some? && input.scalingKnown;
            var ready := valid && !c.abandoned && !ConflictsWithOverride(c, input.isAsync)
                         && 0 <= slot < NUM_BUFFER_SLOTS && c.slots[slot].state == DEQUEUED
                         && c.slots[slot].requestCalled;
            && (answer == NO_INIT <==> valid && c.abandoned)
            && (answer == FAULT <==> ready && c.slots[slot].buffer.None?)
            && (answer == NO_ERROR <==> ready && c.slots[slot].buffer.Some? && input.cropContained)
            && answer in {NO_ERROR, NO_INIT, BAD_VALUE, FAULT}
  {
    BeyondLimit(c, input.isAsync);
    hide MaxBufferCount, ConflictsWithOverride;
  }

  /** Slot b is out with the producer all along the run. */
  predicate StaysOut(s: Sys, ops: seq<Op>, b: nat)
    requires WellFormed(s.core) && b < NUM_BUFFER_SLOTS
  {
    Run(s, ops).core.slots[b].state == DEQUEUED && (ops == [] || StaysOut(s, ops[..|ops| - 1], b))
  }

  predicate Fills(op: Op, b: nat) {
    op.FinishDequeueOp? && op.target == b
  }

  /** The allocation for slot b ends with a buffer. */
  predicate Filled(ops: seq<Op>, b: nat) {
    exists i :: 0 <= i < |ops| && Fills(ops[i], b)
  }

  lemma OutStep(c: Core, op: Op, b: nat)
    requires WellFormed(c) && b < NUM_BUFFER_SLOTS && !c.abandoned
    requires SlotMove(c, op, b, Apply(c, op).slots[b])
    requires c.slots[b].state == DEQUEUED && Apply(c, op).slots[b].state == DEQUEUED
    ensures var t := Apply(c, op).slots[b];
            && t.requestCalled == (c.slots[b].requestCalled || op == RequestBufferOp(b))
            && t.buffer == if Fills(op, b) then Some(op.buffer) else c.slots[b].buffer
  {
    if op != RequestBufferOp(b) && !Fills(op, b) {
      hide Apply, TrimmedAt, SetBufferCountStatus, ReleaseStatus, Resolve, Suits, WellFormed;
    }
  }

  lemma OutKeepsConnection(c: Core, op: Op, b: nat)
    requires WellFormed(c) && b < NUM_BUFFER_SLOTS && !c.abandoned && Apply(c, op).slots[b].state == DEQUEUED
    ensures !Apply(c, op).abandoned
  {
    if ChangesMode(op) {
      hide WellFormed, SetBufferCountStatus;
    } else {
      OthersKeepMode(c, op);
      hide Apply, WellFormed;
    }
  }

  /** The slot has been requested if it was or is in the run, and keeps its buffer until its
      allocation ends. */
  predicate KeptOut(s: Slot, t: Slot, ops: seq<Op>, b: nat) {
    && t.requestCalled == (s.requestCalled || RequestBufferOp(b) in ops)
    && t.buffer.Some? == (s.buffer.Some? || Filled(ops, b))
    && (!Filled(ops, b) ==> t.buffer == s.buffer)
  }

  lemma KeptOutNext(s: Slot, m: Slot, t: Slot, before: seq<Op>, op: Op, b: nat)
    requires KeptOut(s, m, before, b)
    requires t.requestCalled == (m.requestCalled || op == RequestBufferOp(b))
    requires t.buffer == if Fills(op, b) then Some(op.buffer) else m.buffer
    ensures KeptOut(s, t, before + [op], b)
  {
    var ops := before + [op];
    assert ops[|before|] == op && forall i :: 0 <= i < |before| ==> ops[i] == before[i];
    assert Filled(ops, b) <==> Filled(before, b) || Fills(op, b);
  }

  /** However calls interleave, a slot that is out is kept so. */
  lemma {:induction false} OutKeeps(s: Sys, ops: seq<Op>, b: nat)
    requires Inv(s) && LegalRun(s, ops) && b < NUM_BUFFER_SLOTS && !s.core.abandoned && StaysOut(s, ops, b)
    ensures !Run(s, ops).core.abandoned && KeptOut(s.core.slots[b], Run(s, ops).core.slots[b], ops, b)
  {
    assert WellFormed(s.core);
    hide Inv, Apply, Legal, SlotMove, KeptOut, Fills;
    if ops == [] {
      NothingKept(s.core.slots[b], b);
    } else {
      var before, op := ops[..|ops| - 1], ops[|ops| - 1];
      var c := Run(s, before).core;
      OutKeeps(s, before, b);
      RunKeepsInv(s, before);
      StepMoves(Run(s, before), op);
      OutStep(c, op, b);
      OutKeepsConnection(c, op, b);
      KeptOutNext(s.core.slots[b], c.slots[b], Apply(c, op).slots[b], before, op, b);
      assert ops == before + [op];
    }
  }

  lemma NothingKept(s: Slot, b: nat)
    ensures KeptOut(s, s, [], b)
  {
  }

  /** Whatever calls come between the dequeue and the queueing, its allocation among them: as
      long as the slot stays out, queueBuffer accepts it if and only if its buffer has been
      requested and, if the dequeue allocates, delivered; and so does detachBuffer, which
      does not look at the buffer. */
  lemma DequeuedIsAcceptedIff(s: Sys, isAsync: bool, req: Request, ops: seq<Op>, b: nat, input: QueueInput)
    requires Inv(s) && !BadSize(req) && Pass(s.core, isAsync) == Found(b)
    requires var m := Next(s, BeginDequeueOp(isAsync, req)); LegalRun(m, ops) && StaysOut(m, ops, b)
    ensures var e := Run(Next(s, BeginDequeueOp(isAsync, req)), ops).core;
            var allocates := BeginsAllocation(s.core, isAsync, req);
            var requested := RequestBufferOp(b) in ops || (!allocates && s.core.slots[b].requestCalled);
            && (QueueStatus(e, b, input) == NO_ERROR
                <==> (&& ValidInput(input) && !ConflictsWithOverride(e, input.isAsync)
                      && requested && (allocates ==> Filled(ops, b))))
            && (DetachByProducer(e, b) != e <==> requested)
  {
    var m := Next(s, BeginDequeueOp(isAsync, req));
    BeginLeavesOut(s, isAsync, req);
    StepKeepsInv(s, BeginDequeueOp(isAsync, req));
    hide Inv, Run, LegalRun, Next, Pass, BeginsAllocation, BeginDequeue, ConflictsWithOverride, QueueStatus;
    OutKeeps(m, ops, b);
    QueueAcceptsIff(Run(m, ops).core, b, input);
  }

  lemma BeginLeavesOut(s: Sys, isAsync: bool, req: Request)
    requires WellFormed(s.core) && !BadSize(req) && Pass(s.core, isAsync).Found?
    ensures var m := Next(s, BeginDequeueOp(isAsync, req)).core; var b := Pass(s.core, isAsync).slot;
            var allocates := BeginsAllocation(s.core, isAsync, req);
            && !m.abandoned
            && m.slots[b].buffer.Some? == !allocates
            && m.slots[b].requestCalled == (!allocates && s.core.slots[b].requestCalled)
  {
    BeginTakesFound(s.core, isAsync, req);
    hide MaxBufferCount, ConflictsWithOverride, Pass, Trim, BeginDequeue, Resolve;
  }

  /** A dequeued buffer is accepted unrequested if and only if it was not newly allocated and
      its slot was requested before; a buffer that allocateBuffers installs inherits that. */
  lemma AcceptedUnrequestedIff(c: Core, isAsync: bool, req: Request, buffer: Buffer, input: QueueInput)
    requires WellFormed(c) && Pass(c, isAsync).Found? && !BadSize(req)
    requires ValidInput(input) && input.isAsync == isAsync
    ensures var d := Dequeued(c, isAsync, req, buffer); var b := Pass(c, isAsync).slot;
            QueueStatus(d, b, input) == NO_ERROR <==> !BeginsAllocation(c, isAsync, req) && c.slots[b].requestCalled
  {
    DequeueHandsOut(c, isAsync, req, buffer);
    DequeueKeepsLimit(c, isAsync, req, buffer);
    hide BeginDequeue, Dequeued, MaxBufferCount, Pass, HandedOut, Trim;
  }

  /** Installing a buffer leaves the request flag of its slot as it was. */
  lemma {:induction false} InstalledKeepsRequested(
    slots: seq<Slot>, targets: seq<nat>, buffers: seq<Buffer>, n: nat, b: nat)
    requires n <= |targets| && n <= |buffers| && b < |slots|
    requires forall k :: 0 <= k < |targets| ==> targets[k] < |slots|
    ensures Installed(slots, targets, buffers, n)[b].requestCalled == slots[b].requestCalled
  {
    if n > 0 {
      InstalledKeepsRequested(slots, targets, buffers, n - 1, b);
    }
  }

  /** A requested buffer is accepted by queueBuffer in the mode it was dequeued in. */
  lemma RequestedIsAccepted(c: Core, isAsync: bool, req: Request, buffer: Buffer, input: QueueInput)
    requires WellFormed(c) && Pass(c, isAsync).Found? && !BadSize(req)
    requires ValidInput(input) && input.isAsync == isAsync
    ensures var b := Pass(c, isAsync).slot; var d := RequestBuffer(Dequeued(c, isAsync, req, buffer), b);
            && QueueStatus(d, b, input) == NO_ERROR
            && d.queue == c.queue && d.frameCounter == c.frameCounter && SameMode(c, d)
            && d.slots == Trim(c, isAsync).slots[b := d.slots[b]]
            && d.slots[b].state == DEQUEUED && d.slots[b].buffer == HandedOut(c, isAsync, req, buffer)
  {
    var b := Pass(c, isAsync).slot;
    var m := Dequeued(c, isAsync, req, buffer);
    var d := RequestBuffer(m, b);
    DequeueHandsOut(c, isAsync, req, buffer);
    DequeueKeepsLimit(c, isAsync, req, buffer);
    BeyondLimit(m, isAsync);
    LimitStays(m, d, isAsync);
    hide MaxBufferCount, Dequeued, Trim, HandedOut, Pass;
  }

  /** Through an empty queue a buffer comes back as it went: dequeued, requested, queued,
      acquired and released, its slot is FREE again, with the same buffer, the frame number
      it was queued under and the consumer's fence, and nothing else has changed but the
      slots that the dequeue trimmed. */
  lemma BufferComesBack(c: Core, isAsync: bool, req: Request, buffer: Buffer, input: QueueInput, fence: Fence)
    requires WellFormed(c) && Pass(c, isAsync).Found? && !BadSize(req) && c.queue == [] && !AtAcquireLimit(c)
    requires ValidInput(input) && input.isAsync == isAsync
    ensures var b := Pass(c, isAsync).slot;
            var d := QueueBuffer(RequestBuffer(Dequeued(c, isAsync, req, buffer), b), b, input);
            var e := AcquireBuffer(d, 0);
            var f := ReleaseBuffer(e, b, c.frameCounter + 1, Some(fence));
            && AcquireStatus(d, 0) == NO_ERROR
            && Some(d.queue[0].buffer) == HandedOut(c, isAsync, req, buffer)
            && ReleaseStatus(e, b, c.frameCounter + 1, Some(fence)) == NO_ERROR
            && f.queue == [] && SameMode(c, f)
            && f.slots == Trim(c, isAsync).slots[b := f.slots[b]]
            && f.slots[b].state == FREE && f.slots[b].buffer == HandedOut(c, isAsync, req, buffer)
            && f.slots[b].frame == c.frameCounter + 1 && f.slots[b].fence == fence
  {
    hide Dequeued, RequestBuffer, Trim, HandedOut, Pass, Count, QueueBuffer, AcquireBuffer, ReleaseBuffer, QueueStatus;
    hide AcquireStatus, ReleaseStatus;
    var b := Pass(c, isAsync).slot;
    RequestedIsAccepted(c, isAsync, req, buffer, input);
    TrimAcquiresNone(c, isAsync);
    var m := RequestBuffer(Dequeued(c, isAsync, req, buffer), b);
    CountUpdate(Trim(c, isAsync).slots, ACQUIRED, NUM_BUFFER_SLOTS, b, m.slots[b]);
    QueuedComesBack(m, b, input, fence);
  }

  lemma TrimAcquiresNone(c: Core, isAsync: bool)
    requires WellFormed(c)
    ensures Count(Trim(c, isAsync).slots, ACQUIRED, NUM_BUFFER_SLOTS) <= Count(c.slots, ACQUIRED, NUM_BUFFER_SLOTS)
  {
    hide MaxBufferCount, Count;
    CountMonotone(Trim(c, isAsync).slots, c.slots, ACQUIRED, NUM_BUFFER_SLOTS);
  }

  lemma QueuedComesBack(m: Core, b: nat, input: QueueInput, fence: Fence)
    requires WellFormed(m) && QueueStatus(m, b, input) == NO_ERROR && m.queue == [] && !AtAcquireLimit(m)
    ensures b < NUM_BUFFER_SLOTS
    ensures var d := QueueBuffer(m, b, input); var e := AcquireBuffer(d, 0);
            var f := ReleaseBuffer(e, b, m.frameCounter + 1, Some(fence));
            && AcquireStatus(d, 0) == NO_ERROR
            && Some(d.queue[0].buffer) == m.slots[b].buffer
            && ReleaseStatus(e, b, m.frameCounter + 1, Some(fence)) == NO_ERROR
            && f.queue == [] && SameMode(m, f) && f.slots == m.slots[b := f.slots[b]]
            && f.slots[b].state == FREE && f.slots[b].buffer == m.slots[b].buffer
            && f.slots[b].frame == m.frameCounter + 1 && f.slots[b].fence == fence
  {
    var d := QueueBuffer(m, b, input);
    CountUpdate(m.slots, ACQUIRED, NUM_BUFFER_SLOTS, b, d.slots[b]);
    hide MaxBufferCount, Count;
  }

  // ---------- first in line ----------

  /** No FREE slot before b has frame number zero. */
  predicate FirstOfZeroFrames(c: Core, b: nat)
    requires WellFormed(c) && b <= NUM_BUFFER_SLOTS
  {
    forall k :: 0 <= k < b ==> !(c.slots[k].state == FREE && c.slots[k].frame == 0)
  }

  /** A FREE slot with frame number zero is found before any slot of a frame shown, and is
      itself the one found exactly if no lower slot is FREE with frame number zero. */
  lemma ZeroFrameGoesFirst(d: Core, isAsync: bool, b: nat)
    requires WellFormed(d) && Pass(d, isAsync).Found? && b < MaxBufferCount(d, isAsync)
    requires d.slots[b].state == FREE && d.slots[b].frame == 0
    ensures var found := Pass(d, isAsync).slot;
            && d.slots[found].frame == 0 && found <= b && (found == b <==> FirstOfZeroFrames(d, b))
  {
    FoundIsOldestFree(d, isAsync);
    hide MaxBufferCount, Pass;
  }

  /** The slot of an overwritten frame is first in line to be dequeued again, but for lower
      slots that are FREE with frame number zero. */
  lemma OverwrittenGoesFirst(c: Core, slot: int, input: QueueInput, isAsync: bool)
    requires WellFormed(c) && QueueStatus(c, slot, input) == NO_ERROR && Overwrites(c)
    requires Tracks(c.slots, c.queue[0]) && c.queue[0].slot != slot
    requires var d := QueueBuffer(c, slot, input);
             Pass(d, isAsync).Found? && c.queue[0].slot < MaxBufferCount(d, isAsync)
    ensures var d := QueueBuffer(c, slot, input); var found := Pass(d, isAsync).slot; var b := c.queue[0].slot;
            && d.slots[found].frame == 0 && found <= b
            && (found == b <==> FirstOfZeroFrames(d, b)) && (FirstOfZeroFrames(d, b) <==> FirstOfZeroFrames(c, b))
  {
    var d := QueueBuffer(c, slot, input);
    OverwriteStates(c, slot, input);
    hide QueueBuffer, QueueStatus;
    ZeroFrameGoesFirst(d, isAsync, c.queue[0].slot);
    hide Pass, MaxBufferCount;
  }

  lemma OverwriteStates(c: Core, slot: int, input: QueueInput)
    requires WellFormed(c) && QueueStatus(c, slot, input) == NO_ERROR && Overwrites(c)
    requires Tracks(c.slots, c.queue[0]) && c.queue[0].slot != slot
    ensures var d := QueueBuffer(c, slot, input); var b := c.queue[0].slot;
            && d.slots[b] == OverwrittenSlot(c.slots[b])
            && 0 <= slot < NUM_BUFFER_SLOTS && d.slots[slot].state != FREE && c.slots[slot].state != FREE
            && forall k :: 0 <= k < NUM_BUFFER_SLOTS && k != b && k != slot ==> d.slots[k] == c.slots[k]
  {
    hide MaxBufferCount;
  }

  /** detachNextBuffer takes the buffer out of slot b. */
  predicate TakesOut(c: Core, d: Core, b: nat)
    requires WellFormed(c) && WellFormed(d) && b < NUM_BUFFER_SLOTS
  {
    && d.slots[b].state == FREE && d.slots[b].buffer == None && d.slots[b].frame == 0xFFFF_FFFF
    && d.slots[b].fence == NO_FENCE && !d.slots[b].acquireCalled
    && forall k :: 0 <= k < NUM_BUFFER_SLOTS && k != b ==> d.slots[k] == c.slots[k]
  }

  /** It takes the buffer that was shown longest ago among those in FREE slots; with none there,
      or on an abandoned queue, nothing changes. */
  lemma DetachNextTakesOldest(c: Core, b: nat)
    requires WellFormed(c) && b < NUM_BUFFER_SLOTS && !c.abandoned
    requires c.slots[b].state == FREE && c.slots[b].buffer.Some?
    requires forall k :: 0 <= k < NUM_BUFFER_SLOTS && c.slots[k].state == FREE && c.slots[k].buffer.Some? ==>
                           c.slots[b].frame < c.slots[k].frame || (c.slots[b].frame == c.slots[k].frame && b <= k)
    ensures TakesOut(c, DetachNext(c), b) && SameItems(c, DetachNext(c)) && SameMode(c, DetachNext(c))
  {
    OldestIsOldest(c.slots, NUM_BUFFER_SLOTS, true);
    assert Eligible(c.slots[b], true);
    hide Oldest;
  }

  lemma DetachNextTakesNothing(c: Core)
    requires WellFormed(c)
    requires || c.abandoned
             || forall k :: 0 <= k < NUM_BUFFER_SLOTS && c.slots[k].state == FREE ==> c.slots[k].buffer.None?
    ensures DetachNext(c) == c
  {
    OldestIsOldest(c.slots, NUM_BUFFER_SLOTS, true);
    hide Oldest;
  }

  /** So is a slot that the producer cancels. */
  lemma CancelledGoesFirst(c: Core, slot: int, fence: Fence, isAsync: bool)
    requires WellFormed(c) && !c.abandoned && OwnedByProducer(c, slot)
    requires var d := CancelBuffer(c, slot, Some(fence));
             Pass(d, isAsync).Found? && slot < MaxBufferCount(d, isAsync)
    ensures var d := CancelBuffer(c, slot, Some(fence)); var found := Pass(d, isAsync).slot;
            && d.slots[found].frame == 0 && found <= slot
            && (found == slot <==> FirstOfZeroFrames(d, slot))
            && (FirstOfZeroFrames(d, slot) <==> FirstOfZeroFrames(c, slot))
            && d.slots[slot].fence == fence && d.slots[slot].buffer == c.slots[slot].buffer
  {
    hide Pass, MaxBufferCount;
    var d := CancelBuffer(c, slot, Some(fence));
    assert forall k :: 0 <= k < slot ==> d.slots[k] == c.slots[k];
    ZeroFrameGoesFirst(d, isAsync, slot);
  }
}
