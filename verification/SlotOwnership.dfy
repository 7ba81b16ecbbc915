/** Who owns a slot, which calls pass it on, and when the consumer loses a buffer that it
    has not given back. */
module SlotOwnership {
  import opened BufferQueueTypes
  import opened BufferQueueSpec
  import opened Correspondence
  import opened QueueRuns
  import opened QueueInvariant
  import opened QueueHistory
  import opened SlotMoves

  predicate FreesAll(op: Op) {
    op.SetBufferCountOp? || op.DisconnectProducerOp? || op.DisconnectConsumerOp?
  }

  /** A pass of the producer's wait loop, which may free buffers beyond the limit. */
  predicate MakesPass(op: Op) {
    op.BeginDequeueOp? || op.AttachByProducerOp?
  }

  /** The state changes that a call may make: the producer gets a slot only from FREE, and the
      consumer only from QUEUED or by attaching; either may lose one to FREE. */
  predicate MayChange(a: SlotState, b: SlotState, op: Op) {
    || a == b
    || match a
       case FREE => (b == DEQUEUED && MakesPass(op)) || (b == ACQUIRED && op.AttachByConsumerOp?)
       case DEQUEUED =>
         || (b == QUEUED && op.QueueBufferOp?)
         || (b == FREE && (|| op.CancelBufferOp? || op.DetachByProducerOp? || op.DisconnectProducerOp?
                           || op.DisconnectConsumerOp?))
       case QUEUED =>
         || (b == ACQUIRED && op.AcquireBufferOp?)
         || (b == FREE && (op.QueueBufferOp? || op.AcquireBufferOp? || FreesAll(op)))
       case ACQUIRED =>
         b == FREE && (op.ReleaseBufferOp? || op.DetachByConsumerOp? || MakesPass(op) || FreesAll(op))
  }

  lemma MoveMayChange(c: Core, op: Op, b: nat, t: Slot)
    requires WellFormed(c) && b < NUM_BUFFER_SLOTS && SlotMove(c, op, b, t)
    ensures MayChange(c.slots[b].state, t.state, op)
  {
    hide WellFormed, TrimmedAt, SetBufferCountStatus, ReleaseStatus, Resolve, Suits;
  }

  /** Every call, in every reachable state, changes the states of slots only so. */
  lemma SlotsChangeAsAllowed(ops: seq<Op>, op: Op, b: nat)
    requires LegalRun(START, ops) && b < NUM_BUFFER_SLOTS
    ensures var c := Run(START, ops).core; MayChange(c.slots[b].state, Apply(c, op).slots[b].state, op)
  {
    StartInv();
    RunKeepsInv(START, ops);
    var s := Run(START, ops);
    StepMoves(s, op);
    hide Inv, MayChange, Apply, SlotMove, Run, LegalRun;
    MoveMayChange(s.core, op, b, Apply(s.core, op).slots[b]);
  }

  // ---------- buffers lost ----------

  /** The consumer itself gives up the buffer that it holds in slot b. */
  predicate GivenBack(c: Core, op: Op, b: nat)
    requires WellFormed(c)
  {
    match op
    case ReleaseBufferOp(slot, frame, fence) => slot == b && ReleaseStatus(c, slot, frame, fence) == NO_ERROR
    case DetachByConsumerOp(slot) => slot == b && !c.abandoned
    case DisconnectConsumerOp => c.hasConsumer
    case _ => false
  }

  /** The producer takes it away: by a pass that frees it beyond the limit, by setting a
      buffer count, or by disconnecting. */
  predicate TakenAway(c: Core, op: Op, b: nat)
    requires WellFormed(c) && b < NUM_BUFFER_SLOTS
  {
    match op
    case BeginDequeueOp(isAsync, req) => !BadSize(req) && TrimmedAt(c, isAsync, b)
    case AttachByProducerOp(_) => TrimmedAt(c, false, b)
    case SetBufferCountOp(n) => n != 0 && SetBufferCountStatus(c, n) == NO_ERROR
    case DisconnectProducerOp(api) => !c.abandoned && KnownApi(api) && c.connectedApi == api
    case _ => false
  }

  /** A pass does to a slot that it does not take what trimming does. */
  lemma DequeueTrims(c: Core, isAsync: bool, req: Request, b: nat)
    requires WellFormed(c) && b < NUM_BUFFER_SLOTS && c.slots[b].state == ACQUIRED
    ensures BeginDequeue(c, isAsync, req).slots[b] == if BadSize(req) then c.slots[b] else Trim(c, isAsync).slots[b]
  {
    hide Trim, MaxBufferCount, FreedSlot, DequeuedSlot, TooManyDequeued, MustWait;
    if Pass(c, isAsync).Found? {
      FoundLeavesRoom(c, isAsync);
    }
  }

  lemma AttachTrims(c: Core, buffer: Buffer, b: nat)
    requires WellFormed(c) && b < NUM_BUFFER_SLOTS && c.slots[b].state == ACQUIRED
    ensures AttachByProducer(c, buffer).slots[b] == Trim(c, false).slots[b]
  {
    hide Trim, MaxBufferCount, TooManyDequeued, MustWait;
    if Pass(c, false).Found? {
      FoundLeavesRoom(c, false);
    }
  }

  lemma PassFrees(c: Core, op: Op, b: nat)
    requires WellFormed(c) && MakesPass(op) && b < NUM_BUFFER_SLOTS && c.slots[b].state == ACQUIRED
    ensures Apply(c, op).slots[b] == if TakenAway(c, op, b) then FreedSlot(c.slots[b]) else c.slots[b]
  {
    hide Trim, Pass, TrimmedAt, FreedSlot, BeginDequeue, AttachByProducer, WellFormed;
    if op.BeginDequeueOp? {
      TrimMoves(c, op.isAsync, b);
      DequeueTrims(c, op.isAsync, op.req, b);
    } else {
      TrimMoves(c, false, b);
      AttachTrims(c, op.buffer, b);
    }
  }

  /** A buffer taken away leaves its slot freed. */
  lemma TakenIsFreed(c: Core, op: Op, b: nat)
    requires WellFormed(c) && b < NUM_BUFFER_SLOTS && c.slots[b].state == ACQUIRED && TakenAway(c, op, b)
    ensures IsFreed(c.slots[b], Apply(c, op).slots[b])
  {
    hide FreedSlot, IsFreed, Apply, TakenAway;
    FreedIsFreed(c.slots[b]);
    if MakesPass(op) {
      PassFrees(c, op, b);
    } else {
      AllTakenAreFreed(c, op, b);
    }
  }

  lemma AllTakenAreFreed(c: Core, op: Op, b: nat)
    requires WellFormed(c) && b < NUM_BUFFER_SLOTS && TakenAway(c, op, b) && !MakesPass(op)
    ensures Apply(c, op).slots[b] == FreedSlot(c.slots[b])
  {
    assert |c.slots| == NUM_BUFFER_SLOTS;
    hide SetBufferCountStatus, FreedSlot, WellFormed;
    if op.SetBufferCountOp? {
      assert SetBufferCount(c, op.count).slots == AllFreed(c.slots);
    } else {
      assert DisconnectProducer(c, op.api).slots == AllFreed(c.slots);
    }
  }

  lemma GivenBackLeaves(c: Core, op: Op, b: nat)
    requires WellFormed(c) && b < NUM_BUFFER_SLOTS && c.slots[b].state == ACQUIRED && GivenBack(c, op, b)
    ensures Apply(c, op).slots[b].state == FREE
  {
    if op.DisconnectConsumerOp? {
      DisconnectFrees(c, b);
      hide DisconnectConsumer;
    } else {
      hide NamesSlot, WellFormed, DisconnectConsumer;
    }
  }

  lemma DisconnectFrees(c: Core, b: nat)
    requires WellFormed(c) && b < NUM_BUFFER_SLOTS && c.hasConsumer
    ensures DisconnectConsumer(c).slots[b].state == FREE
  {
  }

  lemma MoveFromConsumer(c: Core, op: Op, b: nat, t: Slot)
    requires WellFormed(c) && b < NUM_BUFFER_SLOTS && c.slots[b].state == ACQUIRED
    requires SlotMove(c, op, b, t) && t.state != ACQUIRED && !MakesPass(op)
    ensures GivenBack(c, op, b) || TakenAway(c, op, b)
  {
    hide WellFormed, TrimmedAt, SetBufferCountStatus, ReleaseStatus, Resolve, Suits;
  }

  /** For every call: a buffer that the consumer holds leaves its slot if and only if the
      consumer gives it up or the producer takes it away. So the consumer owns it until it
      gives it up, unless the producer takes it away. */
  lemma LeavesConsumerIff(ops: seq<Op>, op: Op, b: nat)
    requires LegalRun(START, ops) && b < NUM_BUFFER_SLOTS && Run(START, ops).core.slots[b].state == ACQUIRED
    ensures var c := Run(START, ops).core;
            Apply(c, op).slots[b].state != ACQUIRED <==> GivenBack(c, op, b) || TakenAway(c, op, b)
  {
    StartInv();
    RunKeepsInv(START, ops);
    var s := Run(START, ops);
    StepMoves(s, op);
    assert WellFormed(s.core);
    hide Inv, Apply, SlotMove, Run, LegalRun, GivenBack, TakenAway, WellFormed;
    var t := Apply(s.core, op).slots[b];
    if MakesPass(op) {
      PassFrees(s.core, op, b);
      NoPassGivesBack(s.core, op, b);
    } else if t.state != ACQUIRED {
      MoveFromConsumer(s.core, op, b, t);
    } else if GivenBack(s.core, op, b) {
      GivenBackLeaves(s.core, op, b);
    } else if TakenAway(s.core, op, b) {
      TakenIsFreed(s.core, op, b);
    }
  }

  lemma NoPassGivesBack(c: Core, op: Op, b: nat)
    requires WellFormed(c) && MakesPass(op)
    ensures !GivenBack(c, op, b)
  {
  }

  /** What the consumer then gets from releaseBuffer: the slot's frame number is no longer
      that of its buffer, the release is stale, and nothing changes. */
  lemma TakenIsStale(c: Core, op: Op, b: nat, fence: Fence)
    requires WellFormed(c) && b < NUM_BUFFER_SLOTS && c.slots[b].state == ACQUIRED && TakenAway(c, op, b)
    requires c.slots[b].frame != FREED_FRAME
    ensures var d := Apply(c, op); var frame := c.slots[b].frame;
            ReleaseStatus(d, b, frame, Some(fence)) == STALE_BUFFER_SLOT && ReleaseBuffer(d, b, frame, Some(fence)) == d
  {
    TakenIsFreed(c, op, b);
    hide Apply, TakenAway, NamesSlot;
  }

  // ---------- what every slot in use holds ----------

  /** A QUEUED slot has a frame number that was issued; an ACQUIRED one has a buffer and a
      frame number that was issued or, if it was attached and never acquired, none. */
  predicate SlotFact(s: Slot, counter: nat) {
    && (s.state == QUEUED ==> 0 < s.frame <= counter)
    && (s.state == ACQUIRED ==> s.buffer.Some? && (if s.acquireCalled then 0 < s.frame <= counter else s.frame == 0))
  }

  predicate SlotFacts(c: Core)
    requires WellFormed(c)
  {
    forall b :: 0 <= b < NUM_BUFFER_SLOTS ==> SlotFact(c.slots[b], c.frameCounter)
  }

  lemma MoveKeepsFact(c: Core, op: Op, b: nat, t: Slot, counter: nat)
    requires WellFormed(c) && b < NUM_BUFFER_SLOTS && SlotMove(c, op, b, t) && SlotFact(c.slots[b], c.frameCounter)
    requires c.frameCounter <= counter
    requires op.QueueBufferOp? && t.state == QUEUED && t != c.slots[b] ==> c.frameCounter < counter
    requires c.slots[b].state == QUEUED ==> c.slots[b].buffer.Some?
    requires op.FinishDequeueOp? ==> t == c.slots[b] || c.slots[b].state == DEQUEUED
    ensures SlotFact(t, counter)
  {
    hide WellFormed, TrimmedAt, SetBufferCountStatus, ReleaseStatus, Resolve, Suits;
  }

  lemma CounterGrows(c: Core, op: Op, b: nat)
    requires WellFormed(c) && b < NUM_BUFFER_SLOTS
    ensures Apply(c, op).frameCounter >= c.frameCounter
    ensures op.QueueBufferOp? && Apply(c, op) != c ==> Apply(c, op).frameCounter > c.frameCounter
  {
    StepConserves(c, op, 0);
    hide WellFormed, Apply;
    if op.QueueBufferOp? {
      QueueCounts(c, op.slot, op.input);
    }
  }

  lemma QueueCounts(c: Core, slot: int, input: QueueInput)
    requires WellFormed(c)
    ensures var op := QueueBufferOp(slot, input); Apply(c, op) != c ==> Apply(c, op).frameCounter == c.frameCounter + 1
  {
    hide QueueStatus;
  }

  lemma QueuedHasBuffer(s: Sys, b: nat)
    requires Inv(s) && b < NUM_BUFFER_SLOTS && s.core.slots[b].state == QUEUED
    ensures s.core.slots[b].buffer.Some?
  {
  }

  /** The allocator fills only the slot of its dequeue. */
  lemma FinishFillsDequeued(s: Sys, op: Op, b: nat)
    requires Inv(s) && Legal(s, op) && op.FinishDequeueOp? && b < NUM_BUFFER_SLOTS
    ensures Apply(s.core, op).slots[b] == s.core.slots[b] || s.core.slots[b].state == DEQUEUED
  {
    hide Corresponds;
  }

  lemma StepKeepsFacts(s: Sys, op: Op)
    requires Inv(s) && Legal(s, op) && SlotFacts(s.core)
    ensures SlotFacts(Apply(s.core, op))
  {
    assert WellFormed(s.core);
    StepMoves(s, op);
    hide Inv, Apply, SlotMove, WellFormed, SlotFact;
    forall b: nat | b < NUM_BUFFER_SLOTS
      ensures SlotFact(Apply(s.core, op).slots[b], Apply(s.core, op).frameCounter)
    {
      CounterGrows(s.core, op, b);
      if s.core.slots[b].state == QUEUED {
        QueuedHasBuffer(s, b);
      }
      if op.FinishDequeueOp? {
        FinishFillsDequeued(s, op, b);
      }
      MoveKeepsFact(s.core, op, b, Apply(s.core, op).slots[b], Apply(s.core, op).frameCounter);
    }
  }

  lemma {:induction false} RunKeepsFacts(ops: seq<Op>)
    requires LegalRun(START, ops)
    ensures Inv(Run(START, ops)) && SlotFacts(Run(START, ops).core)
  {
    hide Inv, SlotFacts, Legal;
    if ops == [] {
      StartInv();
      StartFacts();
    } else {
      RunKeepsFacts(ops[..|ops| - 1]);
      StepKeepsInv(Run(START, ops[..|ops| - 1]), ops[|ops| - 1]);
      StepKeepsFacts(Run(START, ops[..|ops| - 1]), ops[|ops| - 1]);
    }
  }

  lemma StartFacts()
    ensures SlotFacts(NewCore())
  {
  }

  /** So on every run in which the freed number is not issued: a buffer taken away is refused
      as stale when the consumer releases it. */
  lemma LostBufferIsStale(ops: seq<Op>, op: Op, b: nat, fence: Fence)
    requires LegalRun(START, ops) && b < NUM_BUFFER_SLOTS && Run(START, ops).core.slots[b].state == ACQUIRED
    requires TakenAway(Run(START, ops).core, op, b) && Run(START, ops).core.frameCounter < FREED_FRAME
    ensures var c := Run(START, ops).core; var d := Apply(c, op); var frame := c.slots[b].frame;
            ReleaseStatus(d, b, frame, Some(fence)) == STALE_BUFFER_SLOT && ReleaseBuffer(d, b, frame, Some(fence)) == d
  {
    RunKeepsFacts(ops);
    var c := Run(START, ops).core;
    assert SlotFact(c.slots[b], c.frameCounter);
    hide Inv, Run, LegalRun, TakenAway, Apply, ReleaseStatus, ReleaseBuffer;
    TakenIsStale(c, op, b, fence);
  }

  // ---------- the assertion about slots beyond the limit ----------

  /** What a pass asserts before it frees the buffers beyond the limit. */
  predicate FreeBeyondLimit(c: Core, isAsync: bool)
    requires WellFormed(c)
  {
    forall b :: MaxBufferCount(c, isAsync) <= b < NUM_BUFFER_SLOTS ==> c.slots[b].state == FREE
  }

  /** In every reachable state in which a pass gets that far the assertion holds if and only
      if the consumer holds no buffer beyond the limit, that is, if and only if the pass takes
      none away from it. */
  lemma FreeBeyondLimitIff(ops: seq<Op>, isAsync: bool)
    requires LegalRun(START, ops) && Trims(Run(START, ops).core, isAsync)
    ensures var c := Run(START, ops).core;
            && (FreeBeyondLimit(c, isAsync)
                <==> forall b :: MaxBufferCount(c, isAsync) <= b < NUM_BUFFER_SLOTS ==> c.slots[b].state != ACQUIRED)
            && (FreeBeyondLimit(c, isAsync)
                <==> forall b :: 0 <= b < NUM_BUFFER_SLOTS && c.slots[b].state == ACQUIRED ==>
                                   !TrimmedAt(c, isAsync, b))
  {
    RunKeepsFacts(ops);
    var c := Run(START, ops).core;
    BeyondLimit(c, isAsync);
    hide Inv, MaxBufferCount, Run, LegalRun, Trims;
    forall b | MaxBufferCount(c, isAsync) <= b < NUM_BUFFER_SLOTS && c.slots[b].state == ACQUIRED
      ensures TrimmedAt(c, isAsync, b)
    {
      assert SlotFact(c.slots[b], c.frameCounter);
    }
  }
}
