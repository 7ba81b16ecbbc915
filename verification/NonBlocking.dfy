/** In asynchronous mode under application control, dequeueBuffer does not block. */
module NonBlocking {
  import opened BufferQueueTypes
  import opened SlotScans
  import opened BufferQueueSpec
  import opened Correspondence
  import opened QueueRuns
  import opened QueueInvariant
  import opened QueueHistory
  import opened LateFrames

  predicate AllDroppable(queue: seq<Item>) {
    forall i :: 0 <= i < |queue| ==> queue[i].isDroppable
  }

  /** What holds while the connection lasts: the mode, a queue of at most one item, and at
      most one buffer more than the limit acquired. */
  predicate AsyncInv(s: Sys) {
    && Inv(s)
    && AsyncMode(s.core)
    && ShortQueue(s.core.queue)
    && Count(s.core.slots, ACQUIRED, NUM_BUFFER_SLOTS) <= s.core.maxAcquired + 1
  }

  /** The operations that neither end the connection nor set a buffer count. */
  predicate KeepsConnection(op: Op) {
    !op.DisconnectProducerOp? && (op.SetBufferCountOp? ==> op.count == 0)
  }

  predicate KeepsConnections(ops: seq<Op>) {
    forall i :: 0 <= i < |ops| ==> KeepsConnection(ops[i])
  }

  // ---------- the guarantee ----------

  /** At most one slot is QUEUED, because each has its own item. */
  lemma AtMostOneQueued(s: Sys, n: nat)
    requires Inv(s) && |s.core.queue| <= 1 && n <= NUM_BUFFER_SLOTS
    ensures Count(s.core.slots, QUEUED, n) <= 1
  {
    forall a, b | 0 <= a < n && 0 <= b < n && s.core.slots[a].state == QUEUED && s.core.slots[b].state == QUEUED
      ensures a == b
    {
      var i := QueuedSlotHasOneItem(s.core.slots, s.core.queue, a);
      var j := QueuedSlotHasOneItem(s.core.slots, s.core.queue, b);
    }
    hide Inv;
    CountAtMostOne(s.core.slots, QUEUED, n);
  }

  /** The base limit exceeds the buffers that the consumer may hold by two, one of which can
      be queued and one free; in this mode the limits of both values of async are the same. */
  predicate Roomy(c: Core)
    requires WellFormed(c)
  {
    BaseBufferCount(c, false) >= c.maxAcquired + 2
  }

  /** The extra buffer for asynchronous use makes room; without it, the default count may. */
  lemma RoomyIff(c: Core)
    requires WellFormed(c) && c.cannotBlock && c.overrideMax == 0
    ensures Roomy(c) <==> c.useAsyncBuffer || c.defaultMax >= c.maxAcquired + 2
    ensures BaseBufferCount(c, true) == BaseBufferCount(c, false)
  {
  }

  /** With nothing dequeued, a pass finds a slot, or waits because the consumer holds the
      one extra buffer that it is briefly allowed. If there is room it never reports that it
      would block. */
  lemma NeverWouldBlock(s: Sys, isAsync: bool)
    requires AsyncInv(s) && !s.core.abandoned
    ensures var c := s.core; var max := MaxBufferCount(c, isAsync); var pass := Pass(c, isAsync);
            && (Count(c.slots, DEQUEUED, NUM_BUFFER_SLOTS) > 0 <==> pass == Fail(INVALID_OPERATION))
            && (Roomy(c) ==> pass != Fail(WOULD_BLOCK))
            && (Roomy(c) && Count(c.slots, DEQUEUED, NUM_BUFFER_SLOTS) == 0 ==>
                  pass.Found? || (pass == Wait && Count(c.slots, ACQUIRED, max) == c.maxAcquired + 1))
  {
    var c := s.core;
    var max := MaxBufferCount(c, isAsync);
    AtMostOneQueued(s, max);
    hide Inv;
    BeyondLimit(c, isAsync);
    CountPrefix(c.slots, DEQUEUED, max, NUM_BUFFER_SLOTS);
    CountPrefix(c.slots, ACQUIRED, max, NUM_BUFFER_SLOTS);
    CountTotal(c.slots, max);
    CountZero(c.slots, FREE, max);
    OldestIsOldest(c.slots, max, false);
    assert forall k :: 0 <= k < max ==> (Eligible(c.slots[k], false) <==> c.slots[k].state == FREE);
  }

  // ---------- the invariant ----------

  /** No slot becomes ACQUIRED. */
  predicate NoneAcquires(c: Core, d: Core)
    requires WellFormed(c) && WellFormed(d)
  {
    forall b :: 0 <= b < NUM_BUFFER_SLOTS && d.slots[b].state == ACQUIRED ==> c.slots[b].state == ACQUIRED
  }

  lemma {:induction false} DropLateAcquiresNone(c: Core, expected: int)
    requires WellFormed(c)
    ensures NoneAcquires(c, DropLate(c, expected))
    decreases |c.queue|
  {
    if DropsFront(c.queue, expected) {
      DropLateAcquiresNone(DropFront(c), expected);
    }
  }

  lemma FreeAllAcquiresNone(c: Core, op: Op)
    requires WellFormed(c) && (op.SetBufferCountOp? || op.DisconnectConsumerOp?)
    ensures NoneAcquires(c, Apply(c, op))
  {
  }

  lemma TrimAcquiresNone(c: Core, isAsync: bool)
    requires WellFormed(c)
    ensures NoneAcquires(c, Trim(c, isAsync))
  {
    hide MaxBufferCount, Trims;
  }

  lemma DequeueAcquiresNone(c: Core, isAsync: bool, req: Request)
    requires WellFormed(c)
    ensures NoneAcquires(c, BeginDequeue(c, isAsync, req))
  {
    hide Trim, Pass, Resolve, BadSize;
    TrimAcquiresNone(c, isAsync);
  }

  lemma AttachAcquiresNone(c: Core, buffer: Buffer)
    requires WellFormed(c)
    ensures NoneAcquires(c, AttachByProducer(c, buffer))
  {
    hide Trim, Pass;
    TrimAcquiresNone(c, false);
  }

  lemma OverwritingAcquiresNone(slots: seq<Slot>, front: Item, b: nat)
    requires front.slot < |slots| && b < |slots|
    ensures OverwrittenSlots(slots, front)[b].state == ACQUIRED ==> slots[b].state == ACQUIRED
  {
  }

  lemma QueueAcquiresNone(c: Core, slot: int, input: QueueInput)
    requires WellFormed(c)
    ensures NoneAcquires(c, QueueBuffer(c, slot, input))
  {
    if QueueStatus(c, slot, input) == NO_ERROR {
      var marked := MarkQueued(c, slot, input);
      hide QueueStatus, OverwrittenSlots;
      if Overwrites(c) {
        forall b: nat | b < NUM_BUFFER_SLOTS {
          OverwritingAcquiresNone(marked, c.queue[0], b);
        }
      }
    }
  }

  lemma InstallOpAcquiresNone(c: Core, op: Op)
    requires WellFormed(c) && op.InstallBuffersOp?
    ensures NoneAcquires(c, Apply(c, op))
  {
    if InstallFits(op) {
      InstallKeepsStates(c.slots, op.targets, op.buffers, |op.buffers|);
    }
  }

  lemma OwnedSlotAcquiresNone(c: Core, op: Op)
    requires WellFormed(c)
    requires op.RequestBufferOp? || op.FinishDequeueOp? || op.DetachByProducerOp? || op.CancelBufferOp?
    ensures NoneAcquires(c, Apply(c, op))
  {
  }

  lemma DetachNextAcquiresNone(c: Core)
    requires WellFormed(c)
    ensures NoneAcquires(c, DetachNext(c))
  {
  }

  lemma DetachAcquiresNone(c: Core, slot: int)
    requires WellFormed(c)
    ensures NoneAcquires(c, DetachByConsumer(c, slot))
  {
  }

  lemma ReleaseAcquiresNone(c: Core, slot: int, frame: nat, fence: Option<Fence>)
    requires WellFormed(c)
    ensures NoneAcquires(c, ReleaseBuffer(c, slot, frame, fence))
  {
    hide NamesSlot;
  }

  predicate TakesForConsumer(op: Op) {
    op.AcquireBufferOp? || op.AttachByConsumerOp?
  }

  lemma OthersAcquireNone(c: Core, op: Op)
    requires WellFormed(c) && !TakesForConsumer(op) && !op.DisconnectProducerOp?
    ensures NoneAcquires(c, Apply(c, op))
  {
    hide NoneAcquires, WellFormed;
    match op {
      case SetBufferCountOp(_) => FreeAllAcquiresNone(c, op);
      case DisconnectConsumerOp => FreeAllAcquiresNone(c, op);
      case BeginDequeueOp(isAsync, req) => DequeueAcquiresNone(c, isAsync, req);
      case AttachByProducerOp(buffer) => AttachAcquiresNone(c, buffer);
      case QueueBufferOp(slot, input) => QueueAcquiresNone(c, slot, input);
      case InstallBuffersOp(_, _) => InstallOpAcquiresNone(c, op);
      case RequestBufferOp(_) => OwnedSlotAcquiresNone(c, op);
      case FinishDequeueOp(_, _) => OwnedSlotAcquiresNone(c, op);
      case DetachByProducerOp(_) => OwnedSlotAcquiresNone(c, op);
      case CancelBufferOp(_, _) => OwnedSlotAcquiresNone(c, op);
      case DetachNextOp => DetachNextAcquiresNone(c);
      case DetachByConsumerOp(slot) => DetachAcquiresNone(c, slot);
      case ReleaseBufferOp(slot, frame, fence) => ReleaseAcquiresNone(c, slot, frame, fence);
      case _ => SettingsAcquireNone(c, op);
    }
  }

  lemma SettingsAcquireNone(c: Core, op: Op)
    requires WellFormed(c) && TouchesNoSlot(op)
    ensures NoneAcquires(c, Apply(c, op))
  {
    hide ConnectProducer, ConnectConsumer, SetDefaultMax, SetMaxAcquired, DisableAsyncBuffer, SetDefaults;
  }

  /** Acquiring checks the limit first, and takes one buffer. */
  lemma AcquiringIsLimited(c: Core, expected: int)
    requires WellFormed(c) && Count(c.slots, ACQUIRED, NUM_BUFFER_SLOTS) <= c.maxAcquired + 1
    ensures Count(AcquireBuffer(c, expected).slots, ACQUIRED, NUM_BUFFER_SLOTS) <= c.maxAcquired + 1
  {
    hide DropLate, Deferred, Count;
    DropLateAcquiresNone(c, expected);
    var p := Pruned(c, expected);
    CountMonotone(p.slots, c.slots, ACQUIRED, NUM_BUFFER_SLOTS);
    if AcquireStatus(c, expected) == NO_ERROR && Tracks(p.slots, p.queue[0]) {
      var b := p.queue[0].slot;
      CountUpdate(p.slots, ACQUIRED, NUM_BUFFER_SLOTS, b, AcquiredSlot(p.slots[b]));
    }
  }

  /** So does attaching. */
  lemma AttachingIsLimited(c: Core, buffer: Buffer)
    requires WellFormed(c) && Count(c.slots, ACQUIRED, NUM_BUFFER_SLOTS) <= c.maxAcquired + 1
    ensures Count(AttachByConsumer(c, buffer).slots, ACQUIRED, NUM_BUFFER_SLOTS) <= c.maxAcquired + 1
  {
    hide Count, Oldest;
    if AttachByConsumerStatus(c) == NO_ERROR {
      var b := Oldest(c.slots, NUM_BUFFER_SLOTS, false);
      CountUpdate(c.slots, ACQUIRED, NUM_BUFFER_SLOTS, b, AttachByConsumer(c, buffer).slots[b]);
    }
  }

  lemma TakingIsLimited(c: Core, op: Op)
    requires WellFormed(c) && TakesForConsumer(op)
    requires Count(c.slots, ACQUIRED, NUM_BUFFER_SLOTS) <= c.maxAcquired + 1
    ensures Count(Apply(c, op).slots, ACQUIRED, NUM_BUFFER_SLOTS) <= c.maxAcquired + 1
  {
    hide AcquireBuffer, AttachByConsumer, Count, WellFormed;
    if op.AcquireBufferOp? {
      AcquiringIsLimited(c, op.expected);
    } else {
      AttachingIsLimited(c, op.buffer);
    }
  }

  predicate ChangesMode(op: Op) {
    || op.SetBufferCountOp? || op.ConnectProducerOp? || op.DisconnectProducerOp? || op.ConnectConsumerOp?
    || op.DisconnectConsumerOp? || op.SetDefaultMaxOp? || op.SetMaxAcquiredOp? || op.DisableAsyncBufferOp?
  }

  lemma OthersKeepMode(c: Core, op: Op)
    requires WellFormed(c) && !ChangesMode(op)
    ensures SameMode(c, Apply(c, op))
  {
    hide MaxBufferCount, RequestBuffer, BeginDequeue, FinishDequeue, DetachByProducer, QueueBuffer, AcquireBuffer;
    hide DetachNext, AttachByProducer, CancelBuffer, InstallBuffers, WellFormed, InstallFits;
    hide DetachByConsumer, AttachByConsumer, ReleaseBuffer, SetDefaultMax, SetDefaults;
  }

  predicate AsyncMode(c: Core) {
    && c.connectedApi != NO_CONNECTED_API && c.cannotBlock && c.overrideMax == 0
    && (!c.abandoned ==> c.hasConsumer)
  }

  /** The mode outlasts every operation that keeps the connection. */
  lemma ModeStays(c: Core, op: Op)
    requires WellFormed(c) && KeepsConnection(op) && AsyncMode(c)
    ensures AsyncMode(Apply(c, op)) && Apply(c, op).maxAcquired == c.maxAcquired
  {
    hide WellFormed;
    if !ChangesMode(op) {
      OthersKeepMode(c, op);
      hide Apply;
    } else {
      hide SetBufferCountStatus;
    }
  }

  predicate ShortQueue(queue: seq<Item>) {
    |queue| <= 1 && AllDroppable(queue)
  }

  lemma AcquireStaysShort(c: Core, expected: int)
    requires WellFormed(c) && ShortQueue(c.queue)
    ensures ShortQueue(AcquireBuffer(c, expected).queue)
  {
    hide WellFormed, Pruned;
    if AcquireStatus(c, expected) == NO_ERROR {
      AcquireSplitsQueue(c, expected);
      hide AcquireBuffer, AcquireStatus, DropCount;
    } else if AcquireStatus(c, expected) == PRESENT_LATER {
      PresentLaterChangesNothing(c, expected);
    }
  }

  lemma QueueingStaysShort(c: Core, slot: int, input: QueueInput)
    requires WellFormed(c) && c.cannotBlock && ShortQueue(c.queue)
    ensures ShortQueue(QueueBuffer(c, slot, input).queue)
  {
    hide WellFormed, QueueStatus;
    if QueueStatus(c, slot, input) == NO_ERROR {
      QueueBufferItems(c, slot, input);
      hide QueueBuffer;
    }
  }

  lemma QueueStaysShort(c: Core, op: Op)
    requires WellFormed(c) && c.cannotBlock && ShortQueue(c.queue)
    ensures ShortQueue(Apply(c, op).queue)
  {
    hide WellFormed;
    if op.AcquireBufferOp? {
      hide ShortQueue;
      AcquireStaysShort(c, op.expected);
    } else if op.QueueBufferOp? {
      hide ShortQueue;
      QueueingStaysShort(c, op.slot, op.input);
    } else if !op.DisconnectConsumerOp? {
      OthersKeepQueue(c, op);
      hide Apply;
    }
  }

  lemma StepKeepsAsync(s: Sys, op: Op)
    requires AsyncInv(s) && Legal(s, op) && KeepsConnection(op)
    ensures AsyncInv(Next(s, op))
  {
    StepKeepsInv(s, op);
    ModeStays(s.core, op);
    QueueStaysShort(s.core, op);
    hide Inv, Apply, KeepsConnection;
    if TakesForConsumer(op) {
      TakingIsLimited(s.core, op);
    } else {
      OthersAcquireNone(s.core, op);
      CountMonotone(Apply(s.core, op).slots, s.core.slots, ACQUIRED, NUM_BUFFER_SLOTS);
    }
  }

  /** A state in which an application's producer has just connected to an application's
      consumer, with nothing in use. */
  predicate JustConnected(s: Sys) {
    && Inv(s) && s.pending == {}
    && s.core.connectedApi != NO_CONNECTED_API && s.core.cannotBlock && !s.core.abandoned
    && s.core.overrideMax == 0 && s.core.queue == []
    && forall b :: 0 <= b < NUM_BUFFER_SLOTS ==> s.core.slots[b].state == FREE
  }

  /** Connecting establishes that state. */
  lemma ConnectingStarts(s: Sys, api: int, listens: bool)
    requires Inv(s) && s.pending == {} && ConnectProducerStatus(s.core, api) == NO_ERROR
    requires s.core.consumerByApp && s.core.overrideMax == 0 && s.core.queue == []
    requires forall b :: 0 <= b < NUM_BUFFER_SLOTS ==> s.core.slots[b].state == FREE
    ensures JustConnected(Next(s, ConnectProducerOp(api, true, listens)))
  {
    KeepsSettings(s, ConnectProducerOp(api, true, listens));
    hide Inv;
  }

  lemma {:induction false} AsyncRunInv(s: Sys, ops: seq<Op>)
    requires JustConnected(s) && LegalRun(s, ops) && KeepsConnections(ops)
    ensures AsyncInv(Run(s, ops))
  {
    if ops == [] {
      CountZero(s.core.slots, ACQUIRED, NUM_BUFFER_SLOTS);
    } else {
      hide AsyncInv, JustConnected, Inv, Next, Legal;
      AsyncRunInv(s, ops[..|ops| - 1]);
      StepKeepsAsync(Run(s, ops[..|ops| - 1]), ops[|ops| - 1]);
    }
  }

  /** The guarantee on every run of the connection: whenever there is room, nothing is
      dequeued and the consumer holds no more than its limit, dequeueBuffer finds a FREE slot at once. */
  lemma DequeueDoesNotBlock(s: Sys, ops: seq<Op>, isAsync: bool)
    requires JustConnected(s) && LegalRun(s, ops) && KeepsConnections(ops)
    ensures var c := Run(s, ops).core;
            !c.abandoned && Roomy(c) ==>
              && Pass(c, isAsync) != Fail(WOULD_BLOCK)
              && (&& Count(c.slots, DEQUEUED, NUM_BUFFER_SLOTS) == 0
                  && Count(c.slots, ACQUIRED, NUM_BUFFER_SLOTS) <= c.maxAcquired
                  ==> Pass(c, isAsync).Found?)
  {
    AsyncRunInv(s, ops);
    hide Inv, JustConnected, LegalRun, Roomy;
    var t := Run(s, ops);
    if !t.core.abandoned && Roomy(t.core) {
      NeverWouldBlock(t, isAsync);
      CountPrefix(t.core.slots, ACQUIRED, MaxBufferCount(t.core, isAsync), NUM_BUFFER_SLOTS);
    }
  }
}
