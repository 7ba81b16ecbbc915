/** What a call may do to one slot: every change of a slot that a locked section can make. */
module SlotMoves {
  import opened BufferQueueTypes
  import opened SlotScans
  import opened BufferQueueSpec
  import opened Correspondence
  import opened QueueRuns
  import opened QueueInvariant

  /** A pass frees the buffer of slot b, which lies beyond the limit. */
  predicate TrimmedAt(c: Core, isAsync: bool, b: nat)
    requires WellFormed(c) && b < NUM_BUFFER_SLOTS
  {
    Trims(c, isAsync) && MaxBufferCount(c, isAsync) <= b && c.slots[b].buffer.Some?
  }

  function FilledByProducer(s: Slot, buffer: Buffer): Slot {
    s.(buffer := Some(buffer), state := DEQUEUED, fence := NO_FENCE, requestCalled := true)
  }

  function FilledByConsumer(s: Slot, buffer: Buffer): Slot {
    s.(buffer := Some(buffer), state := ACQUIRED, attachedByConsumer := true, needsCleanup := false,
       fence := NO_FENCE, frame := 0, acquireCalled := false)
  }

  /** A slot is freed: FREE, without buffer, fence or frame number, unseen, and marked for a
      late release if the consumer held it. */
  predicate IsFreed(s: Slot, t: Slot) {
    && t.state == FREE && t.buffer == None && t.frame == 0xFFFF_FFFF && t.fence == NO_FENCE && !t.acquireCalled
    && t.needsCleanup == (s.needsCleanup || s.state == ACQUIRED)
    && t.requestCalled == s.requestCalled && t.attachedByConsumer == s.attachedByConsumer
  }

  lemma FreedIsFreed(s: Slot)
    ensures IsFreed(s, FreedSlot(s))
  {
  }

  /** Slot b, unless it stays as it is, becomes t. */
  predicate SlotMove(c: Core, op: Op, b: nat, t: Slot)
    requires WellFormed(c) && b < NUM_BUFFER_SLOTS
  {
    var s := c.slots[b];
    || t == s
    || match op
       case RequestBufferOp(slot) => slot == b && s.state == DEQUEUED && t == s.(requestCalled := true)
       case SetBufferCountOp(n) =>
         s.state != DEQUEUED && n != 0 && SetBufferCountStatus(c, n) == NO_ERROR && IsFreed(s, t)
       case BeginDequeueOp(isAsync, req) =>
         || (!InUse(s) && TrimmedAt(c, isAsync, b) && IsFreed(s, t))
         || (s.state == FREE
             && (|| t == s.(state := DEQUEUED, fence := NO_FENCE)
                 || t == s.(state := DEQUEUED, fence := NO_FENCE, buffer := None,
                            acquireCalled := false, requestCalled := false)))
       case FinishDequeueOp(slot, buffer) => slot == b && t == s.(frame := 0xFFFF_FFFF, buffer := Some(buffer))
       case DetachByProducerOp(slot) => slot == b && s.state == DEQUEUED && IsFreed(s, t)
       case DetachNextOp => s.state == FREE && IsFreed(s, t)
       case AttachByProducerOp(buffer) =>
         || (!InUse(s) && TrimmedAt(c, false, b) && IsFreed(s, t))
         || (s.state == FREE && t == FilledByProducer(s, buffer))
       case QueueBufferOp(slot, input) =>
         || (slot == b && s.state == DEQUEUED && input.fence.Some?
             && t == s.(fence := input.fence.value, state := QUEUED, frame := c.frameCounter + 1))
         || (s.state == QUEUED && t == s.(state := FREE, frame := 0))
       case CancelBufferOp(slot, fence) =>
         slot == b && s.state == DEQUEUED && fence.Some? && t == s.(state := FREE, frame := 0, fence := fence.value)
       case DisconnectProducerOp(api) => !c.abandoned && KnownApi(api) && c.connectedApi == api && IsFreed(s, t)
       case InstallBuffersOp(_, _) =>
         s.state == FREE && t.buffer.Some? && IsFreed(s, t.(buffer := None, frame := 0xFFFF_FFFF)) && t.frame == 0
       case AcquireBufferOp(_) =>
         && s.state == QUEUED
         && (|| t == s.(state := FREE)
             || t == s.(state := ACQUIRED, acquireCalled := true, needsCleanup := false, fence := NO_FENCE))
       case DetachByConsumerOp(slot) => slot == b && s.state == ACQUIRED && !c.abandoned && IsFreed(s, t)
       case AttachByConsumerOp(buffer) => s.state == FREE && t == FilledByConsumer(s, buffer)
       case ReleaseBufferOp(slot, frame, fence) =>
         && slot == b && fence.Some?
         && (|| (&& ReleaseStatus(c, slot, frame, fence) == NO_ERROR && s.state == ACQUIRED
                 && t == s.(state := FREE, fence := fence.value))
             || (s.state != ACQUIRED && s.state != QUEUED && t == s.(needsCleanup := false)))
       case DisconnectConsumerOp => c.hasConsumer && IsFreed(s, t)
       case _ => false
  }

  /** Every slot makes such a move. */
  predicate Moves(c: Core, op: Op, d: Core)
    requires WellFormed(c) && WellFormed(d)
  {
    forall b :: 0 <= b < NUM_BUFFER_SLOTS ==> SlotMove(c, op, b, d.slots[b])
  }

  lemma OneMove(c: Core, op: Op, d: Core, b: nat, t: Slot)
    requires WellFormed(c) && WellFormed(d) && b < NUM_BUFFER_SLOTS
    requires d.slots == c.slots[b := t] && SlotMove(c, op, b, t)
    ensures Moves(c, op, d)
  {
  }

  lemma NoMove(c: Core, op: Op, d: Core)
    requires WellFormed(c) && WellFormed(d) && d.slots == c.slots
    ensures Moves(c, op, d)
  {
  }

  // ---------- passes ----------

  lemma TrimMoves(c: Core, isAsync: bool, b: nat)
    requires WellFormed(c) && b < NUM_BUFFER_SLOTS
    ensures Trim(c, isAsync).slots[b] == (if TrimmedAt(c, isAsync, b) then FreedSlot(c.slots[b]) else c.slots[b])
    ensures TrimmedAt(c, isAsync, b) ==> !InUse(c.slots[b])
  {
    BeyondLimit(c, isAsync);
    hide MaxBufferCount;
  }

  /** The slots after a pass that takes a slot. */
  lemma TakingMoves(c: Core, isAsync: bool, op: Op, d: Core, t: Slot)
    requires WellFormed(c) && WellFormed(d) && Pass(c, isAsync).Found?
    requires (op.BeginDequeueOp? && op.isAsync == isAsync) || (op.AttachByProducerOp? && !isAsync)
    requires d.slots == Trim(c, isAsync).slots[Pass(c, isAsync).slot := t]
    requires var b := Pass(c, isAsync).slot; c.slots[b].state == FREE ==> SlotMove(c, op, b, t)
    ensures Moves(c, op, d)
  {
    FoundLeavesRoom(c, isAsync);
    hide Trim, Pass, MaxBufferCount, TrimmedAt, FreedSlot, DequeuedSlot;
    forall b: nat | b < NUM_BUFFER_SLOTS
      ensures SlotMove(c, op, b, d.slots[b])
    {
      FreedIsFreed(c.slots[b]);
      TrimMoves(c, isAsync, b);
    }
  }

  lemma TrimOnlyMoves(c: Core, isAsync: bool, op: Op)
    requires WellFormed(c)
    requires (op.BeginDequeueOp? && op.isAsync == isAsync) || (op.AttachByProducerOp? && !isAsync)
    ensures Moves(c, op, Trim(c, isAsync))
  {
    hide Trim, Pass, MaxBufferCount, TrimmedAt, FreedSlot, DequeuedSlot;
    forall b: nat | b < NUM_BUFFER_SLOTS
      ensures SlotMove(c, op, b, Trim(c, isAsync).slots[b])
    {
      FreedIsFreed(c.slots[b]);
      TrimMoves(c, isAsync, b);
    }
  }

  lemma DequeueMoves(c: Core, isAsync: bool, req: Request)
    requires WellFormed(c)
    ensures Moves(c, BeginDequeueOp(isAsync, req), BeginDequeue(c, isAsync, req))
  {
    var op, d := BeginDequeueOp(isAsync, req), BeginDequeue(c, isAsync, req);
    hide Trim, Pass, Moves, Suits, MaxBufferCount, Resolve, DequeuedSlot;
    NoMove(c, op, c);
    TrimOnlyMoves(c, isAsync, op);
    if !BadSize(req) && Pass(c, isAsync).Found? {
      var b := Pass(c, isAsync).slot;
      FoundLeavesRoom(c, isAsync);
      TrimKeepsLow(c, isAsync, b);
      TakingMoves(c, isAsync, op, d, DequeuedSlot(c.slots[b], Resolve(c, req)));
    }
  }

  lemma ProducerAttachMoves(c: Core, buffer: Buffer)
    requires WellFormed(c)
    ensures Moves(c, AttachByProducerOp(buffer), AttachByProducer(c, buffer))
  {
    var op, d := AttachByProducerOp(buffer), AttachByProducer(c, buffer);
    hide Trim, Pass, Moves, MaxBufferCount;
    TrimOnlyMoves(c, false, op);
    if Pass(c, false).Found? {
      var b := Pass(c, false).slot;
      FoundLeavesRoom(c, false);
      TrimKeepsLow(c, false, b);
      TakingMoves(c, false, op, d, FilledByProducer(c.slots[b], buffer));
    }
  }

  // ---------- queueing and acquiring ----------

  lemma QueueMoves(s: Sys, slot: int, input: QueueInput)
    requires Inv(s)
    ensures Moves(s.core, QueueBufferOp(slot, input), QueueBuffer(s.core, slot, input))
  {
    var c := s.core;
    assert WellFormed(c);
    if QueueStatus(c, slot, input) == NO_ERROR {
      assert Corresponds(c.slots, c.queue) && c.slots[slot].state == DEQUEUED && input.fence.Some?;
      hide Inv, MaxBufferCount, Corresponds, QueueBuffer, QueueStatus;
      forall b: nat | b < NUM_BUFFER_SLOTS
        ensures SlotMove(c, QueueBufferOp(slot, input), b, QueueBuffer(c, slot, input).slots[b])
      {
        QueueBufferSlots(c, slot, input, b);
      }
    }
  }

  lemma FrontIsQueued(s: Sys)
    requires Inv(s) && |s.core.queue| > 0 && Tracks(s.core.slots, s.core.queue[0])
    ensures s.core.slots[s.core.queue[0].slot].state == QUEUED
  {
    TrackedItemMatches(s.core.slots, s.core.queue, 0);
  }

  /** Slots stay, or go from QUEUED to FREE. */
  predicate OnlyDrops(c: Core, d: Core)
    requires WellFormed(c) && WellFormed(d)
  {
    forall b :: 0 <= b < NUM_BUFFER_SLOTS ==>
                  d.slots[b] == c.slots[b] || (c.slots[b].state == QUEUED && d.slots[b] == DroppedSlot(c.slots[b]))
  }

  lemma FrontMoves(slots: seq<Slot>, front: Item, b: nat)
    requires front.slot < |slots| && b < |slots|
    requires Tracks(slots, front) ==> slots[front.slot].state == QUEUED
    ensures || DroppedSlots(slots, front)[b] == slots[b]
            || (slots[b].state == QUEUED && DroppedSlots(slots, front)[b] == DroppedSlot(slots[b]))
    ensures || TakenSlots(slots, front)[b] == slots[b]
            || (slots[b].state == QUEUED && TakenSlots(slots, front)[b] == AcquiredSlot(slots[b]))
  {
    hide Tracks;
  }

  /** What leaves the front of the queue does to the slots. */
  lemma FrontLeavesSlots(c: Core)
    requires WellFormed(c) && |c.queue| > 0
    ensures var front := c.queue[0];
            && front.slot < |c.slots| == NUM_BUFFER_SLOTS
            && DropFront(c).slots == DroppedSlots(c.slots, front) && TakeFront(c).slots == TakenSlots(c.slots, front)
  {
    hide DroppedSlots, TakenSlots;
  }

  lemma DropMoves(s: Sys)
    requires Inv(s) && |s.core.queue| > 0
    ensures OnlyDrops(s.core, DropFront(s.core))
  {
    assert WellFormed(s.core);
    hide Inv, Tracks, DroppedSlots, WellFormed, DropFront, TakeFront, TakenSlots;
    FrontLeavesSlots(s.core);
    if Tracks(s.core.slots, s.core.queue[0]) {
      FrontIsQueued(s);
    }
    forall b: nat | b < NUM_BUFFER_SLOTS {
      FrontMoves(s.core.slots, s.core.queue[0], b);
    }
  }

  lemma {:induction false} DropLateMoves(s: Sys, expected: int)
    requires Inv(s)
    ensures Inv(Sys(DropLate(s.core, expected), s.pending))
    ensures OnlyDrops(s.core, DropLate(s.core, expected))
    decreases |s.core.queue|
  {
    assert WellFormed(s.core);
    hide Inv, DropFront;
    if DropsFront(s.core.queue, expected) {
      DropMoves(s);
      KeepsDropFront(s);
      DropLateMoves(Sys(DropFront(s.core), s.pending), expected);
    }
  }

  lemma TakeMoves(s: Sys)
    requires Inv(s) && |s.core.queue| > 0
    ensures forall b :: 0 <= b < NUM_BUFFER_SLOTS ==>
              || TakeFront(s.core).slots[b] == s.core.slots[b]
              || (s.core.slots[b].state == QUEUED && TakeFront(s.core).slots[b] == AcquiredSlot(s.core.slots[b]))
  {
    assert WellFormed(s.core);
    hide Inv, Tracks, DroppedSlots, WellFormed, DropFront, TakeFront, TakenSlots;
    FrontLeavesSlots(s.core);
    if Tracks(s.core.slots, s.core.queue[0]) {
      FrontIsQueued(s);
    }
    forall b: nat | b < NUM_BUFFER_SLOTS {
      FrontMoves(s.core.slots, s.core.queue[0], b);
    }
  }

  lemma AcquireShapes(c: Core, expected: int)
    requires WellFormed(c)
    ensures var p := Pruned(c, expected); var d := AcquireBuffer(c, expected);
            d == c || d == p || (p.queue != [] && d == TakeFront(p))
  {
    hide WellFormed, Pruned, TakeFront, AtAcquireLimit, Deferred;
  }

  lemma AcquireMoves(s: Sys, expected: int)
    requires Inv(s)
    ensures Moves(s.core, AcquireBufferOp(expected), AcquireBuffer(s.core, expected))
  {
    assert WellFormed(s.core);
    hide Inv, DropLate, TakeFront, AcquireBuffer, AcquireStatus;
    AcquireShapes(s.core, expected);
    DropLateMoves(s, expected);
    var p := Pruned(s.core, expected);
    assert OnlyDrops(s.core, p);
    if p.queue != [] {
      TakeMoves(Sys(p, s.pending));
    }
  }

  // ---------- one slot ----------

  lemma OwnedMoves(c: Core, op: Op)
    requires WellFormed(c)
    requires op.RequestBufferOp? || op.DetachByProducerOp? || op.CancelBufferOp? || op.DetachByConsumerOp?
    ensures Moves(c, op, Apply(c, op))
  {
    var d := Apply(c, op);
    if d != c {
      OneMove(c, op, d, op.slot, d.slots[op.slot]);
    }
  }

  lemma DetachNextMoves(c: Core)
    requires WellFormed(c)
    ensures Moves(c, DetachNextOp, DetachNext(c))
  {
    hide Oldest;
    var d := DetachNext(c);
    if d != c {
      var b := Oldest(c.slots, NUM_BUFFER_SLOTS, true);
      OneMove(c, DetachNextOp, d, b, d.slots[b]);
    }
  }

  lemma ConsumerAttachMoves(c: Core, buffer: Buffer)
    requires WellFormed(c)
    ensures Moves(c, AttachByConsumerOp(buffer), AttachByConsumer(c, buffer))
  {
    hide Oldest, AtAcquireLimit;
    var d := AttachByConsumer(c, buffer);
    if d != c {
      var b := Oldest(c.slots, NUM_BUFFER_SLOTS, false);
      OneMove(c, AttachByConsumerOp(buffer), d, b, d.slots[b]);
    }
  }

  lemma ReleaseMoves(s: Sys, slot: int, frame: nat, fence: Option<Fence>)
    requires Inv(s)
    ensures Moves(s.core, ReleaseBufferOp(slot, frame, fence), ReleaseBuffer(s.core, slot, frame, fence))
  {
    var c := s.core;
    assert WellFormed(c);
    var d := ReleaseBuffer(c, slot, frame, fence);
    if d != c {
      if c.slots[slot].state == QUEUED {
        QueuedIsNamed(c, slot);
      }
      hide NamesSlot, Inv;
      OneMove(c, ReleaseBufferOp(slot, frame, fence), d, slot, d.slots[slot]);
    }
  }

  lemma FinishMoves(c: Core, b: nat, buffer: Buffer)
    requires WellFormed(c) && b < NUM_BUFFER_SLOTS
    ensures Moves(c, FinishDequeueOp(b, buffer), FinishDequeue(c, b, buffer))
  {
  }

  // ---------- all slots ----------

  lemma SetCountMoves(c: Core, n: int)
    requires WellFormed(c)
    ensures Moves(c, SetBufferCountOp(n), SetBufferCount(c, n))
  {
    hide Count;
    CountZero(c.slots, DEQUEUED, NUM_BUFFER_SLOTS);
  }

  lemma DisconnectMoves(c: Core, op: Op)
    requires WellFormed(c) && (op.DisconnectProducerOp? || op.DisconnectConsumerOp?)
    ensures Moves(c, op, Apply(c, op))
  {
  }

  lemma {:induction false} InstalledSlot(slots: seq<Slot>, targets: seq<nat>, buffers: seq<Buffer>, n: nat, b: nat)
    requires n <= |targets| && n <= |buffers| && b < |slots|
    requires forall k :: 0 <= k < |targets| ==> targets[k] < |slots|
    ensures var s, t := slots[b], Installed(slots, targets, buffers, n)[b];
            t == s || (s.state == FREE && t.buffer.Some? && t == FreedSlot(s).(buffer := t.buffer, frame := 0))
  {
    if n > 0 {
      InstalledSlot(slots, targets, buffers, n - 1, b);
    }
  }

  lemma InstallMoves(c: Core, op: Op)
    requires WellFormed(c) && op.InstallBuffersOp? && InstallFits(op)
    ensures Moves(c, op, InstallBuffers(c, op.targets, op.buffers))
  {
    hide Installed;
    forall b: nat | b < NUM_BUFFER_SLOTS
      ensures SlotMove(c, op, b, InstallBuffers(c, op.targets, op.buffers).slots[b])
    {
      InstalledSlot(c.slots, op.targets, op.buffers, |op.buffers|, b);
    }
  }

  // ---------- every call ----------

  /** Every call makes only such moves. */
  lemma StepMoves(s: Sys, op: Op)
    requires Inv(s)
    ensures Moves(s.core, op, Apply(s.core, op))
  {
    assert WellFormed(s.core);
    hide Inv, Moves, WellFormed, InstallFits;
    var c := s.core;
    match op {
      case BeginDequeueOp(isAsync, req) => DequeueMoves(c, isAsync, req);
      case AttachByProducerOp(buffer) => ProducerAttachMoves(c, buffer);
      case QueueBufferOp(slot, input) => QueueMoves(s, slot, input);
      case AcquireBufferOp(expected) => AcquireMoves(s, expected);
      case InstallBuffersOp(_, _) => if InstallFits(op) { InstallMoves(c, op); } else { NoMove(c, op, c); }
      case SetBufferCountOp(n) => SetCountMoves(c, n);
      case DisconnectProducerOp(_) => DisconnectMoves(c, op);
      case DisconnectConsumerOp => DisconnectMoves(c, op);
      case FinishDequeueOp(b, buffer) =>
        if b < NUM_BUFFER_SLOTS { FinishMoves(c, b, buffer); } else { NoMove(c, op, c); }
      case RequestBufferOp(_) => OwnedMoves(c, op);
      case DetachByProducerOp(_) => OwnedMoves(c, op);
      case CancelBufferOp(_, _) => OwnedMoves(c, op);
      case DetachByConsumerOp(_) => OwnedMoves(c, op);
      case DetachNextOp => DetachNextMoves(c);
      case AttachByConsumerOp(buffer) => ConsumerAttachMoves(c, buffer);
      case ReleaseBufferOp(slot, frame, fence) => ReleaseMoves(s, slot, frame, fence);
      case _ => SettingsKeepSlots(c, op); NoMove(c, op, Apply(c, op));
    }
  }
}
