/** Every locked section keeps the invariant, so every run does. */
module QueueInvariant {
  import opened BufferQueueTypes
  import opened SlotScans
  import opened BufferQueueSpec
  import opened Correspondence
  import opened QueueRuns

  /** An operation that rewrites one slot the allocator is not waiting for. */
  lemma KeepsOneSlot(s: Sys, t: Sys, b: nat, slot: Slot)
    requires Inv(s) && b < NUM_BUFFER_SLOTS
    requires t.core == s.core.(slots := s.core.slots[b := slot], broadcasts := t.core.broadcasts)
    requires t.pending <= s.pending
    requires b in t.pending ==> s.core.abandoned
    requires slot.state != QUEUED && FencePassed(slot)
    requires slot.state == DEQUEUED ==> s.core.slots[b].state == DEQUEUED
    requires || slot.buffer.None? || KeepsBuffer(s.core.slots[b], slot)
             || GetsFresh(s.core.slots, s.core.queue, slot)
    ensures Inv(t)
  {
    hide Corresponds;
    UpdateSlot(s.core.slots, s.core.queue, b, slot);
    CountUpdate(s.core.slots, DEQUEUED, NUM_BUFFER_SLOTS, b, slot);
  }

  /** An operation that frees slots, none of which the allocator is waiting for. */
  lemma KeepsFreeing(s: Sys, t: Sys)
    requires Inv(s) && WellFormed(t.core)
    requires t.core.queue == s.core.queue && t.pending == s.pending && t.core.abandoned == s.core.abandoned
    requires forall b :: 0 <= b < NUM_BUFFER_SLOTS ==>
                           t.core.slots[b] == s.core.slots[b] || t.core.slots[b] == FreedSlot(s.core.slots[b])
    requires forall b :: b in s.pending ==> t.core.slots[b] == s.core.slots[b] || s.core.abandoned
    requires ListenerPresent(t.core)
    requires || t.core.overrideMax == s.core.overrideMax
             || Count(t.core.slots, DEQUEUED, NUM_BUFFER_SLOTS) == 0
    ensures Inv(t)
  {
    FreeSlots(s.core.slots, t.core.slots, s.core.queue);
    CountMonotone(t.core.slots, s.core.slots, DEQUEUED, NUM_BUFFER_SLOTS);
  }

  lemma KeepsTrim(s: Sys, isAsync: bool)
    requires Inv(s)
    ensures Inv(Sys(Trim(s.core, isAsync), s.pending))
  {
    hide Corresponds;
    var t := Sys(Trim(s.core, isAsync), s.pending);
    BeyondLimit(s.core, isAsync);
    KeepsFreeing(s, t);
  }

  /** Trimming leaves the slots below the limit alone, and with them the pass. */
  lemma TrimKeepsLow(c: Core, isAsync: bool, b: nat)
    requires WellFormed(c) && b < MaxBufferCount(c, isAsync)
    ensures Trim(c, isAsync).slots[b] == c.slots[b]
  {
  }

  /** A pass that finds a slot leaves room for one more DEQUEUED slot. */
  lemma FoundLeavesRoom(c: Core, isAsync: bool)
    requires WellFormed(c) && Pass(c, isAsync).Found?
    ensures Pass(c, isAsync).slot < MaxBufferCount(c, isAsync)
    ensures c.slots[Pass(c, isAsync).slot].state == FREE
    ensures !c.abandoned
    ensures c.overrideMax == 0 ==> Count(c.slots, DEQUEUED, NUM_BUFFER_SLOTS) == 0
  {
    var max := MaxBufferCount(c, isAsync);
    BeyondLimit(c, isAsync);
    CountPrefix(c.slots, DEQUEUED, max, NUM_BUFFER_SLOTS);
  }

  /** Taking the found slot: dequeueBuffer's first section and attachBuffer. */
  lemma KeepsTaking(s: Sys, isAsync: bool, slot: Slot, t: Sys)
    requires Inv(s) && Pass(s.core, isAsync).Found?
    requires t.core == Trim(s.core, isAsync).(slots := Trim(s.core, isAsync).slots[Pass(s.core, isAsync).slot := slot])
    requires slot.state == DEQUEUED && slot.fence == NO_FENCE
    requires t.pending == s.pending || (t.pending == s.pending + {Pass(s.core, isAsync).slot} && slot.buffer.None?)
    requires || slot.buffer.None? || slot.buffer == s.core.slots[Pass(s.core, isAsync).slot].buffer
             || GetsFresh(s.core.slots, s.core.queue, slot)
    ensures Inv(t)
  {
    hide Corresponds;
    var b := Pass(s.core, isAsync).slot;
    FoundLeavesRoom(s.core, isAsync);
    TrimKeepsLow(s.core, isAsync, b);
    KeepsTrim(s, isAsync);
    var m := Sys(Trim(s.core, isAsync), s.pending);
    assert slot.buffer.Some? && GetsFresh(s.core.slots, s.core.queue, slot) ==>
             GetsFresh(m.core.slots, m.core.queue, slot);
    UpdateSlot(m.core.slots, m.core.queue, b, slot);
    assert OneDequeued(t.core) by {
      CountUpdate(m.core.slots, DEQUEUED, NUM_BUFFER_SLOTS, b, slot);
      CountMonotone(m.core.slots, s.core.slots, DEQUEUED, NUM_BUFFER_SLOTS);
    }
    KeepsPending(m, t, b);
  }

  lemma KeepsPending(m: Sys, t: Sys, b: nat)
    requires WellFormed(m.core) && WellFormed(t.core) && PendingEmpty(m) && b < NUM_BUFFER_SLOTS
    requires m.core.slots[b].state == FREE && !m.core.abandoned
    requires t.core.slots == m.core.slots[b := t.core.slots[b]] && t.core.slots[b].state == DEQUEUED
    requires t.pending == m.pending || (t.pending == m.pending + {b} && t.core.slots[b].buffer.None?)
    ensures PendingEmpty(t)
  {
  }

  /** The correspondence after a buffer is queued. */
  lemma QueueBufferCorresponds(c: Core, slot: nat, input: QueueInput)
    requires WellFormed(c) && Corresponds(c.slots, c.queue)
    requires QueueStatus(c, slot, input) == NO_ERROR
    ensures var d := QueueBuffer(c, slot, input); Corresponds(d.slots, d.queue)
  {
    hide Corresponds;
    var item := QueuedItem(c, slot, input);
    var marked := MarkQueued(c, slot, input);
    if Overwrites(c) {
      var front := c.queue[0];
      var cleared := OverwrittenSlots(c.slots, front);
      if Tracks(c.slots, front) {
        TrackedItemMatches(c.slots, c.queue, 0);
      }
      RemoveFront(c.slots, c.queue, OverwrittenSlot(c.slots[front.slot]));
      assert cleared[slot] == c.slots[slot];
      QueueSlot(cleared, c.queue[1..], slot, marked[slot], item, 0);
      assert cleared[slot := marked[slot]] == OverwrittenSlots(marked, front);
      assert c.queue[1..][..0] + [item] + c.queue[1..][0..] == c.queue[0 := item];
    } else {
      QueueSlot(c.slots, c.queue, slot, marked[slot], item, |c.queue|);
      assert c.queue[..|c.queue|] + [item] + c.queue[|c.queue|..] == c.queue + [item];
    }
  }

  /** What queueing a buffer does to the slots: the queued one leaves DEQUEUED, and at most
      one other, QUEUED until then, becomes FREE. */
  lemma QueueBufferSlots(c: Core, slot: nat, input: QueueInput, b: nat)
    requires WellFormed(c) && Corresponds(c.slots, c.queue)
    requires QueueStatus(c, slot, input) == NO_ERROR && b < NUM_BUFFER_SLOTS
    ensures var d := QueueBuffer(c, slot, input);
            if b == slot then d.slots[b] == MarkQueued(c, slot, input)[slot]
            else || d.slots[b] == c.slots[b]
                 || (c.slots[b].state == QUEUED && d.slots[b] == OverwrittenSlot(c.slots[b]))
  {
    if Overwrites(c) && Tracks(c.slots, c.queue[0]) {
      TrackedItemMatches(c.slots, c.queue, 0);
    }
  }

  /** The parts of the invariant beside the correspondence. */
  lemma KeepsRest(s: Sys, d: Core)
    requires Inv(s) && WellFormed(d) && Corresponds(d.slots, d.queue)
    requires d.abandoned == s.core.abandoned && d.overrideMax == s.core.overrideMax && ListenerPresent(d)
    requires forall k :: 0 <= k < NUM_BUFFER_SLOTS && d.slots[k].state == DEQUEUED ==> s.core.slots[k].state == DEQUEUED
    requires forall k :: 0 <= k < NUM_BUFFER_SLOTS && k in s.pending && !d.abandoned ==> d.slots[k] == s.core.slots[k]
    ensures Inv(Sys(d, s.pending))
  {
    hide Corresponds;
    CountMonotone(d.slots, s.core.slots, DEQUEUED, NUM_BUFFER_SLOTS);
  }

  lemma KeepsQueueBuffer(s: Sys, slot: int, input: QueueInput)
    requires Inv(s) && slot !in s.pending
    ensures Inv(Next(s, QueueBufferOp(slot, input)))
  {
    var c := s.core;
    if QueueStatus(c, slot, input) == NO_ERROR {
      var d := QueueBuffer(c, slot, input);
      QueueBufferCorresponds(c, slot, input);
      forall b: nat | b < NUM_BUFFER_SLOTS
        ensures d.slots[b].state == DEQUEUED ==> c.slots[b].state == DEQUEUED
        ensures b in s.pending && !c.abandoned ==> d.slots[b] == c.slots[b]
      {
        QueueBufferSlots(c, slot, input, b);
      }
      hide Corresponds;
      KeepsRest(s, d);
    }
  }

  /** The front item leaves the queue, its slot, if tracked, becoming FREE or ACQUIRED. */
  lemma KeepsFrontLeaving(s: Sys, d: Core, slot: Slot)
    requires Inv(s) && |s.core.queue| > 0 && WellFormed(d)
    requires var front := s.core.queue[0];
             && d == s.core.(slots := d.slots, queue := s.core.queue[1..], broadcasts := d.broadcasts)
             && d.slots == (if Tracks(s.core.slots, front) then s.core.slots[front.slot := slot] else s.core.slots)
             && slot.buffer == s.core.slots[front.slot].buffer
    requires (slot.state == FREE || slot.state == ACQUIRED) && FencePassed(slot)
    ensures Inv(Sys(d, s.pending))
  {
    var front := s.core.queue[0];
    RemoveFront(s.core.slots, s.core.queue, slot);
    if Tracks(s.core.slots, front) {
      TrackedItemMatches(s.core.slots, s.core.queue, 0);
    }
    hide Corresponds;
    KeepsRest(s, d);
  }

  lemma KeepsDropFront(s: Sys)
    requires Inv(s) && |s.core.queue| > 0
    ensures Inv(Sys(DropFront(s.core), s.pending))
  {
    hide Corresponds;
    KeepsFrontLeaving(s, DropFront(s.core), DroppedSlot(s.core.slots[s.core.queue[0].slot]));
  }

  lemma KeepsTakeFront(s: Sys)
    requires Inv(s) && |s.core.queue| > 0
    ensures Inv(Sys(TakeFront(s.core), s.pending))
  {
    hide Corresponds;
    KeepsFrontLeaving(s, TakeFront(s.core), AcquiredSlot(s.core.slots[s.core.queue[0].slot]));
  }

  lemma {:induction false} KeepsDropLate(s: Sys, expected: int)
    requires Inv(s)
    ensures Inv(Sys(DropLate(s.core, expected), s.pending))
    decreases |s.core.queue|
  {
    hide Corresponds;
    if DropsFront(s.core.queue, expected) {
      KeepsDropFront(s);
      KeepsDropLate(Sys(DropFront(s.core), s.pending), expected);
    }
  }

  lemma KeepsAcquire(s: Sys, expected: int)
    requires Inv(s)
    ensures Inv(Next(s, AcquireBufferOp(expected)))
  {
    hide Corresponds;
    KeepsDropLate(s, expected);
    var m := Sys(Pruned(s.core, expected), s.pending);
    if AcquireStatus(s.core, expected) == NO_ERROR {
      KeepsTakeFront(m);
    }
  }

  lemma KeepsFreeAll(s: Sys, t: Sys)
    requires Inv(s) && WellFormed(t.core) && t.pending == s.pending
    requires t.core.slots == AllFreed(s.core.slots)
    requires t.core.queue == s.core.queue || t.core.queue == []
    requires t.core.abandoned || (s.pending == {} && t.core.queue == s.core.queue)
    requires ListenerPresent(t.core)
    ensures Inv(t)
  {
    FreeSlots(s.core.slots, t.core.slots, s.core.queue);
    EmptyQueue(t.core.slots, s.core.queue);
    hide Corresponds;
    CountZero(t.core.slots, DEQUEUED, NUM_BUFFER_SLOTS);
  }

  lemma KeepsSetBufferCount(s: Sys, n: int)
    requires Inv(s)
    ensures Inv(Next(s, SetBufferCountOp(n)))
  {
    hide Corresponds;
    if SetBufferCountStatus(s.core, n) == NO_ERROR {
      CountZero(s.core.slots, DEQUEUED, NUM_BUFFER_SLOTS);
      assert s.pending == {};
      if n != 0 {
        KeepsFreeAll(s, Next(s, SetBufferCountOp(n)));
      }
    }
  }

  lemma {:induction false} InstallKeepsStates(slots: seq<Slot>, targets: seq<nat>, buffers: seq<Buffer>, n: nat)
    requires n <= |targets| && n <= |buffers|
    requires forall k :: 0 <= k < |targets| ==> targets[k] < |slots|
    ensures forall b :: 0 <= b < |slots| ==> Installed(slots, targets, buffers, n)[b].state == slots[b].state
  {
    if n > 0 {
      InstallKeepsStates(slots, targets, buffers, n - 1);
    }
  }

  lemma {:induction false} KeepsInstalled(s: Sys, targets: seq<nat>, buffers: seq<Buffer>, n: nat, t: Sys)
    requires Inv(s) && |targets| == |buffers| && n <= |targets|
    requires forall k :: 0 <= k < |targets| ==> targets[k] < NUM_BUFFER_SLOTS
    requires FreshHandles(s.core.slots, s.core.queue, buffers)
    requires t.core == s.core.(slots := Installed(s.core.slots, targets, buffers, n),
                               isAllocating := t.core.isAllocating)
    requires t.pending == s.pending
    ensures Inv(t)
    ensures forall k :: n <= k < |buffers| ==> Fresh(t.core.slots, t.core.queue, buffers[k].handle)
  {
    hide Corresponds;
    if n > 0 {
      var m := Sys(s.core.(slots := Installed(s.core.slots, targets, buffers, n - 1)), s.pending);
      KeepsInstalled(s, targets, buffers, n - 1, m);
      var b := targets[n - 1];
      if m.core.slots[b].state == FREE {
        var slot := FreedSlot(m.core.slots[b]).(buffer := Some(buffers[n - 1]), frame := 0);
        assert t.core.slots == m.core.slots[b := slot];
        var u := Sys(m.core.(slots := m.core.slots[b := slot]), m.pending);
        KeepsOneSlot(m, u, b, slot);
      }
    }
  }

  lemma KeepsBeginDequeue(s: Sys, isAsync: bool, req: Request)
    requires Inv(s)
    ensures Inv(Next(s, BeginDequeueOp(isAsync, req)))
  {
    hide Corresponds;
    if !BadSize(req) {
      KeepsTrim(s, isAsync);
      var p := Pass(s.core, isAsync);
      if p.Found? {
        FoundLeavesRoom(s.core, isAsync);
        TrimKeepsLow(s.core, isAsync, p.slot);
        KeepsTaking(s, isAsync, DequeuedSlot(s.core.slots[p.slot], Resolve(s.core, req)),
                    Next(s, BeginDequeueOp(isAsync, req)));
      }
    }
  }

  lemma KeepsAttachByProducer(s: Sys, buffer: Buffer)
    requires Inv(s) && Fresh(s.core.slots, s.core.queue, buffer.handle)
    ensures Inv(Next(s, AttachByProducerOp(buffer)))
  {
    hide Corresponds;
    KeepsTrim(s, false);
    var p := Pass(s.core, false);
    if p.Found? {
      FoundLeavesRoom(s.core, false);
      TrimKeepsLow(s.core, false, p.slot);
      var slot := s.core.slots[p.slot].(buffer := Some(buffer), state := DEQUEUED,
                                        fence := NO_FENCE, requestCalled := true);
      KeepsTaking(s, false, slot, Next(s, AttachByProducerOp(buffer)));
    }
  }

  lemma KeepsFinishDequeue(s: Sys, b: nat, buffer: Buffer)
    requires Inv(s) && b in s.pending && Fresh(s.core.slots, s.core.queue, buffer.handle)
    ensures Inv(Next(s, FinishDequeueOp(b, buffer)))
  {
    if !s.core.abandoned {
      KeepsOneSlot(s, Next(s, FinishDequeueOp(b, buffer)), b,
                   s.core.slots[b].(frame := FREED_FRAME, buffer := Some(buffer)));
    }
  }

  lemma KeepsReturning(s: Sys, op: Op)
    requires Inv(s) && Legal(s, op)
    requires op.RequestBufferOp? || op.DetachByProducerOp? || op.CancelBufferOp? || op.DetachByConsumerOp?
    ensures Inv(Next(s, op))
  {
    assert FencesPassed(s.core.slots);
    hide Corresponds;
    var t := Next(s, op);
    if t.core != s.core {
      KeepsOneSlot(s, t, op.slot, t.core.slots[op.slot]);
    }
  }

  lemma KeepsDetachNext(s: Sys)
    requires Inv(s)
    ensures Inv(Next(s, DetachNextOp))
  {
    hide Corresponds;
    var t := Next(s, DetachNextOp);
    if t.core != s.core {
      var b := Oldest(s.core.slots, NUM_BUFFER_SLOTS, true);
      KeepsOneSlot(s, t, b, FreedSlot(s.core.slots[b]));
    }
  }

  lemma KeepsAttachByConsumer(s: Sys, buffer: Buffer)
    requires Inv(s) && Fresh(s.core.slots, s.core.queue, buffer.handle)
    ensures Inv(Next(s, AttachByConsumerOp(buffer)))
  {
    hide Corresponds;
    var t := Next(s, AttachByConsumerOp(buffer));
    if AttachByConsumerStatus(s.core) == NO_ERROR {
      var b := Oldest(s.core.slots, NUM_BUFFER_SLOTS, false);
      KeepsOneSlot(s, t, b, t.core.slots[b]);
    }
  }

  lemma KeepsRelease(s: Sys, slot: int, frame: nat, fence: Option<Fence>)
    requires Inv(s)
    ensures Inv(Next(s, ReleaseBufferOp(slot, frame, fence)))
  {
    var t := Next(s, ReleaseBufferOp(slot, frame, fence));
    if t.core != s.core {
      if s.core.slots[slot].state == QUEUED {
        QueuedIsNamed(s.core, slot);
      }
      hide Corresponds;
      if ReleaseStatus(s.core, slot, frame, fence) == NO_ERROR {
        KeepsOneSlot(s, t, slot, ReleasedSlot(s.core.slots[slot], fence.value));
      } else {
        KeepsCleaning(s, slot);
      }
    }
  }

  lemma QueuedIsNamed(c: Core, b: nat)
    requires Corresponds(c.slots, c.queue) && b < NUM_BUFFER_SLOTS && c.slots[b].state == QUEUED
    ensures NamesSlot(c.queue, b)
  {
    var i := QueuedSlotHasOneItem(c.slots, c.queue, b);
  }

  /** A late release can clear the clean-up flag of a slot that is out with the producer. */
  lemma KeepsCleaning(s: Sys, b: nat)
    requires Inv(s) && b < NUM_BUFFER_SLOTS && s.core.slots[b].state != QUEUED
    ensures Inv(Sys(s.core.(slots := s.core.slots[b := CleanedSlot(s.core.slots[b])]), s.pending))
  {
    assert FencePassed(s.core.slots[b]);
    hide Corresponds;
    UpdateSlot(s.core.slots, s.core.queue, b, CleanedSlot(s.core.slots[b]));
    CountUpdate(s.core.slots, DEQUEUED, NUM_BUFFER_SLOTS, b, CleanedSlot(s.core.slots[b]));
  }

  lemma KeepsDisconnectProducer(s: Sys, api: int)
    requires Inv(s) && s.pending == {}
    ensures Inv(Next(s, DisconnectProducerOp(api)))
  {
    hide Corresponds;
    if !s.core.abandoned && KnownApi(api) && s.core.connectedApi == api {
      KeepsFreeAll(s, Next(s, DisconnectProducerOp(api)));
    }
  }

  lemma KeepsDisconnectConsumer(s: Sys)
    requires Inv(s)
    ensures Inv(Next(s, DisconnectConsumerOp))
  {
    hide Corresponds;
    if s.core.hasConsumer {
      KeepsFreeAll(s, Next(s, DisconnectConsumerOp));
    }
  }

  lemma KeepsInstallBuffers(s: Sys, op: Op)
    requires Inv(s) && op.InstallBuffersOp? && FreshHandles(s.core.slots, s.core.queue, op.buffers)
    ensures Inv(Next(s, op))
  {
    hide Corresponds;
    if InstallFits(op) {
      KeepsInstalled(s, op.targets, op.buffers, |op.buffers|, Next(s, op));
    }
  }

  predicate TouchesNoSlot(op: Op) {
    || op.AllocationFailedOp? || op.ConnectProducerOp? || op.SetAllocatingOp? || op.ConnectConsumerOp?
    || op.SetDefaultMaxOp? || op.SetMaxAcquiredOp? || op.DisableAsyncBufferOp? || op.SetDefaultsOp?
  }

  lemma SettingsKeepSlots(c: Core, op: Op)
    requires WellFormed(c) && TouchesNoSlot(op)
    ensures Apply(c, op).slots == c.slots
  {
    hide WellFormed;
    if op.ConnectProducerOp? || op.ConnectConsumerOp? || op.SetDefaultsOp? {
      hide SetDefaultMax, SetMaxAcquired, DisableAsyncBuffer;
    } else {
      hide ConnectProducer, ConnectConsumer, SetDefaults;
    }
  }

  lemma KeepsSettings(s: Sys, op: Op)
    requires Inv(s) && TouchesNoSlot(op)
    ensures Inv(Next(s, op))
  {
    hide Corresponds;
  }

  /** Every locked section keeps the invariant. */
  lemma StepKeepsInv(s: Sys, op: Op)
    requires Inv(s) && Legal(s, op)
    ensures Inv(Next(s, op))
  {
    assert WellFormed(s.core);
    hide Inv, Next, WellFormed;
    match op {
      case SetBufferCountOp(n) => KeepsSetBufferCount(s, n);
      case BeginDequeueOp(isAsync, req) => KeepsBeginDequeue(s, isAsync, req);
      case FinishDequeueOp(b, buffer) => KeepsFinishDequeue(s, b, buffer);
      case AttachByProducerOp(buffer) => KeepsAttachByProducer(s, buffer);
      case QueueBufferOp(slot, input) => KeepsQueueBuffer(s, slot, input);
      case DisconnectProducerOp(api) => KeepsDisconnectProducer(s, api);
      case InstallBuffersOp(_, _) => KeepsInstallBuffers(s, op);
      case AcquireBufferOp(expected) => KeepsAcquire(s, expected);
      case DisconnectConsumerOp => KeepsDisconnectConsumer(s);
      case RequestBufferOp(_) => KeepsReturning(s, op);
      case DetachByProducerOp(_) => KeepsReturning(s, op);
      case CancelBufferOp(_, _) => KeepsReturning(s, op);
      case DetachByConsumerOp(_) => KeepsReturning(s, op);
      case DetachNextOp => KeepsDetachNext(s);
      case AttachByConsumerOp(buffer) => KeepsAttachByConsumer(s, buffer);
      case ReleaseBufferOp(slot, frame, fence) => KeepsRelease(s, slot, frame, fence);
      case _ => KeepsSettings(s, op);
    }
  }

  /** The invariant holds in every reachable state. */
  lemma {:induction false} RunKeepsInv(s: Sys, ops: seq<Op>)
    requires Inv(s) && LegalRun(s, ops)
    ensures Inv(Run(s, ops))
  {
    hide Corresponds;
    if ops != [] {
      RunKeepsInv(s, ops[..|ops| - 1]);
      StepKeepsInv(Run(s, ops[..|ops| - 1]), ops[|ops| - 1]);
    }
  }

  lemma StartInv()
    ensures Inv(START)
  {
    CountZero(NewCore().slots, DEQUEUED, NUM_BUFFER_SLOTS);
  }
}
