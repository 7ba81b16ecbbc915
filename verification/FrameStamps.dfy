/** What a frame is queued with is what it is acquired with, over whole runs. */
module FrameStamps {
  import opened BufferQueueTypes
  import opened BufferQueueSpec
  import opened QueueRuns
  import opened LateFrames
  import opened QueueHistory

  /** What a call of queueBuffer, once accepted, puts on record for its frame. */
  datatype Stamp = Stamp(slot: int, input: QueueInput, buffer: Option<Buffer>, seen: bool, droppable: bool)

  /** The stamps of the accepted calls of a run, in order: the n-th issues frame number n. */
  function Stamps(s: Sys, ops: seq<Op>): seq<Stamp>
    requires WellFormed(s.core)
  {
    if ops == [] then []
    else Stamps(s, ops[..|ops| - 1]) + NewStamps(Run(s, ops[..|ops| - 1]).core, ops[|ops| - 1])
  }

  function NewStamps(c: Core, op: Op): seq<Stamp>
    requires WellFormed(c)
  {
    match op
    case QueueBufferOp(slot, input) =>
      if QueueStatus(c, slot, input) != NO_ERROR || !(0 <= slot < |c.slots|) then []
      else [Stamp(slot, input, c.slots[slot].buffer, c.slots[slot].acquireCalled, c.cannotBlock || input.isAsync)]
    case _ => []
  }

  /** Slot, buffer, fence, time and flags are those of the call. */
  predicate Carries(item: Item, stamp: Stamp) {
    && item.slot == stamp.slot && Some(item.buffer) == stamp.buffer && Some(item.fence) == stamp.input.fence
    && item.timestamp == stamp.input.timestamp && item.isAuto == stamp.input.isAuto
    && item.isDroppable == stamp.droppable && item.acquireCalled == stamp.seen
  }

  /** The item bears a number that was issued, and what the call that issued it was given. */
  predicate Stamped(item: Item, stamps: seq<Stamp>) {
    1 <= item.frame <= |stamps| && Carries(item, stamps[item.frame - 1])
  }

  predicate AllStamped(queue: seq<Item>, counter: nat, stamps: seq<Stamp>) {
    && |stamps| == counter
    && forall i :: 0 <= i < |queue| ==> Stamped(queue[i], stamps)
  }

  /** An accepted frame enters at the end, or over a droppable front, with all that the call
      was given; nothing else in the queue changes. */
  lemma QueueingStamps(c: Core, slot: int, input: QueueInput)
    requires WellFormed(c) && QueueStatus(c, slot, input) == NO_ERROR
    ensures |NewStamps(c, QueueBufferOp(slot, input))| == 1
    ensures var q := QueueBuffer(c, slot, input).queue;
            var over := |c.queue| > 0 && c.queue[0].isDroppable;
            var at := if over then 0 else |c.queue|;
            && |q| == (if over then |c.queue| else |c.queue| + 1)
            && q[at].frame == c.frameCounter + 1 && Carries(q[at], NewStamps(c, QueueBufferOp(slot, input))[0])
            && forall i :: 0 <= i < |q| && i != at ==> q[i] == c.queue[i]
    ensures QueueBuffer(c, slot, input).frameCounter == c.frameCounter + 1
  {
    hide MaxBufferCount, ConflictsWithOverride, OverwrittenSlots, MarkQueued;
  }

  lemma QueueKeepsStamps(c: Core, slot: int, input: QueueInput, stamps: seq<Stamp>)
    requires WellFormed(c) && AllStamped(c.queue, c.frameCounter, stamps)
    ensures var d := QueueBuffer(c, slot, input);
            AllStamped(d.queue, d.frameCounter, stamps + NewStamps(c, QueueBufferOp(slot, input)))
  {
    if QueueStatus(c, slot, input) == NO_ERROR {
      QueueingStamps(c, slot, input);
      hide QueueBuffer, QueueStatus, WellFormed, NewStamps, Carries;
      var all := stamps + NewStamps(c, QueueBufferOp(slot, input));
      assert forall f :: 0 <= f < |stamps| ==> all[f] == stamps[f];
    } else {
      hide QueueStatus, WellFormed, Carries;
      assert stamps + [] == stamps;
    }
  }

  /** What is left after an acquire was there before. */
  lemma AcquireKeepsStamps(c: Core, expected: int, stamps: seq<Stamp>)
    requires WellFormed(c) && AllStamped(c.queue, c.frameCounter, stamps)
    ensures var d := AcquireBuffer(c, expected); AllStamped(d.queue, d.frameCounter, stamps)
  {
    AcquireKeepsCounter(c, expected);
    hide WellFormed, Carries, Pruned, AtAcquireLimit;
    if AcquireStatus(c, expected) == NO_ERROR {
      AcquireSplitsQueue(c, expected);
    } else if AcquireStatus(c, expected) == PRESENT_LATER {
      PresentLaterChangesNothing(c, expected);
    }
  }

  lemma StepKeepsStamps(c: Core, op: Op, stamps: seq<Stamp>)
    requires WellFormed(c) && AllStamped(c.queue, c.frameCounter, stamps)
    ensures var d := Apply(c, op); AllStamped(d.queue, d.frameCounter, stamps + NewStamps(c, op))
  {
    hide WellFormed, AllStamped;
    if op.QueueBufferOp? {
      QueueKeepsStamps(c, op.slot, op.input, stamps);
      hide QueueBuffer, NewStamps;
    } else {
      assert stamps + NewStamps(c, op) == stamps;
      if op.AcquireBufferOp? {
        AcquireKeepsStamps(c, op.expected, stamps);
        hide AcquireBuffer;
      } else if op.DisconnectConsumerOp? {
        DisconnectKeepsStamps(c, stamps);
        hide DisconnectConsumer;
      } else {
        OthersKeepQueue(c, op);
        hide Apply;
      }
    }
  }

  lemma DisconnectKeepsStamps(c: Core, stamps: seq<Stamp>)
    requires WellFormed(c) && AllStamped(c.queue, c.frameCounter, stamps)
    ensures var d := DisconnectConsumer(c); AllStamped(d.queue, d.frameCounter, stamps)
  {
  }

  lemma {:induction false} RunKeepsStamps(ops: seq<Op>)
    ensures var c := Run(START, ops).core; AllStamped(c.queue, c.frameCounter, Stamps(START, ops))
  {
    hide Apply, NewStamps, AllStamped;
    if ops == [] {
      StartStamped();
    } else {
      RunKeepsStamps(ops[..|ops| - 1]);
      StepKeepsStamps(Run(START, ops[..|ops| - 1]).core, ops[|ops| - 1], Stamps(START, ops[..|ops| - 1]));
    }
  }

  lemma StartStamped()
    ensures AllStamped(NewCore().queue, NewCore().frameCounter, [])
  {
  }

  /** On every run: the item acquired under a frame number carries the slot, the buffer, the
      fence, the time and the flags of the call that issued the number, whatever was dropped,
      overwritten or freed in between. */
  lemma AcquiredAsQueued(ops: seq<Op>, expected: int)
    requires AcquireStatus(Run(START, ops).core, expected) == NO_ERROR
    ensures var c := Run(START, ops).core;
            c.queue != [] && Pruned(c, expected).queue != []
            && Stamped(Pruned(c, expected).queue[0], Stamps(START, ops))
  {
    RunKeepsStamps(ops);
    AcquireSplitsQueue(Run(START, ops).core, expected);
    hide Run, Stamps, Carries, AcquireStatus, Pruned;
  }
}
