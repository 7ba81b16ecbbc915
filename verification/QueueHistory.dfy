/** What becomes of every frame, over whole runs. */
module QueueHistory {
  import opened BufferQueueTypes
  import opened BufferQueueSpec
  import opened QueueRuns
  import opened LateFrames
  import opened Occurrences

  datatype Fate = Acquired(frame: nat) | DroppedLate(frame: nat) | Overwritten(frame: nat) | Cleared(frame: nat)

  function Frames(queue: seq<Item>): (r: seq<nat>)
    ensures |r| == |queue|
    ensures forall i :: 0 <= i < |queue| ==> r[i] == queue[i].frame
  {
    seq(|queue|, i requires 0 <= i < |queue| => queue[i].frame)
  }

  function FateFrames(log: seq<Fate>): (r: seq<nat>)
    ensures |r| == |log|
    ensures forall i :: 0 <= i < |log| ==> r[i] == log[i].frame
  {
    seq(|log|, i requires 0 <= i < |log| => log[i].frame)
  }

  function AllDropped(queue: seq<Item>): (r: seq<Fate>)
    ensures |r| == |queue|
    ensures forall i :: 0 <= i < |queue| ==> r[i] == DroppedLate(queue[i].frame)
  {
    seq(|queue|, i requires 0 <= i < |queue| => DroppedLate(queue[i].frame))
  }

  function AllCleared(queue: seq<Item>): (r: seq<Fate>)
    ensures |r| == |queue|
    ensures forall i :: 0 <= i < |queue| ==> r[i] == Cleared(queue[i].frame)
  {
    seq(|queue|, i requires 0 <= i < |queue| => Cleared(queue[i].frame))
  }

  /** The number of items that an acquire drops. */
  function DropCount(c: Core, expected: int): (k: nat)
    requires WellFormed(c)
    ensures k <= |c.queue|
  {
    if |Pruned(c, expected).queue| <= |c.queue| then |c.queue| - |Pruned(c, expected).queue| else 0
  }

  /** The frames that leave the queue in a step, in order, and why. */
  function Fates(c: Core, op: Op): seq<Fate>
    requires WellFormed(c)
  {
    match op
    case AcquireBufferOp(expected) =>
      if AcquireStatus(c, expected) == NO_ERROR then
        AllDropped(c.queue[..DropCount(c, expected)]) + [Acquired(Pruned(c, expected).queue[0].frame)]
      else []
    case QueueBufferOp(slot, input) =>
      if QueueStatus(c, slot, input) == NO_ERROR && Overwrites(c) then [Overwritten(c.queue[0].frame)] else []
    case DisconnectConsumerOp => if c.hasConsumer then AllCleared(c.queue) else []
    case _ => []
  }

  /** The frames issued by a step. */
  function Issued(c: Core, op: Op): seq<nat>
    requires WellFormed(c)
  {
    match op
    case QueueBufferOp(slot, input) =>
      if QueueStatus(c, slot, input) == NO_ERROR then [c.frameCounter + 1] else []
    case _ => []
  }

  function Log(s: Sys, ops: seq<Op>): seq<Fate>
    requires WellFormed(s.core)
  {
    if ops == [] then []
    else
      var before := ops[..|ops| - 1];
      Log(s, before) + Fates(Run(s, before).core, ops[|ops| - 1])
  }

  // ---------- conservation ----------

  /** The dropped prefix, the item taken and the rest make up the queue. */
  lemma AcquireSplitsQueue(c: Core, expected: int)
    requires WellFormed(c) && AcquireStatus(c, expected) == NO_ERROR
    ensures var k := DropCount(c, expected);
            && k < |c.queue| && Pruned(c, expected).queue == c.queue[k..]
            && AcquireBuffer(c, expected).queue == c.queue[k + 1..]
  {
    if expected != 0 {
      var k := DropsLongestLatePrefix(c, expected);
      AcquireTakesFirstNotLate(c, expected, k);
    }
  }

  predicate MovesItems(op: Op) {
    op.AcquireBufferOp? || op.QueueBufferOp? || op.DisconnectConsumerOp?
  }

  /** The other operations leave the queue and the frame counter alone. */
  lemma OthersKeepQueue(c: Core, op: Op)
    requires WellFormed(c) && !MovesItems(op)
    ensures Apply(c, op).queue == c.queue && Apply(c, op).frameCounter == c.frameCounter
  {
    hide WellFormed, MaxBufferCount, RequestBuffer, SetBufferCount, BeginDequeue, FinishDequeue, DetachByProducer;
    hide DetachNext, AttachByProducer, CancelBuffer, ConnectProducer, DisconnectProducer, InstallBuffers;
    hide DetachByConsumer, AttachByConsumer, ReleaseBuffer, ConnectConsumer, SetDefaultMax, SetMaxAcquired;
    hide DisableAsyncBuffer, SetDefaults, InstallFits;
  }

  /** What leaves the queue in a step is what was there and what was issued, less what is left. */
  predicate Conserves(before: seq<Item>, fates: seq<Fate>, issued: seq<nat>, after: seq<Item>, f: nat) {
    Times(Frames(after), f) + Times(FateFrames(fates), f) == Times(Frames(before), f) + Times(issued, f)
  }

  predicate StepTallies(c: Core, op: Op, f: nat)
    requires WellFormed(c)
  {
    && Conserves(c.queue, Fates(c, op), Issued(c, op), Apply(c, op).queue, f)
    && Apply(c, op).frameCounter == c.frameCounter + |Issued(c, op)|
  }

  lemma PrefixConserves(queue: seq<Item>, k: nat, f: nat)
    requires k < |queue|
    ensures Conserves(queue, AllDropped(queue[..k]) + [Acquired(queue[k].frame)], [], queue[k + 1..], f)
  {
    var fates := FateFrames(AllDropped(queue[..k]) + [Acquired(queue[k].frame)]);
    TimesAppend(fates, Frames(queue[k + 1..]), f);
    assert fates + Frames(queue[k + 1..]) == Frames(queue);
  }

  lemma AcquireConserves(c: Core, expected: int, f: nat)
    requires WellFormed(c)
    ensures StepTallies(c, AcquireBufferOp(expected), f)
  {
    hide WellFormed, Pruned, Deferred, Conserves;
    AcquireKeepsCounter(c, expected);
    NothingConserved(c.queue, f);
    if AcquireStatus(c, expected) == NO_ERROR {
      AcquireSplitsQueue(c, expected);
      hide AcquireBuffer;
      PrefixConserves(c.queue, DropCount(c, expected), f);
    } else if AcquireStatus(c, expected) == PRESENT_LATER {
      PresentLaterChangesNothing(c, expected);
    }
  }

  lemma ReplaceFrontConserves(queue: seq<Item>, item: Item, f: nat)
    requires |queue| > 0
    ensures Conserves(queue, [Overwritten(queue[0].frame)], [item.frame], queue[0 := item], f)
  {
    var tail := Frames(queue[1..]);
    assert Frames(queue) == [queue[0].frame] + tail;
    assert Frames(queue[0 := item]) == [item.frame] + tail;
    assert FateFrames([Overwritten(queue[0].frame)]) == [queue[0].frame];
    TimesAppend([queue[0].frame], tail, f);
    TimesAppend([item.frame], tail, f);
  }

  lemma AppendConserves(queue: seq<Item>, item: Item, f: nat)
    ensures Conserves(queue, [], [item.frame], queue + [item], f)
  {
    assert Frames(queue + [item]) == Frames(queue) + [item.frame];
    TimesAppend(Frames(queue), [item.frame], f);
  }

  lemma QueueBufferItems(c: Core, slot: int, input: QueueInput)
    requires WellFormed(c) && QueueStatus(c, slot, input) == NO_ERROR
    ensures 0 <= slot < |c.slots| && c.slots[slot].buffer.Some? && input.fence.Some?
    ensures var d := QueueBuffer(c, slot, input); var item := QueuedItem(c, slot, input);
            && d.queue == (if Overwrites(c) then c.queue[0 := item] else c.queue + [item])
            && d.frameCounter == c.frameCounter + 1
  {
  }

  lemma QueueConserves(c: Core, slot: int, input: QueueInput, f: nat)
    requires WellFormed(c)
    ensures StepTallies(c, QueueBufferOp(slot, input), f)
  {
    hide WellFormed, MaxBufferCount, QueueStatus, Conserves;
    NothingConserved(c.queue, f);
    if QueueStatus(c, slot, input) == NO_ERROR {
      QueueBufferItems(c, slot, input);
      hide QueueBuffer;
      if Overwrites(c) {
        ReplaceFrontConserves(c.queue, QueuedItem(c, slot, input), f);
      } else {
        AppendConserves(c.queue, QueuedItem(c, slot, input), f);
      }
    }
  }

  lemma NothingConserved(queue: seq<Item>, f: nat)
    ensures Conserves(queue, [], [], queue, f)
  {
  }

  lemma ClearConserves(c: Core, f: nat)
    requires WellFormed(c)
    ensures StepTallies(c, DisconnectConsumerOp, f)
  {
    hide WellFormed;
    assert FateFrames(AllCleared(c.queue)) == Frames(c.queue);
  }

  lemma OthersConserve(c: Core, op: Op, f: nat)
    requires WellFormed(c) && !MovesItems(op)
    ensures StepTallies(c, op, f)
  {
    OthersKeepQueue(c, op);
    hide Apply, WellFormed;
  }

  lemma StepConserves(c: Core, op: Op, f: nat)
    requires WellFormed(c)
    ensures StepTallies(c, op, f)
  {
    hide StepTallies, WellFormed;
    if op.AcquireBufferOp? {
      AcquireConserves(c, op.expected, f);
    } else if op.QueueBufferOp? {
      QueueConserves(c, op.slot, op.input, f);
    } else if op.DisconnectConsumerOp? {
      ClearConserves(c, f);
    } else {
      OthersConserve(c, op, f);
    }
  }

  lemma {:induction false} DropLateKeepsCounter(c: Core, expected: int)
    requires WellFormed(c)
    ensures DropLate(c, expected).frameCounter == c.frameCounter
    decreases |c.queue|
  {
    if DropsFront(c.queue, expected) {
      DropLateKeepsCounter(DropFront(c), expected);
    }
  }

  lemma AcquireKeepsCounter(c: Core, expected: int)
    requires WellFormed(c)
    ensures AcquireBuffer(c, expected).frameCounter == c.frameCounter
  {
    DropLateKeepsCounter(c, expected);
  }

  lemma LogGrows(s: Sys, before: seq<Op>, op: Op)
    requires WellFormed(s.core)
    ensures Run(s, before + [op]) == Next(Run(s, before), op)
    ensures Log(s, before + [op]) == Log(s, before) + Fates(Run(s, before).core, op)
  {
    hide Next, Fates, WellFormed;
    assert (before + [op])[..|before + [op]| - 1] == before;
  }

  predicate Unused(s: Sys) {
    WellFormed(s.core) && s.core.queue == [] && s.core.frameCounter == 0
  }

  /** The frame number f is accounted for exactly once if it was issued, else never. */
  predicate Accounted(queue: seq<Item>, counter: nat, log: seq<Fate>, f: nat) {
    Times(Frames(queue), f) + Times(FateFrames(log), f) == if 1 <= f <= counter then 1 else 0
  }

  lemma AccountedGrows(q: seq<Item>, n: nat, log: seq<Fate>, fates: seq<Fate>, issued: seq<nat>, q': seq<Item>, f: nat)
    requires Accounted(q, n, log, f) && Conserves(q, fates, issued, q', f)
    requires Times(issued, f) == if n < f <= n + |issued| then 1 else 0
    ensures Accounted(q', n + |issued|, log + fates, f)
  {
    TimesAppend(FateFrames(log), FateFrames(fates), f);
    assert FateFrames(log + fates) == FateFrames(log) + FateFrames(fates);
  }

  predicate RunAccounted(s: Sys, ops: seq<Op>, f: nat)
    requires WellFormed(s.core)
  {
    Accounted(Run(s, ops).core.queue, Run(s, ops).core.frameCounter, Log(s, ops), f)
  }

  lemma AccountGrows(s: Sys, before: seq<Op>, op: Op, f: nat)
    requires WellFormed(s.core) && RunAccounted(s, before, f)
    ensures RunAccounted(s, before + [op], f)
  {
    var c := Run(s, before).core;
    LogGrows(s, before, op);
    StepConserves(c, op, f);
    IssuedIsNext(c, op, f);
    hide Apply, Fates, Issued, WellFormed, Run, Log, Times, Accounted, Conserves;
    AccountedGrows(c.queue, c.frameCounter, Log(s, before), Fates(c, op), Issued(c, op), Apply(c, op).queue, f);
  }

  lemma AccountStarts(s: Sys, f: nat)
    requires Unused(s)
    ensures RunAccounted(s, [], f)
  {
  }

  lemma FramesConservedFrom(s: Sys, ops: seq<Op>, f: nat)
    requires Unused(s)
    ensures RunAccounted(s, ops, f)
  {
    hide RunAccounted, WellFormed;
    if ops == [] {
      AccountStarts(s, f);
    } else {
      FramesConservedFrom(s, ops[..|ops| - 1], f);
      AccountGrows(s, ops[..|ops| - 1], ops[|ops| - 1], f);
      assert ops[..|ops| - 1] + [ops[|ops| - 1]] == ops;
    }
  }

  /** Every frame number issued is exactly one of: still queued, acquired, dropped as late,
      overwritten, or cleared by the consumer's disconnection; no other number is any. */
  lemma FramesConserved(ops: seq<Op>, f: nat)
    ensures var c := Run(START, ops).core;
            Times(Frames(c.queue), f) + Times(FateFrames(Log(START, ops)), f)
            == if 1 <= f <= c.frameCounter then 1 else 0
  {
    FramesConservedFrom(START, ops, f);
  }

  lemma IssuedIsNext(c: Core, op: Op, f: nat)
    requires WellFormed(c)
    ensures Times(Issued(c, op), f) == if c.frameCounter < f <= c.frameCounter + |Issued(c, op)| then 1 else 0
  {
    TimesOne(c.frameCounter + 1, f);
    hide QueueStatus, WellFormed;
  }

  // ---------- order ----------

  predicate Ascending(queue: seq<Item>) {
    forall i, j :: 0 <= i < j < |queue| ==> queue[i].frame < queue[j].frame
  }

  /** Every buffer that the step queues has the given droppability. */
  predicate QueuesLike(c: Core, op: Op, droppable: bool) {
    op.QueueBufferOp? ==> (c.cannotBlock || op.input.isAsync) == droppable
  }

  predicate OneDroppability(s: Sys, ops: seq<Op>, droppable: bool)
    requires WellFormed(s.core)
  {
    ops == [] || (OneDroppability(s, ops[..|ops| - 1], droppable)
                  && QueuesLike(Run(s, ops[..|ops| - 1]).core, ops[|ops| - 1], droppable))
  }

  predicate AllLike(queue: seq<Item>, droppable: bool) {
    forall i :: 0 <= i < |queue| ==> queue[i].isDroppable == droppable
  }

  /** A queue in order, of one droppability, and at most one item long if droppable. */
  predicate InOrder(queue: seq<Item>, counter: nat, droppable: bool) {
    && Ascending(queue)
    && AllLike(queue, droppable)
    && (forall i :: 0 <= i < |queue| ==> queue[i].frame <= counter)
    && (droppable ==> |queue| <= 1)
  }

  /** The frames that have left the queue did so in order, before those still queued. */
  predicate LeftInOrder(log: seq<Fate>, queue: seq<Item>, counter: nat) {
    && (forall i, j :: 0 <= i < j < |log| ==> log[i].frame < log[j].frame)
    && (forall i :: 0 <= i < |log| ==> log[i].frame <= counter)
    && (forall i, j :: 0 <= i < |log| && 0 <= j < |queue| ==> log[i].frame < queue[j].frame)
  }

  /** The order of the queue and of the frames that have left it. */
  predicate Orderly(queue: seq<Item>, counter: nat, droppable: bool, log: seq<Fate>) {
    InOrder(queue, counter, droppable) && LeftInOrder(log, queue, counter)
  }

  predicate StaysOrderly(c: Core, op: Op, droppable: bool, log: seq<Fate>)
    requires WellFormed(c)
  {
    var d := Apply(c, op);
    Orderly(d.queue, d.frameCounter, droppable, log + Fates(c, op))
  }

  /** The fates are those of the first m items of the queue, in order. */
  predicate FatesOfPrefix(queue: seq<Item>, m: nat, fates: seq<Fate>) {
    |fates| == m <= |queue| && forall i :: 0 <= i < m ==> fates[i].frame == queue[i].frame
  }

  lemma LeavingKeepsOrder(queue: seq<Item>, m: nat, fates: seq<Fate>, counter: nat, droppable: bool, log: seq<Fate>)
    requires Orderly(queue, counter, droppable, log) && FatesOfPrefix(queue, m, fates)
    ensures Orderly(queue[m..], counter, droppable, log + fates)
  {
  }

  lemma AddingKeepsOrder(queue: seq<Item>, item: Item, counter: nat, droppable: bool, log: seq<Fate>)
    requires Orderly(queue, counter, droppable, log) && (droppable ==> queue == [])
    requires item.isDroppable == droppable && item.frame == counter + 1
    ensures Orderly(queue + [item], counter + 1, droppable, log)
  {
  }

  lemma AcquireFates(c: Core, expected: int)
    requires WellFormed(c) && AcquireStatus(c, expected) == NO_ERROR
    ensures var m := DropCount(c, expected) + 1;
            && FatesOfPrefix(c.queue, m, Fates(c, AcquireBufferOp(expected)))
            && AcquireBuffer(c, expected).queue == c.queue[m..]
  {
    AcquireSplitsQueue(c, expected);
    hide WellFormed, Pruned, AcquireBuffer;
  }

  lemma AcquireKeepsOrder(c: Core, expected: int, droppable: bool, log: seq<Fate>)
    requires WellFormed(c) && Orderly(c.queue, c.frameCounter, droppable, log)
    ensures StaysOrderly(c, AcquireBufferOp(expected), droppable, log)
  {
    hide Orderly, WellFormed, Pruned, Deferred, FatesOfPrefix;
    AcquireKeepsCounter(c, expected);
    if AcquireStatus(c, expected) == NO_ERROR {
      AcquireFates(c, expected);
      hide AcquireBuffer;
      var fates := Fates(c, AcquireBufferOp(expected));
      LeavingKeepsOrder(c.queue, DropCount(c, expected) + 1, fates, c.frameCounter, droppable, log);
    } else {
      if AcquireStatus(c, expected) == PRESENT_LATER {
        PresentLaterChangesNothing(c, expected);
      }
      assert log + [] == log;
    }
  }

  lemma QueueKeepsOrder(c: Core, slot: int, input: QueueInput, droppable: bool, log: seq<Fate>)
    requires WellFormed(c) && Orderly(c.queue, c.frameCounter, droppable, log)
    requires QueuesLike(c, QueueBufferOp(slot, input), droppable)
    ensures StaysOrderly(c, QueueBufferOp(slot, input), droppable, log)
  {
    hide Orderly, WellFormed, QueueStatus;
    assert log + [] == log;
    if QueueStatus(c, slot, input) == NO_ERROR {
      QueueBufferItems(c, slot, input);
      hide QueueBuffer;
      var item := QueuedItem(c, slot, input);
      OverwritesAlone(c, droppable, log, item);
      if Overwrites(c) {
        LeavingKeepsOrder(c.queue, 1, [Overwritten(c.queue[0].frame)], c.frameCounter, droppable, log);
        AddingKeepsOrder([], item, c.frameCounter, droppable, log + [Overwritten(c.queue[0].frame)]);
      } else {
        AddingKeepsOrder(c.queue, item, c.frameCounter, droppable, log);
      }
    }
  }

  lemma OverwritesAlone(c: Core, droppable: bool, log: seq<Fate>, item: Item)
    requires Orderly(c.queue, c.frameCounter, droppable, log)
    ensures Overwrites(c) ==> c.queue[0 := item] == [] + [item] && c.queue[1..] == []
    ensures !Overwrites(c) && droppable ==> c.queue == []
  {
  }

  lemma ClearKeepsOrder(c: Core, droppable: bool, log: seq<Fate>)
    requires WellFormed(c) && Orderly(c.queue, c.frameCounter, droppable, log)
    ensures StaysOrderly(c, DisconnectConsumerOp, droppable, log)
  {
    hide Orderly, WellFormed;
    assert log + [] == log;
    LeavingKeepsOrder(c.queue, |c.queue|, AllCleared(c.queue), c.frameCounter, droppable, log);
    assert c.queue[|c.queue|..] == [];
  }

  lemma OthersKeepOrder(c: Core, op: Op, droppable: bool, log: seq<Fate>)
    requires WellFormed(c) && Orderly(c.queue, c.frameCounter, droppable, log) && !MovesItems(op)
    ensures StaysOrderly(c, op, droppable, log)
  {
    OthersKeepQueue(c, op);
    hide Apply, WellFormed, Orderly;
    assert log + [] == log;
  }

  lemma StepKeepsOrder(c: Core, op: Op, droppable: bool, log: seq<Fate>)
    requires WellFormed(c) && Orderly(c.queue, c.frameCounter, droppable, log)
    requires QueuesLike(c, op, droppable)
    ensures StaysOrderly(c, op, droppable, log)
  {
    hide StaysOrderly, WellFormed, Orderly, QueuesLike;
    if op.AcquireBufferOp? {
      AcquireKeepsOrder(c, op.expected, droppable, log);
    } else if op.QueueBufferOp? {
      QueueKeepsOrder(c, op.slot, op.input, droppable, log);
    } else if op.DisconnectConsumerOp? {
      ClearKeepsOrder(c, droppable, log);
    } else {
      OthersKeepOrder(c, op, droppable, log);
    }
  }

  predicate RunOrderly(s: Sys, ops: seq<Op>, droppable: bool)
    requires WellFormed(s.core)
  {
    var c := Run(s, ops).core;
    Orderly(c.queue, c.frameCounter, droppable, Log(s, ops))
  }

  lemma OrderGrows(s: Sys, before: seq<Op>, op: Op, droppable: bool)
    requires WellFormed(s.core) && RunOrderly(s, before, droppable) && QueuesLike(Run(s, before).core, op, droppable)
    ensures RunOrderly(s, before + [op], droppable)
  {
    hide WellFormed, Orderly, Run, Log, Fates, QueuesLike, Apply;
    StepKeepsOrder(Run(s, before).core, op, droppable, Log(s, before));
    LogGrows(s, before, op);
  }

  lemma OrderStarts(s: Sys, droppable: bool)
    requires Unused(s)
    ensures RunOrderly(s, [], droppable)
  {
  }

  lemma {:induction false} RunStaysOrderly(s: Sys, ops: seq<Op>, droppable: bool)
    requires Unused(s) && OneDroppability(s, ops, droppable)
    ensures RunOrderly(s, ops, droppable)
  {
    hide QueuesLike, RunOrderly, Run, WellFormed;
    if ops == [] {
      OrderStarts(s, droppable);
    } else {
      var before := ops[..|ops| - 1];
      RunStaysOrderly(s, before, droppable);
      OrderGrows(s, before, ops[|ops| - 1], droppable);
      assert before + [ops[|ops| - 1]] == ops;
    }
  }

  /** With one droppability, frames leave the queue, acquired or not, in strictly increasing
      order over the whole run, the queue stays in order, and a droppable queue holds at
      most one item. */
  lemma FramesLeaveInOrder(ops: seq<Op>, droppable: bool)
    requires OneDroppability(START, ops, droppable)
    ensures var log := Log(START, ops); var c := Run(START, ops).core;
            && (forall i, j :: 0 <= i < j < |log| ==> log[i].frame < log[j].frame)
            && (forall i, j :: 0 <= i < |log| && 0 <= j < |c.queue| ==> log[i].frame < c.queue[j].frame)
            && Ascending(c.queue) && (droppable ==> |c.queue| <= 1)
  {
    RunStaysOrderly(START, ops, droppable);
    hide Run, Log;
  }

  /** Exactly when queueing keeps the queue in order: the item at the front is not
      overwritten, or it is alone. Otherwise the newest frame jumps ahead of older ones. */
  lemma QueueingKeepsOrderIff(c: Core, slot: int, input: QueueInput)
    requires WellFormed(c) && Ascending(c.queue) && QueueStatus(c, slot, input) == NO_ERROR
    requires forall i :: 0 <= i < |c.queue| ==> c.queue[i].frame <= c.frameCounter
    ensures Ascending(QueueBuffer(c, slot, input).queue) <==> (!Overwrites(c) || |c.queue| == 1)
  {
    var d := QueueBuffer(c, slot, input);
    if Overwrites(c) && |c.queue| > 1 {
      assert d.queue[0].frame == c.frameCounter + 1 && d.queue[1] == c.queue[1];
    }
  }
}
