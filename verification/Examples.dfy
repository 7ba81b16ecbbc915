/** Runs of a new queue that end where a promise fails. */
module Examples {
  import opened BufferQueueTypes
  import opened SlotScans
  import opened BufferQueueSpec
  import opened Correspondence
  import opened QueueRuns
  import opened DequeueLimits
  import opened QueueHistory
  import opened Wakeup
  import opened SlotMoves
  import opened SlotOwnership
  import opened BufferCounts

  lemma StartReached()
    ensures Reaches(START, [], NewCore())
  {
  }

  // ---------- the steps that the examples use ----------

  /** The queue with both ends connected. */
  function Opened(useAsync: bool, defaultMax: nat, byApp: bool): (c: Core)
    requires 2 <= defaultMax <= NUM_BUFFER_SLOTS
    ensures WellFormed(c)
  {
    NewCore().(useAsyncBuffer := useAsync, defaultMax := defaultMax, broadcasts := 1, hasConsumer := true,
               consumerByApp := byApp, connectedApi := 1, cannotBlock := byApp)
  }

  lemma Open(useAsync: bool, defaultMax: nat, byApp: bool) returns (ops: seq<Op>)
    requires 2 <= defaultMax <= NUM_BUFFER_SLOTS
    ensures Reaches(START, ops, Opened(useAsync, defaultMax, byApp))
  {
    StartReached();
    hide Reaches;
    ops := [];
    var c := NewCore();
    var d := c.(defaultMax := defaultMax, broadcasts := 1);
    RunGrows(START, ops, c, SetDefaultMaxOp(defaultMax), d);
    ops, c := ops + [SetDefaultMaxOp(defaultMax)], d;
    if !useAsync {
      d := c.(useAsyncBuffer := false);
      RunGrows(START, ops, c, DisableAsyncBufferOp, d);
      ops, c := ops + [DisableAsyncBufferOp], d;
    }
    d := c.(hasConsumer := true, consumerByApp := byApp);
    RunGrows(START, ops, c, ConnectConsumerOp(byApp), d);
    ops, c := ops + [ConnectConsumerOp(byApp)], d;
    d := c.(connectedApi := 1, cannotBlock := byApp);
    RunGrows(START, ops, c, ConnectProducerOp(1, byApp, false), d);
    ops := ops + [ConnectProducerOp(1, byApp, false)];
  }

  /** Slot b is FREE and has not been used, and the slots before it are taken. */
  predicate FirstUnused(slots: seq<Slot>, b: nat) {
    b < |slots| && slots[b] == NEW_SLOT && forall k :: 0 <= k < b ==> slots[k].state != FREE
  }

  lemma FirstUnusedIsOldest(slots: seq<Slot>, b: nat, n: nat)
    requires FirstUnused(slots, b) && b < n <= |slots|
    ensures Oldest(slots, n, false) == b
  {
    OldestIsOldest(slots, n, false);
    assert Eligible(slots[b], false);
  }

  /** Nothing is dequeued, and no slot from the synchronous limit on is used. */
  predicate Settled(c: Core) {
    && WellFormed(c) && !c.abandoned && c.overrideMax == 0 && |c.queue| <= BaseBufferCount(c, false)
    && (forall b :: 0 <= b < NUM_BUFFER_SLOTS ==> c.slots[b].state != DEQUEUED)
    && (forall b :: BaseBufferCount(c, false) <= b < NUM_BUFFER_SLOTS ==> c.slots[b] == NEW_SLOT)
  }

  lemma SettledLimit(c: Core)
    requires Settled(c)
    ensures MaxBufferCount(c, false) == BaseBufferCount(c, false)
  {
    assert ClearFrom(c.slots, BaseBufferCount(c, false));
    MaxBufferCountIsLeast(c, false, BaseBufferCount(c, false));
  }

  /** The slot that the producer attaches a buffer to. */
  function AttachedSlot(buffer: Buffer): Slot {
    NEW_SLOT.(buffer := Some(buffer), state := DEQUEUED, requestCalled := true)
  }

  lemma SettledPass(c: Core, b: nat)
    requires Settled(c) && Oldest(c.slots, BaseBufferCount(c, false), false) == b
    ensures Pass(c, false) == Found(b) && Trim(c, false) == c
  {
    SettledLimit(c);
    CountZero(c.slots, DEQUEUED, BaseBufferCount(c, false));
    hide MaxBufferCount, Oldest, Count;
    assert TrimmedSlots(c.slots, BaseBufferCount(c, false)) == c.slots;
  }

  lemma ProducerAttaches(ops: seq<Op>, c: Core, b: nat, buffer: Buffer) returns (after: seq<Op>, d: Core)
    requires Reaches(START, ops, c) && Settled(c) && b < BaseBufferCount(c, false) && FirstUnused(c.slots, b)
    requires Fresh(c.slots, c.queue, buffer.handle)
    ensures d == c.(slots := c.slots[b := AttachedSlot(buffer)]) && Reaches(START, after, d)
  {
    hide Reaches, FirstUnused, Settled, BaseBufferCount;
    assert WellFormed(c) by {
      SettledShape(c);
    }
    FirstUnusedIsOldest(c.slots, b, BaseBufferCount(c, false));
    SettledPass(c, b);
    assert c.slots[b] == NEW_SLOT by {
      UnusedSlot(c.slots, b);
    }
    hide Pass, Trim;
    d := c.(slots := c.slots[b := AttachedSlot(buffer)]);
    after := ops + [AttachByProducerOp(buffer)];
    RunGrows(START, ops, c, AttachByProducerOp(buffer), d);
  }

  lemma UnusedSlot(slots: seq<Slot>, b: nat)
    requires FirstUnused(slots, b)
    ensures b < |slots| && slots[b] == NEW_SLOT
  {
  }

  lemma SettledShape(c: Core)
    requires Settled(c)
    ensures WellFormed(c)
  {
  }

  /** An input that queueBuffer accepts. */
  function Input(isAsync: bool): QueueInput {
    QueueInput(0, true, isAsync, Some(NO_FENCE), true, true)
  }

  lemma QueueAccepts(c: Core, b: nat, isAsync: bool)
    requires WellFormed(c) && !c.abandoned && c.overrideMax == 0 && b < BaseBufferCount(c, isAsync)
    requires c.slots[b].state == DEQUEUED && c.slots[b].requestCalled && c.slots[b].buffer.Some?
    ensures QueueStatus(c, b, Input(isAsync)) == NO_ERROR
  {
  }

  lemma ProducerQueues(ops: seq<Op>, c: Core, b: nat, isAsync: bool) returns (after: seq<Op>, d: Core)
    requires Reaches(START, ops, c) && WellFormed(c)
    requires !c.abandoned && c.overrideMax == 0 && b < BaseBufferCount(c, isAsync)
    requires c.slots[b].state == DEQUEUED && c.slots[b].requestCalled && c.slots[b].buffer.Some?
    ensures d == Enqueue(c, b, Input(isAsync)) && Reaches(START, after, d)
  {
    hide Reaches, BaseBufferCount, Enqueue, QueueStatus;
    QueueAccepts(c, b, isAsync);
    d := Enqueue(c, b, Input(isAsync));
    after := ops + [QueueBufferOp(b, Input(isAsync))];
    RunGrows(START, ops, c, QueueBufferOp(b, Input(isAsync)), d);
  }

  /** The slot that the consumer attaches a buffer to. */
  function HeldSlot(buffer: Buffer): Slot {
    NEW_SLOT.(buffer := Some(buffer), state := ACQUIRED, attachedByConsumer := true)
  }

  /** The consumer holds at most one buffer. */
  predicate OneHeld(slots: seq<Slot>) {
    forall j, k :: 0 <= j < k < |slots| ==> slots[j].state != ACQUIRED || slots[k].state != ACQUIRED
  }

  lemma ConsumerAttaches(ops: seq<Op>, c: Core, b: nat, buffer: Buffer) returns (after: seq<Op>, d: Core)
    requires Reaches(START, ops, c) && WellFormed(c) && FirstUnused(c.slots, b)
    requires OneHeld(c.slots)
    requires Fresh(c.slots, c.queue, buffer.handle)
    ensures d == c.(slots := c.slots[b := HeldSlot(buffer)]) && Reaches(START, after, d)
  {
    hide Reaches, Oldest, Count;
    FirstUnusedIsOldest(c.slots, b, NUM_BUFFER_SLOTS);
    CountAtMostOne(c.slots, ACQUIRED, NUM_BUFFER_SLOTS);
    d := c.(slots := c.slots[b := HeldSlot(buffer)]);
    after := ops + [AttachByConsumerOp(buffer)];
    RunGrows(START, ops, c, AttachByConsumerOp(buffer), d);
  }

  function ExampleBuffer(b: nat): Buffer {
    Buffer(b, 1, 1, 1, {})
  }

  // ---------- lost wakeups ----------

  /** A buffer queued from slot 0, and another held by the consumer in slot 1. */
  lemma OneQueuedOneHeld(useAsync: bool, byApp: bool) returns (ops: seq<Op>, c: Core)
    ensures Reaches(START, ops, c)
    ensures c == Opened(useAsync, 2, byApp).(slots := c.slots, queue := c.queue, frameCounter := 1,
                                             hasBeenQueued := true, broadcasts := 2)
    ensures WellFormed(c) && |c.queue| == 1
    ensures c.slots[0].state == QUEUED && c.slots[1].state == ACQUIRED
    ensures forall b :: 2 <= b < NUM_BUFFER_SLOTS ==> c.slots[b] == NEW_SLOT
  {
    hide Reaches;
    ops := Open(useAsync, 2, byApp);
    c := Opened(useAsync, 2, byApp);
    ops, c := ProducerAttaches(ops, c, 0, ExampleBuffer(0));
    ops, c := ProducerQueues(ops, c, 0, false);
    ops, c := ConsumerAttaches(ops, c, 1, ExampleBuffer(1));
  }

  /** The limits and the counts of a queue whose first slots only are used. */
  lemma SmallLimit(c: Core, isAsync: bool)
    requires WellFormed(c) && forall b :: BaseBufferCount(c, isAsync) <= b < NUM_BUFFER_SLOTS ==> !InUse(c.slots[b])
    ensures MaxBufferCount(c, isAsync) == BaseBufferCount(c, isAsync)
  {
    assert ClearFrom(c.slots, BaseBufferCount(c, isAsync));
    MaxBufferCountIsLeast(c, isAsync, BaseBufferCount(c, isAsync));
  }

  /** With no slot below the limit FREE or DEQUEUED, a pass waits or would block. */
  lemma FullPass(c: Core, isAsync: bool)
    requires WellFormed(c) && !c.abandoned && c.overrideMax == 0
    requires forall b :: BaseBufferCount(c, isAsync) <= b < NUM_BUFFER_SLOTS ==> !InUse(c.slots[b])
    requires forall b :: 0 <= b < BaseBufferCount(c, isAsync) ==>
                           c.slots[b].state == QUEUED || c.slots[b].state == ACQUIRED
    ensures MaxBufferCount(c, isAsync) == BaseBufferCount(c, isAsync)
    ensures !c.cannotBlock ==> Pass(c, isAsync) == Wait
    ensures c.cannotBlock && Count(c.slots, ACQUIRED, NUM_BUFFER_SLOTS) <= c.maxAcquired ==>
              Pass(c, isAsync) == Fail(WOULD_BLOCK)
  {
    SmallLimit(c, isAsync);
    CountZero(c.slots, DEQUEUED, BaseBufferCount(c, isAsync));
    CountPrefix(c.slots, ACQUIRED, BaseBufferCount(c, isAsync), NUM_BUFFER_SLOTS);
    MustWaitIff(c, isAsync);
    hide MaxBufferCount, Count, MustWait;
  }

  /** A buffer queued from slot 1, and two others held by the consumer in slots 0 and 2. */
  lemma OneQueuedTwoHeld() returns (ops: seq<Op>, c: Core)
    ensures Reaches(START, ops, c)
    ensures c == Opened(true, 2, false).(slots := c.slots, queue := c.queue, frameCounter := 1,
                                         hasBeenQueued := true, broadcasts := 2)
    ensures WellFormed(c) && |c.queue| == 1
    ensures c.slots[0].state == ACQUIRED && c.slots[1].state == QUEUED && c.slots[2] == HeldSlot(ExampleBuffer(2))
    ensures forall b :: 3 <= b < NUM_BUFFER_SLOTS ==> c.slots[b] == NEW_SLOT
  {
    hide Reaches;
    ops := Open(true, 2, false);
    c := Opened(true, 2, false);
    ops, c := ConsumerAttaches(ops, c, 0, ExampleBuffer(0));
    ops, c := ProducerAttaches(ops, c, 1, ExampleBuffer(1));
    ops, c := ProducerQueues(ops, c, 1, false);
    ops, c := ConsumerAttaches(ops, c, 2, ExampleBuffer(2));
  }

  /** A run after which an asynchronous waiter's wakeup is lost: a synchronous pass, its own
      wait going on, frees the buffer in slot 2, which lies beyond its limit. */
  lemma AsyncWakeupLost(op: Op) returns (ops: seq<Op>, c: Core)
    requires PassesIn(op, false)
    ensures Reaches(START, ops, c) && Connected(c) && Waits(c, true)
    ensures !Waits(Apply(c, op), true) && Apply(c, op).broadcasts == c.broadcasts
  {
    hide Reaches, Apply, Pass, MaxBufferCount;
    ops, c := OneQueuedTwoHeld();
    FullPass(c, true);
    SmallLimit(c, false);
    assert c.slots[2].state == ACQUIRED && c.slots[2].buffer.Some?;
    assert HeldBetween(c);
    SilentEndIff(c, op, true);
  }

  /** A run after which a synchronous waiter's wakeup is lost: an asynchronous dequeue takes
      slot 2, so that a synchronous pass would fail instead of waiting. */
  lemma SyncWakeupLost(op: Op) returns (ops: seq<Op>, c: Core)
    requires PassesIn(op, true)
    ensures Reaches(START, ops, c) && Connected(c) && Waits(c, false)
    ensures !Waits(Apply(c, op), false) && Apply(c, op).broadcasts == c.broadcasts
  {
    ops, c := OneQueuedOneHeld(true, false);
    hide Reaches;
    FullPass(c, false);
    SmallLimit(c, true);
    CountZero(c.slots, DEQUEUED, 3);
    MustWaitIff(c, true);
    assert c.slots[2].state == FREE;
    assert Pass(c, true).Found? by {
      hide MaxBufferCount, Count, MustWait, Oldest;
    }
    SilentEndIff(c, op, false);
    hide Apply, Pass, MaxBufferCount;
  }

  // ---------- a dequeue that would block ----------

  /** A run without the extra buffer for asynchronous use, in application-controlled mode:
      nothing is dequeued and the consumer is within its limit, and yet a pass would block. */
  lemma WouldBlockWithoutAsyncBuffer(isAsync: bool) returns (ops: seq<Op>, c: Core)
    ensures Reaches(START, ops, c) && Connected(c) && c.cannotBlock && !c.useAsyncBuffer
    ensures Count(c.slots, DEQUEUED, NUM_BUFFER_SLOTS) == 0
    ensures Count(c.slots, ACQUIRED, NUM_BUFFER_SLOTS) <= c.maxAcquired
    ensures Pass(c, isAsync) == Fail(WOULD_BLOCK)
  {
    ops, c := OneQueuedOneHeld(false, true);
    hide Reaches, Pass;
    CountZero(c.slots, DEQUEUED, NUM_BUFFER_SLOTS);
    CountAtMostOne(c.slots, ACQUIRED, NUM_BUFFER_SLOTS);
    FullPass(c, isAsync);
  }

  // ---------- a frame that overtakes ----------

  /** The item and the slot of a buffer that was attached and queued. */
  function SentItem(b: nat, buffer: Buffer, frame: nat, droppable: bool): Item {
    Item(b, buffer, frame, NO_FENCE, 0, true, droppable, false)
  }

  function SentSlot(buffer: Buffer, frame: nat): Slot {
    AttachedSlot(buffer).(state := QUEUED, frame := frame)
  }

  function Sent(c: Core, b: nat, buffer: Buffer, droppable: bool): (d: Core)
    requires WellFormed(c) && b < NUM_BUFFER_SLOTS
    ensures WellFormed(d)
  {
    c.(slots := c.slots[b := SentSlot(buffer, c.frameCounter + 1)],
       queue := c.queue + [SentItem(b, buffer, c.frameCounter + 1, droppable)],
       frameCounter := c.frameCounter + 1, hasBeenQueued := true, broadcasts := c.broadcasts + 1)
  }

  lemma ProducerSends(ops: seq<Op>, c: Core, b: nat, buffer: Buffer, isAsync: bool) returns (after: seq<Op>, d: Core)
    requires Reaches(START, ops, c) && Settled(c) && b < BaseBufferCount(c, false) && FirstUnused(c.slots, b)
    requires Fresh(c.slots, c.queue, buffer.handle) && !c.cannotBlock && (c.queue == [] || !c.queue[0].isDroppable)
    ensures d == Sent(c, b, buffer, isAsync) && Reaches(START, after, d)
  {
    SettledCounts(c, b, isAsync);
    hide Reaches, Settled, FirstUnused, Enqueue, BaseBufferCount, Fresh;
    after, d := ProducerAttaches(ops, c, b, buffer);
    after, d := ProducerQueues(after, d, b, isAsync);
    AttachedIsSent(c, b, buffer, isAsync);
  }

  lemma SettledCounts(c: Core, b: nat, isAsync: bool)
    requires Settled(c) && b < BaseBufferCount(c, false)
    ensures WellFormed(c) && !c.abandoned && c.overrideMax == 0
    ensures forall slots: seq<Slot> :: |slots| == |c.slots| ==> b < BaseBufferCount(c.(slots := slots), isAsync)
  {
  }

  lemma AttachedIsSent(c: Core, b: nat, buffer: Buffer, isAsync: bool)
    requires WellFormed(c) && b < NUM_BUFFER_SLOTS
    requires !c.cannotBlock && (c.queue == [] || !c.queue[0].isDroppable)
    ensures Enqueue(c.(slots := c.slots[b := AttachedSlot(buffer)]), b, Input(isAsync)) == Sent(c, b, buffer, isAsync)
  {
  }

  /** A synchronous item, a droppable one and a synchronous one. */
  lemma ThreeSent() returns (ops: seq<Op>, c: Core)
    ensures Reaches(START, ops, c)
    ensures c == Sent(Sent(Sent(Opened(true, 4, false), 0, ExampleBuffer(0), false), 1, ExampleBuffer(1), true),
                      2, ExampleBuffer(2), false)
  {
    hide Reaches;
    ops := Open(true, 4, false);
    c := Opened(true, 4, false);
    ops, c := ProducerSends(ops, c, 0, ExampleBuffer(0), false);
    ops, c := ProducerSends(ops, c, 1, ExampleBuffer(1), true);
    ops, c := ProducerSends(ops, c, 2, ExampleBuffer(2), false);
  }

  /** The first of them acquired. */
  lemma FirstTaken() returns (ops: seq<Op>, c: Core)
    ensures Reaches(START, ops, c) && Settled(c) && FirstUnused(c.slots, 3) && BaseBufferCount(c, false) == 4
    ensures c.frameCounter == 3 && !c.cannotBlock && Fresh(c.slots, c.queue, 3)
    ensures c.queue == [SentItem(1, ExampleBuffer(1), 2, true), SentItem(2, ExampleBuffer(2), 3, false)]
  {
    hide Reaches;
    ops, c := ThreeSent();
    ops, c := ConsumerAcquires(ops, c);
  }

  /** A run with a synchronous item, a droppable one and a synchronous one, the first then
      acquired, after which queueing puts the newest frame ahead of an older one. */
  lemma NewestFrameOvertakes() returns (ops: seq<Op>, c: Core)
    ensures Reaches(START, ops, c) && Ascending(c.queue)
    ensures QueueStatus(c, 3, Input(false)) == NO_ERROR
    ensures var q := QueueBuffer(c, 3, Input(false)).queue; |q| == 2 && q[0].frame == 4 && q[1].frame == 3
  {
    hide Reaches, QueueStatus;
    ops, c := FirstTaken();
    ops, c := ProducerAttaches(ops, c, 3, ExampleBuffer(3));
    QueueAccepts(c, 3, false);
  }

  lemma ConsumerAcquires(ops: seq<Op>, c: Core) returns (after: seq<Op>, d: Core)
    requires Reaches(START, ops, c) && WellFormed(c) && c.queue != [] && OneHeld(c.slots)
    ensures d == TakeFront(c) && Reaches(START, after, d)
  {
    hide Reaches, Count, TakeFront;
    CountAtMostOne(c.slots, ACQUIRED, NUM_BUFFER_SLOTS);
    d := TakeFront(c);
    after := ops + [AcquireBufferOp(0)];
    RunGrows(START, ops, c, AcquireBufferOp(0), d);
  }

  // ---------- assertions that fail ----------

  /** A run after which the assertion about slots beyond the limit fails, and a synchronous
      pass takes the buffer in slot 2 away from the consumer. */
  lemma PassTakesBuffer(op: Op) returns (ops: seq<Op>, c: Core)
    requires PassesIn(op, false)
    ensures Reaches(START, ops, c) && Connected(c) && !FreeBeyondLimit(c, false)
    ensures c.slots[2].state == ACQUIRED && TakenAway(c, op, 2) && Apply(c, op).slots[2].state == FREE
  {
    hide Reaches, Apply, Pass, MaxBufferCount;
    ops, c := OneQueuedTwoHeld();
    SmallLimit(c, false);
    assert c.slots[2].state == ACQUIRED && TrimmedAt(c, false, 2);
    TakenIsFreed(c, op, 2);
  }

  /** A run after which the count that the producer has set is too low for asynchronous
      callers: setBufferCount has accepted it all the same. */
  lemma CountTooLow() returns (ops: seq<Op>, c: Core)
    ensures Reaches(START, ops, c) && Connected(c) && c.overrideMax == 2 && MinMaxBufferCount(c, true) == 3
    ensures !CountSuffices(c, true) && CountSuffices(c, false)
  {
    hide Reaches, Count;
    ops := Open(true, 2, false);
    c := Opened(true, 2, false);
    CountZero(c.slots, DEQUEUED, NUM_BUFFER_SLOTS);
    var d := SetBufferCount(c, 2);
    RunGrows(START, ops, c, SetBufferCountOp(2), d);
    ops, c := ops + [SetBufferCountOp(2)], d;
  }
}
