/** What each locked section of the BufferQueue does to the shared state, as functions on
    `Core`. The methods of the classes in QueueCore, QueueProducer and QueueConsumer are
    proved to compute these. */
module BufferQueueSpec {
  import opened BufferQueueTypes
  import opened SlotScans

  /** No item enters or leaves the queue. */
  predicate SameItems(c: Core, d: Core) {
    d.queue == c.queue && d.frameCounter == c.frameCounter
  }

  /** The connections and the modes that the limits depend on stay as they are. */
  predicate SameMode(c: Core, d: Core) {
    && d.abandoned == c.abandoned && d.hasConsumer == c.hasConsumer && d.connectedApi == c.connectedApi
    && d.cannotBlock == c.cannotBlock && d.useAsyncBuffer == c.useAsyncBuffer
    && d.overrideMax == c.overrideMax && d.defaultMax == c.defaultMax && d.maxAcquired == c.maxAcquired
  }

  // ---------- limits ----------

  function MinUndequeued(c: Core, isAsync: bool): int {
    if !c.useAsyncBuffer then c.maxAcquired
    else if c.cannotBlock || isAsync then c.maxAcquired + 1
    else c.maxAcquired
  }

  function MinMaxBufferCount(c: Core, isAsync: bool): int {
    MinUndequeued(c, isAsync) + 1
  }

  /** The limit before slots in use are taken into account. */
  function BaseBufferCount(c: Core, isAsync: bool): (n: nat)
    requires WellFormed(c)
    ensures 1 <= n <= NUM_BUFFER_SLOTS
  {
    if c.overrideMax != 0 then c.overrideMax
    else if c.defaultMax > MinMaxBufferCount(c, isAsync) then c.defaultMax
    else MinMaxBufferCount(c, isAsync)
  }

  function MaxBufferCount(c: Core, isAsync: bool): (n: nat)
    requires WellFormed(c)
    ensures BaseBufferCount(c, isAsync) <= n <= NUM_BUFFER_SLOTS
  {
    InUseEnd(c.slots, BaseBufferCount(c, isAsync), NUM_BUFFER_SLOTS)
  }

  /** No slot at or beyond the limit is QUEUED or DEQUEUED. */
  lemma BeyondLimit(c: Core, isAsync: bool)
    requires WellFormed(c)
    ensures forall b :: MaxBufferCount(c, isAsync) <= b < NUM_BUFFER_SLOTS ==> !InUse(c.slots[b])
  {
    InUseEndClears(c.slots, BaseBufferCount(c, isAsync), NUM_BUFFER_SLOTS);
  }

  // ---------- freeing and tracking ----------

  function FreedSlot(s: Slot): Slot {
    s.(state := FREE, buffer := None, frame := FREED_FRAME, fence := NO_FENCE, acquireCalled := false,
       needsCleanup := s.needsCleanup || s.state == ACQUIRED)
  }

  function AllFreed(slots: seq<Slot>): (r: seq<Slot>)
    ensures |r| == |slots|
  {
    seq(|slots|, b requires 0 <= b < |slots| => FreedSlot(slots[b]))
  }

  function FreeAll(c: Core): (d: Core)
    requires WellFormed(c)
    ensures WellFormed(d) && SameItems(c, d)
  {
    c.(slots := AllFreed(c.slots), hasBeenQueued := false)
  }

  function Broadcast(c: Core): Core {
    c.(broadcasts := c.broadcasts + 1)
  }

  /** Whether the slot that the item names still holds the item's buffer. */
  predicate Tracks(slots: seq<Slot>, item: Item)
    requires item.slot < |slots|
  {
    && slots[item.slot].buffer.Some?
    && slots[item.slot].buffer.value.handle == item.buffer.handle
  }

  // ---------- waiting for a free slot ----------

  datatype PassResult = Found(slot: nat) | Wait | Fail(status: Status)

  predicate ConflictsWithOverride(c: Core, isAsync: bool)
    requires WellFormed(c)
  {
    isAsync && c.overrideMax != 0 && c.overrideMax < MaxBufferCount(c, isAsync)
  }

  /** Whether a pass gets as far as freeing the slots beyond the limit. */
  predicate Trims(c: Core, isAsync: bool)
    requires WellFormed(c)
  {
    !c.abandoned && !ConflictsWithOverride(c, isAsync)
  }

  function TrimmedSlots(slots: seq<Slot>, limit: nat): (r: seq<Slot>)
    ensures |r| == |slots|
  {
    seq(|slots|, b requires 0 <= b < |slots| =>
      if b >= limit && slots[b].buffer.Some? then FreedSlot(slots[b]) else slots[b])
  }

  function Trim(c: Core, isAsync: bool): (d: Core)
    requires WellFormed(c)
    ensures WellFormed(d) && SameItems(c, d) && SameMode(c, d) && d.broadcasts == c.broadcasts
  {
    if Trims(c, isAsync) then c.(slots := TrimmedSlots(c.slots, MaxBufferCount(c, isAsync))) else c
  }

  /** There is a buffer in a slot from the limit on. */
  predicate BuffersFrom(slots: seq<Slot>, limit: nat) {
    exists b :: limit <= b < |slots| && slots[b].buffer.Some?
  }

  /** A pass frees buffers, so that the producer has to drop those it has cached. */
  predicate ReleasesAll(c: Core, isAsync: bool)
    requires WellFormed(c)
  {
    Trims(c, isAsync) && BuffersFrom(c.slots, MaxBufferCount(c, isAsync))
  }

  predicate MustWait(c: Core, isAsync: bool)
    requires WellFormed(c)
  {
    var max := MaxBufferCount(c, isAsync);
    Oldest(c.slots, max, false) == INVALID_BUFFER_SLOT || |c.queue| > max
  }

  predicate TooManyDequeued(c: Core, isAsync: bool)
    requires WellFormed(c)
  {
    var max := MaxBufferCount(c, isAsync);
    var dequeued := Count(c.slots, DEQUEUED, max);
    || (c.overrideMax == 0 && dequeued > 0)
    || (c.hasBeenQueued && max - (dequeued + 1) < MinUndequeued(c, isAsync))
  }

  /** One pass of the wait loop: what it decides in state c. */
  function Pass(c: Core, isAsync: bool): (r: PassResult)
    requires WellFormed(c)
    ensures r.Found? ==> r.slot < NUM_BUFFER_SLOTS
  {
    var max := MaxBufferCount(c, isAsync);
    if c.abandoned then Fail(NO_INIT)
    else if ConflictsWithOverride(c, isAsync) then Fail(BAD_VALUE)
    else if TooManyDequeued(c, isAsync) then Fail(INVALID_OPERATION)
    else if MustWait(c, isAsync) then
      if c.cannotBlock && Count(c.slots, ACQUIRED, max) <= c.maxAcquired then Fail(WOULD_BLOCK) else Wait
    else Found(Oldest(c.slots, max, false))
  }

  // ---------- producer ----------

  predicate OwnedByProducer(c: Core, slot: int)
    requires WellFormed(c)
  {
    0 <= slot < NUM_BUFFER_SLOTS && c.slots[slot].state == DEQUEUED
  }

  function RequestBuffer(c: Core, slot: int): (d: Core)
    requires WellFormed(c)
    ensures WellFormed(d) && SameItems(c, d) && SameMode(c, d)
  {
    if c.abandoned || !OwnedByProducer(c, slot) then c
    else c.(slots := c.slots[slot := c.slots[slot].(requestCalled := true)])
  }

  function SetBufferCountStatus(c: Core, n: int): Status
    requires WellFormed(c)
  {
    if c.abandoned then NO_INIT
    else if n > NUM_BUFFER_SLOTS || Count(c.slots, DEQUEUED, NUM_BUFFER_SLOTS) > 0 then BAD_VALUE
    else if n != 0 && n < MinMaxBufferCount(c, false) then BAD_VALUE
    else NO_ERROR
  }

  function SetBufferCount(c: Core, n: int): (d: Core)
    requires WellFormed(c)
    ensures WellFormed(d) && SameItems(c, d)
  {
    if SetBufferCountStatus(c, n) != NO_ERROR then c
    else if n == 0 then Broadcast(c.(overrideMax := 0))
    else Broadcast(FreeAll(c).(overrideMax := n))
  }

  /** The width, height, format and usage that a dequeue settles on. */
  function Resolve(c: Core, req: Request): Request {
    var useDefault := req.width == 0 && req.height == 0;
    Request(if useDefault then c.defaultWidth else req.width,
            if useDefault then c.defaultHeight else req.height,
            if req.format == 0 then c.defaultFormat else req.format,
            req.usage + c.consumerUsage)
  }

  predicate Suits(buffer: Option<Buffer>, req: Request) {
    && buffer.Some?
    && buffer.value.width == req.width
    && buffer.value.height == req.height
    && buffer.value.format == req.format
    && req.usage <= buffer.value.usage
  }

  predicate BadSize(req: Request) {
    (req.width != 0 && req.height == 0) || (req.width == 0 && req.height != 0)
  }

  function DequeuedSlot(s: Slot, req: Request): Slot {
    var t := s.(state := DEQUEUED, fence := NO_FENCE);
    if Suits(s.buffer, req) then t
    else t.(acquireCalled := false, buffer := None, requestCalled := false)
  }

  /** The first locked section of dequeueBuffer, for one pass of the wait loop. */
  function BeginDequeue(c: Core, isAsync: bool, req: Request): (d: Core)
    requires WellFormed(c)
    ensures WellFormed(d) && SameItems(c, d) && SameMode(c, d) && d.broadcasts == c.broadcasts
  {
    if BadSize(req) then c
    else
      var t := Trim(c, isAsync);
      match Pass(c, isAsync)
      case Found(b) => t.(slots := t.slots[b := DequeuedSlot(t.slots[b], Resolve(c, req))])
      case _ => t
  }

  predicate BeginsAllocation(c: Core, isAsync: bool, req: Request)
    requires WellFormed(c)
  {
    && !BadSize(req) && Pass(c, isAsync).Found?
    && !Suits(c.slots[Pass(c, isAsync).slot].buffer, Resolve(c, req))
  }

  /** The second locked section of dequeueBuffer, after a successful allocation. */
  function FinishDequeue(c: Core, slot: nat, buffer: Buffer): (d: Core)
    requires WellFormed(c) && slot < NUM_BUFFER_SLOTS
    ensures WellFormed(d) && SameItems(c, d) && SameMode(c, d)
  {
    if c.abandoned then c
    else c.(slots := c.slots[slot := c.slots[slot].(frame := FREED_FRAME, buffer := Some(buffer))])
  }

  function DetachByProducer(c: Core, slot: int): (d: Core)
    requires WellFormed(c)
    ensures WellFormed(d) && SameItems(c, d) && SameMode(c, d)
  {
    if c.abandoned || !OwnedByProducer(c, slot) || !c.slots[slot].requestCalled then c
    else Broadcast(c.(slots := c.slots[slot := FreedSlot(c.slots[slot])]))
  }

  function DetachNext(c: Core): (d: Core)
    requires WellFormed(c)
    ensures WellFormed(d) && SameItems(c, d) && SameMode(c, d)
  {
    var b := Oldest(c.slots, NUM_BUFFER_SLOTS, true);
    if c.abandoned || b == INVALID_BUFFER_SLOT then c
    else c.(slots := c.slots[b := FreedSlot(c.slots[b])])
  }

  function AttachByProducer(c: Core, buffer: Buffer): (d: Core)
    requires WellFormed(c)
    ensures WellFormed(d) && SameItems(c, d) && SameMode(c, d) && d.broadcasts == c.broadcasts
  {
    var t := Trim(c, false);
    match Pass(c, false)
    case Found(b) =>
      t.(slots := t.slots[b := t.slots[b].(buffer := Some(buffer), state := DEQUEUED,
                                           fence := NO_FENCE, requestCalled := true)])
    case _ => t
  }

  function QueueStatus(c: Core, slot: int, input: QueueInput): Status
    requires WellFormed(c)
  {
    if input.fence.None? || !input.scalingKnown then BAD_VALUE
    else if c.abandoned then NO_INIT
    else if ConflictsWithOverride(c, input.isAsync) then BAD_VALUE
    else if slot < 0 || slot >= MaxBufferCount(c, input.isAsync) || c.slots[slot].state != DEQUEUED
            || !c.slots[slot].requestCalled then BAD_VALUE
    else if c.slots[slot].buffer.None? then FAULT
    else if !input.cropContained then BAD_VALUE
    else NO_ERROR
  }

  function QueuedItem(c: Core, slot: nat, input: QueueInput): Item
    requires slot < |c.slots| && c.slots[slot].buffer.Some? && input.fence.Some?
  {
    Item(slot, c.slots[slot].buffer.value, c.frameCounter + 1, input.fence.value, input.timestamp,
         input.isAuto, c.cannotBlock || input.isAsync, c.slots[slot].acquireCalled)
  }

  /** The slot array after the slot is marked QUEUED. */
  function MarkQueued(c: Core, slot: nat, input: QueueInput): (r: seq<Slot>)
    requires slot < |c.slots| && input.fence.Some?
    ensures |r| == |c.slots|
  {
    c.slots[slot := c.slots[slot].(fence := input.fence.value, state := QUEUED, frame := c.frameCounter + 1)]
  }

  function OverwrittenSlot(s: Slot): Slot {
    s.(state := FREE, frame := 0)
  }

  /** The slot array after the item at the front is overwritten. */
  function OverwrittenSlots(slots: seq<Slot>, front: Item): (r: seq<Slot>)
    requires front.slot < |slots|
    ensures |r| == |slots|
  {
    if Tracks(slots, front) then slots[front.slot := OverwrittenSlot(slots[front.slot])] else slots
  }

  predicate Overwrites(c: Core) {
    |c.queue| > 0 && c.queue[0].isDroppable
  }

  /** The slot's buffer enters the queue. */
  function Enqueue(c: Core, slot: nat, input: QueueInput): (d: Core)
    requires WellFormed(c) && slot < NUM_BUFFER_SLOTS && c.slots[slot].buffer.Some? && input.fence.Some?
    ensures WellFormed(d) && SameMode(c, d)
  {
    var item := QueuedItem(c, slot, input);
    var marked := MarkQueued(c, slot, input);
    var d := Broadcast(c.(frameCounter := c.frameCounter + 1, hasBeenQueued := true));
    if Overwrites(c) then
      d.(queue := c.queue[0 := item], slots := OverwrittenSlots(marked, c.queue[0]))
    else
      d.(queue := c.queue + [item], slots := marked)
  }

  function QueueBuffer(c: Core, slot: int, input: QueueInput): (d: Core)
    requires WellFormed(c)
    ensures WellFormed(d) && SameMode(c, d)
  {
    if QueueStatus(c, slot, input) != NO_ERROR then c else Enqueue(c, slot, input)
  }

  function CancelBuffer(c: Core, slot: int, fence: Option<Fence>): (d: Core)
    requires WellFormed(c)
    ensures WellFormed(d) && SameItems(c, d) && SameMode(c, d)
  {
    if c.abandoned || !OwnedByProducer(c, slot) || fence.None? then c
    else Broadcast(c.(slots := c.slots[slot := c.slots[slot].(state := FREE, frame := 0, fence := fence.value)]))
  }

  predicate KnownApi(api: int) {
    1 <= api <= 4
  }

  function ConnectProducerStatus(c: Core, api: int): Status {
    if c.abandoned || !c.hasConsumer then NO_INIT
    else if c.connectedApi != NO_CONNECTED_API || !KnownApi(api) then BAD_VALUE
    else NO_ERROR
  }

  /** An unknown api is refused only after the two mode flags have been rewritten. */
  function ConnectProducer(c: Core, api: int, byApp: bool, listens: bool): (d: Core)
    requires WellFormed(c)
    ensures WellFormed(d) && SameItems(c, d) && d.slots == c.slots
  {
    if c.abandoned || !c.hasConsumer || c.connectedApi != NO_CONNECTED_API then c
    else
      var d := c.(hasBeenQueued := false, cannotBlock := c.consumerByApp && byApp);
      if KnownApi(api) then d.(connectedApi := api, hasProducerListener := listens) else d
  }

  function DisconnectProducer(c: Core, api: int): (d: Core)
    requires WellFormed(c)
    ensures WellFormed(d) && SameItems(c, d)
  {
    if c.abandoned || !KnownApi(api) || c.connectedApi != api then c
    else Broadcast(FreeAll(c).(connectedApi := NO_CONNECTED_API, hasProducerListener := false))
  }

  // ---------- pre-allocation ----------

  /** The FREE slots without a buffer among the first n, in order. */
  function Bufferless(slots: seq<Slot>, n: nat): (r: seq<nat>)
    requires n <= |slots|
    ensures forall k :: 0 <= k < |r| ==> r[k] < n && slots[r[k]].state == FREE && slots[r[k]].buffer.None?
    ensures forall j, k :: 0 <= j < k < |r| ==> r[j] < r[k]
  {
    if n == 0 then []
    else if slots[n - 1].state == FREE && slots[n - 1].buffer.None? then Bufferless(slots, n - 1) + [n - 1]
    else Bufferless(slots, n - 1)
  }

  function BufferCount(slots: seq<Slot>, n: nat): (k: nat)
    requires n <= |slots|
    ensures k <= n
  {
    if n == 0 then 0 else BufferCount(slots, n - 1) + (if slots[n - 1].buffer.Some? then 1 else 0)
  }

  /** The last locked section of allocateBuffers: buffers go into the targets still FREE. */
  function Installed(slots: seq<Slot>, targets: seq<nat>, buffers: seq<Buffer>, n: nat): (r: seq<Slot>)
    requires n <= |targets| && n <= |buffers|
    requires forall k :: 0 <= k < |targets| ==> targets[k] < |slots|
    ensures |r| == |slots|
  {
    if n == 0 then slots
    else
      var r := Installed(slots, targets, buffers, n - 1);
      var b := targets[n - 1];
      if r[b].state != FREE then r
      else r[b := FreedSlot(r[b]).(buffer := Some(buffers[n - 1]), frame := 0)]
  }

  function InstallBuffers(c: Core, targets: seq<nat>, buffers: seq<Buffer>): (d: Core)
    requires WellFormed(c) && |targets| == |buffers|
    requires forall k :: 0 <= k < |targets| ==> targets[k] < NUM_BUFFER_SLOTS
    ensures WellFormed(d) && SameItems(c, d) && SameMode(c, d)
  {
    c.(slots := Installed(c.slots, targets, buffers, |buffers|), isAllocating := false)
  }

  // ---------- consumer ----------

  const MAX_REASONABLE_NSEC: int := 1_000_000_000

  predicate Timely(timestamp: int, expected: int) {
    expected - MAX_REASONABLE_NSEC <= timestamp <= expected
  }

  predicate Deferred(timestamp: int, expected: int) {
    expected < timestamp < expected + MAX_REASONABLE_NSEC
  }

  predicate DropsFront(queue: seq<Item>, expected: int) {
    |queue| > 1 && !queue[0].isAuto && Timely(queue[1].timestamp, expected)
  }

  function DroppedSlot(s: Slot): Slot {
    s.(state := FREE)
  }

  /** The slot array after the slot of a dropped item is freed, if still tracked. */
  function DroppedSlots(slots: seq<Slot>, front: Item): (r: seq<Slot>)
    requires front.slot < |slots|
    ensures |r| == |slots|
  {
    if Tracks(slots, front) then slots[front.slot := DroppedSlot(slots[front.slot])] else slots
  }

  function DropFront(c: Core): (d: Core)
    requires WellFormed(c) && |c.queue| > 0
    ensures WellFormed(d) && |d.queue| == |c.queue| - 1 && SameMode(c, d)
  {
    c.(queue := c.queue[1..], slots := DroppedSlots(c.slots, c.queue[0]))
  }

  function DropLate(c: Core, expected: int): (d: Core)
    requires WellFormed(c)
    ensures WellFormed(d) && SameMode(c, d)
    ensures |c.queue| > 0 ==> 0 < |d.queue| <= |c.queue|
    decreases |c.queue|
  {
    if DropsFront(c.queue, expected) then DropLate(DropFront(c), expected) else c
  }

  predicate AtAcquireLimit(c: Core)
    requires WellFormed(c)
  {
    Count(c.slots, ACQUIRED, NUM_BUFFER_SLOTS) >= c.maxAcquired + 1
  }

  /** The state in which the front of the queue is examined. */
  function Pruned(c: Core, expected: int): (d: Core)
    requires WellFormed(c)
    ensures WellFormed(d) && SameMode(c, d)
    ensures |c.queue| > 0 ==> 0 < |d.queue| <= |c.queue|
  {
    if expected != 0 then DropLate(c, expected) else c
  }

  function AcquireStatus(c: Core, expected: int): Status
    requires WellFormed(c)
  {
    if AtAcquireLimit(c) then INVALID_OPERATION
    else if c.queue == [] then NO_BUFFER_AVAILABLE
    else if expected != 0 && Deferred(Pruned(c, expected).queue[0].timestamp, expected) then PRESENT_LATER
    else NO_ERROR
  }

  function AcquiredSlot(s: Slot): Slot {
    s.(acquireCalled := true, needsCleanup := false, state := ACQUIRED, fence := NO_FENCE)
  }

  /** The slot array after an item is acquired. */
  function TakenSlots(slots: seq<Slot>, front: Item): (r: seq<Slot>)
    requires front.slot < |slots|
    ensures |r| == |slots|
  {
    if Tracks(slots, front) then slots[front.slot := AcquiredSlot(slots[front.slot])] else slots
  }

  function TakeFront(c: Core): (d: Core)
    requires WellFormed(c) && |c.queue| > 0
    ensures WellFormed(d) && SameMode(c, d)
  {
    Broadcast(c.(queue := c.queue[1..], slots := TakenSlots(c.slots, c.queue[0])))
  }

  function AcquireBuffer(c: Core, expected: int): (d: Core)
    requires WellFormed(c)
    ensures WellFormed(d) && SameMode(c, d)
  {
    match AcquireStatus(c, expected)
    case NO_ERROR => TakeFront(Pruned(c, expected))
    case PRESENT_LATER => Pruned(c, expected)
    case _ => c
  }

  /** The buffer sent with an acquired item: none if the consumer has seen it before. */
  function SentBuffer(item: Item): Option<Buffer> {
    if item.acquireCalled then None else Some(item.buffer)
  }

  function DetachByConsumer(c: Core, slot: int): (d: Core)
    requires WellFormed(c)
    ensures WellFormed(d) && SameItems(c, d) && SameMode(c, d)
  {
    if c.abandoned || slot < 0 || slot >= NUM_BUFFER_SLOTS || c.slots[slot].state != ACQUIRED then c
    else Broadcast(c.(slots := c.slots[slot := FreedSlot(c.slots[slot])]))
  }

  function AttachByConsumerStatus(c: Core): Status
    requires WellFormed(c)
  {
    if AtAcquireLimit(c) then INVALID_OPERATION
    else if Oldest(c.slots, NUM_BUFFER_SLOTS, false) == INVALID_BUFFER_SLOT then NO_MEMORY
    else NO_ERROR
  }

  function AttachByConsumer(c: Core, buffer: Buffer): (d: Core)
    requires WellFormed(c)
    ensures WellFormed(d) && SameItems(c, d) && SameMode(c, d)
  {
    if AttachByConsumerStatus(c) != NO_ERROR then c
    else
      var b := Oldest(c.slots, NUM_BUFFER_SLOTS, false);
      c.(slots := c.slots[b := c.slots[b].(buffer := Some(buffer), state := ACQUIRED, attachedByConsumer := true,
                                           needsCleanup := false, fence := NO_FENCE, frame := 0,
                                           acquireCalled := false)])
  }

  predicate NamesSlot(queue: seq<Item>, slot: nat) {
    exists i :: 0 <= i < |queue| && queue[i].slot == slot
  }

  function ReleaseStatus(c: Core, slot: int, frame: nat, fence: Option<Fence>): Status
    requires WellFormed(c)
  {
    if slot < 0 || slot >= NUM_BUFFER_SLOTS || fence.None? then BAD_VALUE
    else if frame != c.slots[slot].frame then STALE_BUFFER_SLOT
    else if NamesSlot(c.queue, slot) then BAD_VALUE
    else if c.slots[slot].state == ACQUIRED then NO_ERROR
    else if c.slots[slot].needsCleanup then STALE_BUFFER_SLOT
    else BAD_VALUE
  }

  function ReleasedSlot(s: Slot, fence: Fence): Slot {
    s.(state := FREE, fence := fence)
  }

  function CleanedSlot(s: Slot): Slot {
    s.(needsCleanup := false)
  }

  function ReleaseBuffer(c: Core, slot: int, frame: nat, fence: Option<Fence>): (d: Core)
    requires WellFormed(c)
    ensures WellFormed(d) && SameItems(c, d) && SameMode(c, d)
  {
    match ReleaseStatus(c, slot, frame, fence)
    case NO_ERROR =>
      Broadcast(c.(slots := c.slots[slot := ReleasedSlot(c.slots[slot], fence.value)]))
    case STALE_BUFFER_SLOT =>
      if frame != c.slots[slot].frame then c
      else c.(slots := c.slots[slot := CleanedSlot(c.slots[slot])])
    case _ => c
  }

  function ConnectConsumer(c: Core, byApp: bool): (d: Core)
    requires WellFormed(c)
    ensures WellFormed(d) && SameItems(c, d) && d.slots == c.slots
  {
    if c.abandoned then c else c.(hasConsumer := true, consumerByApp := byApp)
  }

  function DisconnectConsumer(c: Core): (d: Core)
    requires WellFormed(c)
    ensures WellFormed(d)
  {
    if !c.hasConsumer then c
    else Broadcast(FreeAll(c).(abandoned := true, hasConsumer := false, queue := []))
  }

  predicate NamedByAcquired(queue: seq<Item>, slot: nat) {
    exists i :: 0 <= i < |queue| && queue[i].slot == slot && queue[i].acquireCalled
  }

  /** The slots whose cached buffers the consumer is told to forget. */
  function ReleasedSlots(c: Core): (mask: set<nat>)
    requires WellFormed(c)
  {
    if c.abandoned then {}
    else set b: nat | b < NUM_BUFFER_SLOTS && !c.slots[b].acquireCalled && !NamedByAcquired(c.queue, b)
  }

  function SetDefaultMax(c: Core, n: int): (d: Core)
    requires WellFormed(c)
    ensures WellFormed(d) && SameItems(c, d) && d.slots == c.slots
  {
    if n < (if c.useAsyncBuffer then 2 else 1) || n > NUM_BUFFER_SLOTS then c
    else Broadcast(c.(defaultMax := n))
  }

  function SetMaxAcquired(c: Core, n: int): (d: Core)
    requires WellFormed(c)
    ensures WellFormed(d) && SameItems(c, d) && d.slots == c.slots
  {
    if n < 1 || n > MAX_MAX_ACQUIRED_BUFFERS || c.connectedApi != NO_CONNECTED_API then c
    else c.(maxAcquired := n)
  }

  function DisableAsyncBuffer(c: Core): (d: Core)
    requires WellFormed(c)
    ensures WellFormed(d) && SameItems(c, d) && d.slots == c.slots
  {
    if c.hasConsumer then c else c.(useAsyncBuffer := false)
  }

  function SetDefaults(c: Core, width: nat, height: nat, format: nat, usage: Usage): (d: Core)
    requires WellFormed(c)
    ensures WellFormed(d) && SameItems(c, d) && SameMode(c, d) && d.slots == c.slots
  {
    c.(defaultWidth := if width == 0 || height == 0 then c.defaultWidth else width,
       defaultHeight := if width == 0 || height == 0 then c.defaultHeight else height,
       defaultFormat := format, consumerUsage := usage)
  }
}
