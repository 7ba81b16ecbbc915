/** The data of a BufferQueue: slots, queued items and the fields that the producer and
    the consumer share under one mutex. */
module BufferQueueTypes {

  const NUM_BUFFER_SLOTS: nat := 64
  const MAX_MAX_ACQUIRED_BUFFERS: nat := 62
  const INVALID_BUFFER_SLOT: int := -1

  /** The frame number given to a slot when its buffer is freed (UINT32_MAX). */
  const FREED_FRAME: nat := 0xFFFF_FFFF

  const NO_CONNECTED_API: int := 0

  datatype Option<+T> = None | Some(value: T)

  /** Results of the producer and consumer calls. FAULT stands for a null dereference. */
  datatype Status =
    | NO_ERROR | NO_INIT | BAD_VALUE | INVALID_OPERATION | WOULD_BLOCK | NO_MEMORY
    | STALE_BUFFER_SLOT | NO_BUFFER_AVAILABLE | PRESENT_LATER | FAULT

  /** Fences are opaque tokens. */
  type Fence = nat
  const NO_FENCE: Fence := 0

  /** The usage word, as the set of its one bits. */
  type Usage = set<nat>

  /** A graphic buffer, identified by its handle. */
  datatype Buffer = Buffer(handle: nat, width: nat, height: nat, format: nat, usage: Usage)

  datatype SlotState = FREE | DEQUEUED | QUEUED | ACQUIRED

  datatype Slot = Slot(
    state: SlotState,
    buffer: Option<Buffer>,
    frame: nat,
    fence: Fence,
    requestCalled: bool,
    acquireCalled: bool,
    needsCleanup: bool,
    attachedByConsumer: bool)

  datatype Item = Item(
    slot: nat,
    buffer: Buffer,
    frame: nat,
    fence: Fence,
    timestamp: int,
    isAuto: bool,
    isDroppable: bool,
    acquireCalled: bool)

  /** The shared state. `broadcasts` counts the broadcasts of the dequeue condition. */
  datatype Core = Core(
    abandoned: bool,
    hasConsumer: bool,
    consumerByApp: bool,
    connectedApi: int,
    hasProducerListener: bool,
    slots: seq<Slot>,
    queue: seq<Item>,
    overrideMax: int,
    useAsyncBuffer: bool,
    cannotBlock: bool,
    defaultMax: int,
    maxAcquired: int,
    hasBeenQueued: bool,
    frameCounter: nat,
    isAllocating: bool,
    defaultWidth: nat,
    defaultHeight: nat,
    defaultFormat: nat,
    consumerUsage: Usage,
    broadcasts: nat)

  /** What dequeueBuffer and allocateBuffers ask for; zero means the default. */
  datatype Request = Request(width: nat, height: nat, format: nat, usage: Usage)

  /** What queueBuffer receives. `scalingKnown` and `cropContained` are the outcomes of
      the two checks on values that this model does not hold. */
  datatype QueueInput = QueueInput(
    timestamp: int,
    isAuto: bool,
    isAsync: bool,
    fence: Option<Fence>,
    scalingKnown: bool,
    cropContained: bool)

  predicate NamesSlots(queue: seq<Item>) {
    forall i :: 0 <= i < |queue| ==> queue[i].slot < NUM_BUFFER_SLOTS
  }

  predicate WellFormed(c: Core) {
    && |c.slots| == NUM_BUFFER_SLOTS
    && 0 <= c.overrideMax <= NUM_BUFFER_SLOTS
    && 1 <= c.defaultMax <= NUM_BUFFER_SLOTS
    && 1 <= c.maxAcquired <= MAX_MAX_ACQUIRED_BUFFERS
    && NamesSlots(c.queue)
  }

  const NEW_SLOT := Slot(FREE, None, 0, NO_FENCE, false, false, false, false)

  /** The state after construction. */
  function NewCore(): (c: Core)
    ensures WellFormed(c)
  {
    Core(false, false, false, NO_CONNECTED_API, false, seq(NUM_BUFFER_SLOTS, _ => NEW_SLOT), [],
         0, true, false, 2, 1, false, 0, false, 1, 1, 1, {}, 0)
  }
}
