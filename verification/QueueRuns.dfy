/** Runs of a BufferQueue: any interleaving of the locked sections of all its calls, and
    the invariant that every run keeps. */
module QueueRuns {
  import opened BufferQueueTypes
  import opened SlotScans
  import opened BufferQueueSpec
  import opened Correspondence

  /** One locked section. dequeueBuffer has two, with the allocation between them. */
  datatype Op =
    | RequestBufferOp(slot: int)
    | SetBufferCountOp(count: int)
    | BeginDequeueOp(isAsync: bool, req: Request)
    | FinishDequeueOp(target: nat, buffer: Buffer)
    | AllocationFailedOp(target: nat)
    | DetachByProducerOp(slot: int)
    | DetachNextOp
    | AttachByProducerOp(buffer: Buffer)
    | QueueBufferOp(slot: int, input: QueueInput)
    | CancelBufferOp(slot: int, fence: Option<Fence>)
    | ConnectProducerOp(api: int, byApp: bool, listens: bool)
    | DisconnectProducerOp(api: int)
    | SetAllocatingOp
    | InstallBuffersOp(targets: seq<nat>, buffers: seq<Buffer>)
    | AcquireBufferOp(expected: int)
    | DetachByConsumerOp(slot: int)
    | AttachByConsumerOp(buffer: Buffer)
    | ReleaseBufferOp(slot: int, frame: nat, fence: Option<Fence>)
    | ConnectConsumerOp(byApp: bool)
    | DisconnectConsumerOp
    | SetDefaultMaxOp(count: int)
    | SetMaxAcquiredOp(count: int)
    | DisableAsyncBufferOp
    | SetDefaultsOp(width: nat, height: nat, format: nat, usage: Usage)

  predicate InstallFits(op: Op)
    requires op.InstallBuffersOp?
  {
    && |op.targets| == |op.buffers|
    && forall k :: 0 <= k < |op.targets| ==> op.targets[k] < NUM_BUFFER_SLOTS
  }

  function Apply(c: Core, op: Op): (d: Core)
    requires WellFormed(c)
    ensures WellFormed(d)
  {
    match op
    case RequestBufferOp(slot) => RequestBuffer(c, slot)
    case SetBufferCountOp(n) => SetBufferCount(c, n)
    case BeginDequeueOp(isAsync, req) => BeginDequeue(c, isAsync, req)
    case FinishDequeueOp(b, buffer) => if b < NUM_BUFFER_SLOTS then FinishDequeue(c, b, buffer) else c
    case AllocationFailedOp(_) => c
    case DetachByProducerOp(slot) => DetachByProducer(c, slot)
    case DetachNextOp => DetachNext(c)
    case AttachByProducerOp(buffer) => AttachByProducer(c, buffer)
    case QueueBufferOp(slot, input) => QueueBuffer(c, slot, input)
    case CancelBufferOp(slot, fence) => CancelBuffer(c, slot, fence)
    case ConnectProducerOp(api, byApp, listens) => ConnectProducer(c, api, byApp, listens)
    case DisconnectProducerOp(api) => DisconnectProducer(c, api)
    case SetAllocatingOp => c.(isAllocating := true)
    case InstallBuffersOp(targets, buffers) => if InstallFits(op) then InstallBuffers(c, targets, buffers) else c
    case AcquireBufferOp(expected) => AcquireBuffer(c, expected)
    case DetachByConsumerOp(slot) => DetachByConsumer(c, slot)
    case AttachByConsumerOp(buffer) => AttachByConsumer(c, buffer)
    case ReleaseBufferOp(slot, frame, fence) => ReleaseBuffer(c, slot, frame, fence)
    case ConnectConsumerOp(byApp) => ConnectConsumer(c, byApp)
    case DisconnectConsumerOp => DisconnectConsumer(c)
    case SetDefaultMaxOp(n) => SetDefaultMax(c, n)
    case SetMaxAcquiredOp(n) => SetMaxAcquired(c, n)
    case DisableAsyncBufferOp => DisableAsyncBuffer(c)
    case SetDefaultsOp(w, h, f, u) => SetDefaults(c, w, h, f, u)
  }

  /** The queue with the slots whose allocation is under way. */
  datatype Sys = Sys(core: Core, pending: set<nat>)

  function NextPending(s: Sys, op: Op): set<nat>
    requires WellFormed(s.core)
  {
    match op
    case BeginDequeueOp(isAsync, req) =>
      if BeginsAllocation(s.core, isAsync, req) then s.pending + {Pass(s.core, isAsync).slot} else s.pending
    case FinishDequeueOp(b, _) => s.pending - {b}
    case AllocationFailedOp(b) => s.pending - {b}
    case _ => s.pending
  }

  function Next(s: Sys, op: Op): (t: Sys)
    requires WellFormed(s.core)
    ensures WellFormed(t.core)
  {
    Sys(Apply(s.core, op), NextPending(s, op))
  }

  function FreshHandles(slots: seq<Slot>, queue: seq<Item>, buffers: seq<Buffer>): bool {
    && (forall k :: 0 <= k < |buffers| ==> Fresh(slots, queue, buffers[k].handle))
    && (forall j, k :: 0 <= j < k < |buffers| ==> buffers[j].handle != buffers[k].handle)
  }

  /** What callers and the allocator owe the queue: allocated and attached buffers are new
      to it, and the slot of a dequeue under way is left alone until the call returns. */
  predicate Legal(s: Sys, op: Op) {
    match op
    case RequestBufferOp(slot) => slot !in s.pending
    case FinishDequeueOp(b, buffer) => b in s.pending && Fresh(s.core.slots, s.core.queue, buffer.handle)
    case DetachByProducerOp(slot) => slot !in s.pending
    case AttachByProducerOp(buffer) => Fresh(s.core.slots, s.core.queue, buffer.handle)
    case QueueBufferOp(slot, _) => slot !in s.pending
    case CancelBufferOp(slot, _) => slot !in s.pending
    case DisconnectProducerOp(_) => s.pending == {}
    case InstallBuffersOp(_, buffers) => FreshHandles(s.core.slots, s.core.queue, buffers)
    case AttachByConsumerOp(buffer) => Fresh(s.core.slots, s.core.queue, buffer.handle)
    case _ => true
  }

  // ---------- runs ----------

  function Run(s: Sys, ops: seq<Op>): (t: Sys)
    requires WellFormed(s.core)
    ensures WellFormed(t.core)
  {
    if ops == [] then s else Next(Run(s, ops[..|ops| - 1]), ops[|ops| - 1])
  }

  predicate LegalRun(s: Sys, ops: seq<Op>)
    requires WellFormed(s.core)
  {
    ops == [] || (LegalRun(s, ops[..|ops| - 1]) && Legal(Run(s, ops[..|ops| - 1]), ops[|ops| - 1]))
  }

  const START := Sys(NewCore(), {})

  /** The run from s ends with the queue in state c and no allocation under way. */
  ghost predicate Reaches(s: Sys, ops: seq<Op>, c: Core)
    requires WellFormed(s.core)
  {
    LegalRun(s, ops) && Run(s, ops) == Sys(c, {})
  }

  lemma RunGrows(s: Sys, ops: seq<Op>, c: Core, op: Op, d: Core)
    requires WellFormed(s.core) && Reaches(s, ops, c) && WellFormed(c) && Legal(Sys(c, {}), op) && Apply(c, op) == d
    requires !op.BeginDequeueOp? && !op.FinishDequeueOp? && !op.AllocationFailedOp?
    ensures Reaches(s, ops + [op], d)
  {
    assert (ops + [op])[..|ops + [op]| - 1] == ops;
    hide Apply, Legal, WellFormed;
  }

  // ---------- the invariant ----------

  predicate PendingEmpty(s: Sys)
    requires WellFormed(s.core)
  {
    forall b :: b in s.pending ==>
                  b < NUM_BUFFER_SLOTS
                  && (!s.core.abandoned ==> s.core.slots[b].state == DEQUEUED && s.core.slots[b].buffer.None?)
  }

  /** Without a buffer count set by the producer, at most one buffer is out. */
  predicate OneDequeued(c: Core)
    requires WellFormed(c)
  {
    c.overrideMax == 0 ==> Count(c.slots, DEQUEUED, NUM_BUFFER_SLOTS) <= 1
  }

  predicate ListenerPresent(c: Core) {
    c.connectedApi != NO_CONNECTED_API && !c.abandoned ==> c.hasConsumer
  }

  predicate Inv(s: Sys) {
    && WellFormed(s.core)
    && Corresponds(s.core.slots, s.core.queue)
    && PendingEmpty(s)
    && OneDequeued(s.core)
    && ListenerPresent(s.core)
  }
}
