/** A run after which the consumer acquires a buffer that its cache does not hold. */
module CacheExamples {
  import opened BufferQueueTypes
  import opened SlotScans
  import opened BufferQueueSpec
  import opened Correspondence
  import opened QueueRuns
  import opened ConsumerCache
  import opened Examples

  /** The legal run from a new queue and consumer ends in w. */
  ghost predicate WorldReaches(steps: seq<Step>, w: World) {
    LegalWorldRun(START_WORLD, steps, false) && RunWorld(START_WORLD, steps) == w
  }

  lemma WorldGrows(steps: seq<Step>, w: World, step: Step, v: World)
    requires WorldReaches(steps, w) && WellFormed(w.sys.core) && LegalStep(w, step, false) && NextWorld(w, step) == v
    ensures WorldReaches(steps + [step], v)
  {
    assert (steps + [step])[..|steps + [step]| - 1] == steps;
    hide NextWorld, LegalStep, WellFormed;
  }

  /** The queue in core, nothing being allocated, and a consumer with an empty cache. */
  function Unseen(c: Core): World {
    World(Sys(c, {}), EmptyCache(), {})
  }

  const OPENED: Core := NewCore().(hasConsumer := true, connectedApi := 1)

  lemma OpenWorld() returns (steps: seq<Step>)
    ensures WorldReaches(steps, Unseen(OPENED))
  {
    assert WorldReaches([], Unseen(NewCore()));
    hide WorldReaches;
    var c := NewCore().(hasConsumer := true);
    WorldGrows([], Unseen(NewCore()), QueueStep(ConnectConsumerOp(false)), Unseen(c));
    steps := [QueueStep(ConnectConsumerOp(false))];
    WorldGrows(steps, Unseen(c), QueueStep(ConnectProducerOp(1, false, false)), Unseen(OPENED));
    steps := steps + [QueueStep(ConnectProducerOp(1, false, false))];
  }

  /** The consumer attaches a buffer to slot 0 and keeps it; the producer attaches one to
      slot 1. */
  function BothAttached(): Core {
    OPENED.(slots := OPENED.slots[0 := HeldSlot(ExampleBuffer(0))][1 := AttachedSlot(ExampleBuffer(1))])
  }

  lemma AttachBoth() returns (steps: seq<Step>)
    ensures WorldReaches(steps, Unseen(BothAttached()))
  {
    hide WorldReaches, Oldest, Count, Pass, MaxBufferCount, Trim;
    steps := OpenWorld();
    var c := OPENED.(slots := OPENED.slots[0 := HeldSlot(ExampleBuffer(0))]);
    FirstUnusedIsOldest(OPENED.slots, 0, NUM_BUFFER_SLOTS);
    CountAtMostOne(OPENED.slots, ACQUIRED, NUM_BUFFER_SLOTS);
    WorldGrows(steps, Unseen(OPENED), QueueStep(AttachByConsumerOp(ExampleBuffer(0))), Unseen(c));
    steps := steps + [QueueStep(AttachByConsumerOp(ExampleBuffer(0)))];
    FirstUnusedIsOldest(c.slots, 1, 2);
    SettledPass(c, 1);
    WorldGrows(steps, Unseen(c), QueueStep(AttachByProducerOp(ExampleBuffer(1))), Unseen(BothAttached()));
    steps := steps + [QueueStep(AttachByProducerOp(ExampleBuffer(1)))];
  }

  /** The slot that the producer attached to, its buffer then queued, acquired and released. */
  function SeenSlot(): Slot {
    SentSlot(ExampleBuffer(1), 1).(acquireCalled := true, state := FREE)
  }

  function WithSlot1(s: Slot, queue: seq<Item>, broadcasts: nat): (c: Core)
    ensures WellFormed(c) == NamesSlots(queue)
  {
    BothAttached().(slots := BothAttached().slots[1 := s], queue := queue, frameCounter := 1,
                    hasBeenQueued := true, broadcasts := broadcasts)
  }

  function SeenCache(): Cache {
    EmptyCache()[1 := CacheSlot(Some(ExampleBuffer(1)), 1, NO_FENCE)]
  }

  /** The consumer has seen and given back the buffer in slot 1, and holds another. */
  function Given(): World {
    World(Sys(WithSlot1(SeenSlot(), [], 3), {}), SeenCache(), {})
  }

  /** The buffer that the producer attached is queued. */
  function OneSent(): (c: Core)
    ensures WellFormed(c)
  {
    WithSlot1(SentSlot(ExampleBuffer(1), 1), [SentItem(1, ExampleBuffer(1), 1, false)], 1)
  }

  function OneTaken(): World {
    World(Sys(WithSlot1(AcquiredSlot(OneSent().slots[1]), [], 2), {}), SeenCache(), {Lease(1, 1)})
  }

  lemma SendOne() returns (steps: seq<Step>)
    ensures WorldReaches(steps, Unseen(OneSent()))
  {
    hide WorldReaches, QueueStatus;
    steps := AttachBoth();
    var c, d := BothAttached(), OneSent();
    QueueAccepts(c, 1, false);
    assert d.slots == MarkQueued(c, 1, Input(false));
    WorldGrows(steps, Unseen(c), QueueStep(QueueBufferOp(1, Input(false))), Unseen(d));
    steps := steps + [QueueStep(QueueBufferOp(1, Input(false)))];
  }

  lemma SentIsTaken()
    ensures NextWorld(Unseen(OneSent()), AcquireLocked(0)) == OneTaken()
  {
    hide Count;
    CountAtMostOne(OneSent().slots, ACQUIRED, NUM_BUFFER_SLOTS);
  }

  lemma TakenIsGiven()
    ensures NextWorld(OneTaken(), ReleaseLocked(1, 1)) == Given()
  {
  }

  lemma GiveBack() returns (steps: seq<Step>)
    ensures WorldReaches(steps, Given())
  {
    hide WorldReaches, OneSent, NextWorld, Given;
    steps := SendOne();
    SentIsTaken();
    WorldGrows(steps, Unseen(OneSent()), AcquireLocked(0), OneTaken());
    steps := steps + [AcquireLocked(0)];
    TakenIsGiven();
    WorldGrows(steps, OneTaken(), ReleaseLocked(1, 1), Given());
    steps := steps + [ReleaseLocked(1, 1)];
  }

  /** The producer attaches a new buffer to the slot that was given back. */
  function Attached(buffer: Buffer): Core {
    AttachByProducer(Given().sys.core, buffer)
  }

  lemma OneIsFree()
    ensures var c := Given().sys.core;
            && Settled(c) && BaseBufferCount(c, false) == 2 && c.slots[1] == SeenSlot() && c.queue == []
            && Oldest(c.slots, 2, false) == 1
  {
    var c := Given().sys.core;
    OldestIsOldest(c.slots, 2, false);
    assert Eligible(c.slots[1], false) && !Eligible(c.slots[0], false);
    hide Oldest;
  }

  lemma GivenIsFresh(buffer: Buffer)
    requires buffer.handle >= 2
    ensures var c := Given().sys.core; Fresh(c.slots, c.queue, buffer.handle)
  {
  }

  lemma AttachFindsSeen(buffer: Buffer)
    requires buffer.handle >= 2
    ensures var c := Given().sys.core;
            && Pass(c, false) == Found(1) && c.slots[1].acquireCalled && Fresh(c.slots, c.queue, buffer.handle)
            && Attached(buffer) == c.(slots := c.slots[1 := AttachedSlot(buffer).(frame := 1, acquireCalled := true)])
  {
    hide Oldest, Pass, Trim, MaxBufferCount, Settled, Given, BaseBufferCount, Fresh;
    OneIsFree();
    GivenIsFresh(buffer);
    SettledShape(Given().sys.core);
    SettledPass(Given().sys.core, 1);
  }

  lemma AttachedIsAcquired(buffer: Buffer)
    requires buffer.handle >= 2
    ensures var d := Attached(buffer);
            && QueueStatus(d, 1, Input(false)) == NO_ERROR
            && AcquireStatus(QueueBuffer(d, 1, Input(false)), 0) == NO_ERROR
  {
    AttachFindsSeen(buffer);
    var d := Attached(buffer);
    hide Attached, MaxBufferCount, Count, QueueStatus;
    QueueAccepts(d, 1, false);
    hide Given;
    QueuedIsAcquired(d, 1, Input(false));
  }

  lemma QueuedIsAcquired(d: Core, b: nat, input: QueueInput)
    requires WellFormed(d) && b < NUM_BUFFER_SLOTS && d.queue == [] && OneHeld(d.slots)
    requires QueueStatus(d, b, input) == NO_ERROR
    ensures AcquireStatus(QueueBuffer(d, b, input), 0) == NO_ERROR
  {
    hide MaxBufferCount, Count;
    CountAtMostOne(QueueBuffer(d, b, input).slots, ACQUIRED, NUM_BUFFER_SLOTS);
  }

  /** A run that is legal but for its one attaching of a buffer to a slot whose buffer the
      consumer has seen. Queueing and acquiring that buffer succeed, and afterwards the cache
      does not hold it. */
  lemma AttachedBufferNotCached(buffer: Buffer) returns (steps: seq<Step>, w: World)
    requires buffer.handle >= 2
    ensures WorldReaches(steps, w)
    ensures Legal(w.sys, AttachByProducerOp(buffer)) && WellFormed(w.sys.core)
    ensures var v := NextWorld(w, QueueStep(AttachByProducerOp(buffer)));
            var send := QueueStep(QueueBufferOp(1, Input(false)));
            var u := NextWorld(v, send);
            && LegalStep(v, send, false)
            && QueueStatus(v.sys.core, 1, Input(false)) == NO_ERROR
            && AcquireStatus(u.sys.core, 0) == NO_ERROR
            && AcquiredItem(u.sys.core, 0).slot == 1 && AcquiredItem(u.sys.core, 0).buffer == buffer
            && Acquire(u, 0).cache[1].buffer != Some(buffer)
  {
    hide Pass, MaxBufferCount, QueueStatus, AcquireStatus, WorldReaches, Given, Oldest, Settled, Fresh, SlotsCached;
    steps := GiveBack();
    w := Given();
    OneIsFree();
    SettledShape(w.sys.core);
    AttachFindsSeen(buffer);
    AttachedIsAcquired(buffer);
    GivenIsCached();
    AttachedBufferIsCachedIff(w.sys.core, w.cache, buffer, Input(false), 0);
  }

  lemma GivenIsCached()
    ensures SlotsCached(Given().sys.core.slots, Given().cache)
    ensures Given().sys.pending == {} && !Given().sys.core.cannotBlock
  {
  }
}
