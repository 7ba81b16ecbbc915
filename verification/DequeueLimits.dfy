/** The limits on dequeued buffers and the choice of the slot. */
module DequeueLimits {
  import opened BufferQueueTypes
  import opened SlotScans
  import opened BufferQueueSpec
  import opened QueueRuns
  import opened QueueInvariant

  /** The limit is the least bound, not below the base, that preserves the slots in use. */
  lemma MaxBufferCountIsLeast(c: Core, isAsync: bool, m: nat)
    requires WellFormed(c)
    ensures m == MaxBufferCount(c, isAsync)
            <==> (&& BaseBufferCount(c, isAsync) <= m <= NUM_BUFFER_SLOTS && ClearFrom(c.slots, m)
                  && forall k :: BaseBufferCount(c, isAsync) <= k < m ==> !ClearFrom(c.slots, k))
  {
    InUseEndIsLeast(c.slots, BaseBufferCount(c, isAsync), m);
  }

  /** The slot found is the FREE slot below the limit that was used longest ago. */
  lemma FoundIsOldestFree(c: Core, isAsync: bool)
    requires WellFormed(c) && Pass(c, isAsync).Found?
    ensures var b := Pass(c, isAsync).slot; var max := MaxBufferCount(c, isAsync);
            && b < max && c.slots[b].state == FREE
            && (forall k :: 0 <= k < max && c.slots[k].state == FREE ==> c.slots[b].frame <= c.slots[k].frame)
            && (forall k :: 0 <= k < b && c.slots[k].state == FREE ==> c.slots[b].frame < c.slots[k].frame)
  {
    var max := MaxBufferCount(c, isAsync);
    OldestIsOldest(c.slots, max, false);
    assert forall k :: 0 <= k < max ==> (Eligible(c.slots[k], false) <==> c.slots[k].state == FREE);
  }

  /** A pass has to wait exactly when no slot below the limit is FREE, or the queue is longer
      than the limit. */
  lemma MustWaitIff(c: Core, isAsync: bool)
    requires WellFormed(c)
    ensures MustWait(c, isAsync)
            <==> (|| |c.queue| > MaxBufferCount(c, isAsync)
                  || forall b :: 0 <= b < MaxBufferCount(c, isAsync) ==> c.slots[b].state != FREE)
  {
    var max := MaxBufferCount(c, isAsync);
    OldestIsOldest(c.slots, max, false);
    assert forall k :: 0 <= k < max ==> (Eligible(c.slots[k], false) <==> c.slots[k].state == FREE);
  }

  /** Asynchronous callers are turned away exactly if a buffer count is set and a slot beyond
      it is dequeued or queued. */
  lemma ConflictIff(c: Core, isAsync: bool)
    requires WellFormed(c)
    ensures ConflictsWithOverride(c, isAsync)
            <==> (&& isAsync && c.overrideMax != 0
                  && exists b :: c.overrideMax <= b < NUM_BUFFER_SLOTS
                                 && (c.slots[b].state == DEQUEUED || c.slots[b].state == QUEUED))
  {
    InUseEndClears(c.slots, BaseBufferCount(c, isAsync), NUM_BUFFER_SLOTS);
    var max := MaxBufferCount(c, isAsync);
    assert max > BaseBufferCount(c, isAsync) ==> InUse(c.slots[max - 1]);
  }

  /** One more dequeued buffer would be too many: without a buffer count a second one, and once
      a frame has been queued one that leaves the consumer and the extra buffer too few. */
  predicate OneTooMany(c: Core, isAsync: bool)
    requires WellFormed(c)
  {
    var out := Count(c.slots, DEQUEUED, NUM_BUFFER_SLOTS);
    var least := c.maxAcquired + (if c.useAsyncBuffer && (isAsync || c.cannotBlock) then 1 else 0);
    || (c.overrideMax == 0 && out > 0)
    || (c.hasBeenQueued && MaxBufferCount(c, isAsync) - out - 1 < least)
  }

  /** What a pass answers, in every state: it fails as abandoned, for a conflicting count, for
      too many dequeued buffers, or because it would block, in this order; else it waits or
      finds a slot. */
  lemma PassAnswers(c: Core, isAsync: bool)
    requires WellFormed(c)
    ensures var conflict := ConflictsWithOverride(c, isAsync); var max := MaxBufferCount(c, isAsync);
            var stuck := |c.queue| > max || forall b :: 0 <= b < max ==> c.slots[b].state != FREE;
            var blocks := c.cannotBlock && Count(c.slots, ACQUIRED, max) <= c.maxAcquired;
            && (Pass(c, isAsync) == Fail(NO_INIT) <==> c.abandoned)
            && (Pass(c, isAsync) == Fail(BAD_VALUE) <==> !c.abandoned && conflict)
            && (Pass(c, isAsync) == Fail(INVALID_OPERATION) <==> !c.abandoned && !conflict && OneTooMany(c, isAsync))
            && (Pass(c, isAsync) == Fail(WOULD_BLOCK)
                <==> !c.abandoned && !conflict && !OneTooMany(c, isAsync) && stuck && blocks)
            && (Pass(c, isAsync).Wait?
                <==> !c.abandoned && !conflict && !OneTooMany(c, isAsync) && stuck && !blocks)
            && (Pass(c, isAsync).Found?
                <==> !c.abandoned && !conflict && !OneTooMany(c, isAsync) && !stuck)
  {
    BeyondLimit(c, isAsync);
    CountPrefix(c.slots, DEQUEUED, MaxBufferCount(c, isAsync), NUM_BUFFER_SLOTS);
    MustWaitIff(c, isAsync);
    hide MaxBufferCount, Count, ConflictsWithOverride, MustWait, Oldest;
  }

  /** Slots whose use changes below the limit do not move it. */
  lemma LimitStays(c: Core, d: Core, isAsync: bool)
    requires WellFormed(c) && WellFormed(d)
    requires BaseBufferCount(d, isAsync) == BaseBufferCount(c, isAsync)
    requires var max := MaxBufferCount(c, isAsync);
             && (forall b :: max <= b < NUM_BUFFER_SLOTS ==> !InUse(d.slots[b]))
             && (forall b :: 0 <= b < NUM_BUFFER_SLOTS && InUse(c.slots[b]) ==> InUse(d.slots[b]))
    ensures MaxBufferCount(d, isAsync) == MaxBufferCount(c, isAsync)
  {
    var max := MaxBufferCount(c, isAsync);
    InUseEndIsLeast(c.slots, BaseBufferCount(c, isAsync), max);
    forall k | BaseBufferCount(c, isAsync) <= k < max
      ensures !ClearFrom(d.slots, k)
    {
      assert !ClearFrom(c.slots, k);
    }
    InUseEndIsLeast(d.slots, BaseBufferCount(c, isAsync), max);
  }

  lemma BeginDequeueKeepsLimit(c: Core, isAsync: bool, req: Request)
    requires WellFormed(c) && !BadSize(req) && Pass(c, isAsync).Found?
    ensures MaxBufferCount(BeginDequeue(c, isAsync, req), isAsync) == MaxBufferCount(c, isAsync)
  {
    BeyondLimit(c, isAsync);
    LimitStays(c, BeginDequeue(c, isAsync, req), isAsync);
  }

  /** Once a frame has been queued, a successful dequeue leaves at least the minimum number
      of buffers undequeued; without a buffer count it is the only buffer out. */
  lemma DequeueLeavesEnough(c: Core, isAsync: bool, req: Request)
    requires WellFormed(c) && !BadSize(req) && Pass(c, isAsync).Found?
    ensures var d := BeginDequeue(c, isAsync, req); var out := Count(d.slots, DEQUEUED, NUM_BUFFER_SLOTS);
            && out == Count(c.slots, DEQUEUED, NUM_BUFFER_SLOTS) + 1
            && (c.hasBeenQueued ==> MaxBufferCount(d, isAsync) - out >= MinUndequeued(d, isAsync))
            && (c.overrideMax == 0 ==> out == 1)
  {
    var d := BeginDequeue(c, isAsync, req);
    var b := Pass(c, isAsync).slot;
    var max := MaxBufferCount(c, isAsync);
    BeginDequeueKeepsLimit(c, isAsync, req);
    BeyondLimit(c, isAsync);
    CountPrefix(c.slots, DEQUEUED, max, NUM_BUFFER_SLOTS);
    var t := Trim(c, isAsync);
    CountSame(t.slots, c.slots, DEQUEUED, NUM_BUFFER_SLOTS);
    CountUpdate(t.slots, DEQUEUED, NUM_BUFFER_SLOTS, b, d.slots[b]);
  }

  /** On every run, whatever buffer counts were set before, at most one buffer is out
      whenever no buffer count is set. */
  lemma AtMostOneDequeued(ops: seq<Op>)
    requires LegalRun(START, ops)
    ensures var c := Run(START, ops).core;
            c.overrideMax == 0 ==> Count(c.slots, DEQUEUED, NUM_BUFFER_SLOTS) <= 1
  {
    StartInv();
    RunKeepsInv(START, ops);
  }
}
