/** Which buffers dequeueBuffer hands out, and what is asked of the allocator: the caller's
    wishes and the consumer's defaults, spelled out. */
module BufferChoice {
  import opened BufferQueueTypes
  import opened BufferQueueSpec
  import opened QueueInvariant
  import opened SlotMoves
  import opened BufferLifeCycle
  import opened PreAllocation

  /** The buffer is as the caller of dequeueBuffer wants it: of the size asked for, or the
      default size if none is; of the format asked for, or the default one; and usable in all
      the ways that the caller or the consumer asks for. */
  predicate Fits(c: Core, req: Request, buffer: Buffer) {
    && (req.width == 0 && req.height == 0 ==> buffer.width == c.defaultWidth && buffer.height == c.defaultHeight)
    && (!(req.width == 0 && req.height == 0) ==> buffer.width == req.width && buffer.height == req.height)
    && buffer.format == (if req.format == 0 then c.defaultFormat else req.format)
    && req.usage <= buffer.usage && c.consumerUsage <= buffer.usage
  }

  /** The allocator is asked for just that, and for no other ways of use. */
  predicate AsksFor(c: Core, req: Request, asked: Request) {
    && Fits(c, req, Buffer(0, asked.width, asked.height, asked.format, asked.usage))
    && forall bit :: bit in asked.usage ==> bit in req.usage || bit in c.consumerUsage
  }

  lemma ResolveAsks(c: Core, req: Request)
    ensures AsksFor(c, req, Resolve(c, req))
  {
  }

  /** A buffer has the size and format asked for, and is usable in all the ways asked for. */
  predicate MadeAsAsked(buffer: Buffer, asked: Request) {
    && buffer.width == asked.width && buffer.height == asked.height && buffer.format == asked.format
    && asked.usage <= buffer.usage
  }

  lemma SuitsIffFits(c: Core, req: Request, buffer: Option<Buffer>)
    ensures Suits(buffer, Resolve(c, req)) <==> buffer.Some? && Fits(c, req, buffer.value)
  {
  }

  lemma TrimmedAtFound(c: Core, isAsync: bool)
    requires WellFormed(c) && Pass(c, isAsync).Found?
    ensures Trim(c, isAsync).slots[Pass(c, isAsync).slot] == c.slots[Pass(c, isAsync).slot]
  {
    FoundLeavesRoom(c, isAsync);
    TrimKeepsLow(c, isAsync, Pass(c, isAsync).slot);
  }

  /** The slot found keeps its buffer if and only if that fits; if it does not, the slot is
      left empty and a buffer is asked for that does. */
  lemma KeptIffFits(c: Core, isAsync: bool, req: Request)
    requires WellFormed(c) && Pass(c, isAsync).Found? && (req.width == 0) == (req.height == 0)
    ensures var b := Pass(c, isAsync).slot; var had := c.slots[b].buffer;
            var d := BeginDequeue(c, isAsync, req); var fits := had.Some? && Fits(c, req, had.value);
            && (BeginsAllocation(c, isAsync, req) <==> !fits)
            && d.slots[b].buffer == (if fits then had else None)
            && AsksFor(c, req, Resolve(c, req))
  {
    ResolveAsks(c, req);
    SuitsIffFits(c, req, c.slots[Pass(c, isAsync).slot].buffer);
    TrimmedAtFound(c, isAsync);
    hide Pass, Trim, Resolve, Fits, Suits, AsksFor, WellFormed;
  }

  /** Whatever is handed out fits: the buffer that the slot had, or the one allocated as asked. */
  lemma HandedOutFits(c: Core, isAsync: bool, req: Request, buffer: Buffer)
    requires WellFormed(c) && Pass(c, isAsync).Found? && (req.width == 0) == (req.height == 0)
    requires forall asked :: AsksFor(c, req, asked) ==> MadeAsAsked(buffer, asked)
    ensures var d := Dequeued(c, isAsync, req, buffer); var b := Pass(c, isAsync).slot;
            d.slots[b].state == DEQUEUED && d.slots[b].buffer.Some? && Fits(c, req, d.slots[b].buffer.value)
  {
    ResolveAsks(c, req);
    assert MadeAsAsked(buffer, Resolve(c, req));
    KeptIffFits(c, isAsync, req);
    DequeueHandsOut(c, isAsync, req, buffer);
    hide Pass, Trim, Dequeued, WellFormed, Resolve, BeginsAllocation, BeginDequeue;
  }

  /** The producer is told to drop its cached buffers exactly if the pass frees one. */
  lemma ReleasesAllIff(c: Core, isAsync: bool)
    requires WellFormed(c)
    ensures ReleasesAll(c, isAsync)
            <==> exists b :: 0 <= b < NUM_BUFFER_SLOTS
                             && c.slots[b].buffer.Some? && Trim(c, isAsync).slots[b].buffer.None?
  {
    assert |c.slots| == NUM_BUFFER_SLOTS;
    forall b: nat | b < NUM_BUFFER_SLOTS
      ensures c.slots[b].buffer.Some? && Trim(c, isAsync).slots[b].buffer.None? <==> TrimmedAt(c, isAsync, b)
    {
      TrimMoves(c, isAsync, b);
    }
    hide MaxBufferCount, Trims, Trim, WellFormed;
    if ReleasesAll(c, isAsync) {
      var b :| MaxBufferCount(c, isAsync) <= b < |c.slots| && c.slots[b].buffer.Some?;
      assert TrimmedAt(c, isAsync, b);
    }
  }

  /** A size of which only one dimension is zero is refused, and nothing changes. */
  lemma HalfSizeIsRefused(c: Core, isAsync: bool, req: Request)
    requires WellFormed(c) && (req.width == 0) != (req.height == 0)
    ensures BeginDequeue(c, isAsync, req) == c && !BeginsAllocation(c, isAsync, req)
  {
  }

  /** allocateBuffers takes a default for each dimension by itself. */
  lemma AllocationAsks(c: Core, req: Request)
    ensures var asked := AllocationRequest(c, req);
            && (req.width == 0 ==> asked.width == c.defaultWidth) && (req.width > 0 ==> asked.width == req.width)
            && (req.height == 0 ==> asked.height == c.defaultHeight) && (req.height > 0 ==> asked.height == req.height)
            && (req.format == 0 ==> asked.format == c.defaultFormat) && (req.format > 0 ==> asked.format == req.format)
            && forall bit :: bit in asked.usage <==> bit in req.usage || bit in c.consumerUsage
  {
  }

  /** So what it installs fits a dequeue that asks for the same. */
  lemma InstalledFits(c: Core, req: Request, buffer: Buffer)
    requires (req.width == 0) == (req.height == 0) && MadeAsAsked(buffer, AllocationRequest(c, req))
    ensures Fits(c, req, buffer)
  {
  }
}
