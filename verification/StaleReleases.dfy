/** What releaseBuffer answers, and for which slots a late release is still expected. */
module StaleReleases {
  import opened BufferQueueTypes
  import opened BufferQueueSpec
  import opened QueueRuns
  import opened SlotMoves
  import opened SlotOwnership

  predicate Unnamed(queue: seq<Item>, b: nat) {
    forall i :: 0 <= i < |queue| ==> queue[i].slot != b
  }

  /** The consumer releases the slot under its frame number, although it does not hold it. */
  predicate ReleasesLate(c: Core, op: Op, b: nat)
    requires WellFormed(c) && b < NUM_BUFFER_SLOTS
  {
    && op.ReleaseBufferOp? && op.slot == b && op.fence.Some? && op.frame == c.slots[b].frame
    && Unnamed(c.queue, b) && c.slots[b].state != ACQUIRED
  }

  /** A release is still expected: the slot lost its buffer while the consumer held it, and the
      consumer has neither got the slot again since nor released it late. */
  predicate Expected(ops: seq<Op>, b: nat)
    requires b < NUM_BUFFER_SLOTS
  {
    if ops == [] then false
    else
      var before := ops[..|ops| - 1];
      var c, d := Run(START, before).core, Run(START, ops).core;
      if c.slots[b].state == ACQUIRED && d.slots[b].state == FREE && d.slots[b].buffer.None? then true
      else if c.slots[b].state != ACQUIRED && d.slots[b].state == ACQUIRED then false
      else if ReleasesLate(c, ops[|ops| - 1], b) then false
      else Expected(before, b)
  }

  /** What one call makes of the flag. */
  predicate FlagMoves(c: Core, op: Op, d: Core, b: nat)
    requires WellFormed(c) && WellFormed(d) && b < NUM_BUFFER_SLOTS
  {
    var s, t := c.slots[b], d.slots[b];
    t.needsCleanup ==
      if s.state == ACQUIRED && t.state == FREE && t.buffer.None? then true
      else if s.state != ACQUIRED && t.state == ACQUIRED then false
      else if ReleasesLate(c, op, b) then false
      else s.needsCleanup
  }

  lemma MoveMovesFlag(c: Core, op: Op, d: Core, b: nat)
    requires WellFormed(c) && WellFormed(d) && b < NUM_BUFFER_SLOTS && !op.ReleaseBufferOp?
    requires SlotMove(c, op, b, d.slots[b])
    ensures FlagMoves(c, op, d, b)
  {
    hide WellFormed, TrimmedAt, SetBufferCountStatus, ReleaseStatus, Resolve, Suits;
  }

  lemma ReleaseMovesFlag(c: Core, op: Op, b: nat)
    requires WellFormed(c) && b < NUM_BUFFER_SLOTS && op.ReleaseBufferOp?
    requires c.slots[b].state == ACQUIRED ==> c.slots[b].buffer.Some?
    ensures FlagMoves(c, op, Apply(c, op), b)
  {
    ReleasedFlag(c, op.slot, op.frame, op.fence, b);
    assert Unnamed(c.queue, b) <==> !NamesSlot(c.queue, b);
    hide WellFormed, Unnamed, NamesSlot, ReleaseBuffer;
  }

  lemma ReleasedFlag(c: Core, slot: int, frame: nat, fence: Option<Fence>, b: nat)
    requires WellFormed(c) && b < NUM_BUFFER_SLOTS
    ensures var s, t := c.slots[b], ReleaseBuffer(c, slot, frame, fence).slots[b];
            var known := slot == b && fence.Some? && frame == s.frame && !NamesSlot(c.queue, b);
            && (known && s.state == ACQUIRED ==> t == s.(state := FREE, fence := fence.value))
            && (known && s.state != ACQUIRED ==> t == s.(needsCleanup := false))
            && (!known ==> t == s)
  {
    ReleasedSlotIs(c, slot, frame, fence, b);
    hide NamesSlot, ReleaseBuffer, WellFormed;
  }

  lemma ReleasedSlotIs(c: Core, slot: int, frame: nat, fence: Option<Fence>, b: nat)
    requires WellFormed(c) && b < NUM_BUFFER_SLOTS
    ensures var s, t := c.slots[b], ReleaseBuffer(c, slot, frame, fence).slots[b];
            var answer := ReleaseStatus(c, slot, frame, fence);
            && (slot == b && answer == NO_ERROR ==> fence.Some? && t == ReleasedSlot(s, fence.value))
            && (slot == b && answer == STALE_BUFFER_SLOT && frame == s.frame ==> t == CleanedSlot(s))
            && (slot != b || answer == BAD_VALUE || frame != s.frame ==> t == s)
  {
    hide NamesSlot, ReleasedSlot, CleanedSlot;
  }

  /** On every run the flag is set exactly for the slots of which a release is expected. */
  lemma {:induction false} FlagIsExpected(ops: seq<Op>, b: nat)
    requires LegalRun(START, ops) && b < NUM_BUFFER_SLOTS
    ensures Run(START, ops).core.slots[b].needsCleanup <==> Expected(ops, b)
  {
    hide Apply, Inv, SlotMove, ReleasesLate, FlagMoves, SlotFacts, Legal;
    if ops != [] {
      var before, op := ops[..|ops| - 1], ops[|ops| - 1];
      FlagIsExpected(before, b);
      RunKeepsFacts(before);
      StepMovesFlag(Run(START, before), op, b);
      ExpectedNext(before, op, b);
      assert before + [op] == ops;
    }
  }

  lemma StepMovesFlag(s: Sys, op: Op, b: nat)
    requires Inv(s) && SlotFacts(s.core) && b < NUM_BUFFER_SLOTS
    ensures FlagMoves(s.core, op, Apply(s.core, op), b)
  {
    assert SlotFact(s.core.slots[b], s.core.frameCounter);
    StepMoves(s, op);
    hide Inv, Apply, SlotMove, FlagMoves, SlotFacts;
    if op.ReleaseBufferOp? {
      ReleaseMovesFlag(s.core, op, b);
    } else {
      MoveMovesFlag(s.core, op, Apply(s.core, op), b);
    }
  }

  lemma ExpectedNext(before: seq<Op>, op: Op, b: nat)
    requires b < NUM_BUFFER_SLOTS
    requires Run(START, before).core.slots[b].needsCleanup <==> Expected(before, b)
    requires FlagMoves(Run(START, before).core, op, Apply(Run(START, before).core, op), b)
    ensures Run(START, before + [op]).core.slots[b].needsCleanup <==> Expected(before + [op], b)
  {
    assert (before + [op])[..|before + [op]| - 1] == before;
    hide Apply, ReleasesLate;
  }

  /** What releaseBuffer answers on every run: success for a slot that the consumer holds under
      the frame number and that no item names; that the release is stale for another frame
      number, or for a slot of which a late release is expected; and else a bad value. */
  lemma ReleaseAnswers(ops: seq<Op>, b: nat, frame: nat, fence: Fence)
    requires LegalRun(START, ops) && b < NUM_BUFFER_SLOTS
    ensures var c := Run(START, ops).core; var answer := ReleaseStatus(c, b, frame, Some(fence));
            var s := c.slots[b]; var known := s.frame == frame && Unnamed(c.queue, b);
            && (answer == NO_ERROR <==> known && s.state == ACQUIRED)
            && (answer == STALE_BUFFER_SLOT
                <==> s.frame != frame || (known && s.state != ACQUIRED && Expected(ops, b)))
            && (answer in {NO_ERROR, STALE_BUFFER_SLOT, BAD_VALUE})
  {
    FlagIsExpected(ops, b);
    var c := Run(START, ops).core;
    assert Unnamed(c.queue, b) <==> !NamesSlot(c.queue, b);
    hide Run, LegalRun, Expected, NamesSlot, Unnamed;
  }
}
