/** How much room an application-controlled connection needs for its dequeues never to
    block: the non-blocking guarantee holds on all its runs exactly when there is that room. */
module RoomToDequeue {
  import opened BufferQueueTypes
  import opened SlotScans
  import opened BufferQueueSpec
  import opened QueueRuns
  import opened QueueInvariant
  import opened DequeueLimits
  import opened NonBlocking

  /** A pass reports that it would block, although nothing is dequeued and the consumer
      holds no more than its limit. */
  predicate Blocks(c: Core, isAsync: bool)
    requires WellFormed(c)
  {
    && Count(c.slots, DEQUEUED, NUM_BUFFER_SLOTS) == 0
    && Count(c.slots, ACQUIRED, NUM_BUFFER_SLOTS) <= c.maxAcquired
    && Pass(c, isAsync) == Fail(WOULD_BLOCK)
  }

  /** The calls neither end the connection nor change the buffer counts. */
  predicate KeepsLimits(ops: seq<Op>) {
    KeepsConnections(ops) && forall i :: 0 <= i < |ops| ==> !ops[i].SetDefaultMaxOp?
  }

  // ---------- room lasts ----------

  /** The settings that room depends on. */
  predicate SameRoom(c: Core, d: Core) {
    d.useAsyncBuffer == c.useAsyncBuffer && d.defaultMax == c.defaultMax && d.maxAcquired == c.maxAcquired
  }

  lemma RoomStays(c: Core, op: Op)
    requires WellFormed(c) && AsyncMode(c) && KeepsConnection(op) && !op.SetDefaultMaxOp?
    ensures !Apply(c, op).abandoned ==> !c.abandoned && SameRoom(c, Apply(c, op))
  {
    ModeStays(c, op);
    if ChangesMode(op) {
      hide WellFormed, SetBufferCountStatus;
    } else {
      OthersKeepMode(c, op);
      hide Apply, WellFormed;
    }
  }

  lemma {:induction false} RoomLasts(s: Sys, ops: seq<Op>)
    requires JustConnected(s) && LegalRun(s, ops) && KeepsLimits(ops)
    ensures !Run(s, ops).core.abandoned ==> SameRoom(s.core, Run(s, ops).core)
  {
    if ops != [] {
      var before := ops[..|ops| - 1];
      assert KeepsConnection(ops[|ops| - 1]) && KeepsLimits(before);
      hide JustConnected, Legal, SameRoom, KeepsLimits, AsyncInv, Next;
      RoomLasts(s, before);
      AsyncRunInv(s, before);
      StepLasts(s.core, Run(s, before), ops[|ops| - 1]);
    }
  }

  lemma StepLasts(start: Core, t: Sys, op: Op)
    requires AsyncInv(t) && KeepsConnection(op) && !op.SetDefaultMaxOp?
    requires !t.core.abandoned ==> SameRoom(start, t.core)
    ensures !Next(t, op).core.abandoned ==> SameRoom(start, Next(t, op).core)
  {
    assert WellFormed(t.core);
    hide Inv, Apply, KeepsConnection;
    RoomStays(t.core, op);
  }

  lemma RoomIsSame(c: Core, d: Core)
    requires WellFormed(c) && WellFormed(d) && AsyncMode(c) && AsyncMode(d) && SameRoom(c, d)
    ensures Roomy(c) <==> Roomy(d)
  {
  }

  // ---------- filling the queue ----------

  /** The run from the connection on ends in state c, the limits kept. */
  ghost predicate Leads(s: Sys, ops: seq<Op>, c: Core)
    requires WellFormed(s.core)
  {
    Reaches(s, ops, c) && KeepsLimits(ops)
  }

  lemma LeadsOn(s: Sys, ops: seq<Op>, c: Core, op: Op)
    requires WellFormed(s.core) && WellFormed(c) && Leads(s, ops, c) && Legal(Sys(c, {}), op)
    requires op.AttachByProducerOp? || op.QueueBufferOp? || op.AcquireBufferOp?
    ensures Leads(s, ops + [op], Apply(c, op))
  {
    RunGrows(s, ops, c, op, Apply(c, op));
    hide Apply, Legal, WellFormed, Reaches;
  }

  /** A handle above all those in the slots. */
  function AboveHandles(slots: seq<Slot>): (h: nat)
    ensures forall b :: 0 <= b < |slots| && slots[b].buffer.Some? ==> slots[b].buffer.value.handle < h
  {
    if slots == [] then 0
    else
      var h := AboveHandles(slots[..|slots| - 1]);
      var last := slots[|slots| - 1].buffer;
      if last.Some? && last.value.handle >= h then last.value.handle + 1 else h
  }

  /** The consumer holds j buffers, all below the limit, and nothing else is in use. */
  predicate Filled(start: Core, c: Core, j: nat) {
    && WellFormed(c) && AsyncMode(c) && !c.abandoned && SameRoom(start, c) && c.queue == []
    && Count(c.slots, ACQUIRED, NUM_BUFFER_SLOTS) == j
    && (forall b :: 0 <= b < NUM_BUFFER_SLOTS ==>
                      c.slots[b].state == FREE || (c.slots[b].state == ACQUIRED && b < BaseBufferCount(c, false)))
  }

  /** Slot b changes its state, and no other slot does. */
  predicate OneState(c: Core, d: Core, b: nat, st: SlotState)
    requires WellFormed(c) && WellFormed(d)
  {
    && b < NUM_BUFFER_SLOTS && d.slots[b].state == st
    && forall k :: 0 <= k < NUM_BUFFER_SLOTS && k != b ==> d.slots[k].state == c.slots[k].state
  }

  lemma {:induction false} CountOneState(c: Core, d: Core, b: nat, st: SlotState, counted: SlotState, n: nat)
    requires WellFormed(c) && WellFormed(d) && OneState(c, d, b, st) && n <= NUM_BUFFER_SLOTS
    ensures Count(d.slots, counted, n) == Count(c.slots, counted, n)
            + (if b < n && st == counted then 1 else 0) - (if b < n && c.slots[b].state == counted then 1 else 0)
  {
    if n > 0 {
      CountOneState(c, d, b, st, counted, n - 1);
    }
  }

  /** As long as a slot below the limit is left, a pass finds one. */
  lemma FilledPass(start: Core, c: Core, j: nat)
    requires Filled(start, c, j) && j < BaseBufferCount(c, false)
    ensures Pass(c, false).Found? && MaxBufferCount(c, false) == BaseBufferCount(c, false)
    ensures var b := Pass(c, false).slot; b < BaseBufferCount(c, false) && c.slots[b].state == FREE
  {
    var base := BaseBufferCount(c, false);
    assert ClearFrom(c.slots, base);
    MaxBufferCountIsLeast(c, false, base);
    CountTotal(c.slots, base);
    CountZero(c.slots, DEQUEUED, base);
    CountZero(c.slots, QUEUED, base);
    CountZero(c.slots, FREE, base);
    CountPrefix(c.slots, ACQUIRED, base, NUM_BUFFER_SLOTS);
    MustWaitIff(c, false);
    hide MaxBufferCount, Count, MustWait, ClearFrom;
    assert Pass(c, false).Found?;
    FoundLeavesRoom(c, false);
  }

  /** The buffer that is sent, and the input that it is queued with. */
  function NewBuffer(c: Core): Buffer {
    Buffer(AboveHandles(c.slots), 1, 1, 1, {})
  }

  const INPUT := QueueInput(0, true, false, Some(NO_FENCE), true, true)

  lemma AttachTakes(start: Core, c: Core, j: nat)
    requires Filled(start, c, j) && j < BaseBufferCount(c, false) && Pass(c, false).Found?
    ensures var m := AttachByProducer(c, NewBuffer(c)); var b := Pass(c, false).slot;
            && m == c.(slots := m.slots) && OneState(c, m, b, DEQUEUED)
            && m.slots[b].requestCalled && m.slots[b].buffer == Some(NewBuffer(c))
  {
    FilledPass(start, c, j);
    hide MaxBufferCount, Pass, Filled;
    assert forall k :: 0 <= k < NUM_BUFFER_SLOTS && c.slots[k].state == FREE ==> FreedSlot(c.slots[k]).state == FREE;
    TrimStates(start, c, j);
  }

  lemma TrimStates(start: Core, c: Core, j: nat)
    requires Filled(start, c, j) && MaxBufferCount(c, false) == BaseBufferCount(c, false)
    ensures Trim(c, false) == c.(slots := Trim(c, false).slots)
    ensures forall k :: 0 <= k < NUM_BUFFER_SLOTS ==> Trim(c, false).slots[k].state == c.slots[k].state
  {
    hide MaxBufferCount;
  }

  /** The attached buffer is queued, alone. */
  lemma QueueSends(c: Core, m: Core, b: nat)
    requires WellFormed(c) && WellFormed(m) && AsyncMode(m) && !m.abandoned && m.queue == []
    requires OneState(c, m, b, DEQUEUED) && b < BaseBufferCount(m, false)
    requires m.slots[b].requestCalled && m.slots[b].buffer.Some?
    ensures var d := QueueBuffer(m, b, INPUT);
            && QueueStatus(m, b, INPUT) == NO_ERROR && d.abandoned == m.abandoned && AsyncMode(d) && SameRoom(m, d)
            && OneState(c, d, b, QUEUED) && |d.queue| == 1 && Tracks(d.slots, d.queue[0]) && d.queue[0].slot == b
  {
  }

  /** The consumer takes it. */
  lemma AcquireTakes(c: Core, d: Core, b: nat)
    requires WellFormed(c) && WellFormed(d) && OneState(c, d, b, QUEUED) && AsyncMode(d) && !d.abandoned
    requires |d.queue| == 1 && Tracks(d.slots, d.queue[0]) && d.queue[0].slot == b
    requires Count(d.slots, ACQUIRED, NUM_BUFFER_SLOTS) <= d.maxAcquired
    ensures var e := AcquireBuffer(d, 0);
            && OneState(c, e, b, ACQUIRED) && e.queue == [] && AsyncMode(e) && !e.abandoned && SameRoom(d, e)
  {
    hide Count;
  }

  /** What a buffer sent leaves behind. */
  predicate OneSent(start: Core, c: Core, d: Core, b: nat)
    requires WellFormed(c)
  {
    && WellFormed(d) && AsyncMode(d) && !d.abandoned && SameRoom(start, d)
    && OneState(c, d, b, QUEUED) && b < BaseBufferCount(c, false) && c.slots[b].state == FREE
    && |d.queue| == 1 && Tracks(d.slots, d.queue[0]) && d.queue[0].slot == b
  }

  lemma SendOne(s: Sys, ops: seq<Op>, c: Core, j: nat) returns (after: seq<Op>, d: Core, b: nat)
    requires WellFormed(s.core) && Leads(s, ops, c) && Filled(s.core, c, j) && j < BaseBufferCount(c, false)
    ensures OneSent(s.core, c, d, b) && Leads(s, after, d)
  {
    hide Leads, Pass, MaxBufferCount;
    FilledPass(s.core, c, j);
    AttachTakes(s.core, c, j);
    b := Pass(c, false).slot;
    var m := AttachByProducer(c, NewBuffer(c));
    after := ops + [AttachByProducerOp(NewBuffer(c))];
    LeadsOn(s, ops, c, AttachByProducerOp(NewBuffer(c)));
    QueueSends(c, m, b);
    d := QueueBuffer(m, b, INPUT);
    LeadsOn(s, after, m, QueueBufferOp(b, INPUT));
    after := after + [QueueBufferOp(b, INPUT)];
    hide AttachByProducer, QueueBuffer, Count;
  }

  lemma HoldOneMore(s: Sys, ops: seq<Op>, c: Core, j: nat) returns (after: seq<Op>, d: Core)
    requires WellFormed(s.core) && Leads(s, ops, c) && Filled(s.core, c, j)
    requires j < BaseBufferCount(c, false) && j <= c.maxAcquired
    ensures Filled(s.core, d, j + 1) && Leads(s, after, d)
  {
    hide Leads, AcquireBuffer;
    var m, b;
    after, m, b := SendOne(s, ops, c, j);
    CountOneState(c, m, b, QUEUED, ACQUIRED, NUM_BUFFER_SLOTS);
    AcquireTakes(c, m, b);
    d := AcquireBuffer(m, 0);
    CountOneState(c, d, b, ACQUIRED, ACQUIRED, NUM_BUFFER_SLOTS);
    LeadsOn(s, after, m, AcquireBufferOp(0));
    after := after + [AcquireBufferOp(0)];
    hide Count;
  }

  lemma {:induction false} HoldAll(s: Sys, j: nat) returns (ops: seq<Op>, c: Core)
    requires JustConnected(s) && j <= s.core.maxAcquired
    ensures Filled(s.core, c, j) && Leads(s, ops, c)
  {
    if j == 0 {
      ops, c := [], s.core;
      CountZero(c.slots, ACQUIRED, NUM_BUFFER_SLOTS);
      hide Inv, Count;
    } else {
      hide Inv, Leads, Filled;
      ops, c := HoldAll(s, j - 1);
      FilledHasRoom(s.core, c, j - 1);
      ops, c := HoldOneMore(s, ops, c, j - 1);
    }
  }

  lemma FilledHasRoom(start: Core, c: Core, j: nat)
    requires Filled(start, c, j) && j <= c.maxAcquired
    ensures c.maxAcquired < BaseBufferCount(c, false) && SameRoom(start, c) && WellFormed(c) && AsyncMode(c)
  {
  }

  /** Without room, the consumer holding all it may and one buffer queued, a pass blocks. */
  lemma FullBlocks(start: Core, c: Core, d: Core, b: nat, isAsync: bool)
    requires WellFormed(c) && Filled(start, c, c.maxAcquired) && OneSent(start, c, d, b) && !Roomy(c)
    ensures Blocks(d, isAsync)
  {
    var base := BaseBufferCount(c, false);
    FullLimit(start, c, d, b, isAsync);
    CountOneState(c, d, b, QUEUED, ACQUIRED, NUM_BUFFER_SLOTS);
    CountPrefix(d.slots, ACQUIRED, base, NUM_BUFFER_SLOTS);
    CountZero(d.slots, DEQUEUED, base);
    CountZero(d.slots, DEQUEUED, NUM_BUFFER_SLOTS);
    NoneFree(start, c, d, b);
    MustWaitIff(d, isAsync);
    hide MaxBufferCount, Count, MustWait, BaseBufferCount;
  }

  lemma FullLimit(start: Core, c: Core, d: Core, b: nat, isAsync: bool)
    requires WellFormed(c) && Filled(start, c, c.maxAcquired) && OneSent(start, c, d, b) && !Roomy(c)
    ensures MaxBufferCount(d, isAsync) == BaseBufferCount(d, isAsync) == BaseBufferCount(c, false) == c.maxAcquired + 1
  {
    var base := BaseBufferCount(c, false);
    assert ClearFrom(d.slots, base);
    MaxBufferCountIsLeast(d, isAsync, base);
  }

  lemma NoneFree(start: Core, c: Core, d: Core, b: nat)
    requires WellFormed(c) && Filled(start, c, c.maxAcquired) && OneSent(start, c, d, b) && !Roomy(c)
    ensures forall k :: 0 <= k < c.maxAcquired + 1 ==> d.slots[k].state != FREE
  {
    var base := BaseBufferCount(c, false);
    CountOneState(c, d, b, QUEUED, ACQUIRED, base);
    CountOneState(c, d, b, QUEUED, QUEUED, base);
    CountPrefix(c.slots, ACQUIRED, base, NUM_BUFFER_SLOTS);
    CountZero(c.slots, QUEUED, base);
    CountZero(d.slots, DEQUEUED, base);
    CountTotal(d.slots, base);
    CountZero(d.slots, FREE, base);
    hide Count;
  }

  /** Without room some run of the connection ends where a pass blocks. */
  lemma BlocksWithoutRoom(s: Sys, isAsync: bool) returns (ops: seq<Op>)
    requires JustConnected(s) && !Roomy(s.core)
    ensures LegalRun(s, ops) && KeepsLimits(ops) && !Run(s, ops).core.abandoned && Blocks(Run(s, ops).core, isAsync)
  {
    var c, d, b;
    ops, c := HoldAll(s, s.core.maxAcquired);
    FilledHasRoom(s.core, c, s.core.maxAcquired);
    RoomIsSame(s.core, c);
    hide JustConnected, Filled, OneSent, Blocks, Roomy, SameRoom, KeepsLimits;
    ops, d, b := SendOne(s, ops, c, s.core.maxAcquired);
    FullBlocks(s.core, c, d, b, isAsync);
    assert !d.abandoned by {
      SentIsOpen(s.core, c, d, b);
    }
  }

  lemma SentIsOpen(start: Core, c: Core, d: Core, b: nat)
    requires WellFormed(c) && OneSent(start, c, d, b)
    ensures !d.abandoned
  {
  }

  /** The guarantee for a connection, over all its runs: a pass with nothing dequeued and the
      consumer within its limit never reports that it would block, if and only if there is
      room. */
  lemma NeverBlocksIff(s: Sys, isAsync: bool)
    requires JustConnected(s)
    ensures Roomy(s.core)
            <==> forall ops :: LegalRun(s, ops) && KeepsLimits(ops) && !Run(s, ops).core.abandoned ==>
                                 !Blocks(Run(s, ops).core, isAsync)
  {
    assert WellFormed(s.core);
    hide JustConnected, Blocks, Roomy, SameRoom, KeepsLimits, LegalRun;
    if Roomy(s.core) {
      forall ops | LegalRun(s, ops) && KeepsLimits(ops) && !Run(s, ops).core.abandoned
        ensures !Blocks(Run(s, ops).core, isAsync)
      {
        RoomNeverBlocks(s, ops, isAsync);
      }
    } else {
      var ops := BlocksWithoutRoom(s, isAsync);
    }
  }

  lemma RoomNeverBlocks(s: Sys, ops: seq<Op>, isAsync: bool)
    requires JustConnected(s) && Roomy(s.core)
    requires LegalRun(s, ops) && KeepsLimits(ops) && !Run(s, ops).core.abandoned
    ensures !Blocks(Run(s, ops).core, isAsync)
  {
    RoomLasts(s, ops);
    AsyncRunInv(s, ops);
    RoomIsSame(s.core, Run(s, ops).core);
    DequeueDoesNotBlock(s, ops, isAsync);
    hide Inv, Pass, LegalRun, Run, Roomy;
  }
}
