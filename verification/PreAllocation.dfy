/** What allocateBuffers does when it runs without interference. */
module PreAllocation {
  import opened BufferQueueTypes
  import opened SlotScans
  import opened BufferQueueSpec

  /** The number of buffers that are missing to reach the limit. */
  function Missing(c: Core, isAsync: bool): (n: int)
    requires WellFormed(c)
    ensures n <= NUM_BUFFER_SLOTS
  {
    MaxBufferCount(c, isAsync) - BufferCount(c.slots, NUM_BUFFER_SLOTS)
  }

  function FreeSlots(c: Core): (r: seq<nat>)
    requires WellFormed(c)
    ensures forall k :: 0 <= k < |r| ==>
                          r[k] < NUM_BUFFER_SLOTS && c.slots[r[k]].state == FREE && c.slots[r[k]].buffer.None?
    ensures forall j, k :: 0 <= j < k < |r| ==> r[j] < r[k]
  {
    Bufferless(c.slots, NUM_BUFFER_SLOTS)
  }

  /** Buffers are allocated if some are missing and there are slots for all of them. */
  predicate Allocates(c: Core, isAsync: bool)
    requires WellFormed(c)
  {
    0 < Missing(c, isAsync) <= |FreeSlots(c)|
  }

  /** The slots that buffers are allocated for: the first FREE ones without a buffer. */
  function Targets(c: Core, isAsync: bool): (r: seq<nat>)
    requires WellFormed(c) && Allocates(c, isAsync)
    ensures |r| == Missing(c, isAsync) > 0
    ensures forall k :: 0 <= k < |r| ==> r[k] < NUM_BUFFER_SLOTS
  {
    FreeSlots(c)[..Missing(c, isAsync)]
  }

  // ---------- when there are slots enough, and which are taken ----------

  lemma {:induction false} BufferlessAreAll(slots: seq<Slot>, n: nat, b: nat)
    requires b < n <= |slots|
    ensures b in Bufferless(slots, n) <==> slots[b].state == FREE && slots[b].buffer.None?
  {
    if b < n - 1 {
      BufferlessAreAll(slots, n - 1, b);
    }
  }

  /** The number of slots, among the first n, that are in use without a buffer: their
      allocation is under way or has failed. */
  function Stranded(slots: seq<Slot>, n: nat): (k: nat)
    requires n <= |slots|
  {
    if n == 0 then 0
    else Stranded(slots, n - 1) + (if slots[n - 1].state != FREE && slots[n - 1].buffer.None? then 1 else 0)
  }

  lemma {:induction false} SlotsAddUp(slots: seq<Slot>, n: nat)
    requires n <= |slots|
    ensures |Bufferless(slots, n)| + BufferCount(slots, n) + Stranded(slots, n) == n
  {
    if n > 0 {
      SlotsAddUp(slots, n - 1);
    }
  }

  /** Buffers are allocated exactly if there are fewer than the limit and no more slots are
      stranded than lie beyond it: with none stranded there are always slots enough. */
  lemma AllocatesIff(c: Core, isAsync: bool)
    requires WellFormed(c)
    ensures Allocates(c, isAsync)
            <==> (&& BufferCount(c.slots, NUM_BUFFER_SLOTS) < MaxBufferCount(c, isAsync)
                  && Stranded(c.slots, NUM_BUFFER_SLOTS) <= NUM_BUFFER_SLOTS - MaxBufferCount(c, isAsync))
  {
    SlotsAddUp(c.slots, NUM_BUFFER_SLOTS);
    hide MaxBufferCount, BufferCount, Stranded;
  }

  lemma InPrefix(s: seq<nat>, m: nat, i: nat)
    requires m <= |s| && i < |s|
    ensures i < m ==> s[i] in s[..m]
  {
    assert i < m ==> s[..m][i] == s[i];
  }

  /** The slots taken are FREE and empty, as many as buffers are missing, and the lowest. */
  lemma TargetsAreLowest(c: Core, isAsync: bool, b: nat)
    requires WellFormed(c) && Allocates(c, isAsync) && b < NUM_BUFFER_SLOTS
    ensures var targets := Targets(c, isAsync);
            && |targets| == MaxBufferCount(c, isAsync) - BufferCount(c.slots, NUM_BUFFER_SLOTS)
            && (b in targets ==> c.slots[b].state == FREE && c.slots[b].buffer.None?)
            && (b !in targets && c.slots[b].state == FREE && c.slots[b].buffer.None? ==>
                  forall k :: 0 <= k < |targets| ==> targets[k] < b)
  {
    BufferlessAreAll(c.slots, NUM_BUFFER_SLOTS, b);
    hide MaxBufferCount, BufferCount, Bufferless;
    var free, targets := FreeSlots(c), Targets(c, isAsync);
    if b !in targets && b in free {
      var i :| 0 <= i < |free| && free[i] == b;
      InPrefix(free, |targets|, i);
    }
  }

  /** The size, format and usage of the buffers to allocate. */
  function AllocationRequest(c: Core, req: Request): Request {
    Request(if req.width > 0 then req.width else c.defaultWidth,
            if req.height > 0 then req.height else c.defaultHeight,
            if req.format != 0 then req.format else c.defaultFormat,
            req.usage + c.consumerUsage)
  }

  function Filled(s: Slot, buffer: Buffer): Slot {
    FreedSlot(s).(buffer := Some(buffer), frame := 0)
  }

  /** The targets are distinct slots that are FREE and hold no buffer. */
  predicate EmptyTargets(slots: seq<Slot>, targets: seq<nat>) {
    && (forall k :: 0 <= k < |targets| ==>
                      targets[k] < |slots| && slots[targets[k]].state == FREE && slots[targets[k]].buffer.None?)
    && (forall j, k :: 0 <= j < k < |targets| ==> targets[j] != targets[k])
  }

  lemma {:induction false} BufferCountUpdate(slots: seq<Slot>, n: nat, b: nat, s: Slot)
    requires n <= |slots| && b < |slots|
    ensures BufferCount(slots[b := s], n) ==
            BufferCount(slots, n) + (if b < n && s.buffer.Some? then 1 else 0)
            - (if b < n && slots[b].buffer.Some? then 1 else 0)
  {
    if n > 0 {
      BufferCountUpdate(slots, n - 1, b, s);
    }
  }

  predicate IsTarget(targets: seq<nat>, n: nat, b: nat) {
    exists k :: 0 <= k < n && k < |targets| && targets[k] == b
  }

  /** The first n targets got their buffers, and no other slot changed. */
  predicate FillsTargets(before: seq<Slot>, after: seq<Slot>, targets: seq<nat>, buffers: seq<Buffer>, n: nat) {
    && |after| == |before| && n <= |targets| && n <= |buffers|
    && (forall k :: 0 <= k < n ==>
                      targets[k] < |before| && after[targets[k]] == Filled(before[targets[k]], buffers[k]))
    && (forall b :: 0 <= b < |before| && !IsTarget(targets, n, b) ==> after[b] == before[b])
  }

  lemma {:induction false} InstalledFillsTargets(slots: seq<Slot>, targets: seq<nat>, buffers: seq<Buffer>, n: nat)
    requires n <= |targets| && n <= |buffers| && EmptyTargets(slots, targets)
    ensures FillsTargets(slots, Installed(slots, targets, buffers, n), targets, buffers, n)
    ensures BufferCount(Installed(slots, targets, buffers, n), |slots|) == BufferCount(slots, |slots|) + n
  {
    if n > 0 {
      InstalledFillsTargets(slots, targets, buffers, n - 1);
      var r := Installed(slots, targets, buffers, n - 1);
      var b := targets[n - 1];
      assert !IsTarget(targets, n - 1, b);
      assert r[b] == slots[b];
      hide BufferCount, InUse;
      BufferCountUpdate(r, |slots|, b, Filled(r[b], buffers[n - 1]));
      FillsNext(slots, r, targets, buffers, n - 1);
    }
  }

  lemma FillsNext(before: seq<Slot>, r: seq<Slot>, targets: seq<nat>, buffers: seq<Buffer>, n: nat)
    requires n < |targets| && n < |buffers| && EmptyTargets(before, targets)
    requires FillsTargets(before, r, targets, buffers, n)
    ensures FillsTargets(before, r[targets[n] := Filled(before[targets[n]], buffers[n])], targets, buffers, n + 1)
  {
    forall b | 0 <= b < |before| && !IsTarget(targets, n + 1, b)
      ensures !IsTarget(targets, n, b) && b != targets[n]
    {
    }
  }

  lemma {:induction false} InUseEndSame(a: seq<Slot>, b: seq<Slot>, low: nat, n: nat)
    requires n <= |a| == |b| && forall k :: 0 <= k < n ==> InUse(a[k]) == InUse(b[k])
    ensures InUseEnd(a, low, n) == InUseEnd(b, low, n)
  {
    if n > low {
      InUseEndSame(a, b, low, n - 1);
    }
  }

  lemma FillingUsesNone(before: seq<Slot>, after: seq<Slot>, targets: seq<nat>, buffers: seq<Buffer>, n: nat, b: nat)
    requires FillsTargets(before, after, targets, buffers, n) && EmptyTargets(before, targets) && b < |before|
    ensures InUse(after[b]) == InUse(before[b])
  {
    if IsTarget(targets, n, b) {
      var k :| 0 <= k < n && k < |targets| && targets[k] == b;
    }
  }

  /** All missing buffers have been installed, in the first slots without one. */
  predicate Reached(c: Core, d: Core, isAsync: bool, buffers: seq<Buffer>)
    requires WellFormed(c) && WellFormed(d)
  {
    && Allocates(c, isAsync) && |buffers| == Missing(c, isAsync)
    && d == c.(slots := d.slots)
    && FillsTargets(c.slots, d.slots, Targets(c, isAsync), buffers, |buffers|)
    && BufferCount(d.slots, NUM_BUFFER_SLOTS) == MaxBufferCount(d, isAsync) == MaxBufferCount(c, isAsync)
  }

  lemma InstallingReaches(c: Core, isAsync: bool, buffers: seq<Buffer>)
    requires WellFormed(c) && Allocates(c, isAsync) && |buffers| == Missing(c, isAsync) && !c.isAllocating
    ensures Reached(c, InstallBuffers(c, Targets(c, isAsync), buffers), isAsync, buffers)
  {
    var n := |buffers|;
    var targets := Targets(c, isAsync);
    var d := InstallBuffers(c, targets, buffers);
    assert EmptyTargets(c.slots, targets);
    hide FreeSlots, Targets, EmptyTargets, FillsTargets, Installed, BaseBufferCount, BufferCount;
    InstalledFillsTargets(c.slots, targets, buffers, n);
    forall b | 0 <= b < NUM_BUFFER_SLOTS
      ensures InUse(d.slots[b]) == InUse(c.slots[b])
    {
      FillingUsesNone(c.slots, d.slots, targets, buffers, n, b);
    }
    InUseEndSame(c.slots, d.slots, BaseBufferCount(c, isAsync), NUM_BUFFER_SLOTS);
  }

  /** The results of successive calls of the allocator; None is a failure. */
  type Allocator = a: seq<Option<Buffer>> | |a| == NUM_BUFFER_SLOTS witness seq(NUM_BUFFER_SLOTS, _ => None)

  predicate AllCreated(allocator: Allocator, n: int)
    requires n <= NUM_BUFFER_SLOTS
  {
    forall i :: 0 <= i < n ==> allocator[i].Some?
  }

  function Created(allocator: Allocator, n: nat): (r: seq<Buffer>)
    requires n <= NUM_BUFFER_SLOTS && AllCreated(allocator, n)
    ensures |r| == n && forall i :: 0 <= i < n ==> allocator[i] == Some(r[i])
  {
    seq(n, i requires 0 <= i < n => allocator[i].value)
  }

  /** Buffers are missing, there are slots for them, and the allocator yields them all. */
  predicate AllocatesAll(c: Core, isAsync: bool, allocator: Allocator)
    requires WellFormed(c)
  {
    Allocates(c, isAsync) && AllCreated(allocator, Missing(c, isAsync))
  }

  predicate ReachesLimit(c: Core, d: Core, isAsync: bool, allocator: Allocator)
    requires WellFormed(c) && WellFormed(d)
  {
    AllocatesAll(c, isAsync, allocator) && Reached(c, d, isAsync, Created(allocator, Missing(c, isAsync)))
  }

  lemma FlagIsIgnored(c: Core, req: Request, targets: seq<nat>, buffers: seq<Buffer>)
    requires WellFormed(c) && |targets| == |buffers|
    requires forall k :: 0 <= k < |targets| ==> targets[k] < NUM_BUFFER_SLOTS
    ensures var d := c.(isAllocating := true);
            && WellFormed(d) && AllocationRequest(d, req) == AllocationRequest(c, req)
            && InstallBuffers(d, targets, buffers) == InstallBuffers(c, targets, buffers)
  {
  }

  /** At the limit nothing more is allocated. */
  lemma LimitIsFinal(c: Core, d: Core, isAsync: bool, allocator: Allocator)
    requires WellFormed(c) && WellFormed(d) && ReachesLimit(c, d, isAsync, allocator)
    ensures Missing(d, isAsync) == 0 < Missing(c, isAsync)
    ensures AllocatesAll(c, isAsync, allocator) && !AllocatesAll(d, isAsync, allocator)
  {
  }
}
