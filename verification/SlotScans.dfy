/** The scans over the slot array: counting a state, finding the oldest free slot, and
    finding the end of the slots that must be preserved. */
module SlotScans {
  import opened BufferQueueTypes

  /** The number of slots in state st among the first n. */
  function Count(slots: seq<Slot>, st: SlotState, n: nat): (k: nat)
    requires n <= |slots|
    ensures k <= n
  {
    if n == 0 then 0
    else Count(slots, st, n - 1) + (if slots[n - 1].state == st then 1 else 0)
  }

  predicate Eligible(s: Slot, needBuffer: bool) {
    s.state == FREE && (needBuffer ==> s.buffer.Some?)
  }

  /** The eligible FREE slot with the least frame number among the first n, the lowest
      index winning ties; INVALID_BUFFER_SLOT when there is none. */
  function Oldest(slots: seq<Slot>, n: nat, needBuffer: bool): (r: int)
    requires n <= |slots|
    ensures r == INVALID_BUFFER_SLOT || (0 <= r < n && Eligible(slots[r], needBuffer))
  {
    if n == 0 then INVALID_BUFFER_SLOT
    else
      var r := Oldest(slots, n - 1, needBuffer);
      if Eligible(slots[n - 1], needBuffer)
         && (r == INVALID_BUFFER_SLOT || slots[n - 1].frame < slots[r].frame)
      then n - 1 else r
  }

  predicate InUse(s: Slot) {
    s.state == QUEUED || s.state == DEQUEUED
  }

  /** The least m >= low such that no slot in [m, n) is QUEUED or DEQUEUED. */
  function InUseEnd(slots: seq<Slot>, low: nat, n: nat): (m: nat)
    requires n <= |slots|
    ensures low <= m && (m <= n || m == low)
  {
    if n <= low then low
    else if InUse(slots[n - 1]) then n
    else InUseEnd(slots, low, n - 1)
  }

  lemma {:induction false} CountZero(slots: seq<Slot>, st: SlotState, n: nat)
    requires n <= |slots|
    ensures Count(slots, st, n) == 0 <==> forall b :: 0 <= b < n ==> slots[b].state != st
  {
    if n > 0 {
      CountZero(slots, st, n - 1);
    }
  }

  /** The scan finds a slot exactly when there is one, and the slot it finds has the least
      frame number, and the least index among those that share it. */
  lemma {:induction false} OldestIsOldest(slots: seq<Slot>, n: nat, needBuffer: bool)
    requires n <= |slots|
    ensures var r := Oldest(slots, n, needBuffer);
            if r == INVALID_BUFFER_SLOT then forall b :: 0 <= b < n ==> !Eligible(slots[b], needBuffer)
            else
              && (forall b :: 0 <= b < n && Eligible(slots[b], needBuffer) ==> slots[r].frame <= slots[b].frame)
              && (forall b :: 0 <= b < r && Eligible(slots[b], needBuffer) ==> slots[r].frame < slots[b].frame)
  {
    if n > 0 {
      OldestIsOldest(slots, n - 1, needBuffer);
    }
  }

  lemma {:induction false} InUseEndClears(slots: seq<Slot>, low: nat, n: nat)
    requires n <= |slots|
    ensures forall b :: InUseEnd(slots, low, n) <= b < n ==> !InUse(slots[b])
    ensures InUseEnd(slots, low, n) > low ==> InUse(slots[InUseEnd(slots, low, n) - 1])
  {
    if n > low {
      InUseEndClears(slots, low, n - 1);
    }
  }

  lemma {:induction false} CountUpdate(slots: seq<Slot>, st: SlotState, n: nat, b: nat, s: Slot)
    requires n <= |slots| && b < |slots|
    ensures Count(slots[b := s], st, n) ==
            Count(slots, st, n)
            + (if b < n && s.state == st then 1 else 0)
            - (if b < n && slots[b].state == st then 1 else 0)
  {
    if n > 0 {
      CountUpdate(slots, st, n - 1, b, s);
    }
  }

  /** Counting looks at the states only. */
  lemma {:induction false} CountSame(a: seq<Slot>, b: seq<Slot>, st: SlotState, n: nat)
    requires n <= |a| && n <= |b|
    requires forall k :: 0 <= k < n ==> (a[k].state == st <==> b[k].state == st)
    ensures Count(a, st, n) == Count(b, st, n)
  {
    if n > 0 {
      CountSame(a, b, st, n - 1);
    }
  }

  lemma {:induction false} CountMonotone(a: seq<Slot>, b: seq<Slot>, st: SlotState, n: nat)
    requires n <= |a| && n <= |b|
    requires forall k :: 0 <= k < n && a[k].state == st ==> b[k].state == st
    ensures Count(a, st, n) <= Count(b, st, n)
  {
    if n > 0 {
      CountMonotone(a, b, st, n - 1);
    }
  }

  lemma {:induction false} CountPrefix(slots: seq<Slot>, st: SlotState, m: nat, n: nat)
    requires m <= n <= |slots|
    ensures Count(slots, st, m) <= Count(slots, st, n)
    ensures (forall b :: m <= b < n ==> slots[b].state != st) ==> Count(slots, st, m) == Count(slots, st, n)
    decreases n
  {
    if m < n {
      CountPrefix(slots, st, m, n - 1);
    }
  }

  /** Every slot is in exactly one state. */
  lemma {:induction false} CountTotal(slots: seq<Slot>, n: nat)
    requires n <= |slots|
    ensures Count(slots, FREE, n) + Count(slots, DEQUEUED, n)
            + Count(slots, QUEUED, n) + Count(slots, ACQUIRED, n) == n
  {
    if n > 0 {
      CountTotal(slots, n - 1);
    }
  }

  lemma {:induction false} CountAtMostOne(slots: seq<Slot>, st: SlotState, n: nat)
    requires n <= |slots|
    requires forall a, b :: 0 <= a < n && 0 <= b < n && slots[a].state == st && slots[b].state == st ==> a == b
    ensures Count(slots, st, n) <= 1
  {
    if n > 0 {
      CountAtMostOne(slots, st, n - 1);
      CountZero(slots, st, n - 1);
    }
  }

  /** No slot at or after m is QUEUED or DEQUEUED. */
  predicate ClearFrom(slots: seq<Slot>, m: nat) {
    forall b :: m <= b < |slots| ==> !InUse(slots[b])
  }

  /** The end of the preserved slots is characterised by its defining property: it is the
      least bound, at least low, with no preserved slot at or after it. */
  lemma InUseEndIsLeast(slots: seq<Slot>, low: nat, m: nat)
    requires low <= |slots|
    ensures m == InUseEnd(slots, low, |slots|)
            <==> (&& low <= m <= |slots| && ClearFrom(slots, m)
                  && forall k :: low <= k < m ==> !ClearFrom(slots, k))
  {
    var e := InUseEnd(slots, low, |slots|);
    InUseEndClears(slots, low, |slots|);
    assert ClearFrom(slots, e);
    forall k | low <= k < e
      ensures !ClearFrom(slots, k)
    {
      assert InUse(slots[e - 1]);
    }
  }
}
