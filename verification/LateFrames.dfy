/** Which frames acquireBuffer drops, and when it defers. */
module LateFrames {
  import opened BufferQueueTypes
  import opened SlotScans
  import opened BufferQueueSpec

  /** Item i would be dropped: it is not auto-timestamped, and the next one is due at the
      expected time or up to a second earlier. */
  predicate IsLate(queue: seq<Item>, expected: int, i: nat) {
    && i + 1 < |queue| && !queue[i].isAuto
    && expected - 1_000_000_000 <= queue[i + 1].timestamp <= expected
  }

  /** k is the length of the longest prefix of late items. */
  predicate LatePrefix(queue: seq<Item>, expected: int, k: nat) {
    && (forall i :: 0 <= i < k ==> IsLate(queue, expected, i))
    && !IsLate(queue, expected, k)
  }

  predicate TrackedAmong(slots: seq<Slot>, queue: seq<Item>, k: nat, b: nat)
    requires NamesSlots(queue) && |slots| == NUM_BUFFER_SLOTS
  {
    exists i :: 0 <= i < k && i < |queue| && queue[i].slot == b && Tracks(slots, queue[i])
  }

  /** The loop drops exactly the longest late prefix, and frees exactly the slots that
      still held the dropped buffers. */
  lemma {:induction false} DropsLongestLatePrefix(c: Core, expected: int) returns (k: nat)
    requires WellFormed(c)
    ensures LatePrefix(c.queue, expected, k) && k <= |c.queue|
    ensures var d := DropLate(c, expected);
            && d == c.(slots := d.slots, queue := c.queue[k..])
            && forall b :: 0 <= b < NUM_BUFFER_SLOTS ==>
                 d.slots[b] == if TrackedAmong(c.slots, c.queue, k, b) then DroppedSlot(c.slots[b]) else c.slots[b]
    decreases |c.queue|
  {
    if DropsFront(c.queue, expected) {
      var m := DropFront(c);
      var k' := DropsLongestLatePrefix(m, expected);
      k := k' + 1;
      assert forall i :: 0 <= i < |m.queue| ==> m.queue[i] == c.queue[i + 1];
      forall i | 0 <= i < k
        ensures IsLate(c.queue, expected, i)
      {
        if i > 0 { assert IsLate(m.queue, expected, i - 1); }
      }
      assert m.queue[k'..] == c.queue[k..];
      forall b | 0 <= b < NUM_BUFFER_SLOTS
        ensures DropLate(m, expected).slots[b]
                == if TrackedAmong(c.slots, c.queue, k, b) then DroppedSlot(c.slots[b]) else c.slots[b]
      {
        TrackedAmongCons(c, k', b);
      }
    } else {
      k := 0;
    }
  }

  lemma TrackedAmongCons(c: Core, k: nat, b: nat)
    requires WellFormed(c) && |c.queue| > 0 && b < NUM_BUFFER_SLOTS
    ensures TrackedAmong(c.slots, c.queue, k + 1, b)
            <==> || (c.queue[0].slot == b && Tracks(c.slots, c.queue[0]))
                 || TrackedAmong(DropFront(c).slots, c.queue[1..], k, b)
  {
    var m := DropFront(c);
    assert forall i :: 0 <= i < |m.queue| ==> m.queue[i] == c.queue[i + 1];
    assert forall i :: 0 <= i < |m.queue| ==> (Tracks(m.slots, m.queue[i]) <==> Tracks(c.slots, c.queue[i + 1]));
    if TrackedAmong(m.slots, m.queue, k, b) {
      var i :| 0 <= i < k && i < |m.queue| && m.queue[i].slot == b && Tracks(m.slots, m.queue[i]);
      assert c.queue[i + 1].slot == b && Tracks(c.slots, c.queue[i + 1]);
    }
    if TrackedAmong(c.slots, c.queue, k + 1, b) {
      var i :| 0 <= i < k + 1 && i < |c.queue| && c.queue[i].slot == b && Tracks(c.slots, c.queue[i]);
      if i > 0 {
        assert m.queue[i - 1].slot == b && Tracks(m.slots, m.queue[i - 1]);
      }
    }
  }

  lemma LatePrefixIsUnique(queue: seq<Item>, expected: int, j: nat, k: nat)
    requires LatePrefix(queue, expected, j) && LatePrefix(queue, expected, k)
    ensures j == k
  {
    assert j < k ==> IsLate(queue, expected, j);
    assert k < j ==> IsLate(queue, expected, k);
  }

  /** The consumer holds one buffer more than it may between calls, so that it gets no other. */
  predicate HoldsTooMany(c: Core)
    requires WellFormed(c)
  {
    Count(c.slots, ACQUIRED, NUM_BUFFER_SLOTS) > c.maxAcquired
  }

  /** What acquireBuffer answers: the frame behind the longest late prefix is put off exactly
      if it is due after the expected time, but less than a second after it. */
  lemma AcquireAnswers(c: Core, expected: int, k: nat)
    requires WellFormed(c)
    requires if expected == 0 then k == 0 else LatePrefix(c.queue, expected, k)
    ensures AcquireStatus(c, expected) == INVALID_OPERATION <==> HoldsTooMany(c)
    ensures AcquireStatus(c, expected) == NO_BUFFER_AVAILABLE <==> !HoldsTooMany(c) && c.queue == []
    ensures AcquireStatus(c, expected) == PRESENT_LATER
            <==> (&& !HoldsTooMany(c) && expected != 0 && k < |c.queue|
                  && expected < c.queue[k].timestamp < expected + 1_000_000_000)
    ensures AcquireStatus(c, expected) == NO_ERROR
            <==> (&& !HoldsTooMany(c) && k < |c.queue|
                  && !(expected != 0 && expected < c.queue[k].timestamp < expected + 1_000_000_000))
  {
    var j := DropsLongestLatePrefix(c, expected);
    if expected != 0 {
      LatePrefixIsUnique(c.queue, expected, j, k);
    }
    hide Count, DropLate;
  }

  /** What the consumer's attachBuffer answers. */
  lemma AttachAnswers(c: Core)
    requires WellFormed(c)
    ensures var answer := AttachByConsumerStatus(c);
            var free := exists b :: 0 <= b < NUM_BUFFER_SLOTS && c.slots[b].state == FREE;
            && (answer == INVALID_OPERATION <==> HoldsTooMany(c))
            && (answer == NO_MEMORY <==> !HoldsTooMany(c) && !free)
            && (answer == NO_ERROR <==> !HoldsTooMany(c) && free)
  {
    OldestIsOldest(c.slots, NUM_BUFFER_SLOTS, false);
    assert forall b :: 0 <= b < NUM_BUFFER_SLOTS ==> (Eligible(c.slots[b], false) <==> c.slots[b].state == FREE);
    hide Count, Oldest;
  }

  /** PRESENT_LATER means that nothing was dropped: the state is unchanged. */
  lemma PresentLaterChangesNothing(c: Core, expected: int)
    requires WellFormed(c) && AcquireStatus(c, expected) == PRESENT_LATER
    ensures AcquireBuffer(c, expected) == c
    ensures |c.queue| > 0 && !IsLate(c.queue, expected, 0)
    ensures expected < c.queue[0].timestamp < expected + 1_000_000_000
  {
    var k := DropsLongestLatePrefix(c, expected);
    assert k > 0 ==> IsLate(c.queue, expected, k - 1);
    assert !DropsFront(c.queue, expected);
  }

  /** An acquire either changes nothing, or drops the longest late prefix (none, if no
      present time is given) and takes the item after it, which is not deferred. */
  lemma AcquireTakesFirstNotLate(c: Core, expected: int, k: nat)
    requires WellFormed(c)
    requires if expected == 0 then k == 0 else LatePrefix(c.queue, expected, k)
    ensures AcquireStatus(c, expected) != NO_ERROR ==> AcquireBuffer(c, expected) == c
    ensures AcquireStatus(c, expected) == NO_ERROR ==>
              && k < |c.queue| && Pruned(c, expected).queue == c.queue[k..]
              && AcquireBuffer(c, expected).queue == c.queue[k + 1..]
              && (expected != 0 ==> !(expected < c.queue[k].timestamp < expected + 1_000_000_000))
  {
    if AcquireStatus(c, expected) == PRESENT_LATER {
      PresentLaterChangesNothing(c, expected);
    } else if AcquireStatus(c, expected) == NO_ERROR && expected != 0 {
      var j := DropsLongestLatePrefix(c, expected);
      LatePrefixIsUnique(c.queue, expected, j, k);
      assert c.queue[k..][1..] == c.queue[k + 1..];
    }
  }
}
