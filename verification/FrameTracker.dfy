/** The ring of frame records, and the scan for signaled fences that stops early. */
module FrameTracker {
  import opened BufferQueueTypes
  import opened Machine

  const NUM_FRAME_RECORDS: nat := 128
  const NUM_FRAME_BUCKETS: nat := 7
  const MAX_TIME: int := 0x7FFF_FFFF_FFFF_FFFF

  datatype Record = Record(
    desiredPresentTime: int,
    frameReadyTime: int,
    actualPresentTime: int,
    frameReadyFence: Option<Fence>,
    actualPresentFence: Option<Fence>)

  const NEW_RECORD := Record(0, 0, 0, None, None)

  /** The signal times of the fences that have signaled. */
  type Signals = map<Fence, int>

  function SignalTime(signals: Signals, f: Fence): int {
    if f in signals then signals[f] else MAX_TIME
  }

  datatype Tracker = Tracker(
    records: seq<Record>,
    offset: nat,
    numFences: int,
    displayPeriod: int,
    numFrames: seq<nat>)

  predicate InShape(t: Tracker) {
    |t.records| == NUM_FRAME_RECORDS && t.offset < NUM_FRAME_RECORDS && |t.numFrames| == NUM_FRAME_BUCKETS
  }

  function One(f: Option<Fence>): nat {
    if f.Some? then 1 else 0
  }

  /** The number of fences in the first n records. */
  function FenceCount(records: seq<Record>, n: nat): nat
    requires n <= |records|
  {
    if n == 0 then 0
    else FenceCount(records, n - 1) + One(records[n - 1].frameReadyFence) + One(records[n - 1].actualPresentFence)
  }

  function AllFences(t: Tracker): nat
    requires InShape(t)
  {
    FenceCount(t.records, NUM_FRAME_RECORDS)
  }

  // ---------- the scan ----------

  predicate ValidFrame(r: Record) {
    0 < r.actualPresentTime < MAX_TIME
  }

  /** The first bucket, from i on, that the number of periods falls in; the last catches all. */
  function Bucket(numPeriods: int, i: nat, bound: nat): (b: nat)
    requires i < NUM_FRAME_BUCKETS
    ensures b < NUM_FRAME_BUCKETS
    decreases NUM_FRAME_BUCKETS - i
  {
    if i == NUM_FRAME_BUCKETS - 1 || numPeriods < bound then i else Bucket(numPeriods, i + 1, 2 * bound)
  }

  function StatsUpdated(t: Tracker, idx: nat): (u: Tracker)
    requires InShape(t) && idx < NUM_FRAME_RECORDS
    ensures InShape(u) && u == t.(numFrames := u.numFrames)
  {
    var prev := (idx + NUM_FRAME_RECORDS - 1) % NUM_FRAME_RECORDS;
    if t.displayPeriod > 0 && ValidFrame(t.records[idx]) && ValidFrame(t.records[prev]) then
      var duration := t.records[idx].actualPresentTime - t.records[prev].actualPresentTime;
      var b := Bucket(TruncDiv(duration + t.displayPeriod / 2, t.displayPeriod), 0, 2);
      t.(numFrames := t.numFrames[b := t.numFrames[b] + 1])
    else t
  }

  /** A record whose fences, if they have signaled, are replaced by their times. */
  function Settled(r: Record, signals: Signals): Record {
    var r1 :=
      if r.frameReadyFence.None? then r
      else
        var time := SignalTime(signals, r.frameReadyFence.value);
        r.(frameReadyTime := time, frameReadyFence := if time < MAX_TIME then None else r.frameReadyFence);
    if r1.actualPresentFence.None? then r1
    else
      var time := SignalTime(signals, r1.actualPresentFence.value);
      r1.(actualPresentTime := time, actualPresentFence := if time < MAX_TIME then None else r1.actualPresentFence)
  }

  /** The fences of a record that the settling removes. */
  function Removed(r: Record, signals: Signals): nat {
    var s := Settled(r, signals);
    One(r.frameReadyFence) - One(s.frameReadyFence) + One(r.actualPresentFence) - One(s.actualPresentFence)
  }

  function ScanIndex(offset: nat, i: nat): (idx: nat)
    requires offset < NUM_FRAME_RECORDS && i <= NUM_FRAME_RECORDS
    ensures idx < NUM_FRAME_RECORDS
  {
    (offset + NUM_FRAME_RECORDS - i) % NUM_FRAME_RECORDS
  }

  /** What the scan does at the i-th record back from the current one. */
  function ScanOne(t: Tracker, i: nat, signals: Signals): (u: Tracker)
    requires InShape(t) && 1 <= i < NUM_FRAME_RECORDS
    ensures InShape(u) && u.offset == t.offset && u.displayPeriod == t.displayPeriod
  {
    var idx := ScanIndex(t.offset, i);
    var removed := Removed(t.records[idx], signals);
    var u := t.(records := t.records[idx := Settled(t.records[idx], signals)], numFences := t.numFences - removed);
    if removed > 0 then StatsUpdated(u, idx) else u
  }

  /** The scan of the first n records back from the current one, with no early exit. */
  function FullScan(t: Tracker, n: nat, signals: Signals): (u: Tracker)
    requires InShape(t) && n < NUM_FRAME_RECORDS
    ensures InShape(u) && u.offset == t.offset && u.displayPeriod == t.displayPeriod
  {
    if n == 0 then t else ScanOne(FullScan(t, n - 1, signals), n, signals)
  }

  lemma {:induction false} FenceCountUpdate(records: seq<Record>, n: nat, b: nat, r: Record)
    requires n <= |records| && b < |records|
    ensures FenceCount(records[b := r], n) == FenceCount(records, n)
            + (if b < n then One(r.frameReadyFence) + One(r.actualPresentFence)
                             - One(records[b].frameReadyFence) - One(records[b].actualPresentFence) else 0)
  {
    if n > 0 {
      FenceCountUpdate(records, n - 1, b, r);
    }
  }

  lemma {:induction false} FenceCountZero(records: seq<Record>, n: nat)
    requires n <= |records|
    ensures FenceCount(records, n) == 0
            <==> forall b :: 0 <= b < n ==> records[b].frameReadyFence.None? && records[b].actualPresentFence.None?
  {
    if n > 0 {
      FenceCountZero(records, n - 1);
    }
  }

  /** Each step of the scan takes as much off the counter as off the fences. */
  lemma ScanOneKeepsSurplus(t: Tracker, i: nat, signals: Signals)
    requires InShape(t) && 1 <= i < NUM_FRAME_RECORDS
    ensures ScanOne(t, i, signals).numFences - AllFences(ScanOne(t, i, signals)) == t.numFences - AllFences(t)
  {
    var idx := ScanIndex(t.offset, i);
    FenceCountUpdate(t.records, NUM_FRAME_RECORDS, idx, Settled(t.records[idx], signals));
    hide FenceCount, Settled;
  }

  lemma {:induction false} ScanKeepsSurplus(t: Tracker, n: nat, signals: Signals)
    requires InShape(t) && n < NUM_FRAME_RECORDS
    ensures FullScan(t, n, signals).numFences - AllFences(FullScan(t, n, signals)) == t.numFences - AllFences(t)
  {
    hide FenceCount, ScanOne, AllFences;
    if n > 0 {
      ScanKeepsSurplus(t, n - 1, signals);
      ScanOneKeepsSurplus(FullScan(t, n - 1, signals), n, signals);
    }
  }

  /** With no fences left the rest of the scan changes nothing. */
  lemma {:induction false} RestChangesNothing(t: Tracker, m: nat, n: nat, signals: Signals)
    requires InShape(t) && m <= n < NUM_FRAME_RECORDS && AllFences(FullScan(t, m, signals)) == 0
    ensures FullScan(t, n, signals) == FullScan(t, m, signals)
    decreases n
  {
    if m < n {
      RestChangesNothing(t, m, n - 1, signals);
      var u := FullScan(t, m, signals);
      FenceCountZero(u.records, NUM_FRAME_RECORDS);
      hide FenceCount, FullScan;
      var idx := ScanIndex(u.offset, n);
      assert u.records[idx].frameReadyFence.None? && u.records[idx].actualPresentFence.None?;
    }
  }

  /** A scan that stops with the counter at zero, or at the end, has done all. */
  lemma ScanIsFull(t: Tracker, n: nat, signals: Signals)
    requires InShape(t) && t.numFences >= AllFences(t) && n < NUM_FRAME_RECORDS
    requires n < NUM_FRAME_RECORDS - 1 ==> FullScan(t, n, signals).numFences <= 0
    ensures FullScan(t, n, signals) == FullScan(t, NUM_FRAME_RECORDS - 1, signals)
    ensures FullScan(t, n, signals).numFences >= AllFences(FullScan(t, n, signals))
  {
    hide FullScan, AllFences;
    ScanKeepsSurplus(t, n, signals);
    if n < NUM_FRAME_RECORDS - 1 {
      RestChangesNothing(t, n, NUM_FRAME_RECORDS - 1, signals);
    }
  }

  // ---------- what the scan leaves ----------

  predicate Signaled(signals: Signals, f: Fence) {
    f in signals && signals[f] < 0x7FFF_FFFF_FFFF_FFFF
  }

  /** A fence that has signaled is gone and has left its time; one that has not stays, its
      time being none yet; a time without a fence stays. */
  predicate FenceSettled(fence: Option<Fence>, time: int, fence': Option<Fence>, time': int, signals: Signals) {
    match fence
    case None => fence' == None && time' == time
    case Some(f) =>
      if Signaled(signals, f) then fence' == None && time' == signals[f]
      else fence' == Some(f) && time' >= 0x7FFF_FFFF_FFFF_FFFF
  }

  predicate RecordSettled(r: Record, u: Record, signals: Signals) {
    && FenceSettled(r.frameReadyFence, r.frameReadyTime, u.frameReadyFence, u.frameReadyTime, signals)
    && FenceSettled(r.actualPresentFence, r.actualPresentTime, u.actualPresentFence, u.actualPresentTime, signals)
    && u.desiredPresentTime == r.desiredPresentTime
  }

  lemma SettledRecord(r: Record, signals: Signals)
    ensures RecordSettled(r, Settled(r, signals), signals)
  {
  }

  /** How far back from the current record b lies. */
  function Back(offset: nat, b: nat): (n: nat)
    requires offset < NUM_FRAME_RECORDS && b < NUM_FRAME_RECORDS
    ensures 1 <= n <= NUM_FRAME_RECORDS
  {
    if b < offset then offset - b else offset + NUM_FRAME_RECORDS - b
  }

  lemma ScannedAt(t: Tracker, i: nat, signals: Signals, b: nat)
    requires InShape(t) && 1 <= i < NUM_FRAME_RECORDS && b < NUM_FRAME_RECORDS
    ensures ScanOne(t, i, signals).records[b]
            == if i == Back(t.offset, b) then Settled(t.records[b], signals) else t.records[b]
  {
    hide Settled, Removed, StatsUpdated;
  }

  /** The scan comes to a record once: after n steps it has been to the n before the current. */
  lemma {:induction false} ScanReaches(t: Tracker, n: nat, signals: Signals, b: nat)
    requires InShape(t) && n < NUM_FRAME_RECORDS && b < NUM_FRAME_RECORDS
    ensures FullScan(t, n, signals).records[b]
            == if Back(t.offset, b) <= n then Settled(t.records[b], signals) else t.records[b]
  {
    hide Settled, ScanOne;
    if n > 0 {
      ScanReaches(t, n - 1, signals, b);
      ScannedAt(FullScan(t, n - 1, signals), n, signals, b);
    }
  }

  /** Every record but the current one is settled, field by field; that one stays. */
  predicate OthersSettled(t: Tracker, u: Tracker, signals: Signals)
    requires InShape(t) && InShape(u)
  {
    && u.records[t.offset] == t.records[t.offset]
    && forall b :: 0 <= b < NUM_FRAME_RECORDS && b != t.offset ==> RecordSettled(t.records[b], u.records[b], signals)
  }

  lemma ScanSettles(t: Tracker, signals: Signals)
    requires InShape(t)
    ensures OthersSettled(t, FullScan(t, NUM_FRAME_RECORDS - 1, signals), signals)
  {
    hide FullScan, Settled, RecordSettled;
    ScanReaches(t, NUM_FRAME_RECORDS - 1, signals, t.offset);
    forall b: nat | b < NUM_FRAME_RECORDS && b != t.offset
      ensures RecordSettled(t.records[b], FullScan(t, NUM_FRAME_RECORDS - 1, signals).records[b], signals)
    {
      ScanReaches(t, NUM_FRAME_RECORDS - 1, signals, b);
      SettledRecord(t.records[b], signals);
    }
  }

  // ---------- the statistics ----------

  /** A fence of the record has signaled. */
  predicate Settles(r: Record, signals: Signals) {
    || (r.frameReadyFence.Some? && Signaled(signals, r.frameReadyFence.value))
    || (r.actualPresentFence.Some? && Signaled(signals, r.actualPresentFence.value))
  }

  /** A record enters the statistics, with its times set, at each scan that finds a fence of it
      signaled, and only then. */
  lemma ScanCounts(t: Tracker, i: nat, signals: Signals)
    requires InShape(t) && 1 <= i < NUM_FRAME_RECORDS
    ensures var idx := ScanIndex(t.offset, i); var u := ScanOne(t, i, signals);
            && u.records == t.records[idx := u.records[idx]]
            && u.numFrames == if Settles(t.records[idx], signals)
                              then StatsUpdated(t.(records := u.records), idx).numFrames else t.numFrames
  {
    var idx := ScanIndex(t.offset, i);
    RemovedIff(t.records[idx], signals);
    hide Settled, Removed, Settles, Bucket, TruncDiv;
  }

  lemma RemovedIff(r: Record, signals: Signals)
    ensures Removed(r, signals) > 0 <==> Settles(r, signals)
  {
  }

  const BOUNDS: seq<int> := [2, 4, 8, 16, 32, 64]

  /** The b-th bucket counts the frames of fewer periods than its bound that no earlier one
      counts; the last one has no bound. */
  predicate InBucket(periods: int, b: nat) {
    && b < NUM_FRAME_BUCKETS
    && (b > 0 ==> BOUNDS[b - 1] <= periods)
    && (b < NUM_FRAME_BUCKETS - 1 ==> periods < BOUNDS[b])
  }

  lemma BucketIsFirst(periods: int)
    ensures InBucket(periods, Bucket(periods, 0, 2))
  {
    assert Bucket(periods, 0, 2) == if periods < 2 then 0 else Bucket(periods, 1, 4);
    assert Bucket(periods, 1, 4) == if periods < 4 then 1 else Bucket(periods, 2, 8);
    assert Bucket(periods, 2, 8) == if periods < 8 then 2 else Bucket(periods, 3, 16);
    assert Bucket(periods, 3, 16) == if periods < 16 then 3 else Bucket(periods, 4, 32);
    assert Bucket(periods, 4, 32) == if periods < 32 then 4 else if periods < 64 then 5 else 6;
  }

  /** A frame shown, like the one before it, at a known time is counted once, by the number of
      periods between the two, rounded to the nearest; any other is not counted. */
  lemma StatsCount(t: Tracker, idx: nat, periods: int, b: nat)
    requires InShape(t) && idx < NUM_FRAME_RECORDS && InBucket(periods, b)
    requires var prev := if idx == 0 then 127 else idx - 1;
             var apart := t.records[idx].actualPresentTime - t.records[prev].actualPresentTime;
             t.displayPeriod > 0 ==>
               periods * t.displayPeriod <= apart + t.displayPeriod / 2 < (periods + 1) * t.displayPeriod
    ensures var prev := if idx == 0 then 127 else idx - 1;
            var counted := && t.displayPeriod > 0
                           && 0 < t.records[idx].actualPresentTime < 0x7FFF_FFFF_FFFF_FFFF
                           && 0 < t.records[prev].actualPresentTime < 0x7FFF_FFFF_FFFF_FFFF;
            StatsUpdated(t, idx)
            == if counted then t.(numFrames := t.numFrames[b := t.numFrames[b] + 1]) else t
  {
    var prev := if idx == 0 then 127 else idx - 1;
    assert (idx + NUM_FRAME_RECORDS - 1) % NUM_FRAME_RECORDS == prev;
    if t.displayPeriod > 0 {
      var x := t.records[idx].actualPresentTime - t.records[prev].actualPresentTime + t.displayPeriod / 2;
      RoundsDown(x, t.displayPeriod, periods);
      BucketIsFirst(TruncDiv(x, t.displayPeriod));
    }
    hide Bucket, TruncDiv;
  }

  /** Rounding towards zero rounds down, but for negative numbers, none of which becomes one. */
  lemma RoundsDown(x: int, n: nat, q: int)
    requires n > 0 && q * n <= x < (q + 1) * n
    ensures if x >= 0 then TruncDiv(x, n) == q else TruncDiv(x, n) <= 0 && q < 0
  {
    DivisionIs(x, q, x - q * n, n);
    assert q >= 0 ==> q * n >= 0;
  }

  /** When the frame of the record was shown, as far as the signals tell. */
  function ShownAt(r: Record, signals: Signals): int {
    match r.actualPresentFence
    case None => r.actualPresentTime
    case Some(f) => if f in signals then signals[f] else 0x7FFF_FFFF_FFFF_FFFF
  }

  /** The scan counts the record i back: a fence of it has signaled, it was shown at a known
      time, and that of the frame before it was known when the scan began. */
  predicate CountedAt(t: Tracker, i: nat, signals: Signals)
    requires InShape(t) && 1 <= i < NUM_FRAME_RECORDS
  {
    && t.displayPeriod > 0
    && Countable(t.records[ScanIndex(t.offset, i)], t.records[ScanIndex(t.offset, i + 1)], signals)
  }

  predicate Countable(r: Record, before: Record, signals: Signals) {
    && Settles(r, signals) && 0 < ShownAt(r, signals) < 0x7FFF_FFFF_FFFF_FFFF
    && 0 < before.actualPresentTime < 0x7FFF_FFFF_FFFF_FFFF
  }

  function Total(numFrames: seq<nat>): nat
    requires |numFrames| == NUM_FRAME_BUCKETS
  {
    numFrames[0] + numFrames[1] + numFrames[2] + numFrames[3] + numFrames[4] + numFrames[5] + numFrames[6]
  }

  lemma StatsTotal(t: Tracker, idx: nat)
    requires InShape(t) && idx < NUM_FRAME_RECORDS
    ensures var prev := if idx == 0 then 127 else idx - 1;
            var counted := && t.displayPeriod > 0
                           && 0 < t.records[idx].actualPresentTime < 0x7FFF_FFFF_FFFF_FFFF
                           && 0 < t.records[prev].actualPresentTime < 0x7FFF_FFFF_FFFF_FFFF;
            Total(StatsUpdated(t, idx).numFrames) == Total(t.numFrames) + (if counted then 1 else 0)
  {
    var prev := if idx == 0 then 127 else idx - 1;
    var x := t.records[idx].actualPresentTime - t.records[prev].actualPresentTime + t.displayPeriod / 2;
    var periods := if t.displayPeriod > 0 then x / t.displayPeriod else 0;
    BucketIsFirst(periods);
    hide Bucket;
    StatsCount(t, idx, periods, Bucket(periods, 0, 2));
  }

  lemma ScanOneTotal(t: Tracker, i: nat, signals: Signals)
    requires InShape(t) && 1 <= i < NUM_FRAME_RECORDS
    ensures Total(ScanOne(t, i, signals).numFrames) == Total(t.numFrames) + (if CountedAt(t, i, signals) then 1 else 0)
  {
    var idx := ScanIndex(t.offset, i);
    var u := t.(records := t.records[idx := Settled(t.records[idx], signals)]);
    ScanCounts(t, i, signals);
    BackOfIndex(t.offset, i);
    ScannedAt(t, i, signals, idx);
    SettledShown(t.records[idx], signals);
    StatsTotal(u, idx);
    IndexBefore(t.offset, i);
    hide ScanOne, StatsUpdated, Settled, Total, ScanIndex, Back, Settles, ShownAt;
  }

  lemma SettledShown(r: Record, signals: Signals)
    ensures 0 < Settled(r, signals).actualPresentTime < 0x7FFF_FFFF_FFFF_FFFF
            <==> 0 < ShownAt(r, signals) < 0x7FFF_FFFF_FFFF_FFFF
  {
  }

  lemma IndexBefore(offset: nat, i: nat)
    requires offset < NUM_FRAME_RECORDS && 1 <= i < NUM_FRAME_RECORDS
    ensures var idx := ScanIndex(offset, i); ScanIndex(offset, i + 1) == if idx == 0 then 127 else idx - 1
  {
  }

  /** The number of records that the scan counts among the first n back. */
  function CountedUpTo(t: Tracker, n: nat, signals: Signals): nat
    requires InShape(t) && n < NUM_FRAME_RECORDS
  {
    if n == 0 then 0 else CountedUpTo(t, n - 1, signals) + (if CountedAt(t, n, signals) then 1 else 0)
  }

  /** Before the scan comes to it, a record is what it was. */
  lemma NotYetScanned(t: Tracker, n: nat, i: nat, signals: Signals)
    requires InShape(t) && n < i <= NUM_FRAME_RECORDS
    ensures FullScan(t, n, signals).records[ScanIndex(t.offset, i)] == t.records[ScanIndex(t.offset, i)]
  {
    BackOfIndex(t.offset, i);
    hide FullScan, Settled, ScanIndex, Back;
    ScanReaches(t, n, signals, ScanIndex(t.offset, i));
  }

  lemma SameCounted(t: Tracker, n: nat, signals: Signals)
    requires InShape(t) && 1 <= n < NUM_FRAME_RECORDS
    ensures CountedAt(FullScan(t, n - 1, signals), n, signals) == CountedAt(t, n, signals)
  {
    hide FullScan, Countable, ScanIndex;
    NotYetScanned(t, n - 1, n, signals);
    NotYetScanned(t, n - 1, n + 1, signals);
  }

  lemma BackOfIndex(offset: nat, i: nat)
    requires offset < NUM_FRAME_RECORDS && 1 <= i <= NUM_FRAME_RECORDS
    ensures Back(offset, ScanIndex(offset, i)) == i
  {
  }

  /** The scan adds to the statistics exactly the frames with a fence that has signaled, a
      known time, and a frame before them whose time was known when the scan began: not those
      whose predecessor is settled by the same scan. */
  lemma {:induction false} ScanTotal(t: Tracker, n: nat, signals: Signals)
    requires InShape(t) && n < NUM_FRAME_RECORDS
    ensures Total(FullScan(t, n, signals).numFrames) == Total(t.numFrames) + CountedUpTo(t, n, signals)
  {
    hide ScanOne, CountedAt, Total;
    if n > 0 {
      ScanTotal(t, n - 1, signals);
      ScanOneTotal(FullScan(t, n - 1, signals), n, signals);
      SameCounted(t, n, signals);
    }
  }

  // ---------- runs ----------

  datatype Op =
    | SetDesiredPresentTime(time: int)
    | SetFrameReadyTime(time: int)
    | SetFrameReadyFence(fence: Option<Fence>)
    | SetActualPresentTime(time: int)
    | SetActualPresentFence(fence: Option<Fence>)
    | SetDisplayRefreshPeriod(period: int)
    | AdvanceFrame(signals: Signals)
    | ProcessFences(signals: Signals)
    | ClearStats

  function Current(t: Tracker): Record
    requires InShape(t)
  {
    t.records[t.offset]
  }

  function WithCurrent(t: Tracker, r: Record): (u: Tracker)
    requires InShape(t)
    ensures InShape(u)
  {
    t.(records := t.records[t.offset := r])
  }

  const UNSET_RECORD := Record(MAX_TIME, MAX_TIME, MAX_TIME, None, None)

  /** The next record becomes the current one and is emptied, its fences no longer counted. */
  function Advanced(t: Tracker): (u: Tracker)
    requires InShape(t)
    ensures InShape(u)
  {
    var v := StatsUpdated(t, t.offset).(offset := (t.offset + 1) % NUM_FRAME_RECORDS);
    var r := Current(v);
    WithCurrent(v, UNSET_RECORD).(numFences := v.numFences - One(r.frameReadyFence) - One(r.actualPresentFence))
  }

  function Cleared(t: Tracker): (u: Tracker)
    requires InShape(t)
    ensures InShape(u)
  {
    WithCurrent(t.(records := seq(NUM_FRAME_RECORDS, _ => NEW_RECORD), numFences := 0), UNSET_RECORD)
  }

  function Apply(t: Tracker, op: Op): (u: Tracker)
    requires InShape(t)
    ensures InShape(u)
  {
    match op
    case SetDesiredPresentTime(time) => WithCurrent(t, Current(t).(desiredPresentTime := time))
    case SetFrameReadyTime(time) => WithCurrent(t, Current(t).(frameReadyTime := time))
    case SetFrameReadyFence(fence) =>
      WithCurrent(t, Current(t).(frameReadyFence := fence)).(numFences := t.numFences + 1)
    case SetActualPresentTime(time) => WithCurrent(t, Current(t).(actualPresentTime := time))
    case SetActualPresentFence(fence) =>
      WithCurrent(t, Current(t).(actualPresentFence := fence)).(numFences := t.numFences + 1)
    case SetDisplayRefreshPeriod(period) => t.(displayPeriod := period)
    case AdvanceFrame(signals) => FullScan(Advanced(t), NUM_FRAME_RECORDS - 1, signals)
    case ProcessFences(signals) => FullScan(t, NUM_FRAME_RECORDS - 1, signals)
    case ClearStats => Cleared(t)
  }

  function Run(ops: seq<Op>): (t: Tracker)
    ensures InShape(t)
  {
    if ops == [] then NewTracker() else Apply(Run(ops[..|ops| - 1]), ops[|ops| - 1])
  }

  function NewTracker(): (t: Tracker)
    ensures InShape(t)
  {
    Tracker(seq(NUM_FRAME_RECORDS, _ => NEW_RECORD), 0, 0, 0, seq(NUM_FRAME_BUCKETS, _ => 0))
  }

  // ---------- what the records hold ----------

  const NOT_YET := Record(0x7FFF_FFFF_FFFF_FFFF, 0x7FFF_FFFF_FFFF_FFFF, 0x7FFF_FFFF_FFFF_FFFF, None, None)

  /** What a call makes of the record of the current frame. */
  function Set(r: Record, op: Op): Record {
    match op
    case SetDesiredPresentTime(time) => r.(desiredPresentTime := time)
    case SetFrameReadyTime(time) => r.(frameReadyTime := time)
    case SetFrameReadyFence(fence) => r.(frameReadyFence := fence)
    case SetActualPresentTime(time) => r.(actualPresentTime := time)
    case SetActualPresentFence(fence) => r.(actualPresentFence := fence)
    case SetDisplayRefreshPeriod(_) => r
    case ProcessFences(_) => r
    case AdvanceFrame(_) => NOT_YET
    case ClearStats => NOT_YET
  }

  /** What was last set of the current frame, nothing when it began. */
  function LastSet(ops: seq<Op>): Record {
    if ops == [] then Record(0, 0, 0, None, None) else Set(LastSet(ops[..|ops| - 1]), ops[|ops| - 1])
  }

  function Advances(ops: seq<Op>): nat {
    if ops == [] then 0
    else Advances(ops[..|ops| - 1]) + (if ops[|ops| - 1].AdvanceFrame? then 1 else 0)
  }

  lemma AdvancedFields(t: Tracker)
    requires InShape(t)
    ensures var u := Advanced(t);
            && u.offset == (t.offset + 1) % 128 && u.records == t.records[u.offset := UNSET_RECORD]
            && u.numFrames == StatsUpdated(t, t.offset).numFrames
  {
    hide StatsUpdated;
  }

  lemma CurrentAfter(t: Tracker, op: Op)
    requires InShape(t)
    ensures Current(Apply(t, op)) == Set(Current(t), op)
    ensures Apply(t, op).offset == (t.offset + (if op.AdvanceFrame? then 1 else 0)) % 128
  {
    AdvancedFields(t);
    hide FullScan, RecordSettled, Advanced;
    match op {
      case ProcessFences(signals) => ScanSettles(t, signals);
      case AdvanceFrame(signals) => ScanSettles(Advanced(t), signals);
      case _ =>
    }
  }

  /** On every run the current record holds what was last set of the current frame, and the
      records are used in turn. */
  lemma {:induction false} CurrentIsLastSet(ops: seq<Op>)
    ensures Current(Run(ops)) == LastSet(ops) && Run(ops).offset == Advances(ops) % 128
  {
    hide Apply, Set, Current;
    if ops == [] {
      NothingSet();
    } else {
      CurrentIsLastSet(ops[..|ops| - 1]);
      CurrentAfter(Run(ops[..|ops| - 1]), ops[|ops| - 1]);
    }
  }

  lemma NothingSet()
    ensures Current(NewTracker()) == Record(0, 0, 0, None, None)
  {
  }

  /** The other records change only as their fences signal, until they are cleared. */
  lemma OthersAfter(t: Tracker, op: Op, b: nat)
    requires InShape(t) && b < NUM_FRAME_RECORDS && b != Apply(t, op).offset
    ensures var r, u := t.records[b], Apply(t, op).records[b];
            match op
            case ProcessFences(signals) => RecordSettled(r, u, signals)
            case AdvanceFrame(signals) => RecordSettled(r, u, signals)
            case ClearStats => u == Record(0, 0, 0, None, None)
            case _ => u == r
  {
    AdvancedFields(t);
    hide FullScan, RecordSettled, Advanced;
    match op {
      case ProcessFences(signals) => ScanSettles(t, signals);
      case AdvanceFrame(signals) => ScanSettles(Advanced(t), signals);
      case _ =>
    }
  }

  // ---------- the counter ----------

  /** How much the counter exceeds the number of fences. */
  function Surplus(t: Tracker): int
    requires InShape(t)
  {
    t.numFences - AllFences(t)
  }

  /** The fence that the operation sets, and the one it replaces. */
  function Replacement(t: Tracker, op: Op): Option<(Option<Fence>, Option<Fence>)>
    requires InShape(t)
  {
    match op
    case SetFrameReadyFence(fence) => Some((fence, Current(t).frameReadyFence))
    case SetActualPresentFence(fence) => Some((fence, Current(t).actualPresentFence))
    case _ => None
  }

  lemma AdvancedKeepsSurplus(t: Tracker)
    requires InShape(t)
    ensures Surplus(Advanced(t)) == Surplus(t)
  {
    FenceCountUpdate(t.records, NUM_FRAME_RECORDS, (t.offset + 1) % NUM_FRAME_RECORDS, UNSET_RECORD);
    hide FenceCount, StatsUpdated;
  }

  lemma ClearedHasNoSurplus(t: Tracker)
    requires InShape(t)
    ensures Surplus(Cleared(t)) == 0
  {
    FenceCountZero(Cleared(t).records, NUM_FRAME_RECORDS);
    hide FenceCount;
  }

  lemma SettingCount(t: Tracker, r: Record, n: int)
    requires InShape(t)
    ensures AllFences(WithCurrent(t, r)) == AllFences(WithCurrent(t, r).(numFences := n))
    ensures AllFences(WithCurrent(t, r)) == AllFences(t) + One(r.frameReadyFence) + One(r.actualPresentFence)
            - One(Current(t).frameReadyFence) - One(Current(t).actualPresentFence)
  {
    FenceCountUpdate(t.records, NUM_FRAME_RECORDS, t.offset, r);
  }

  /** Clearing apart, the surplus changes only when a fence is set, and does so unless a
      fence is set where there was none. */
  lemma SurplusAfter(t: Tracker, op: Op)
    requires InShape(t)
    ensures Surplus(Apply(t, op))
            == (if op.ClearStats? then 0
                else match Replacement(t, op)
                  case Some((fence, replaced)) => Surplus(t) + 1 - One(fence) + One(replaced)
                  case None => Surplus(t))
  {
    hide AllFences, FullScan, Advanced, Cleared;
    match op {
      case AdvanceFrame(signals) =>
        AdvancedKeepsSurplus(t);
        ScanKeepsSurplus(Advanced(t), NUM_FRAME_RECORDS - 1, signals);
      case ProcessFences(signals) => ScanKeepsSurplus(t, NUM_FRAME_RECORDS - 1, signals);
      case ClearStats => ClearedHasNoSurplus(t);
      case SetDesiredPresentTime(time) => SettingCount(t, Current(t).(desiredPresentTime := time), t.numFences + 1);
      case SetFrameReadyTime(time) => SettingCount(t, Current(t).(frameReadyTime := time), t.numFences + 1);
      case SetFrameReadyFence(fence) => SettingCount(t, Current(t).(frameReadyFence := fence), t.numFences + 1);
      case SetActualPresentTime(time) => SettingCount(t, Current(t).(actualPresentTime := time), t.numFences + 1);
      case SetActualPresentFence(fence) => SettingCount(t, Current(t).(actualPresentFence := fence), t.numFences + 1);
      case SetDisplayRefreshPeriod(_) => SamePeriodFences(t, op.period);
    }
  }

  lemma SamePeriodFences(t: Tracker, period: int)
    requires InShape(t)
    ensures AllFences(t.(displayPeriod := period)) == AllFences(t)
  {
  }

  lemma NewHasNoSurplus()
    ensures Surplus(NewTracker()) == 0
  {
    FenceCountZero(NewTracker().records, NUM_FRAME_RECORDS);
    hide FenceCount;
  }

  /** On every run the counter is at least the number of fences, so that the scan may stop
      when it reaches zero. */
  lemma {:induction false} CounterCoversFences(ops: seq<Op>)
    ensures Surplus(Run(ops)) >= 0
  {
    hide Surplus, Apply;
    if ops == [] {
      NewHasNoSurplus();
    } else {
      CounterCoversFences(ops[..|ops| - 1]);
      SurplusAfter(Run(ops[..|ops| - 1]), ops[|ops| - 1]);
    }
  }

  /** Every fence set is a fence, set where there was none. */
  predicate SetsOnce(t: Tracker, op: Op)
    requires InShape(t)
  {
    match Replacement(t, op)
    case Some((fence, replaced)) => fence.Some? && replaced.None?
    case None => true
  }

  predicate SetsOncePerFrame(ops: seq<Op>) {
    ops == [] || (SetsOncePerFrame(ops[..|ops| - 1]) && SetsOnce(Run(ops[..|ops| - 1]), ops[|ops| - 1]))
  }

  /** If each fence is set at most once per frame, and none is null, the counter is exact. */
  lemma {:induction false} CounterIsExact(ops: seq<Op>)
    requires SetsOncePerFrame(ops)
    ensures Run(ops).numFences == AllFences(Run(ops))
  {
    hide Apply, AllFences, Replacement;
    if ops == [] {
      NewHasNoSurplus();
    } else {
      CounterIsExact(ops[..|ops| - 1]);
      SurplusAfter(Run(ops[..|ops| - 1]), ops[|ops| - 1]);
    }
  }

  /** An operation keeps the counter exact if and only if it is no such setting. */
  lemma CounterStaysExactIff(t: Tracker, op: Op)
    requires InShape(t) && t.numFences == AllFences(t)
    ensures Apply(t, op).numFences == AllFences(Apply(t, op)) <==> SetsOnce(t, op)
  {
    hide Apply, AllFences;
    SurplusAfter(t, op);
  }

  // ---------- a frame that is not counted ----------

  /** No frame is known to have been shown, and none is counted. */
  predicate NothingKnown(t: Tracker)
    requires InShape(t)
  {
    && Total(t.numFrames) == 0
    && forall b :: 0 <= b < NUM_FRAME_RECORDS ==>
                     t.records[b].actualPresentTime <= 0 || t.records[b].actualPresentTime >= 0x7FFF_FFFF_FFFF_FFFF
  }

  /** Then the next scan counts none, whatever has signaled. */
  lemma {:induction false} NoneCounted(t: Tracker, n: nat, signals: Signals)
    requires InShape(t) && NothingKnown(t) && n < NUM_FRAME_RECORDS
    ensures CountedUpTo(t, n, signals) == 0
  {
    hide Settles, ShownAt, Total, ScanIndex;
    if n > 0 {
      NoneCounted(t, n - 1, signals);
    }
  }

  lemma AdvanceKnowsNothing(t: Tracker)
    requires InShape(t) && NothingKnown(t)
    ensures NothingKnown(Apply(t, AdvanceFrame(map[])))
  {
    AdvancedFields(t);
    StatsTotal(t, t.offset);
    var v := Advanced(t);
    hide Advanced, FullScan, StatsUpdated, Total;
    NoneCounted(v, NUM_FRAME_RECORDS - 1, map[]);
    ScanTotal(v, NUM_FRAME_RECORDS - 1, map[]);
    ScanSettles(v, map[]);
  }

  /** Two frames shown ten units apart, the display's period, whose fences signal together. */
  const BOTH: Signals := map[1 := 100, 2 := 110]

  lemma RunGrows(ops: seq<Op>, op: Op)
    ensures Run(ops + [op]) == Apply(Run(ops), op)
  {
    assert (ops + [op])[..|ops + [op]| - 1] == ops;
    hide Apply;
  }

  /** The next frame begins, and its present fence is set. */
  function Shown(t: Tracker, f: Fence): (u: Tracker)
    requires InShape(t)
    ensures InShape(u)
  {
    Apply(Apply(t, AdvanceFrame(map[])), SetActualPresentFence(Some(f)))
  }

  lemma ShownFields(t: Tracker, f: Fence)
    requires InShape(t) && NothingKnown(t) && t.offset < 127
    ensures var u := Shown(t, f);
            && NothingKnown(u) && u.displayPeriod == t.displayPeriod && u.offset == t.offset + 1
            && u.records[u.offset].actualPresentFence == Some(f)
            && forall b :: 0 <= b <= t.offset ==> u.records[b].actualPresentFence == t.records[b].actualPresentFence
  {
    var m := Apply(t, AdvanceFrame(map[]));
    CurrentAfter(t, AdvanceFrame(map[]));
    AdvanceKnowsNothing(t);
    AdvanceKeepsPeriod(t);
    forall b: nat | b <= t.offset
      ensures m.records[b].actualPresentFence == t.records[b].actualPresentFence
    {
      OthersAfter(t, AdvanceFrame(map[]), b);
    }
    hide FullScan, Advanced, Total;
  }

  lemma ShowNext(ops: seq<Op>, f: Fence) returns (after: seq<Op>)
    ensures Run(after) == Shown(Run(ops), f)
  {
    RunGrows(ops, AdvanceFrame(map[]));
    RunGrows(ops + [AdvanceFrame(map[])], SetActualPresentFence(Some(f)));
    after := ops + [AdvanceFrame(map[])] + [SetActualPresentFence(Some(f))];
    hide Run, Apply;
  }

  lemma AdvanceKeepsPeriod(t: Tracker)
    requires InShape(t)
    ensures Apply(t, AdvanceFrame(map[])).displayPeriod == t.displayPeriod
  {
    hide StatsUpdated;
  }

  /** A run after which both frames are known to have been shown, and neither is counted. */
  lemma ShownButNotCounted() returns (ops: seq<Op>)
    ensures var t := Run(ops);
            && t.displayPeriod == 10 && t.records[1].actualPresentTime == 100 && t.records[2].actualPresentTime == 110
            && Total(t.numFrames) == 0
  {
    var start := NewTracker().(displayPeriod := 10);
    RunGrows([], SetDisplayRefreshPeriod(10));
    ops := [] + [SetDisplayRefreshPeriod(10)];
    assert Run(ops) == start;
    NewKnowsNothing();
    hide Run, FullScan, Total, Shown, Apply;
    ops := ShowNext(ops, 1);
    ops := ShowNext(ops, 2);
    ops := ShowNext(ops, 3);
    ShownFields(start, 1);
    ShownFields(Shown(start, 1), 2);
    ShownFields(Shown(Shown(start, 1), 2), 3);
    BothSettle(Run(ops));
    RunGrows(ops, ProcessFences(BOTH));
    ops := ops + [ProcessFences(BOTH)];
  }

  lemma BothSettle(t: Tracker)
    requires InShape(t) && NothingKnown(t) && t.offset == 3
    requires t.records[1].actualPresentFence == Some(1) && t.records[2].actualPresentFence == Some(2)
    ensures var u := Apply(t, ProcessFences(BOTH));
            && u.displayPeriod == t.displayPeriod && Total(u.numFrames) == 0
            && u.records[1].actualPresentTime == 100 && u.records[2].actualPresentTime == 110
  {
    OthersAfter(t, ProcessFences(BOTH), 1);
    OthersAfter(t, ProcessFences(BOTH), 2);
    NoneCounted(t, NUM_FRAME_RECORDS - 1, BOTH);
    ScanTotal(t, NUM_FRAME_RECORDS - 1, BOTH);
    hide FullScan, Total;
  }

  lemma NewKnowsNothing()
    ensures NothingKnown(NewTracker())
  {
  }

  // ---------- the object ----------

  class FrameTracker {
    const frameRecords: array<Record>
    var offset: nat
    var numFences: int
    var displayPeriod: int
    const numFrames: array<nat>

    ghost function Model(): Tracker
      reads this, frameRecords, numFrames
    {
      Tracker(frameRecords[..], offset, numFences, displayPeriod, numFrames[..])
    }

    ghost predicate Valid()
      reads this, frameRecords, numFrames
    {
      InShape(Model()) && Surplus(Model()) >= 0
    }

    constructor ()
      ensures Valid() && fresh(frameRecords) && fresh(numFrames) && Model() == NewTracker()
    {
      hide Surplus, AllFences, FenceCount;
      NewHasNoSurplus();
      frameRecords := new Record[NUM_FRAME_RECORDS](_ => NEW_RECORD);
      numFrames := new nat[NUM_FRAME_BUCKETS](_ => 0);
      offset, numFences, displayPeriod := 0, 0, 0;
      new;
      assert frameRecords[..] == NewTracker().records && numFrames[..] == NewTracker().numFrames;
    }

    method SetDesiredPresentTime(presentTime: int)
      requires Valid()
      modifies frameRecords
      ensures Valid() && Model() == Apply(old(Model()), Op.SetDesiredPresentTime(presentTime))
    {
      SurplusAfter(Model(), Op.SetDesiredPresentTime(presentTime));
      hide Surplus;
      frameRecords[offset] := frameRecords[offset].(desiredPresentTime := presentTime);
    }

    method SetFrameReadyTime(readyTime: int)
      requires Valid()
      modifies frameRecords
      ensures Valid() && Model() == Apply(old(Model()), Op.SetFrameReadyTime(readyTime))
    {
      SurplusAfter(Model(), Op.SetFrameReadyTime(readyTime));
      hide Surplus;
      frameRecords[offset] := frameRecords[offset].(frameReadyTime := readyTime);
    }

    method SetFrameReadyFence(readyFence: Option<Fence>)
      requires Valid()
      modifies frameRecords, this`numFences
      ensures Valid() && Model() == Apply(old(Model()), Op.SetFrameReadyFence(readyFence))
    {
      SurplusAfter(Model(), Op.SetFrameReadyFence(readyFence));
      hide Surplus;
      frameRecords[offset] := frameRecords[offset].(frameReadyFence := readyFence);
      numFences := numFences + 1;
    }

    method SetActualPresentTime(presentTime: int)
      requires Valid()
      modifies frameRecords
      ensures Valid() && Model() == Apply(old(Model()), Op.SetActualPresentTime(presentTime))
    {
      SurplusAfter(Model(), Op.SetActualPresentTime(presentTime));
      hide Surplus;
      frameRecords[offset] := frameRecords[offset].(actualPresentTime := presentTime);
    }

    method SetActualPresentFence(presentFence: Option<Fence>)
      requires Valid()
      modifies frameRecords, this`numFences
      ensures Valid() && Model() == Apply(old(Model()), Op.SetActualPresentFence(presentFence))
    {
      SurplusAfter(Model(), Op.SetActualPresentFence(presentFence));
      hide Surplus;
      frameRecords[offset] := frameRecords[offset].(actualPresentFence := presentFence);
      numFences := numFences + 1;
    }

    method SetDisplayRefreshPeriod(period: int)
      requires Valid()
      modifies this`displayPeriod
      ensures Valid() && Model() == Apply(old(Model()), Op.SetDisplayRefreshPeriod(period))
    {
      SurplusAfter(Model(), Op.SetDisplayRefreshPeriod(period));
      hide Surplus;
      displayPeriod := period;
    }

    method AdvanceFrame(signals: Signals)
      requires Valid()
      modifies frameRecords, numFrames, this`offset, this`numFences
      ensures Valid() && Model() == Apply(old(Model()), Op.AdvanceFrame(signals))
    {
      AdvancedKeepsSurplus(Model());
      SurplusAfter(Model(), Op.AdvanceFrame(signals));
      NextFrame();
      ProcessFences(signals);
    }

    /** The part of advanceFrame before the scan. */
    method NextFrame()
      requires InShape(Model())
      modifies frameRecords, numFrames, this`offset, this`numFences
      ensures Model() == Advanced(old(Model()))
    {
      UpdateStats(offset);
      offset := (offset + 1) % NUM_FRAME_RECORDS;
      frameRecords[offset] := frameRecords[offset].(desiredPresentTime := MAX_TIME);
      frameRecords[offset] := frameRecords[offset].(frameReadyTime := MAX_TIME);
      frameRecords[offset] := frameRecords[offset].(actualPresentTime := MAX_TIME);
      if frameRecords[offset].frameReadyFence.Some? {
        frameRecords[offset] := frameRecords[offset].(frameReadyFence := None);
        numFences := numFences - 1;
      }
      if frameRecords[offset].actualPresentFence.Some? {
        frameRecords[offset] := frameRecords[offset].(actualPresentFence := None);
        numFences := numFences - 1;
      }
    }

    method ClearStats()
      requires Valid()
      modifies frameRecords, this`numFences
      ensures Valid() && Model() == Apply(old(Model()), Op.ClearStats)
    {
      ClearedHasNoSurplus(Model());
      hide Surplus;
      for i := 0 to NUM_FRAME_RECORDS
        invariant forall k :: 0 <= k < i ==> frameRecords[k] == NEW_RECORD
      {
        frameRecords[i] := frameRecords[i].(desiredPresentTime := 0, frameReadyTime := 0, actualPresentTime := 0);
        frameRecords[i] := frameRecords[i].(frameReadyFence := None, actualPresentFence := None);
      }
      numFences := 0;
      frameRecords[offset] := frameRecords[offset].(desiredPresentTime := MAX_TIME);
      frameRecords[offset] := frameRecords[offset].(frameReadyTime := MAX_TIME);
      frameRecords[offset] := frameRecords[offset].(actualPresentTime := MAX_TIME);
      assert frameRecords[..] == Cleared(old(Model())).records;
    }

    /** The scan stops when the counter reaches zero, and does what the full scan does. */
    method ProcessFences(signals: Signals)
      requires Valid()
      modifies frameRecords, numFrames, this`numFences
      ensures Valid() && Model() == FullScan(old(Model()), NUM_FRAME_RECORDS - 1, signals)
      ensures OthersSettled(old(Model()), Model(), signals)
    {
      hide ScanOne, OthersSettled, AllFences;
      ghost var was := Model();
      var i := 1;
      while i < NUM_FRAME_RECORDS && numFences > 0
        invariant 1 <= i <= NUM_FRAME_RECORDS
        invariant Model() == FullScan(was, i - 1, signals)
      {
        ScanRecord(i, signals);
        i := i + 1;
      }
      ScanIsFull(was, i - 1, signals);
      ScanSettles(was, signals);
    }

    method ScanRecord(i: nat, signals: Signals)
      requires InShape(Model()) && 1 <= i < NUM_FRAME_RECORDS
      modifies frameRecords, numFrames, this`numFences
      ensures Model() == ScanOne(old(Model()), i, signals)
    {
      var idx := (offset + NUM_FRAME_RECORDS - i) % NUM_FRAME_RECORDS;
      var updated := SettleRecord(idx, signals);
      if updated {
        UpdateStats(idx);
      }
    }

    method SettleRecord(idx: nat, signals: Signals) returns (updated: bool)
      requires idx < frameRecords.Length
      modifies frameRecords, this`numFences
      ensures frameRecords[..] == old(frameRecords[..])[idx := Settled(old(frameRecords[idx]), signals)]
      ensures numFences == old(numFences) - Removed(old(frameRecords[idx]), signals)
      ensures updated == (Removed(old(frameRecords[idx]), signals) > 0)
    {
      updated := false;
      var rfence := frameRecords[idx].frameReadyFence;
      if rfence.Some? {
        frameRecords[idx] := frameRecords[idx].(frameReadyTime := SignalTime(signals, rfence.value));
        if frameRecords[idx].frameReadyTime < MAX_TIME {
          frameRecords[idx] := frameRecords[idx].(frameReadyFence := None);
          numFences := numFences - 1;
          updated := true;
        }
      }
      var pfence := frameRecords[idx].actualPresentFence;
      if pfence.Some? {
        frameRecords[idx] := frameRecords[idx].(actualPresentTime := SignalTime(signals, pfence.value));
        if frameRecords[idx].actualPresentTime < MAX_TIME {
          frameRecords[idx] := frameRecords[idx].(actualPresentFence := None);
          numFences := numFences - 1;
          updated := true;
        }
      }
    }

    method UpdateStats(newFrameIdx: nat)
      requires InShape(Model()) && newFrameIdx < NUM_FRAME_RECORDS
      modifies numFrames
      ensures Model() == StatsUpdated(old(Model()), newFrameIdx)
    {
      if displayPeriod > 0 && ValidFrame(frameRecords[newFrameIdx]) {
        var prevFrameIdx := (newFrameIdx + NUM_FRAME_RECORDS - 1) % NUM_FRAME_RECORDS;
        if ValidFrame(frameRecords[prevFrameIdx]) {
          var duration := frameRecords[newFrameIdx].actualPresentTime - frameRecords[prevFrameIdx].actualPresentTime;
          var numPeriods := TruncDiv(duration + displayPeriod / 2, displayPeriod);
          var nextBucket: nat := 2;
          for i := 0 to NUM_FRAME_BUCKETS - 1
            invariant Bucket(numPeriods, 0, 2) == Bucket(numPeriods, i, nextBucket)
            invariant numFrames[..] == old(numFrames[..])
          {
            if numPeriods < nextBucket {
              numFrames[i] := numFrames[i] + 1;
              return;
            }
            nextBucket := 2 * nextBucket;
          }
          numFrames[NUM_FRAME_BUCKETS - 1] := numFrames[NUM_FRAME_BUCKETS - 1] + 1;
        }
      }
    }
  }
}
