/** The video pipeline, under every interleaving of its producer, its compressor and its
    transmitter: shared-memory slots, the pool of slot indices, and length-prefixed frames
    in a ring buffer. */
module VideoPipeline {
  import opened Machine

  const FRAME_COUNT: nat := 4
  const RING_SIZE: nat := 1024 * 512
  const HEADER_SIZE: nat := 4

  /** A frame and what compressing it yields, nothing if compression fails. Sizes are those
      of a signed 32-bit word, with room for the header. */
  datatype AnyFrame = Frame(content: nat, jpeg: seq<byte>)
  type Frame = f: AnyFrame | |f.jpeg| < 0x7FFF_FFFC witness Frame(0, [])

  datatype MemoryState = CAN_READ | CAN_WRITE

  // ---------- framing ----------

  function Encode(n: nat): (h: seq<byte>)
    ensures |h| == HEADER_SIZE
  {
    [(n % 256) as byte, (n / 256 % 256) as byte, (n / 65536 % 256) as byte, (n / 16777216 % 256) as byte]
  }

  /** The header read back as a signed word in two's complement. */
  function Decode(h: seq<byte>): int
    requires |h| == HEADER_SIZE
  {
    var n := h[0] as int + 256 * h[1] as int + 65536 * h[2] as int + 16777216 * h[3] as int;
    if n < 0x8000_0000 then n else n - 0x1_0000_0000
  }

  lemma DecodeEncode(n: nat)
    requires n < 0x8000_0000
    ensures Decode(Encode(n)) == n
  {
  }

  function Framed(messages: seq<seq<byte>>): seq<byte> {
    if messages == [] then [] else Encode(|messages[0]|) + messages[0] + Framed(messages[1..])
  }

  lemma {:induction false} FramedAppend(messages: seq<seq<byte>>, m: seq<byte>)
    ensures Framed(messages + [m]) == Framed(messages) + Encode(|m|) + m
  {
    if messages == [] {
      assert [m][1..] == [];
    } else {
      FramedAppend(messages[1..], m);
      assert (messages + [m])[1..] == messages[1..] + [m];
    }
  }

  // ---------- the threads ----------

  datatype Producer = Idle | Copied(slot: nat) | Marked(slot: nat)

  datatype Compressor = Waiting | Popped(slot: nat) | Holding(slot: nat, jpeg: seq<byte>)
                      | HeaderWritten(slot: nat, jpeg: seq<byte>) | Finishing(slot: nat)

  datatype Transmitter = Listening | HeaderRead(size: nat)

  /** `accepted`, `compressed`, `written` and `sent` record, in order, the frames marked
      readable, the frames compressed, the images in the ring and the images sent. */
  datatype State = State(
    slots: seq<Frame>,
    states: seq<MemoryState>,
    pool: seq<nat>,
    ring: seq<byte>,
    producer: Producer,
    compressor: Compressor,
    transmitter: Transmitter,
    accepted: seq<Frame>,
    compressed: seq<Frame>,
    written: seq<seq<byte>>,
    sent: seq<seq<byte>>)

  const BLANK: Frame := Frame(0, [])

  const START := State([BLANK, BLANK, BLANK, BLANK], [CAN_WRITE, CAN_WRITE, CAN_WRITE, CAN_WRITE], [], [],
                       Idle, Waiting, Listening, [], [], [], [])

  /** The first slot, from i on, that can be written; FRAME_COUNT if none. */
  function CanWriteId(states: seq<MemoryState>, i: nat): (b: nat)
    requires i <= |states|
    ensures i <= b <= |states| && (b < |states| ==> states[b] == CAN_WRITE)
    ensures forall k :: i <= k < b ==> states[k] == CAN_READ
    decreases |states| - i
  {
    if i == |states| then i else if states[i] == CAN_WRITE then i else CanWriteId(states, i + 1)
  }

  datatype Step =
    | CopyFrame(frame: Frame)
    | MarkReadable
    | SignalNewData
    | PopIndex
    | Compress
    | WriteHeader
    | WriteImage
    | MarkWritable
    | ReadHeader
    | ReadImage

  predicate InRange(s: State) {
    && |s.slots| == |s.states| == FRAME_COUNT
    && (s.producer != Idle ==> s.producer.slot < FRAME_COUNT)
    && (s.compressor != Waiting ==> s.compressor.slot < FRAME_COUNT)
    && (forall i :: 0 <= i < |s.pool| ==> s.pool[i] < FRAME_COUNT)
  }

  /** Where each thread stands; a wait is a step that is not enabled. */
  predicate Enabled(s: State, step: Step) {
    match step
    case CopyFrame(_) => s.producer == Idle
    case MarkReadable => s.producer.Copied?
    case SignalNewData => s.producer.Marked?
    case PopIndex => s.compressor == Waiting && s.pool != []
    case Compress => s.compressor.Popped?
    case WriteHeader => s.compressor.Holding? && RING_SIZE - |s.ring| >= |s.compressor.jpeg| + HEADER_SIZE
    case WriteImage => s.compressor.HeaderWritten?
    case MarkWritable => s.compressor.Finishing?
    case ReadHeader => s.transmitter == Listening && |s.ring| > HEADER_SIZE
    case ReadImage => s.transmitter.HeaderRead? && |s.ring| >= s.transmitter.size
  }

  /** A ring write is all or nothing, and nobody looks at its result. */
  function RingWrite(ring: seq<byte>, bytes: seq<byte>): seq<byte> {
    if |bytes| <= RING_SIZE - |ring| then ring + bytes else ring
  }

  function Next(s: State, step: Step): State
    requires InRange(s) && Enabled(s, step)
  {
    match step
    case CopyFrame(frame) =>
      var b := CanWriteId(s.states, 0);
      if b == FRAME_COUNT then s else s.(slots := s.slots[b := frame], producer := Copied(b))
    case MarkReadable =>
      var b := s.producer.slot;
      s.(states := s.states[b := CAN_READ], producer := Marked(b), accepted := s.accepted + [s.slots[b]])
    case SignalNewData => s.(pool := s.pool + [s.producer.slot], producer := Idle)
    case PopIndex => s.(pool := s.pool[1..], compressor := Popped(s.pool[0]))
    case Compress =>
      var b := s.compressor.slot;
      if s.states[b] != CAN_READ then s.(compressor := Waiting)
      else
        var frame := s.slots[b];
        s.(compressed := s.compressed + [frame],
           compressor := if frame.jpeg == [] then Finishing(b) else Holding(b, frame.jpeg))
    case WriteHeader =>
      s.(ring := RingWrite(s.ring, Encode(|s.compressor.jpeg|)),
         compressor := HeaderWritten(s.compressor.slot, s.compressor.jpeg))
    case WriteImage =>
      s.(ring := RingWrite(s.ring, s.compressor.jpeg), written := s.written + [s.compressor.jpeg],
         compressor := Finishing(s.compressor.slot))
    case MarkWritable => s.(states := s.states[s.compressor.slot := CAN_WRITE], compressor := Waiting)
    case ReadHeader =>
      var size := Decode(s.ring[..HEADER_SIZE]);
      s.(ring := s.ring[HEADER_SIZE..], transmitter := if size > 0 then HeaderRead(size) else Listening)
    case ReadImage =>
      s.(ring := s.ring[s.transmitter.size..], transmitter := Listening,
         sent := s.sent + [s.ring[..s.transmitter.size]])
  }

  // ---------- the invariant ----------

  /** The slots whose frames are accepted and not yet compressed, in order. */
  function Pending(s: State): seq<nat> {
    (if s.compressor.Popped? then [s.compressor.slot] else [])
    + s.pool
    + (if s.producer.Marked? then [s.producer.slot] else [])
  }

  predicate Distinct(slots: seq<nat>) {
    forall i, j :: 0 <= i < j < |slots| ==> slots[i] != slots[j]
  }

  /** The slot of a frame that was compressed and is not yet given back. */
  predicate InHand(s: State, b: nat) {
    (s.compressor.Holding? || s.compressor.HeaderWritten? || s.compressor.Finishing?) && s.compressor.slot == b
  }

  /** Slots in use cannot be written, and no slot is in use twice. */
  predicate SlotsHeld(s: State)
    requires InRange(s)
  {
    && Distinct(Pending(s))
    && (forall i :: 0 <= i < |Pending(s)| ==> s.states[Pending(s)[i]] == CAN_READ && !InHand(s, Pending(s)[i]))
    && (forall b :: 0 <= b < FRAME_COUNT && InHand(s, b) ==> s.states[b] == CAN_READ)
    && (s.producer.Copied? ==> s.states[s.producer.slot] == CAN_WRITE)
  }

  /** What was accepted is what was compressed and what is pending. */
  predicate FramesKept(s: State)
    requires InRange(s)
  {
    && |s.accepted| == |s.compressed| + |Pending(s)|
    && s.compressed == s.accepted[..|s.compressed|]
    && (forall i :: 0 <= i < |Pending(s)| ==> s.accepted[|s.compressed| + i] == s.slots[Pending(s)[i]])
  }

  /** The images of the frames that compress to something. */
  function Images(frames: seq<Frame>): seq<seq<byte>> {
    if frames == [] then []
    else
      var last := frames[|frames| - 1];
      Images(frames[..|frames| - 1]) + (if last.jpeg == [] then [] else [last.jpeg])
  }

  function ImageInHand(s: State): seq<seq<byte>> {
    if s.compressor.Holding? || s.compressor.HeaderWritten? then [s.compressor.jpeg] else []
  }

  predicate ImagesKept(s: State) {
    Images(s.compressed) == s.written + ImageInHand(s)
  }

  /** The bytes in the ring are those of the images written and not yet sent, each after its
      size, less a header already read, and with a header whose image is to follow. */
  predicate RingKept(s: State) {
    && |s.sent| <= |s.written| && s.sent == s.written[..|s.sent|]
    && |s.ring| <= RING_SIZE
    && (if s.transmitter.HeaderRead? then Encode(s.transmitter.size) else []) + s.ring
       == Framed(s.written[|s.sent|..]) + (if s.compressor.HeaderWritten? then Encode(|s.compressor.jpeg|) else [])
    && (s.transmitter.HeaderRead? ==> |s.sent| < |s.written| && s.transmitter.size == |s.written[|s.sent|]|)
    && (s.compressor.HeaderWritten? ==> |s.compressor.jpeg| <= RING_SIZE - |s.ring|)
  }

  predicate ImageSizes(s: State) {
    && (forall i :: 0 <= i < |s.written| ==> 0 < |s.written[i]| < 0x7FFF_FFFC)
    && (forall i :: 0 <= i < |ImageInHand(s)| ==> 0 < |ImageInHand(s)[i]| < 0x7FFF_FFFC)
  }

  predicate Inv(s: State) {
    InRange(s) && SlotsHeld(s) && FramesKept(s) && ImagesKept(s) && ImageSizes(s) && RingKept(s)
  }

  // ---------- the producer's steps ----------

  lemma CopyKeeps(s: State, frame: Frame)
    requires Inv(s) && Enabled(s, CopyFrame(frame))
    ensures Inv(Next(s, CopyFrame(frame)))
  {
    hide RingKept, ImageSizes, ImagesKept;
    var t := Next(s, CopyFrame(frame));
    assert Pending(t) == Pending(s);
    RingUnchanged(s, t);
  }

  /** A frame is dropped only when all slots are in use; else it is copied into the lowest that
      is not. */
  lemma CopyTakesLowest(s: State, frame: Frame)
    requires InRange(s) && Enabled(s, CopyFrame(frame))
    ensures var t := Next(s, CopyFrame(frame));
            if forall b :: 0 <= b < FRAME_COUNT ==> s.states[b] == CAN_READ then t == s
            else && t == s.(slots := t.slots, producer := t.producer)
                 && t.producer.Copied? && t.producer.slot < FRAME_COUNT && s.states[t.producer.slot] == CAN_WRITE
                 && t.slots == s.slots[t.producer.slot := frame]
                 && forall b :: 0 <= b < t.producer.slot ==> s.states[b] == CAN_READ
  {
  }

  lemma MarkKeeps(s: State)
    requires Inv(s) && Enabled(s, MarkReadable)
    ensures Inv(Next(s, MarkReadable))
  {
    hide RingKept, ImageSizes, ImagesKept;
    var t := Next(s, MarkReadable);
    assert Pending(t) == Pending(s) + [s.producer.slot];
    RingUnchanged(s, t);
  }

  lemma SignalKeeps(s: State)
    requires Inv(s) && Enabled(s, SignalNewData)
    ensures Inv(Next(s, SignalNewData))
  {
    hide RingKept, ImageSizes, ImagesKept;
    var t := Next(s, SignalNewData);
    assert Pending(t) == Pending(s);
    RingUnchanged(s, t);
  }

  /** Steps that leave the ring, and the images in it and in hand, alone. */
  lemma RingUnchanged(s: State, t: State)
    requires ImagesKept(s) && ImageSizes(s) && RingKept(s)
    requires t.ring == s.ring && t.written == s.written && t.sent == s.sent && t.transmitter == s.transmitter
    requires t.compressed == s.compressed && ImageInHand(t) == ImageInHand(s)
    requires t.compressor.HeaderWritten? == s.compressor.HeaderWritten?
    ensures ImagesKept(t) && ImageSizes(t) && RingKept(t)
  {
    if s.compressor.HeaderWritten? {
      assert ImageInHand(s) == [s.compressor.jpeg] && ImageInHand(t) == [t.compressor.jpeg];
      assert [s.compressor.jpeg][0] == [t.compressor.jpeg][0];
    }
  }

  // ---------- the compressor's steps ----------

  lemma PopKeeps(s: State)
    requires Inv(s) && Enabled(s, PopIndex)
    ensures Inv(Next(s, PopIndex))
  {
    hide RingKept, ImageSizes, ImagesKept;
    var t := Next(s, PopIndex);
    assert s.pool == [s.pool[0]] + s.pool[1..];
    assert Pending(t) == Pending(s);
    RingUnchanged(s, t);
  }

  /** The slot popped is readable: no frame is passed over, and the one compressed is the
      one accepted. */
  lemma PoppedIsReadable(s: State)
    requires Inv(s) && s.compressor.Popped?
    ensures s.states[s.compressor.slot] == CAN_READ
    ensures |s.compressed| < |s.accepted| && s.slots[s.compressor.slot] == s.accepted[|s.compressed|]
  {
    hide RingKept, ImageSizes, ImagesKept;
    assert Pending(s)[0] == s.compressor.slot;
    assert s.accepted[|s.compressed| + 0] == s.slots[Pending(s)[0]];
  }

  lemma CompressTakesFirst(s: State)
    requires Inv(s) && Enabled(s, Compress)
    ensures var t := Next(s, Compress);
            && |Pending(s)| > 0 && Pending(s)[0] == s.compressor.slot && Pending(t) == Pending(s)[1..]
            && t.compressed == s.compressed + [s.slots[s.compressor.slot]]
            && InHand(t, s.compressor.slot) && t.compressor.slot == s.compressor.slot
  {
    PoppedIsReadable(s);
    hide SlotsHeld, FramesKept, RingKept, ImageSizes, ImagesKept;
  }

  lemma CompressKeepsFrames(s: State)
    requires Inv(s) && Enabled(s, Compress)
    ensures var t := Next(s, Compress); InRange(t) && FramesKept(t)
  {
    CompressTakesFirst(s);
    PoppedIsReadable(s);
    hide Pending, SlotsHeld, RingKept, ImageSizes, ImagesKept;
    var t := Next(s, Compress);
    forall i | 0 <= i < |Pending(t)|
      ensures t.accepted[|t.compressed| + i] == t.slots[Pending(t)[i]]
    {
      assert s.accepted[|s.compressed| + (i + 1)] == s.slots[Pending(s)[i + 1]];
    }
  }

  lemma CompressKeepsSlots(s: State)
    requires Inv(s) && Enabled(s, Compress)
    ensures var t := Next(s, Compress); InRange(t) && SlotsHeld(t)
  {
    CompressTakesFirst(s);
    PoppedIsReadable(s);
    hide Pending, FramesKept, RingKept, ImageSizes, ImagesKept;
    var t := Next(s, Compress);
    assert forall i :: 0 <= i < |Pending(t)| ==> Pending(t)[i] == Pending(s)[i + 1] != Pending(s)[0];
  }

  lemma CompressKeeps(s: State)
    requires Inv(s) && Enabled(s, Compress)
    ensures Inv(Next(s, Compress))
  {
    CompressKeepsSlots(s);
    CompressKeepsFrames(s);
    PoppedIsReadable(s);
    hide SlotsHeld, FramesKept, Framed, Encode;
    var frame := s.slots[s.compressor.slot];
    assert (s.compressed + [frame])[..|s.compressed + [frame]| - 1] == s.compressed;
    assert Images(s.compressed + [frame]) == Images(s.compressed) + (if frame.jpeg == [] then [] else [frame.jpeg]);
  }

  /** Steps of the compressor after compressing that change the ring only. */
  lemma SlotsUnchanged(s: State, t: State)
    requires InRange(s) && SlotsHeld(s) && FramesKept(s)
    requires t.slots == s.slots && t.states == s.states && t.pool == s.pool && t.producer == s.producer
    requires t.accepted == s.accepted && t.compressed == s.compressed
    requires InRange(t) && Pending(t) == Pending(s) && forall b :: InHand(t, b) <==> InHand(s, b)
    ensures SlotsHeld(t) && FramesKept(t)
  {
  }

  lemma WriteHeaderKeeps(s: State)
    requires Inv(s) && Enabled(s, WriteHeader)
    ensures Inv(Next(s, WriteHeader))
  {
    hide FramesKept, SlotsHeld, Framed, Encode, Images;
    var t := Next(s, WriteHeader);
    SlotsUnchanged(s, t);
    var header := Encode(|s.compressor.jpeg|);
    var taken := if s.transmitter.HeaderRead? then Encode(s.transmitter.size) else [];
    assert taken + (s.ring + header) == (taken + s.ring) + header;
    assert ImageInHand(t) == ImageInHand(s);
  }

  /** The image always fits: it was checked together with its header. */
  lemma WriteImageKeeps(s: State)
    requires Inv(s) && Enabled(s, WriteImage)
    ensures Inv(Next(s, WriteImage))
  {
    hide FramesKept, SlotsHeld, Framed, Encode, Images, RingKept, ImagesKept, ImageSizes;
    var t := Next(s, WriteImage);
    SlotsUnchanged(s, t);
    WriteImageKeepsRing(s);
    WriteImageKeepsImages(s);
  }

  lemma WriteImageKeepsImages(s: State)
    requires Inv(s) && Enabled(s, WriteImage)
    ensures ImagesKept(Next(s, WriteImage)) && ImageSizes(Next(s, WriteImage))
  {
    hide FramesKept, SlotsHeld, Images, RingKept;
    var t := Next(s, WriteImage);
    assert s.written + [s.compressor.jpeg] == t.written + ImageInHand(t);
    assert ImageInHand(s)[0] == s.compressor.jpeg;
  }

  lemma WriteImageKeepsRing(s: State)
    requires Inv(s) && Enabled(s, WriteImage)
    ensures RingKept(Next(s, WriteImage))
  {
    hide FramesKept, SlotsHeld, Framed, Encode, Images, ImagesKept, ImageSizes;
    var t := Next(s, WriteImage);
    FramedAppend(s.written[|s.sent|..], s.compressor.jpeg);
    assert t.written[|t.sent|..] == s.written[|s.sent|..] + [s.compressor.jpeg];
    assert t.ring == s.ring + s.compressor.jpeg;
    var taken := if s.transmitter.HeaderRead? then Encode(s.transmitter.size) else [];
    assert taken + (s.ring + s.compressor.jpeg) == (taken + s.ring) + s.compressor.jpeg;
  }

  lemma MarkWritableKeeps(s: State)
    requires Inv(s) && Enabled(s, MarkWritable)
    ensures Inv(Next(s, MarkWritable))
  {
    hide RingKept, ImageSizes, ImagesKept;
    var t := Next(s, MarkWritable);
    assert Pending(t) == Pending(s);
    assert InHand(s, s.compressor.slot);
    RingUnchanged(s, t);
  }

  // ---------- the transmitter's steps ----------

  lemma FramedFirst(messages: seq<seq<byte>>, rest: seq<byte>)
    requires messages != []
    ensures Framed(messages) + rest == Encode(|messages[0]|) + (messages[0] + (Framed(messages[1..]) + rest))
  {
  }

  /** A header is read only when its image is in the ring behind it. */
  lemma ReadHeaderKeeps(s: State)
    requires Inv(s) && Enabled(s, ReadHeader)
    ensures Inv(Next(s, ReadHeader)) && Next(s, ReadHeader).transmitter.HeaderRead?
  {
    hide FramesKept, SlotsHeld, Encode, Images, Decode;
    var t := Next(s, ReadHeader);
    var waiting := s.written[|s.sent|..];
    var partial := if s.compressor.HeaderWritten? then Encode(|s.compressor.jpeg|) else [];
    assert s.ring == Framed(waiting) + partial;
    assert waiting != [];
    FramedFirst(waiting, partial);
    assert s.ring[..HEADER_SIZE] == Encode(|waiting[0]|);
    assert waiting[0] == s.written[|s.sent|];
    DecodeEncode(|waiting[0]|);
    hide Framed;
    assert Encode(t.transmitter.size) + t.ring == s.ring;
    SlotsUnchanged(s, t);
  }

  /** What is read after the header is the next image, and all of it is there. */
  lemma ImageIsThere(s: State)
    requires Inv(s) && s.transmitter.HeaderRead?
    ensures |s.sent| < |s.written| && s.transmitter.size == |s.written[|s.sent|]| <= |s.ring|
    ensures s.ring[..s.transmitter.size] == s.written[|s.sent|]
    ensures s.ring[s.transmitter.size..] == Framed(s.written[|s.sent| + 1..])
            + (if s.compressor.HeaderWritten? then Encode(|s.compressor.jpeg|) else [])
  {
    hide FramesKept, SlotsHeld, Encode, Images, Decode;
    var waiting := s.written[|s.sent|..];
    var partial := if s.compressor.HeaderWritten? then Encode(|s.compressor.jpeg|) else [];
    FramedFirst(waiting, partial);
    assert waiting[0] == s.written[|s.sent|];
    assert waiting[1..] == s.written[|s.sent| + 1..];
    var header := Encode(s.transmitter.size);
    assert (header + s.ring)[HEADER_SIZE..] == s.ring;
    assert s.ring == waiting[0] + (Framed(waiting[1..]) + partial);
  }

  lemma ReadImageKeeps(s: State)
    requires Inv(s) && Enabled(s, ReadImage)
    ensures Inv(Next(s, ReadImage))
  {
    ImageIsThere(s);
    hide FramesKept, SlotsHeld, Encode, Images, Framed;
    var t := Next(s, ReadImage);
    SlotsUnchanged(s, t);
    assert t.sent == s.written[..|t.sent|];
  }

  lemma StepKeepsInv(s: State, step: Step)
    requires Inv(s) && Enabled(s, step)
    ensures Inv(Next(s, step))
  {
    hide Inv, Next;
    match step {
      case CopyFrame(frame) => CopyKeeps(s, frame);
      case MarkReadable => MarkKeeps(s);
      case SignalNewData => SignalKeeps(s);
      case PopIndex => PopKeeps(s);
      case Compress => CompressKeeps(s);
      case WriteHeader => WriteHeaderKeeps(s);
      case WriteImage => WriteImageKeeps(s);
      case MarkWritable => MarkWritableKeeps(s);
      case ReadHeader => ReadHeaderKeeps(s);
      case ReadImage => ReadImageKeeps(s);
    }
  }

  // ---------- runs ----------

  predicate LegalRun(steps: seq<Step>)
    decreases |steps|, 0
  {
    steps == []
    || (&& LegalRun(steps[..|steps| - 1]) && InRange(Run(steps[..|steps| - 1]))
        && Enabled(Run(steps[..|steps| - 1]), steps[|steps| - 1]))
  }

  function Run(steps: seq<Step>): State
    requires LegalRun(steps)
    decreases |steps|, 1
  {
    if steps == [] then START else Next(Run(steps[..|steps| - 1]), steps[|steps| - 1])
  }

  lemma {:induction false} RunKeepsInv(steps: seq<Step>)
    requires LegalRun(steps)
    ensures Inv(Run(steps))
  {
    if steps != [] {
      RunKeepsInv(steps[..|steps| - 1]);
      hide Inv, Next, Enabled, InRange;
      StepKeepsInv(Run(steps[..|steps| - 1]), steps[|steps| - 1]);
    }
  }

  // ---------- what it means ----------

  lemma {:induction false} ImagesAppend(a: seq<Frame>, b: seq<Frame>)
    ensures Images(a + b) == Images(a) + Images(b)
  {
    if b == [] {
      assert a + b == a;
    } else {
      ImagesAppend(a, b[..|b| - 1]);
      assert (a + b)[..|a + b| - 1] == a + b[..|b| - 1];
    }
  }

  function PendingFrames(s: State): seq<Frame>
    requires InRange(s)
  {
    seq(|Pending(s)|, i requires 0 <= i < |Pending(s)| => s.slots[Pending(s)[i]])
  }

  /** The images on their way: in the ring, in the compressor's hands, and in the slots. */
  function InFlight(s: State): seq<seq<byte>>
    requires InRange(s) && |s.sent| <= |s.written|
  {
    s.written[|s.sent|..] + ImageInHand(s) + Images(PendingFrames(s))
  }

  lemma InvKeepsOrder(s: State)
    requires Inv(s)
    ensures s.sent + InFlight(s) == Images(s.accepted)
  {
    hide Images, Framed, Encode, SlotsHeld, FramesKept, Pending, PendingFrames, ImageInHand, ImageSizes;
    AcceptedSplits(s);
    ImagesAppend(s.compressed, PendingFrames(s));
    Reassociate(s.sent, s.written, ImageInHand(s), Images(PendingFrames(s)));
  }

  lemma Reassociate(sent: seq<seq<byte>>, written: seq<seq<byte>>, hand: seq<seq<byte>>, rest: seq<seq<byte>>)
    requires |sent| <= |written| && sent == written[..|sent|]
    ensures sent + (written[|sent|..] + hand + rest) == (written + hand) + rest
  {
  }

  lemma AcceptedSplits(s: State)
    requires InRange(s) && FramesKept(s)
    ensures s.accepted == s.compressed + PendingFrames(s)
  {
    hide Pending;
  }

  /** On every run, what was sent and what is in flight make up the images of the frames
      accepted into slots, in order and byte for byte; the ring holds exactly the unsent
      images with their sizes, but for a header read or written ahead of its image. */
  lemma SentAndInFlightAreAccepted(steps: seq<Step>)
    requires LegalRun(steps)
    ensures var s := Run(steps);
            && InRange(s) && |s.sent| <= |s.written| && s.sent + InFlight(s) == Images(s.accepted)
            && (if s.transmitter.HeaderRead? then Encode(s.transmitter.size) else []) + s.ring
               == Framed(s.written[|s.sent|..])
                  + (if s.compressor.HeaderWritten? then Encode(|s.compressor.jpeg|) else [])
  {
    RunKeepsInv(steps);
    InvKeepsOrder(Run(steps));
  }

  /** When all threads are at rest and the pool and the ring are empty, all was sent. */
  lemma AllSentAtRest(steps: seq<Step>)
    requires LegalRun(steps)
    requires AtRest(Run(steps))
    ensures Run(steps).sent == Images(Run(steps).accepted)
  {
    RunKeepsInv(steps);
    var s := Run(steps);
    InvKeepsOrder(s);
    assert Pending(s) == [] && PendingFrames(s) == [];
    assert Framed(s.written[|s.sent|..]) == [];
    assert s.written[|s.sent|..] == [];
  }

  /** No slot is lost: one that cannot be written holds a frame that is pending or in hand. */
  predicate NoneLost(s: State)
    requires InRange(s)
  {
    forall b :: 0 <= b < FRAME_COUNT && s.states[b] == CAN_READ ==> b in Pending(s) || InHand(s, b)
  }

  lemma ProducerLosesNone(s: State, step: Step)
    requires Inv(s) && NoneLost(s) && Enabled(s, step) && (step.CopyFrame? || step.MarkReadable? || step.SignalNewData?)
    ensures InRange(Next(s, step)) && NoneLost(Next(s, step))
  {
    var t := Next(s, step);
    hide SlotsHeld, FramesKept, ImagesKept, ImageSizes, RingKept, CanWriteId;
    assert Pending(t) == Pending(s) + (if step.MarkReadable? then [s.producer.slot] else []);
    assert forall b :: InHand(t, b) == InHand(s, b);
    hide Pending, InHand;
  }

  lemma PopLosesNone(s: State)
    requires Inv(s) && NoneLost(s) && Enabled(s, PopIndex)
    ensures InRange(Next(s, PopIndex)) && NoneLost(Next(s, PopIndex))
  {
    var t := Next(s, PopIndex);
    hide SlotsHeld, FramesKept, ImagesKept, ImageSizes, RingKept;
    assert s.pool == [s.pool[0]] + s.pool[1..];
    assert Pending(t) == Pending(s);
    hide Pending;
  }

  lemma CompressLosesNone(s: State)
    requires Inv(s) && NoneLost(s) && Enabled(s, Compress)
    ensures InRange(Next(s, Compress)) && NoneLost(Next(s, Compress))
  {
    var t := Next(s, Compress);
    CompressTakesFirst(s);
    CompressKeepsSlots(s);
    assert t.states == s.states && forall b :: !InHand(s, b);
    hide SlotsHeld, FramesKept, ImagesKept, ImageSizes, RingKept, Pending;
    assert Pending(s) == [s.compressor.slot] + Pending(t);
  }

  lemma LaterLosesNone(s: State, step: Step)
    requires Inv(s) && NoneLost(s) && Enabled(s, step)
    requires step.WriteHeader? || step.WriteImage? || step.MarkWritable? || step.ReadHeader? || step.ReadImage?
    ensures InRange(Next(s, step)) && NoneLost(Next(s, step))
  {
    var t := Next(s, step);
    hide SlotsHeld, FramesKept, ImagesKept, ImageSizes, RingKept;
    assert Pending(t) == Pending(s);
    hide Pending;
  }

  lemma StepLosesNone(s: State, step: Step)
    requires Inv(s) && NoneLost(s) && Enabled(s, step)
    ensures InRange(Next(s, step)) && NoneLost(Next(s, step))
  {
    hide Inv, Next, NoneLost, Enabled, InRange;
    match step {
      case PopIndex => PopLosesNone(s);
      case Compress => CompressLosesNone(s);
      case CopyFrame(_) => ProducerLosesNone(s, step);
      case MarkReadable => ProducerLosesNone(s, step);
      case SignalNewData => ProducerLosesNone(s, step);
      case _ => LaterLosesNone(s, step);
    }
  }

  /** On every run a slot cannot be written exactly while its frame is pending or in hand; so a
      frame is dropped only when four earlier ones are. */
  lemma {:induction false} HeldIff(steps: seq<Step>, b: nat)
    requires LegalRun(steps) && b < FRAME_COUNT
    ensures var s := Run(steps);
            && InRange(s) && NoneLost(s)
            && (s.states[b] == CAN_READ <==> b in Pending(s) || InHand(s, b))
  {
    RunKeepsInv(steps);
    hide Next, Enabled, Inv, Pending, InHand, NoneLost;
    if steps == [] {
      StartLosesNone();
    } else {
      RunKeepsInv(steps[..|steps| - 1]);
      HeldIff(steps[..|steps| - 1], b);
      StepLosesNone(Run(steps[..|steps| - 1]), steps[|steps| - 1]);
    }
    HeldAre(Run(steps), b);
  }

  lemma StartLosesNone()
    ensures InRange(START) && NoneLost(START)
  {
  }

  lemma HeldAre(s: State, b: nat)
    requires Inv(s) && NoneLost(s) && b < FRAME_COUNT
    ensures s.states[b] == CAN_READ <==> b in Pending(s) || InHand(s, b)
  {
    hide FramesKept, ImagesKept, ImageSizes, RingKept, Pending;
  }

  predicate AtRest(s: State) {
    s.producer == Idle && s.compressor == Waiting && s.transmitter == Listening && s.pool == [] && s.ring == []
  }

  lemma RingHoldsImage(s: State)
    requires Inv(s) && s.transmitter == Listening && !s.compressor.HeaderWritten? && s.ring != []
    ensures |s.ring| > 4
  {
    hide FramesKept, SlotsHeld, Encode, Images, ImagesKept;
    var waiting := s.written[|s.sent|..];
    assert [] + s.ring == s.ring && Framed(waiting) + [] == Framed(waiting);
    assert waiting != [];
    FramedFirst(waiting, []);
    assert waiting[0] == s.written[|s.sent|];
  }

  /** The transmitter can move whenever the ring holds something, unless only a header has
      been written so far. */
  lemma TransmitterMoves(s: State)
    requires Inv(s) && !s.compressor.HeaderWritten?
    ensures s.transmitter.HeaderRead? ==> Enabled(s, ReadImage)
    ensures s.transmitter == Listening && s.ring != [] ==> Enabled(s, ReadHeader)
  {
    hide Inv, RingKept, SlotsHeld, FramesKept, ImagesKept, ImageSizes, InRange;
    if s.transmitter.HeaderRead? {
      ImageIsThere(s);
    } else if s.ring != [] {
      RingHoldsImage(s);
    }
  }

  /** No thread waits for ever for another: on every run, unless all are at rest, a thread can
      move, if the image in the compressor's hands fits the ring with its header. */
  lemma NeverStuck(steps: seq<Step>) returns (step: Step)
    requires LegalRun(steps) && !AtRest(Run(steps))
    requires Run(steps).compressor.Holding? ==> |Run(steps).compressor.jpeg| + 4 <= 524288
    ensures Enabled(Run(steps), step) && !step.CopyFrame?
  {
    RunKeepsInv(steps);
    var s := Run(steps);
    hide Run, LegalRun, Inv;
    if !s.compressor.HeaderWritten? {
      TransmitterMoves(s);
    }
    step := if s.producer.Copied? then MarkReadable
            else if s.producer.Marked? then SignalNewData
            else if s.compressor.Popped? then Compress
            else if s.compressor.HeaderWritten? then WriteImage
            else if s.compressor.Finishing? then MarkWritable
            else if s.compressor == Waiting && s.pool != [] then PopIndex
            else if s.transmitter.HeaderRead? then ReadImage
            else if s.ring != [] then ReadHeader
            else WriteHeader;
  }

  /** A slot is rewritten only when it can be written: it holds no frame that is pending or
      in the compressor's hands. */
  lemma RewrittenOnlyWhenWritable(steps: seq<Step>, frame: Frame)
    requires LegalRun(steps) && Enabled(Run(steps), CopyFrame(frame))
    ensures var s := Run(steps); var b := CanWriteId(s.states, 0);
            b < |s.states| ==> s.states[b] == CAN_WRITE && b !in Pending(s) && !InHand(s, b)
  {
    RunKeepsInv(steps);
  }

  /** No ring write is dropped, and the transmitter never finds a header without its image. */
  lemma RingNeverDropsNorStarves(steps: seq<Step>)
    requires LegalRun(steps)
    ensures var s := Run(steps);
            && (s.compressor.HeaderWritten? ==> RingWrite(s.ring, s.compressor.jpeg) == s.ring + s.compressor.jpeg)
            && (s.transmitter.HeaderRead? ==>
                  && Enabled(s, ReadImage) && |s.sent| < |s.written|
                  && s.ring[..s.transmitter.size] == s.written[|s.sent|])
  {
    RunKeepsInv(steps);
    if Run(steps).transmitter.HeaderRead? {
      ImageIsThere(Run(steps));
    }
  }
}
