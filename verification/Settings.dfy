/** The settings of a queue and its connections, as a machine of their own: what is done with
    buffers bears on it through two facts only. */
module Settings {
  import opened BufferQueueTypes
  import opened SlotScans
  import opened BufferQueueSpec
  import opened QueueRuns
  import opened NonBlocking

  /** `count` is the producer's buffer count, zero if none is set; `queued` tells whether a
      frame has been queued since the last connection or freeing of all buffers. */
  datatype Settings = Settings(
    abandoned: bool,
    consumer: bool,
    consumerByApp: bool,
    api: int,
    listens: bool,
    count: int,
    extraBuffer: bool,
    cannotBlock: bool,
    defaultCount: int,
    mayHold: int,
    queued: bool,
    width: nat,
    height: nat,
    format: nat,
    usage: Usage)

  function SettingsOf(c: Core): Settings {
    Settings(c.abandoned, c.hasConsumer, c.consumerByApp, c.connectedApi, c.hasProducerListener, c.overrideMax,
             c.useAsyncBuffer, c.cannotBlock, c.defaultMax, c.maxAcquired, c.hasBeenQueued,
             c.defaultWidth, c.defaultHeight, c.defaultFormat, c.consumerUsage)
  }

  const NEW_SETTINGS := Settings(false, false, false, 0, false, 0, true, false, 2, 1, false, 1, 1, 1, {})

  /** The least buffer count that the producer may set. */
  function LeastCount(s: Settings): int {
    if s.extraBuffer && s.cannotBlock then s.mayHold + 2 else s.mayHold + 1
  }

  /** What a call makes of the settings, if `out` tells whether a buffer is dequeued and
      `accepted` whether the call queues a frame. */
  function Follow(s: Settings, op: Op, out: bool, accepted: bool): Settings {
    match op
    case SetBufferCountOp(n) =>
      if s.abandoned || out || !(n == 0 || LeastCount(s) <= n <= 64) then s
      else s.(count := n, queued := s.queued && n == 0)
    case QueueBufferOp(_, _) => s.(queued := s.queued || accepted)
    case ConnectProducerOp(api, byApp, listens) =>
      if s.abandoned || !s.consumer || s.api != 0 then s
      else if 1 <= api <= 4 then
        s.(queued := false, cannotBlock := s.consumerByApp && byApp, api := api, listens := listens)
      else s.(queued := false, cannotBlock := s.consumerByApp && byApp)
    case DisconnectProducerOp(api) =>
      if s.abandoned || s.api != api || !(1 <= api <= 4) then s else s.(api := 0, listens := false, queued := false)
    case ConnectConsumerOp(byApp) => if s.abandoned then s else s.(consumer := true, consumerByApp := byApp)
    case DisconnectConsumerOp => if s.consumer then s.(abandoned := true, consumer := false, queued := false) else s
    case SetDefaultMaxOp(n) => if (if s.extraBuffer then 2 else 1) <= n <= 64 then s.(defaultCount := n) else s
    case SetMaxAcquiredOp(n) => if 1 <= n <= 62 && s.api == 0 then s.(mayHold := n) else s
    case DisableAsyncBufferOp => if s.consumer then s else s.(extraBuffer := false)
    case SetDefaultsOp(width, height, format, usage) =>
      if width > 0 && height > 0 then s.(width := width, height := height, format := format, usage := usage)
      else s.(format := format, usage := usage)
    case _ => s
  }

  predicate SomeOut(slots: seq<Slot>) {
    exists b :: 0 <= b < |slots| && slots[b].state == DEQUEUED
  }

  predicate Accepts(c: Core, op: Op)
    requires WellFormed(c)
  {
    op.QueueBufferOp? && QueueStatus(c, op.slot, op.input) == NO_ERROR
  }

  predicate Follows(c: Core, op: Op)
    requires WellFormed(c)
  {
    SettingsOf(Apply(c, op)) == Follow(SettingsOf(c), op, SomeOut(c.slots), Accepts(c, op))
  }

  lemma CountFollows(c: Core, n: int)
    requires WellFormed(c)
    ensures Follows(c, SetBufferCountOp(n))
  {
    CountAccepts(c, n);
    hide WellFormed, SetBufferCountStatus, SomeOut, AllFreed;
  }

  lemma CountAccepts(c: Core, n: int)
    requires WellFormed(c)
    ensures SetBufferCountStatus(c, n) == NO_ERROR
            <==> !c.abandoned && !SomeOut(c.slots) && (n == 0 || LeastCount(SettingsOf(c)) <= n <= 64)
  {
    CountZero(c.slots, DEQUEUED, NUM_BUFFER_SLOTS);
    hide Count;
  }

  /** What setBufferCount and connect answer. */
  lemma SettingAnswers(c: Core, n: int, api: int)
    requires WellFormed(c)
    ensures var answer := SetBufferCountStatus(c, n);
            && (answer == NO_INIT <==> c.abandoned)
            && (answer == NO_ERROR
                <==> !c.abandoned && !SomeOut(c.slots) && (n == 0 || LeastCount(SettingsOf(c)) <= n <= 64))
            && answer in {NO_ERROR, NO_INIT, BAD_VALUE}
    ensures var answer := ConnectProducerStatus(c, api);
            && (answer == NO_INIT <==> c.abandoned || !c.hasConsumer)
            && (answer == NO_ERROR <==> !c.abandoned && c.hasConsumer && c.connectedApi == 0 && 1 <= api <= 4)
            && answer in {NO_ERROR, NO_INIT, BAD_VALUE}
  {
    CountAccepts(c, n);
    hide Count, SomeOut, LeastCount, SettingsOf, WellFormed;
  }

  lemma ConnectFollows(c: Core, api: int, byApp: bool, listens: bool)
    requires WellFormed(c)
    ensures Follows(c, ConnectProducerOp(api, byApp, listens))
  {
    ConnectingSets(c, api, byApp, listens);
    hide WellFormed, SomeOut, ConnectProducer;
  }

  lemma ConnectingSets(c: Core, api: int, byApp: bool, listens: bool)
    requires WellFormed(c)
    ensures var s := SettingsOf(c); var t := SettingsOf(ConnectProducer(c, api, byApp, listens));
            if s.abandoned || !s.consumer || s.api != 0 then t == s
            else t == s.(queued := false, cannotBlock := s.consumerByApp && byApp,
                         api := if 1 <= api <= 4 then api else s.api,
                         listens := if 1 <= api <= 4 then listens else s.listens)
  {
    hide WellFormed;
  }

  lemma DisconnectFollows(c: Core, op: Op)
    requires WellFormed(c) && (op.DisconnectProducerOp? || op.DisconnectConsumerOp?)
    ensures Follows(c, op)
  {
    hide WellFormed, SomeOut, AllFreed;
  }

  lemma ConsumerFollows(c: Core, op: Op)
    requires WellFormed(c) && (op.ConnectConsumerOp? || op.DisableAsyncBufferOp?)
    ensures Follows(c, op)
  {
    hide WellFormed, SomeOut;
  }

  lemma LimitFollows(c: Core, op: Op)
    requires WellFormed(c) && (op.SetDefaultMaxOp? || op.SetMaxAcquiredOp?)
    ensures Follows(c, op)
  {
    hide WellFormed, SomeOut;
  }

  lemma DefaultsFollow(c: Core, op: Op)
    requires WellFormed(c) && op.SetDefaultsOp?
    ensures Follows(c, op)
  {
    hide WellFormed, SomeOut;
  }

  predicate SameSettings(c: Core, d: Core) {
    SettingsOf(d) == SettingsOf(c)
  }

  lemma {:induction false} DropLateKeepsSettings(c: Core, expected: int)
    requires WellFormed(c)
    ensures SameSettings(c, DropLate(c, expected))
    decreases |c.queue|
  {
    hide DroppedSlots;
    if DropsFront(c.queue, expected) {
      DropLateKeepsSettings(DropFront(c), expected);
    }
  }

  lemma AcquireFollows(c: Core, expected: int)
    requires WellFormed(c)
    ensures SameSettings(c, AcquireBuffer(c, expected))
  {
    DropLateKeepsSettings(c, expected);
    hide DropLate, TakenSlots, WellFormed, AtAcquireLimit;
  }

  lemma QueueingFollows(c: Core, slot: int, input: QueueInput)
    requires WellFormed(c)
    ensures Follows(c, QueueBufferOp(slot, input))
  {
    if QueueStatus(c, slot, input) == NO_ERROR {
      QueueingSets(c, slot, input);
    }
    hide QueueStatus, SettingsOf, SomeOut, WellFormed, Enqueue;
  }

  lemma QueueingSets(c: Core, slot: int, input: QueueInput)
    requires WellFormed(c) && QueueStatus(c, slot, input) == NO_ERROR
    ensures SettingsOf(QueueBuffer(c, slot, input)) == SettingsOf(c).(queued := true)
  {
    hide MaxBufferCount, ConflictsWithOverride, MarkQueued, OverwrittenSlots, QueuedItem;
  }

  lemma TrimStays(c: Core, isAsync: bool)
    requires WellFormed(c)
    ensures SameSettings(c, Trim(c, isAsync))
  {
    hide WellFormed, Trims, TrimmedSlots, MaxBufferCount;
  }

  lemma DequeueStays(c: Core, isAsync: bool, req: Request)
    requires WellFormed(c)
    ensures SameSettings(c, BeginDequeue(c, isAsync, req))
  {
    TrimStays(c, isAsync);
    hide WellFormed, Pass, Trim, DequeuedSlot, Resolve;
  }

  lemma AttachStays(c: Core, buffer: Buffer)
    requires WellFormed(c)
    ensures SameSettings(c, AttachByProducer(c, buffer))
  {
    TrimStays(c, false);
    hide WellFormed, Pass, Trim;
  }

  lemma OwnedStays(c: Core, op: Op)
    requires WellFormed(c) && (op.RequestBufferOp? || op.FinishDequeueOp? || op.CancelBufferOp?)
    ensures SameSettings(c, Apply(c, op))
  {
    hide WellFormed, OwnedByProducer;
  }

  lemma DetachStays(c: Core, op: Op)
    requires WellFormed(c) && (op.DetachByProducerOp? || op.DetachNextOp? || op.DetachByConsumerOp?)
    ensures SameSettings(c, Apply(c, op))
  {
    hide WellFormed, Oldest, FreedSlot, OwnedByProducer;
  }

  lemma ConsumerAttachStays(c: Core, buffer: Buffer)
    requires WellFormed(c)
    ensures SameSettings(c, AttachByConsumer(c, buffer))
  {
    hide WellFormed, Oldest, AtAcquireLimit;
  }

  lemma ReleaseStays(c: Core, slot: int, frame: nat, fence: Option<Fence>)
    requires WellFormed(c)
    ensures SameSettings(c, ReleaseBuffer(c, slot, frame, fence))
  {
    hide WellFormed, NamesSlot, ReleasedSlot, CleanedSlot;
  }

  lemma AllocationStays(c: Core, op: Op)
    requires WellFormed(c) && (op.AllocationFailedOp? || op.SetAllocatingOp? || op.InstallBuffersOp?)
    ensures SameSettings(c, Apply(c, op))
  {
    hide WellFormed, InstallFits, Installed;
  }

  predicate SetsSettings(op: Op) {
    ChangesMode(op) || op.SetDefaultsOp? || op.QueueBufferOp?
  }

  lemma SettingsStay(c: Core, op: Op)
    requires WellFormed(c) && !SetsSettings(op)
    ensures SameSettings(c, Apply(c, op))
  {
    hide WellFormed, SameSettings, InstallFits;
    match op {
      case AcquireBufferOp(expected) => AcquireFollows(c, expected);
      case BeginDequeueOp(isAsync, req) => DequeueStays(c, isAsync, req);
      case AttachByProducerOp(buffer) => AttachStays(c, buffer);
      case RequestBufferOp(_) => OwnedStays(c, op);
      case FinishDequeueOp(_, _) => OwnedStays(c, op);
      case CancelBufferOp(_, _) => OwnedStays(c, op);
      case DetachByProducerOp(_) => DetachStays(c, op);
      case DetachNextOp => DetachStays(c, op);
      case DetachByConsumerOp(_) => DetachStays(c, op);
      case AttachByConsumerOp(buffer) => ConsumerAttachStays(c, buffer);
      case ReleaseBufferOp(slot, frame, fence) => ReleaseStays(c, slot, frame, fence);
      case _ => AllocationStays(c, op);
    }
  }

  lemma StayingFollows(c: Core, op: Op)
    requires WellFormed(c) && !SetsSettings(op) && SameSettings(c, Apply(c, op))
    ensures Follows(c, op)
  {
    hide Apply, WellFormed, SomeOut, SettingsOf;
  }

  /** Every call does to the settings what the machine says. */
  lemma SettingsFollow(c: Core, op: Op)
    requires WellFormed(c)
    ensures Follows(c, op)
  {
    hide Follows, WellFormed, Apply, SameSettings;
    match op {
      case SetBufferCountOp(n) => CountFollows(c, n);
      case QueueBufferOp(slot, input) => QueueingFollows(c, slot, input);
      case ConnectProducerOp(api, byApp, listens) => ConnectFollows(c, api, byApp, listens);
      case DisconnectProducerOp(_) => DisconnectFollows(c, op);
      case DisconnectConsumerOp => DisconnectFollows(c, op);
      case ConnectConsumerOp(_) => ConsumerFollows(c, op);
      case DisableAsyncBufferOp => ConsumerFollows(c, op);
      case SetDefaultMaxOp(_) => LimitFollows(c, op);
      case SetMaxAcquiredOp(_) => LimitFollows(c, op);
      case SetDefaultsOp(_, _, _, _) => DefaultsFollow(c, op);
      case _ => SettingsStay(c, op); StayingFollows(c, op);
    }
  }

  /** A producer that listens is connected, and one that is connected has a consumer, unless
      that has abandoned the queue. */
  predicate Sound(s: Settings) {
    && (s.listens ==> s.api != 0) && (s.api != 0 ==> 1 <= s.api <= 4 && (s.consumer || s.abandoned))
    && (s.abandoned ==> !s.consumer)
  }

  lemma FollowKeepsSound(s: Settings, op: Op, out: bool, accepted: bool)
    requires Sound(s)
    ensures var t := Follow(s, op, out, accepted); Sound(t) && (s.abandoned ==> t.abandoned)
  {
    hide LeastCount;
  }

  /** On an abandoned queue no call of the producer has any effect, but for allocateBuffers,
      which does not look at that, and a waiting pass fails. */
  lemma AbandonedRefuses(c: Core, op: Op, isAsync: bool)
    requires WellFormed(c) && c.abandoned
    requires || op.RequestBufferOp? || op.SetBufferCountOp? || op.BeginDequeueOp? || op.FinishDequeueOp?
             || op.DetachByProducerOp? || op.DetachNextOp? || op.AttachByProducerOp? || op.QueueBufferOp?
             || op.CancelBufferOp? || op.ConnectProducerOp? || op.DisconnectProducerOp?
    ensures Apply(c, op) == c && Pass(c, isAsync) == Fail(NO_INIT)
  {
    hide WellFormed, Oldest, MaxBufferCount, FreeAll, Count;
  }

  // ---------- runs ----------

  /** The settings that the machine comes to along a run. */
  function FollowRun(ops: seq<Op>): Settings {
    if ops == [] then NEW_SETTINGS
    else
      var before, op := ops[..|ops| - 1], ops[|ops| - 1];
      var c := Run(START, before).core;
      Follow(FollowRun(before), op, SomeOut(c.slots), Accepts(c, op))
  }

  /** On every run the settings are sound, and an abandoned queue stays so. */
  lemma {:induction false} RunIsSound(ops: seq<Op>)
    ensures Sound(FollowRun(ops))
    ensures ops != [] && FollowRun(ops[..|ops| - 1]).abandoned ==> FollowRun(ops).abandoned
  {
    hide Run, Accepts, SomeOut, Sound, Follow;
    if ops == [] {
      NewIsSound();
    } else {
      var before, op := ops[..|ops| - 1], ops[|ops| - 1];
      var c := Run(START, before).core;
      RunIsSound(before);
      FollowKeepsSound(FollowRun(before), op, SomeOut(c.slots), Accepts(c, op));
    }
  }

  lemma NewIsSound()
    ensures Sound(NEW_SETTINGS)
  {
  }

  /** On every run the queue's settings are those of the machine. */
  lemma {:induction false} RunFollows(ops: seq<Op>)
    ensures SettingsOf(Run(START, ops).core) == FollowRun(ops)
  {
    hide Apply, Follow, Accepts, SomeOut;
    if ops != [] {
      RunFollows(ops[..|ops| - 1]);
      SettingsFollow(Run(START, ops[..|ops| - 1]).core, ops[|ops| - 1]);
    }
  }
}
