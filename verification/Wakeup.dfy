/** No wakeup of a waiting dequeueBuffer is lost. */
module Wakeup {
  import opened BufferQueueTypes
  import opened SlotScans
  import opened BufferQueueSpec
  import opened Correspondence
  import opened QueueRuns
  import opened QueueInvariant
  import opened DequeueLimits
  import opened LateFrames
  import opened NonBlocking

  predicate Waits(c: Core, isAsync: bool)
    requires WellFormed(c)
  {
    Pass(c, isAsync) == Wait
  }

  /** Everything but the slots that a pass depends on. */
  predicate SamePolicy(c: Core, d: Core) {
    SameMode(c, d) && d.hasBeenQueued == c.hasBeenQueued && |d.queue| == |c.queue|
  }

  /** Slots in use stay as they are; below the limit a slot may only become ACQUIRED. */
  predicate NoSlotOffered(c: Core, d: Core, max: nat)
    requires WellFormed(c) && WellFormed(d)
  {
    forall b :: 0 <= b < NUM_BUFFER_SLOTS ==>
      || d.slots[b].state == c.slots[b].state
      || (&& !InUse(c.slots[b]) && !InUse(d.slots[b])
          && (b >= max || d.slots[b].state == ACQUIRED))
  }

  lemma StillWaits(c: Core, d: Core, isAsync: bool)
    requires WellFormed(c) && WellFormed(d) && Waits(c, isAsync)
    requires SamePolicy(c, d) && NoSlotOffered(c, d, MaxBufferCount(c, isAsync))
    ensures Waits(d, isAsync)
  {
    var max := MaxBufferCount(c, isAsync);
    BeyondLimit(c, isAsync);
    LimitStays(c, d, isAsync);
    MustWaitIff(c, isAsync);
    MustWaitIff(d, isAsync);
    CountSame(d.slots, c.slots, DEQUEUED, max);
    CountMonotone(c.slots, d.slots, ACQUIRED, max);
    hide WellFormed, MaxBufferCount, MustWait;
  }

  /** The operations of waiters and callers that all use one value of async. */
  predicate SharesMode(op: Op, isAsync: bool) {
    && (op.BeginDequeueOp? ==> op.isAsync == isAsync)
    && (op.AttachByProducerOp? ==> !isAsync)
  }

  predicate Connected(c: Core) {
    c.connectedApi != NO_CONNECTED_API && !c.abandoned && c.hasConsumer
  }

  /** The operation wakes the waiters, or leaves them with nothing to do. */
  predicate WakesOrWaits(c: Core, d: Core, isAsync: bool)
    requires WellFormed(d)
  {
    d.broadcasts > c.broadcasts || (d.broadcasts == c.broadcasts && Waits(d, isAsync))
  }

  lemma PassWaitsAgain(c: Core, isAsync: bool, op: Op)
    requires WellFormed(c) && Waits(c, isAsync) && SharesMode(op, isAsync)
    requires op.BeginDequeueOp? || op.AttachByProducerOp?
    ensures WakesOrWaits(c, Apply(c, op), isAsync)
  {
    if !(op.BeginDequeueOp? && BadSize(op.req)) {
      var d := Trim(c, isAsync);
      BeyondLimit(c, isAsync);
      assert NoSlotOffered(c, d, MaxBufferCount(c, isAsync));
      StillWaits(c, d, isAsync);
      hide Waits, MaxBufferCount;
    }
  }

  lemma InstallOffersNone(c: Core, isAsync: bool, op: Op)
    requires WellFormed(c) && Waits(c, isAsync) && op.InstallBuffersOp?
    ensures WakesOrWaits(c, Apply(c, op), isAsync)
  {
    if InstallFits(op) {
      var d := InstallBuffers(c, op.targets, op.buffers);
      InstallKeepsStates(c.slots, op.targets, op.buffers, |op.buffers|);
      StillWaits(c, d, isAsync);
    }
  }

  /** One slot changes, not its state unless from FREE to ACQUIRED. */
  lemma OneSlotOffersNone(c: Core, d: Core, isAsync: bool, b: nat, slot: Slot)
    requires WellFormed(c) && WellFormed(d) && Waits(c, isAsync) && SamePolicy(c, d)
    requires b < NUM_BUFFER_SLOTS && d.slots == c.slots[b := slot]
    requires slot.state == c.slots[b].state || (slot.state == ACQUIRED && c.slots[b].state == FREE)
    ensures Waits(d, isAsync)
  {
    hide Waits, MaxBufferCount, SamePolicy;
    StillWaits(c, d, isAsync);
  }

  lemma RequestingOffersNone(c: Core, isAsync: bool, slot: int)
    requires WellFormed(c) && Waits(c, isAsync)
    ensures WakesOrWaits(c, RequestBuffer(c, slot), isAsync)
  {
    hide Waits;
    var d := RequestBuffer(c, slot);
    if d != c {
      OneSlotOffersNone(c, d, isAsync, slot, d.slots[slot]);
    }
  }

  lemma FinishingOffersNone(c: Core, isAsync: bool, b: nat, buffer: Buffer)
    requires WellFormed(c) && Waits(c, isAsync) && b < NUM_BUFFER_SLOTS
    ensures WakesOrWaits(c, FinishDequeue(c, b, buffer), isAsync)
  {
    hide Waits;
    var d := FinishDequeue(c, b, buffer);
    if d != c {
      OneSlotOffersNone(c, d, isAsync, b, d.slots[b]);
    }
  }

  lemma ReturningWakes(c: Core, isAsync: bool, op: Op)
    requires WellFormed(c) && Waits(c, isAsync)
    requires op.DetachByProducerOp? || op.CancelBufferOp? || op.DetachByConsumerOp?
    ensures WakesOrWaits(c, Apply(c, op), isAsync)
  {
    hide Waits, WellFormed;
  }

  lemma DetachNextOffersNone(c: Core, isAsync: bool)
    requires WellFormed(c) && Waits(c, isAsync)
    ensures WakesOrWaits(c, DetachNext(c), isAsync)
  {
    hide Waits;
    var d := DetachNext(c);
    if d != c {
      var b := Oldest(c.slots, NUM_BUFFER_SLOTS, true);
      OneSlotOffersNone(c, d, isAsync, b, FreedSlot(c.slots[b]));
    }
  }

  lemma ReleaseShapes(c: Core, slot: int, frame: nat, fence: Option<Fence>)
    requires WellFormed(c)
    ensures var d := ReleaseBuffer(c, slot, frame, fence);
            || d == c || d.broadcasts == c.broadcasts + 1
            || (0 <= slot < NUM_BUFFER_SLOTS && d == c.(slots := c.slots[slot := CleanedSlot(c.slots[slot])]))
  {
    hide NamesSlot;
  }

  lemma ReleasingWakes(c: Core, isAsync: bool, slot: int, frame: nat, fence: Option<Fence>)
    requires WellFormed(c) && Waits(c, isAsync)
    ensures WakesOrWaits(c, ReleaseBuffer(c, slot, frame, fence), isAsync)
  {
    ReleaseShapes(c, slot, frame, fence);
    hide Waits, ReleaseBuffer, ReleaseStatus;
    var d := ReleaseBuffer(c, slot, frame, fence);
    if d != c && d.broadcasts == c.broadcasts {
      OneSlotOffersNone(c, d, isAsync, slot, CleanedSlot(c.slots[slot]));
    }
  }

  lemma AttachingOffersNone(c: Core, isAsync: bool, buffer: Buffer)
    requires WellFormed(c) && Waits(c, isAsync)
    ensures WakesOrWaits(c, AttachByConsumer(c, buffer), isAsync)
  {
    hide Waits, AtAcquireLimit;
    var d := AttachByConsumer(c, buffer);
    if d != c {
      var b := Oldest(c.slots, NUM_BUFFER_SLOTS, false);
      OneSlotOffersNone(c, d, isAsync, b, d.slots[b]);
    }
  }

  lemma QueueingWakes(c: Core, isAsync: bool, slot: int, input: QueueInput)
    requires WellFormed(c) && Waits(c, isAsync)
    ensures WakesOrWaits(c, QueueBuffer(c, slot, input), isAsync)
  {
    hide Waits, QueueStatus;
  }

  lemma {:induction false} DropLateKeepsBroadcasts(c: Core, expected: int)
    requires WellFormed(c)
    ensures DropLate(c, expected).broadcasts == c.broadcasts
    decreases |c.queue|
  {
    if DropsFront(c.queue, expected) {
      DropLateKeepsBroadcasts(DropFront(c), expected);
    }
  }

  /** A deferred acquire does not broadcast, but neither has it dropped anything. */
  lemma AcquiringWakes(c: Core, isAsync: bool, expected: int)
    requires WellFormed(c) && Waits(c, isAsync)
    ensures WakesOrWaits(c, AcquireBuffer(c, expected), isAsync)
  {
    hide Waits, WellFormed, Deferred;
    DropLateKeepsBroadcasts(c, expected);
    if AcquireStatus(c, expected) == PRESENT_LATER {
      PresentLaterChangesNothing(c, expected);
    }
  }

  lemma DisconnectingWakes(c: Core, isAsync: bool, op: Op)
    requires WellFormed(c) && Waits(c, isAsync) && Connected(c)
    requires op.SetBufferCountOp? || op.DisconnectProducerOp? || op.DisconnectConsumerOp?
    ensures WakesOrWaits(c, Apply(c, op), isAsync)
  {
    hide Waits, SetBufferCountStatus, WellFormed;
  }

  lemma SettingsWake(c: Core, isAsync: bool, op: Op)
    requires WellFormed(c) && Waits(c, isAsync) && Connected(c) && TouchesNoSlot(op)
    ensures WakesOrWaits(c, Apply(c, op), isAsync)
  {
    SettingsKeepPolicy(c, op);
    hide Waits, Apply, TouchesNoSlot;
    if Apply(c, op).broadcasts == c.broadcasts {
      StillWaits(c, Apply(c, op), isAsync);
    }
  }

  predicate KeepsPolicy(c: Core, d: Core) {
    d.slots == c.slots && d.broadcasts >= c.broadcasts && (d.broadcasts == c.broadcasts ==> SamePolicy(c, d))
  }

  /** Settings that a connected queue accepts without a broadcast change no policy. */
  lemma SettingsKeepPolicy(c: Core, op: Op)
    requires WellFormed(c) && Connected(c) && TouchesNoSlot(op)
    ensures KeepsPolicy(c, Apply(c, op))
  {
    if op.SetDefaultMaxOp? || op.SetMaxAcquiredOp? || op.DisableAsyncBufferOp? {
      LimitSettingsKeepPolicy(c, op);
    } else {
      hide WellFormed, SetDefaultMax, SetMaxAcquired, DisableAsyncBuffer;
    }
  }

  lemma LimitSettingsKeepPolicy(c: Core, op: Op)
    requires WellFormed(c) && Connected(c)
    requires op.SetDefaultMaxOp? || op.SetMaxAcquiredOp? || op.DisableAsyncBufferOp?
    ensures KeepsPolicy(c, Apply(c, op))
  {
    hide WellFormed, SetDefaults, ConnectConsumer, ConnectProducer;
  }

  /** While a producer is connected, any operation that could end a wait of callers in one
      mode broadcasts the dequeue condition. */
  lemma StepWakes(c: Core, isAsync: bool, op: Op)
    requires WellFormed(c) && Waits(c, isAsync) && Connected(c) && SharesMode(op, isAsync)
    ensures WakesOrWaits(c, Apply(c, op), isAsync)
  {
    hide WakesOrWaits, Waits, WellFormed, Connected;
    match op {
      case BeginDequeueOp(_, _) => PassWaitsAgain(c, isAsync, op);
      case AttachByProducerOp(_) => PassWaitsAgain(c, isAsync, op);
      case InstallBuffersOp(_, _) => InstallOffersNone(c, isAsync, op);
      case RequestBufferOp(slot) => RequestingOffersNone(c, isAsync, slot);
      case FinishDequeueOp(b, buffer) =>
        if b < NUM_BUFFER_SLOTS { FinishingOffersNone(c, isAsync, b, buffer); } else { Unchanged(c, isAsync); }
      case DetachByProducerOp(_) => ReturningWakes(c, isAsync, op);
      case CancelBufferOp(_, _) => ReturningWakes(c, isAsync, op);
      case DetachByConsumerOp(_) => ReturningWakes(c, isAsync, op);
      case DetachNextOp => DetachNextOffersNone(c, isAsync);
      case ReleaseBufferOp(slot, frame, fence) => ReleasingWakes(c, isAsync, slot, frame, fence);
      case AttachByConsumerOp(buffer) => AttachingOffersNone(c, isAsync, buffer);
      case QueueBufferOp(slot, input) => QueueingWakes(c, isAsync, slot, input);
      case AcquireBufferOp(expected) => AcquiringWakes(c, isAsync, expected);
      case SetBufferCountOp(_) => DisconnectingWakes(c, isAsync, op);
      case DisconnectProducerOp(_) => DisconnectingWakes(c, isAsync, op);
      case DisconnectConsumerOp => DisconnectingWakes(c, isAsync, op);
      case _ => SettingsWake(c, isAsync, op);
    }
  }

  lemma Unchanged(c: Core, isAsync: bool)
    requires WellFormed(c) && Waits(c, isAsync)
    ensures WakesOrWaits(c, c, isAsync)
  {
  }

  // ---------- mixed modes ----------

  /** A call that makes a pass in the given mode. */
  predicate PassesIn(op: Op, isAsync: bool) {
    || (op.BeginDequeueOp? && op.isAsync == isAsync && !BadSize(op.req))
    || (op.AttachByProducerOp? && !isAsync)
  }

  /** A buffer is held by the consumer beyond the limit of one mode, within that of the other. */
  predicate HeldBetween(c: Core)
    requires WellFormed(c)
  {
    exists b :: && MaxBufferCount(c, false) <= b < MaxBufferCount(c, true)
                && c.slots[b].state == ACQUIRED && c.slots[b].buffer.Some?
  }

  /** The guard under which a call ends the wait of callers in the given mode silently. For
      asynchronous waiters, a synchronous pass frees a buffer that is held between the limits;
      for synchronous ones, an asynchronous dequeue takes a slot that they may not have. */
  predicate EndsSilently(c: Core, op: Op, isAsync: bool)
    requires WellFormed(c)
  {
    && PassesIn(op, !isAsync)
    && (if isAsync then |c.queue| <= MaxBufferCount(c, true) && HeldBetween(c) else Pass(c, true).Found?)
  }

  lemma LimitsOrdered(c: Core)
    requires WellFormed(c)
    ensures MaxBufferCount(c, false) <= MaxBufferCount(c, true)
    ensures c.overrideMax != 0 || c.cannotBlock ==> MaxBufferCount(c, false) == MaxBufferCount(c, true)
  {
    var s, a := MaxBufferCount(c, false), MaxBufferCount(c, true);
    MaxBufferCountIsLeast(c, false, s);
    MaxBufferCountIsLeast(c, true, a);
    assert BaseBufferCount(c, false) <= BaseBufferCount(c, true);
    hide MaxBufferCount, ClearFrom;
    assert a < s ==> !ClearFrom(c.slots, a);
  }

  /** Where an asynchronous caller has to wait, so has a synchronous one. */
  lemma SyncWaitsToo(c: Core)
    requires WellFormed(c) && Waits(c, true)
    ensures Waits(c, false)
  {
    LimitsOrdered(c);
    MustWaitIff(c, true);
    MustWaitIff(c, false);
    CountPrefix(c.slots, DEQUEUED, MaxBufferCount(c, false), MaxBufferCount(c, true));
    hide MaxBufferCount, MustWait, Count;
  }

  /** After a synchronous pass an asynchronous caller waits if it still must. */
  lemma TrimmedPass(c: Core)
    requires WellFormed(c) && Waits(c, true)
    ensures var d := Trim(c, false);
            && MaxBufferCount(d, true) == MaxBufferCount(c, true)
            && (Waits(d, true) <==> MustWait(d, true))
  {
    var d := Trim(c, false);
    LimitsOrdered(c);
    BeyondLimit(c, false);
    BeyondLimit(c, true);
    LimitStays(c, d, true);
    CountSame(d.slots, c.slots, DEQUEUED, MaxBufferCount(c, true));
    if c.cannotBlock {
      CountSame(d.slots, c.slots, ACQUIRED, MaxBufferCount(c, true));
    }
    hide MaxBufferCount, MustWait, Count;
  }

  lemma SyncPassTrims(c: Core, op: Op)
    requires WellFormed(c) && Waits(c, false) && PassesIn(op, false)
    ensures Apply(c, op) == Trim(c, false) && Trims(c, false)
  {
    hide MaxBufferCount, TooManyDequeued, MustWait, Trim;
  }

  lemma AsyncWaiterIff(c: Core, op: Op)
    requires WellFormed(c) && Waits(c, true) && PassesIn(op, false)
    ensures Apply(c, op).broadcasts == c.broadcasts
    ensures !Waits(Apply(c, op), true) <==> EndsSilently(c, op, true)
  {
    SyncWaitsToo(c);
    SyncPassTrims(c, op);
    TrimmedPass(c);
    var d := Trim(c, false);
    BeyondLimit(c, false);
    BeyondLimit(c, true);
    MustWaitIff(c, true);
    MustWaitIff(d, true);
    hide MaxBufferCount, MustWait, Pass, Waits, Apply, ConflictsWithOverride;
    if |c.queue| <= MaxBufferCount(c, true) {
      forall b | 0 <= b < MaxBufferCount(c, true)
        ensures d.slots[b].state == FREE <==>
                b >= MaxBufferCount(c, false) && c.slots[b].state == ACQUIRED && c.slots[b].buffer.Some?
      {
      }
    }
  }

  lemma SyncWaiterIff(c: Core, op: Op)
    requires WellFormed(c) && Waits(c, false) && PassesIn(op, true)
    ensures Apply(c, op).broadcasts == c.broadcasts
    ensures !Waits(Apply(c, op), false) <==> EndsSilently(c, op, false)
  {
    if Pass(c, true).Found? {
      TakenSlotEndsWait(c, op);
    } else {
      FruitlessPassKeepsWait(c, op);
    }
    hide MaxBufferCount, Pass, Waits, Trim;
  }

  lemma FruitlessPassKeepsWait(c: Core, op: Op)
    requires WellFormed(c) && Waits(c, false) && PassesIn(op, true) && !Pass(c, true).Found?
    ensures Waits(Apply(c, op), false)
  {
    hide MaxBufferCount, Waits, Pass, Trim;
    TrimOffersNone(c);
    assert Apply(c, op) == Trim(c, true);
    StillWaits(c, Trim(c, true), false);
  }

  /** An asynchronous pass trims nothing that synchronous callers see. */
  lemma TrimOffersNone(c: Core)
    requires WellFormed(c)
    ensures SamePolicy(c, Trim(c, true)) && NoSlotOffered(c, Trim(c, true), MaxBufferCount(c, false))
  {
    LimitsOrdered(c);
    BeyondLimit(c, true);
    hide MaxBufferCount;
  }

  /** With a slot dequeued, a synchronous pass fails instead of waiting. */
  lemma TakenSlotEndsWait(c: Core, op: Op)
    requires WellFormed(c) && Waits(c, false) && PassesIn(op, true) && Pass(c, true).Found?
    ensures !Waits(Apply(c, op), false)
  {
    var d := Apply(c, op);
    var b := Pass(c, true).slot;
    LimitsOrdered(c);
    MustWaitIff(c, false);
    MustWaitIff(c, true);
    FoundLeavesRoom(c, true);
    BeyondLimit(d, false);
    CountZero(d.slots, DEQUEUED, MaxBufferCount(d, false));
    hide MaxBufferCount, MustWait, Count, Trim, DequeuedSlot;
    assert c.overrideMax == 0;
    assert d.slots[b].state == DEQUEUED by {
      assert DequeuedSlot(Trim(c, true).slots[b], Resolve(c, op.req)).state == DEQUEUED;
    }
  }

  /** For every call and both modes of waiters: while a producer is connected, the call ends
      their wait without waking them if and only if the guard holds. */
  lemma SilentEndIff(c: Core, op: Op, isAsync: bool)
    requires WellFormed(c) && Waits(c, isAsync) && Connected(c)
    ensures Apply(c, op).broadcasts == c.broadcasts && !Waits(Apply(c, op), isAsync) <==> EndsSilently(c, op, isAsync)
  {
    hide Waits, Connected, Pass, WellFormed, MaxBufferCount, HeldBetween;
    if PassesIn(op, !isAsync) {
      if isAsync {
        AsyncWaiterIff(c, op);
      } else {
        SyncWaiterIff(c, op);
      }
    } else if SharesMode(op, isAsync) {
      StepWakes(c, isAsync, op);
      hide Apply;
    } else {
      assert Apply(c, op) == c;
    }
  }

  // ---------- runs with sleeping callers ----------

  /** The queue with the callers in one mode that are asleep on the dequeue condition. */
  datatype Waiting = Waiting(sys: Sys, sleepers: set<nat>)

  /** A caller in the given mode falls asleep. */
  predicate FallsAsleep(c: Core, op: Op, isAsync: bool)
    requires WellFormed(c)
  {
    PassesIn(op, isAsync) && Pass(c, isAsync) == Wait
  }

  /** A caller runs one locked section; a broadcast wakes every sleeper, and a caller whose
      pass ends in a wait goes to sleep. */
  function NextWaiting(w: Waiting, caller: nat, op: Op, isAsync: bool): (v: Waiting)
    requires WellFormed(w.sys.core)
    ensures WellFormed(v.sys.core)
  {
    var t := Next(w.sys, op);
    var awake := if t.core.broadcasts > w.sys.core.broadcasts then {} else w.sleepers;
    Waiting(t, if FallsAsleep(w.sys.core, op, isAsync) then awake + {caller} else awake)
  }

  /** Callers in the given mode belong to a connected producer, and while any of them sleeps
      no call meets the guard under which it would end their wait silently. */
  predicate Disciplined(w: Waiting, op: Op, isAsync: bool)
    requires WellFormed(w.sys.core)
  {
    && (PassesIn(op, isAsync) ==> w.sys.core.connectedApi != NO_CONNECTED_API)
    && (w.sleepers != {} ==> !EndsSilently(w.sys.core, op, isAsync))
  }

  function RunWaiting(w: Waiting, calls: seq<(nat, Op)>, isAsync: bool): (v: Waiting)
    requires WellFormed(w.sys.core)
    ensures WellFormed(v.sys.core)
  {
    if calls == [] then w
    else NextWaiting(RunWaiting(w, calls[..|calls| - 1], isAsync), calls[|calls| - 1].0, calls[|calls| - 1].1, isAsync)
  }

  predicate DisciplinedRun(w: Waiting, calls: seq<(nat, Op)>, isAsync: bool)
    requires WellFormed(w.sys.core)
  {
    calls == [] ||
    (var v := RunWaiting(w, calls[..|calls| - 1], isAsync);
     && DisciplinedRun(w, calls[..|calls| - 1], isAsync)
     && Legal(v.sys, calls[|calls| - 1].1) && Disciplined(v, calls[|calls| - 1].1, isAsync))
  }

  /** Whoever sleeps still has to. */
  predicate SleepersWait(w: Waiting, isAsync: bool) {
    && Inv(w.sys)
    && (w.sleepers != {} ==> Connected(w.sys.core) && Waits(w.sys.core, isAsync))
  }

  /** A connection ends only with a broadcast. */
  lemma ConnectionEndsAloud(c: Core, op: Op)
    requires WellFormed(c) && Connected(c) && Apply(c, op).broadcasts == c.broadcasts
    ensures Connected(Apply(c, op))
  {
    if op.ConnectProducerOp? || op.DisconnectProducerOp? || op.ConnectConsumerOp? || op.DisconnectConsumerOp?
       || op.SetBufferCountOp? || op.SetDefaultMaxOp? || op.SetMaxAcquiredOp? || op.DisableAsyncBufferOp? {
      hide SetBufferCountStatus, WellFormed;
    } else {
      OthersKeepMode(c, op);
      hide Apply, WellFormed;
    }
  }

  lemma PassConnected(w: Waiting, op: Op, isAsync: bool)
    requires Inv(w.sys) && FallsAsleep(w.sys.core, op, isAsync) && Disciplined(w, op, isAsync)
    ensures Connected(w.sys.core) && Waits(w.sys.core, isAsync) && !EndsSilently(w.sys.core, op, isAsync)
  {
    hide Corresponds;
  }

  lemma PassIsSilent(c: Core, op: Op, isAsync: bool)
    requires WellFormed(c)
    ensures PassesIn(op, isAsync) ==> Apply(c, op).broadcasts == c.broadcasts
  {
    hide Pass, Trim, BeginDequeue, AttachByProducer, WellFormed;
  }

  lemma BroadcastsGrow(c: Core, op: Op, isAsync: bool)
    requires WellFormed(c) && Waits(c, isAsync) && Connected(c)
    ensures Apply(c, op).broadcasts >= c.broadcasts
  {
    hide Waits, WellFormed, Pass, Apply;
    if PassesIn(op, !isAsync) {
      PassIsSilent(c, op, !isAsync);
    } else if SharesMode(op, isAsync) {
      StepWakes(c, isAsync, op);
    } else {
      assert Apply(c, op) == c by {
        OtherBadSize(c, op, isAsync);
      }
    }
  }

  /** A dequeue of bad size in the other mode changes nothing. */
  lemma OtherBadSize(c: Core, op: Op, isAsync: bool)
    requires WellFormed(c) && !PassesIn(op, !isAsync) && !SharesMode(op, isAsync)
    ensures Apply(c, op) == c
  {
  }

  lemma StepKeepsSleepers(w: Waiting, caller: nat, op: Op, isAsync: bool)
    requires SleepersWait(w, isAsync) && Legal(w.sys, op) && Disciplined(w, op, isAsync)
    ensures SleepersWait(NextWaiting(w, caller, op, isAsync), isAsync)
  {
    assert WellFormed(w.sys.core);
    hide Inv, Apply, FallsAsleep, Waits, Connected, EndsSilently, WellFormed;
    StepKeepsInv(w.sys, op);
    var v := NextWaiting(w, caller, op, isAsync);
    if FallsAsleep(w.sys.core, op, isAsync) {
      PassConnected(w, op, isAsync);
      SleeperPassed(w.sys.core, op, isAsync);
    }
    if v.sleepers != {} {
      BroadcastsGrow(w.sys.core, op, isAsync);
      SilentEndIff(w.sys.core, op, isAsync);
      ConnectionEndsAloud(w.sys.core, op);
    }
  }

  lemma SleeperPassed(c: Core, op: Op, isAsync: bool)
    requires WellFormed(c) && FallsAsleep(c, op, isAsync)
    ensures Apply(c, op).broadcasts == c.broadcasts
  {
    PassIsSilent(c, op, isAsync);
    hide Apply, Pass;
  }

  /** On every run, in whatever modes, in which no call meets the guard while callers in the
      given mode sleep, none of them sleeps while a pass would not wait: no wakeup is lost. */
  lemma {:induction false} NoLostWakeup(calls: seq<(nat, Op)>, isAsync: bool)
    requires DisciplinedRun(Waiting(START, {}), calls, isAsync)
    ensures SleepersWait(RunWaiting(Waiting(START, {}), calls, isAsync), isAsync)
  {
    if calls == [] {
      StartInv();
    } else {
      NoLostWakeup(calls[..|calls| - 1], isAsync);
      hide SleepersWait, NextWaiting, Legal, Disciplined;
      var last := calls[|calls| - 1];
      StepKeepsSleepers(RunWaiting(Waiting(START, {}), calls[..|calls| - 1], isAsync), last.0, last.1, isAsync);
    }
  }

  /** Calls that share one mode never meet the guard. */
  lemma OneModeIsNeverSilent(c: Core, op: Op, isAsync: bool)
    requires WellFormed(c) && SharesMode(op, isAsync)
    ensures !EndsSilently(c, op, isAsync)
  {
  }
}
