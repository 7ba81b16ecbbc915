/** The buffer count that the producer sets, and the assertion that it suffices. */
module BufferCounts {
  import opened BufferQueueTypes
  import opened BufferQueueSpec
  import opened QueueRuns
  import opened NonBlocking

  /** What getMaxBufferCountLocked asserts: a count that is set reaches the minimum. */
  predicate CountSuffices(c: Core, isAsync: bool) {
    c.overrideMax != 0 ==> c.overrideMax >= MinMaxBufferCount(c, isAsync)
  }

  /** The guard under which a call makes the assertion fail. A count that setBufferCount
      accepts suffices for synchronous callers, and for asynchronous ones unless it leaves no
      room for the extra buffer; a later connection in application-controlled mode needs that
      room for synchronous callers too, and a later acquire limit may exceed the count. */
  predicate BreaksCount(c: Core, op: Op, isAsync: bool)
    requires WellFormed(c)
  {
    match op
    case SetBufferCountOp(n) =>
      && n != 0 && SetBufferCountStatus(c, n) == NO_ERROR
      && isAsync && c.useAsyncBuffer && !c.cannotBlock && n == c.maxAcquired + 1
    case ConnectProducerOp(_, byApp, _) =>
      && !c.abandoned && c.hasConsumer && c.connectedApi == NO_CONNECTED_API
      && !isAsync && c.useAsyncBuffer && c.consumerByApp && byApp && c.overrideMax == c.maxAcquired + 1
    case SetMaxAcquiredOp(m) =>
      && 1 <= m <= MAX_MAX_ACQUIRED_BUFFERS && c.connectedApi == NO_CONNECTED_API
      && 0 < c.overrideMax < m + 1 + (if c.useAsyncBuffer && (c.cannotBlock || isAsync) then 1 else 0)
    case _ => false
  }

  lemma SetCountBreaksIff(c: Core, n: int, isAsync: bool)
    requires WellFormed(c) && CountSuffices(c, isAsync)
    ensures !CountSuffices(SetBufferCount(c, n), isAsync) <==> BreaksCount(c, SetBufferCountOp(n), isAsync)
  {
    CountAccepted(c, n);
    hide WellFormed, SetBufferCountStatus;
  }

  lemma ConnectBreaksIff(c: Core, api: int, byApp: bool, listens: bool, isAsync: bool)
    requires WellFormed(c) && CountSuffices(c, isAsync)
    ensures !CountSuffices(ConnectProducer(c, api, byApp, listens), isAsync)
            <==> BreaksCount(c, ConnectProducerOp(api, byApp, listens), isAsync)
  {
    assert c.maxAcquired >= 1;
    hide WellFormed;
  }

  lemma AcquireLimitBreaksIff(c: Core, m: int, isAsync: bool)
    requires WellFormed(c) && CountSuffices(c, isAsync)
    ensures !CountSuffices(SetMaxAcquired(c, m), isAsync) <==> BreaksCount(c, SetMaxAcquiredOp(m), isAsync)
  {
    assert c.overrideMax >= 0;
    hide WellFormed;
  }

  lemma OthersSuffice(c: Core, op: Op, isAsync: bool)
    requires WellFormed(c) && CountSuffices(c, isAsync)
    requires !op.SetBufferCountOp? && !op.ConnectProducerOp? && !op.SetMaxAcquiredOp?
    ensures CountSuffices(Apply(c, op), isAsync)
  {
    if ChangesMode(op) {
      hide WellFormed, FreeAll;
    } else {
      OthersKeepMode(c, op);
      hide Apply, WellFormed;
    }
  }

  /** For every call: where the assertion holds, it fails after the call if and only if the
      guard is met. */
  lemma CountBreaksIff(c: Core, op: Op, isAsync: bool)
    requires WellFormed(c) && CountSuffices(c, isAsync)
    ensures !CountSuffices(Apply(c, op), isAsync) <==> BreaksCount(c, op, isAsync)
  {
    hide WellFormed, SetBufferCount, ConnectProducer, SetMaxAcquired, SetBufferCountStatus;
    match op {
      case SetBufferCountOp(n) => SetCountBreaksIff(c, n, isAsync);
      case ConnectProducerOp(api, byApp, listens) => ConnectBreaksIff(c, api, byApp, listens, isAsync);
      case SetMaxAcquiredOp(m) => AcquireLimitBreaksIff(c, m, isAsync);
      case _ => OthersSuffice(c, op, isAsync);
    }
  }

  /** A count that is accepted suffices for synchronous callers at that moment. */
  lemma CountAccepted(c: Core, n: int)
    requires WellFormed(c)
    ensures n != 0 && SetBufferCountStatus(c, n) == NO_ERROR ==> n >= MinMaxBufferCount(c, false)
  {
  }

  predicate NeverBreaks(ops: seq<Op>, isAsync: bool) {
    ops == [] || (&& NeverBreaks(ops[..|ops| - 1], isAsync)
                  && !BreaksCount(Run(START, ops[..|ops| - 1]).core, ops[|ops| - 1], isAsync))
  }

  /** So the assertion holds on every run on which no call meets the guard. */
  lemma {:induction false} CountSufficesOnRuns(ops: seq<Op>, isAsync: bool)
    requires NeverBreaks(ops, isAsync)
    ensures CountSuffices(Run(START, ops).core, isAsync)
  {
    hide Apply, BreaksCount;
    if ops != [] {
      CountSufficesOnRuns(ops[..|ops| - 1], isAsync);
      CountBreaksIff(Run(START, ops[..|ops| - 1]).core, ops[|ops| - 1], isAsync);
    }
  }
}
