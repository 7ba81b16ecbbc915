/** The tickets with which concurrent queueBuffer calls order their listener callbacks. */
module CallbackTickets {

  /** Where a caller is that has taken a ticket and has not returned: on its way to the
      callback lock, asleep on the callback condition, or calling the listener. */
  datatype Phase = Arriving | Asleep | Calling

  datatype Caller = Caller(frame: nat, phase: Phase)

  /** The two counters, the callers by ticket, and the frames in the order in which they
      entered the queue and in which the listener was called. */
  datatype State = State(next: nat, current: nat, callers: map<nat, Caller>, queued: seq<nat>, called: seq<nat>)

  datatype Step =
    | TakeTicket(frame: nat)
    | Enter(ticket: nat)
    | Leave(ticket: nat)

  predicate In(s: State, t: nat, phase: Phase) {
    t in s.callers && s.callers[t].phase == phase
  }

  /** Nobody holds the callback lock; a sleeping caller has released it. */
  predicate LockFree(s: State) {
    forall t :: t in s.callers ==> !In(s, t, Calling)
  }

  predicate Enabled(s: State, step: Step) {
    match step
    case TakeTicket(_) => true
    case Enter(t) => In(s, t, Arriving) && LockFree(s)
    case Leave(t) => In(s, t, Calling)
  }

  /** The broadcast at the end of a callback wakes every sleeper. */
  function Woken(callers: map<nat, Caller>): map<nat, Caller> {
    map t | t in callers :: if callers[t].phase == Asleep then callers[t].(phase := Arriving) else callers[t]
  }

  function Next(s: State, step: Step): State
    requires Enabled(s, step)
  {
    match step
    case TakeTicket(frame) =>
      s.(next := s.next + 1, callers := s.callers[s.next := Caller(frame, Arriving)], queued := s.queued + [frame])
    case Enter(t) =>
      if t != s.current then s.(callers := s.callers[t := s.callers[t].(phase := Asleep)])
      else s.(callers := s.callers[t := s.callers[t].(phase := Calling)], called := s.called + [s.callers[t].frame])
    case Leave(t) =>
      s.(current := s.current + 1, callers := Woken(s.callers - {t}))
  }

  const START := State(0, 0, map[], [], [])

  predicate LegalRun(steps: seq<Step>)
    decreases |steps|, 0
  {
    steps == [] || (LegalRun(steps[..|steps| - 1]) && Enabled(Run(steps[..|steps| - 1]), steps[|steps| - 1]))
  }

  function Run(steps: seq<Step>): State
    requires LegalRun(steps)
    decreases |steps|, 1
  {
    if steps == [] then START else Next(Run(steps[..|steps| - 1]), steps[|steps| - 1])
  }

  // ---------- the invariant ----------

  /** The outstanding tickets are those from the current one on, each with its caller. */
  ghost predicate TicketsHeld(s: State) {
    && s.current <= s.next == |s.queued|
    && (forall t :: t in s.callers <==> s.current <= t < s.next)
    && (forall t :: t in s.callers ==> s.callers[t].frame == s.queued[t])
  }

  /** The holder of the current ticket is never asleep, and nobody else calls. */
  ghost predicate CurrentAwake(s: State) {
    forall t :: t in s.callers ==>
                  && (s.callers[t].phase == Calling ==> t == s.current)
                  && (s.callers[t].phase == Asleep ==> t != s.current)
  }

  ghost predicate Inv(s: State) {
    && TicketsHeld(s) && CurrentAwake(s)
    && |s.called| == (if LockFree(s) then s.current else s.current + 1) <= |s.queued|
    && s.called == s.queued[..|s.called|]
  }

  lemma TakingKeepsInv(s: State, frame: nat)
    requires Inv(s)
    ensures Inv(Next(s, TakeTicket(frame)))
  {
    var v := Next(s, TakeTicket(frame));
    assert forall t :: t in s.callers ==> v.callers[t] == s.callers[t];
    assert forall t :: t in s.callers ==> In(v, t, Calling) == In(s, t, Calling);
    assert LockFree(v) == LockFree(s);
  }

  lemma EnteringKeepsInv(s: State, t: nat)
    requires Inv(s) && Enabled(s, Enter(t))
    ensures Inv(Next(s, Enter(t)))
  {
    var v := Next(s, Enter(t));
    assert forall u :: u in s.callers && u != t ==> In(v, u, Calling) == In(s, u, Calling);
    assert t == s.current ==> In(v, t, Calling);
    assert t != s.current ==> LockFree(v);
  }

  lemma LeavingKeepsInv(s: State, t: nat)
    requires Inv(s) && Enabled(s, Leave(t))
    ensures Inv(Next(s, Leave(t)))
  {
    var v := Next(s, Leave(t));
    assert t == s.current && !LockFree(s);
    assert LockFree(v);
  }

  lemma StepKeepsInv(s: State, step: Step)
    requires Inv(s) && Enabled(s, step)
    ensures Inv(Next(s, step))
  {
    hide Inv, Next;
    match step {
      case TakeTicket(frame) => TakingKeepsInv(s, frame);
      case Enter(t) => EnteringKeepsInv(s, t);
      case Leave(t) => LeavingKeepsInv(s, t);
    }
  }

  lemma {:induction false} RunKeepsInv(steps: seq<Step>)
    requires LegalRun(steps)
    ensures Inv(Run(steps))
  {
    if steps != [] {
      RunKeepsInv(steps[..|steps| - 1]);
      StepKeepsInv(Run(steps[..|steps| - 1]), steps[|steps| - 1]);
    } else {
      assert LockFree(START);
    }
  }

  // ---------- what it means ----------

  /** On every run the callbacks are made in the order of queueing: what was called is what
      was queued, short of the outstanding tickets, the one being called excepted. */
  lemma CallbacksInOrder(steps: seq<Step>)
    requires LegalRun(steps)
    ensures var s := Run(steps); var n := |s.called|;
            n <= |s.queued| && s.called == s.queued[..n] && s.current <= n <= s.current + 1
  {
    RunKeepsInv(steps);
  }

  lemma OneCallbackAtATime(steps: seq<Step>, t: nat, u: nat)
    requires LegalRun(steps) && In(Run(steps), t, Calling) && In(Run(steps), u, Calling)
    ensures t == u
  {
    RunKeepsInv(steps);
  }

  /** The wait cannot deadlock: while tickets are outstanding the holder of the current one
      exists and is awake, and its next step is enabled. */
  lemma CurrentHolderCanMove(steps: seq<Step>)
    requires LegalRun(steps) && Run(steps).current < Run(steps).next
    ensures var s := Run(steps); var t := s.current;
            In(s, t, Arriving) || In(s, t, Calling)
    ensures var s := Run(steps); var t := s.current;
            Enabled(s, if In(s, t, Calling) then Leave(t) else Enter(t))
  {
    RunKeepsInv(steps);
    var s := Run(steps);
    assert s.callers[s.current].phase != Asleep;
    if !In(s, s.current, Calling) {
      assert LockFree(s);
    }
  }

  /** Nobody sleeps when all tickets are used up, so every caller gets to return. */
  lemma AllReturn(steps: seq<Step>)
    requires LegalRun(steps) && Run(steps).current == Run(steps).next
    ensures Run(steps).callers == map[] && Run(steps).called == Run(steps).queued
  {
    RunKeepsInv(steps);
    var s := Run(steps);
    assert forall t :: t !in s.callers;
    assert LockFree(s);
  }
}
