/** How the message queue's handler coalesces its events: an atomic mask with a bit per
    kind of event, and at most one message of each kind on its way. */
module MessageCoalescing {
  import opened Occurrences

  datatype Kind = Invalidate | Refresh | Transaction

  /** The looper's thread: idle, with a message popped whose bit is still set, or running
      the handler. */
  datatype Looper = Idle | Popped(kind: Kind) | Running(kind: Kind)

  /** `sending` are the messages of threads that have set a clear bit and not yet sent, and
      `pending` those in the looper's queue. `dispatched` counts the dispatches of a kind,
      and `covered` those of them that precede the start of its last handler run. */
  datatype State = State(
    mask: set<Kind>,
    sending: seq<Kind>,
    pending: seq<Kind>,
    looper: Looper,
    dispatched: map<Kind, nat>,
    covered: map<Kind, nat>)

  const NONE: map<Kind, nat> := map[Invalidate := 0, Refresh := 0, Transaction := 0]

  const START := State({}, [], [], Idle, NONE, NONE)

  /** Dispatch is the atomic or of a dispatching thread, Send its send if it found the bit
      clear; Clear is the atomic and with which the handler's run starts. */
  datatype Step = Dispatch(kind: Kind) | Send(sender: nat) | Pop | Clear | Finish

  predicate Enabled(s: State, step: Step) {
    match step
    case Dispatch(k) => k in s.dispatched
    case Send(i) => i < |s.sending|
    case Pop => s.looper == Idle && s.pending != []
    case Clear => s.looper.Popped? && s.looper.kind in s.dispatched
    case Finish => s.looper.Running?
  }

  function Next(s: State, step: Step): State
    requires Enabled(s, step)
  {
    match step
    case Dispatch(k) =>
      var t := s.(mask := s.mask + {k}, dispatched := s.dispatched[k := s.dispatched[k] + 1]);
      if k in s.mask then t else t.(sending := s.sending + [k])
    case Send(i) => s.(sending := s.sending[..i] + s.sending[i + 1..], pending := s.pending + [s.sending[i]])
    case Pop => s.(pending := s.pending[1..], looper := Popped(s.pending[0]))
    case Clear =>
      var k := s.looper.kind;
      s.(mask := s.mask - {k}, looper := Running(k), covered := s.covered[k := s.dispatched[k]])
    case Finish => s.(looper := Idle)
  }

  predicate LegalRun(steps: seq<Step>)
    decreases |steps|, 0
  {
    steps == [] || (LegalRun(steps[..|steps| - 1]) && Enabled(Run(steps[..|steps| - 1]), steps[|steps| - 1]))
  }

  function Run(steps: seq<Step>): State
    requires LegalRun(steps)
    decreases |steps|, 1
  {
    if steps == [] then START else Next(Run(steps[..|steps| - 1]), steps[|steps| - 1])
  }

  // ---------- the invariant ----------

  /** The messages of kind k about to be sent, pending, or popped with the bit still set. */
  function OnTheirWay(s: State, k: Kind): nat {
    Times(s.sending, k) + Times(s.pending, k) + (if s.looper == Popped(k) then 1 else 0)
  }

  predicate Balanced(s: State, k: Kind) {
    && k in s.dispatched && k in s.covered
    && OnTheirWay(s, k) == (if k in s.mask then 1 else 0)
    && (k in s.mask <==> s.covered[k] < s.dispatched[k])
    && s.covered[k] <= s.dispatched[k]
  }

  ghost predicate Inv(s: State) {
    forall k :: Balanced(s, k)
  }

  /** A dispatch that finds the bit clear puts a message on its way, and clearing the bit
      takes one off; sending and popping move it along. */
  lemma StepMovesMessages(s: State, step: Step, k: Kind)
    requires Enabled(s, step)
    ensures OnTheirWay(Next(s, step), k) == OnTheirWay(s, k)
            + (if step == Dispatch(k) && k !in s.mask then 1 else 0)
            - (if step == Clear && s.looper == Popped(k) then 1 else 0)
  {
    hide Times;
    match step {
      case Dispatch(j) =>
        TimesAppend(s.sending, [j], k);
        TimesOne(j, k);
      case Send(i) =>
        TimesRemoved(s.sending, i, k);
        TimesAppend(s.pending, [s.sending[i]], k);
        TimesOne(s.sending[i], k);
      case Pop =>
        TimesRemoved(s.pending, 0, k);
        assert s.pending[..0] + s.pending[1..] == s.pending[1..];
      case Clear =>
      case Finish =>
    }
  }

  lemma StepKeepsBalance(s: State, step: Step, k: Kind)
    requires Balanced(s, k) && Enabled(s, step)
    ensures Balanced(Next(s, step), k)
  {
    StepMovesMessages(s, step, k);
    assert step == Clear && s.looper == Popped(k) ==> OnTheirWay(s, k) >= 1;
    hide OnTheirWay;
  }

  lemma {:induction false} RunKeepsInv(steps: seq<Step>)
    requires LegalRun(steps)
    ensures Inv(Run(steps))
  {
    if steps != [] {
      RunKeepsInv(steps[..|steps| - 1]);
      hide Balanced, Next, Enabled;
      forall k
        ensures Balanced(Run(steps), k)
      {
        assert Balanced(Run(steps[..|steps| - 1]), k);
        StepKeepsBalance(Run(steps[..|steps| - 1]), steps[|steps| - 1], k);
      }
    } else {
      assert forall k :: k in NONE by {
        forall k: Kind
          ensures k in NONE
        {
          match k case Invalidate => case Refresh => case Transaction =>
        }
      }
    }
  }

  // ---------- what it means ----------

  /** Under every interleaving a bit is set exactly when one message of its kind is about to
      be sent, pending, or popped and not cleared, and no other message of the kind is. */
  lemma BitMeansOneMessage(steps: seq<Step>, k: Kind)
    requires LegalRun(steps)
    ensures var s := Run(steps);
            && OnTheirWay(s, k) <= 1 && (k in s.mask <==> OnTheirWay(s, k) == 1)
            && Times(s.pending, k) <= 1
  {
    RunKeepsInv(steps);
    assert Balanced(Run(steps), k);
  }

  /** No dispatch is lost: one that no handler run has started after has a message on its
      way; so when none is, a run of its kind has started after every dispatch. */
  lemma DispatchIsHandled(steps: seq<Step>, k: Kind)
    requires LegalRun(steps)
    ensures var s := Run(steps);
            && k in s.dispatched && k in s.covered
            && (s.covered[k] < s.dispatched[k] <==> OnTheirWay(s, k) == 1)
            && (OnTheirWay(s, k) == 0 ==> s.covered[k] == s.dispatched[k])
  {
    RunKeepsInv(steps);
    assert Balanced(Run(steps), k);
  }

  // ---------- progress ----------

  function LooperWork(looper: Looper): nat {
    match looper
    case Idle => 0
    case Popped(_) => 2
    case Running(_) => 1
  }

  /** The number of steps until the run of its handler that a message of kind k leads to. */
  function Remaining(s: State, k: Kind): nat {
    if s.looper == Popped(k) then 1
    else if k in s.pending then LooperWork(s.looper) + 3 * IndexOf(s.pending, k) + 2
    else LooperWork(s.looper) + 3 * |s.pending| + 3
  }

  /** The next of these steps. */
  function StepFor(s: State, k: Kind): Step {
    if s.looper == Popped(k) then Clear
    else if k !in s.pending && k in s.sending then Send(IndexOf(s.sending, k))
    else match s.looper
      case Idle => Pop
      case Popped(_) => Clear
      case Running(_) => Finish
  }

  lemma PendingMoves(s: State, k: Kind)
    requires s.pending != [] && k in s.pending
    ensures s.pending[0] == k ==> IndexOf(s.pending, k) == 0
    ensures s.pending[0] != k ==> k in s.pending[1..] && IndexOf(s.pending[1..], k) == IndexOf(s.pending, k) - 1
  {
  }

  lemma AppendKeepsIndex(kinds: seq<Kind>, j: Kind, k: Kind)
    ensures k in kinds ==> IndexOf(kinds + [j], k) == IndexOf(kinds, k)
    ensures k !in kinds && j == k ==> IndexOf(kinds + [j], k) == |kinds|
  {
    if k in kinds {
      var i := IndexOf(kinds, k);
      FirstIndexIs(kinds + [j], k, i);
    } else if j == k {
      FirstIndexIs(kinds + [j], k, |kinds|);
    }
  }

  lemma OnItsWaySomewhere(s: State, k: Kind)
    requires Balanced(s, k) && k in s.mask
    ensures s.looper == Popped(k) || k in s.pending || k in s.sending
  {
    TimesPositive(s.sending, k);
    TimesPositive(s.pending, k);
  }

  /** A message on its way always has a next step of its own, which is enabled: it brings the
      run of its handler one step nearer, and the last one starts that run. */
  lemma MessageMovesOn(steps: seq<Step>, k: Kind)
    requires LegalRun(steps) && k in Run(steps).mask
    ensures var s := Run(steps); var step := StepFor(s, k);
            && Enabled(s, step)
            && (if s.looper == Popped(k) then Next(s, step).looper == Running(k) && k !in Next(s, step).mask
                else k in Next(s, step).mask && Remaining(Next(s, step), k) == Remaining(s, k) - 1)
  {
    RunKeepsInv(steps);
    var s := Run(steps);
    assert Balanced(s, k);
    OnItsWaySomewhere(s, k);
    if s.looper.Popped? {
      assert Balanced(s, s.looper.kind);
    }
    hide Balanced, Run, LegalRun;
    if s.looper != Popped(k) {
      if k in s.pending {
        PendingMoves(s, k);
      } else {
        AppendKeepsIndex(s.pending, k, k);
      }
    }
  }

  /** Once it is pending, no step of anyone takes it further away. */
  lemma NobodyDelays(steps: seq<Step>, step: Step, k: Kind)
    requires LegalRun(steps) && Enabled(Run(steps), step)
    requires k in Run(steps).pending || Run(steps).looper == Popped(k)
    ensures var s := Run(steps); var t := Next(s, step);
            t.looper == Running(k) || ((k in t.pending || t.looper == Popped(k)) && Remaining(t, k) <= Remaining(s, k))
  {
    var s := Run(steps);
    hide Run, LegalRun;
    if k in s.pending {
      PendingMoves(s, k);
    }
    if step.Send? {
      AppendKeepsIndex(s.pending, s.sending[step.sender], k);
    }
  }
}
