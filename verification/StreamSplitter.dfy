/** The splitter that hands each buffer of one input queue to several output queues, and
    returns it to the input once every output has let go of it. */
module StreamSplitter {
  import opened BufferQueueTypes

  const MAX_OUTSTANDING_BUFFERS: int := 2

  /** How often a buffer was released, and the fences merged so far. */
  datatype Tracker = Tracker(releaseCount: nat, mergedFence: set<Fence>)

  /** What one output has done with a buffer: it holds it, has given it back with a fence,
      or refused it because it had been abandoned. */
  datatype Holding = Holds | Released(fence: Fence) | Refused

  /** A tracked buffer: its tracker, and what each output has done with it. */
  datatype Entry = Entry(tracker: Tracker, holdings: seq<Holding>)

  /** The splitter, and how often each buffer was acquired from the input, returned to it
      and discarded. */
  datatype State = State(
    abandoned: bool,
    outstanding: int,
    outputs: nat,
    buffers: map<nat, Entry>,
    acquired: multiset<nat>,
    returned: multiset<nat>,
    discarded: multiset<nat>)

  const START := State(false, 0, 0, map[], multiset{}, multiset{}, multiset{})

  /** What an output answers to attachBuffer and queueBuffer; both may find it abandoned. */
  datatype Answer = Queued | AttachRefused | QueueRefused

  function Initial(answer: Answer): Holding {
    if answer.Queued? then Holds else Refused
  }

  function InitialHoldings(answers: seq<Answer>): (h: seq<Holding>)
    ensures |h| == |answers| && forall i :: 0 <= i < |h| ==> h[i] == Initial(answers[i])
  {
    seq(|answers|, i requires 0 <= i < |answers| => Initial(answers[i]))
  }

  /** The number of outputs, among the first n, that do not hold the buffer. */
  function Done(h: seq<Holding>, n: nat): (k: nat)
    requires n <= |h|
    ensures k <= n
  {
    if n == 0 then 0 else Done(h, n - 1) + (if h[n - 1].Holds? then 0 else 1)
  }

  // ---------- the steps ----------

  datatype Step =
    | AddOutput
    | FrameAvailable(id: nat, answers: seq<Answer>)
    | ReleasedByOutput(from: nat, id: nat, fence: Fence)
    | OutputDied

  predicate HeldBy(e: Entry, from: nat) {
    from < |e.holdings| && e.holdings[from] == Holds
  }

  /** Outputs are added first. The input yields buffers that the splitter does not have, and
      none once it is abandoned; an output gives back buffers that it holds. */
  predicate Legal(s: State, step: Step) {
    match step
    case AddOutput => s.acquired == multiset{}
    case FrameAvailable(id, answers) =>
      && !s.abandoned && s.outstanding < MAX_OUTSTANDING_BUFFERS
      && id !in s.buffers && |answers| == s.outputs
    case ReleasedByOutput(from, id, _) =>
      id in s.buffers && HeldBy(s.buffers[id], from)
    case OutputDied => true
  }

  function NewEntry(answers: seq<Answer>): Entry {
    var h := InitialHoldings(answers);
    Entry(Tracker(Done(h, |h|), {}), h)
  }

  function Merged(t: Tracker, fence: Fence): Tracker {
    Tracker(t.releaseCount + 1, t.mergedFence + {fence})
  }

  function GivenBack(e: Entry, from: nat, fence: Fence): Entry
    requires from < |e.holdings|
  {
    Entry(Merged(e.tracker, fence), e.holdings[from := Released(fence)])
  }

  function Next(s: State, step: Step): State
    requires Legal(s, step)
  {
    match step
    case AddOutput => s.(outputs := s.outputs + 1)
    case FrameAvailable(id, answers) =>
      var e := NewEntry(answers);
      s.(outstanding := s.outstanding + 1, abandoned := e.tracker.releaseCount > 0,
         buffers := s.buffers[id := e], acquired := s.acquired + multiset{id})
    case ReleasedByOutput(from, id, fence) =>
      var e := GivenBack(s.buffers[id], from, fence);
      if e.tracker.releaseCount < s.outputs then s.(buffers := s.buffers[id := e])
      else if s.abandoned then s.(buffers := s.buffers - {id}, discarded := s.discarded + multiset{id})
      else s.(buffers := s.buffers - {id}, returned := s.returned + multiset{id}, outstanding := s.outstanding - 1)
    case OutputDied => s.(abandoned := true)
  }

  predicate LegalRun(steps: seq<Step>)
    decreases |steps|, 0
  {
    steps == [] || (LegalRun(steps[..|steps| - 1]) && Legal(Run(steps[..|steps| - 1]), steps[|steps| - 1]))
  }

  function Run(steps: seq<Step>): State
    requires LegalRun(steps)
    decreases |steps|, 1
  {
    if steps == [] then START else Next(Run(steps[..|steps| - 1]), steps[|steps| - 1])
  }

  // ---------- the invariant ----------

  /** The tracker counts the outputs that do not hold the buffer, and has merged exactly the
      fences that outputs have given back. */
  ghost predicate Tallies(e: Entry) {
    var h := e.holdings;
    && e.tracker.releaseCount == Done(h, |h|)
    && (forall i :: 0 <= i < |h| && h[i].Released? ==> h[i].fence in e.tracker.mergedFence)
    && (forall f :: f in e.tracker.mergedFence ==> exists i :: 0 <= i < |h| && h[i] == Released(f))
  }

  /** While the splitter is not abandoned, no output has refused the buffer, and some output
      holds it. */
  ghost predicate Shared(e: Entry) {
    && (|e.holdings| > 0 ==> e.tracker.releaseCount < |e.holdings|)
    && forall i :: 0 <= i < |e.holdings| ==> !e.holdings[i].Refused?
  }

  predicate AllRefused(e: Entry) {
    forall i :: 0 <= i < |e.holdings| ==> e.holdings[i].Refused?
  }

  /** A buffer is not tracked on once its last holder has given it back. */
  predicate HeldOrRefused(e: Entry) {
    e.tracker.releaseCount < |e.holdings| || AllRefused(e)
  }

  ghost predicate Tracked(s: State) {
    forall id :: id in s.buffers ==>
                   && |s.buffers[id].holdings| == s.outputs && Tallies(s.buffers[id]) && HeldOrRefused(s.buffers[id])
                   && (!s.abandoned ==> Shared(s.buffers[id]))
  }

  ghost predicate Outstanding(s: State) {
    && 0 <= s.outstanding <= MAX_OUTSTANDING_BUFFERS
    && (!s.abandoned ==> s.outstanding == |s.buffers|)
  }

  /** Every acquisition of a buffer has ended in one return or discard, or the buffer is
      still tracked. */
  ghost predicate Conserved(s: State) {
    forall id: nat :: s.acquired[id] == s.returned[id] + s.discarded[id] + (if id in s.buffers then 1 else 0)
  }

  ghost predicate Inv(s: State) {
    Tracked(s) && Outstanding(s) && Conserved(s)
  }

  lemma {:induction false} DoneUpdate(h: seq<Holding>, n: nat, i: nat, x: Holding)
    requires n <= |h| && i < |h| && h[i].Holds? && !x.Holds?
    ensures Done(h[i := x], n) == Done(h, n) + (if i < n then 1 else 0)
  {
    if n > 0 {
      DoneUpdate(h, n - 1, i, x);
    }
  }

  lemma {:induction false} AllDone(h: seq<Holding>, n: nat)
    requires n <= |h|
    ensures Done(h, n) == n <==> forall i :: 0 <= i < n ==> !h[i].Holds?
  {
    if n > 0 {
      AllDone(h, n - 1);
    }
  }

  lemma {:induction false} NoneDone(h: seq<Holding>, n: nat)
    requires n <= |h|
    ensures Done(h, n) == 0 <==> forall i :: 0 <= i < n ==> h[i].Holds?
  {
    if n > 0 {
      NoneDone(h, n - 1);
    }
  }

  lemma FrameKeepsInv(s: State, id: nat, answers: seq<Answer>)
    requires Inv(s) && Legal(s, FrameAvailable(id, answers))
    ensures Inv(Next(s, FrameAvailable(id, answers)))
  {
    var h := InitialHoldings(answers);
    NoneDone(h, |h|);
    AllDone(h, |h|);
  }

  lemma MergingTallies(e: Entry, from: nat, fence: Fence)
    requires Tallies(e) && HeldBy(e, from)
    ensures Tallies(GivenBack(e, from, fence))
  {
    var h := e.holdings;
    var h' := h[from := Released(fence)];
    DoneUpdate(h, |h|, from, Released(fence));
    forall f | f in GivenBack(e, from, fence).tracker.mergedFence
      ensures exists i :: 0 <= i < |h'| && h'[i] == Released(f)
    {
      if f == fence {
        assert h'[from] == Released(f);
      } else {
        var i :| 0 <= i < |h| && h[i] == Released(f);
        assert h'[i] == Released(f);
      }
    }
  }

  /** The buffer stays with other outputs. */
  lemma SharedStays(s: State, from: nat, id: nat, fence: Fence)
    requires Inv(s) && Legal(s, ReleasedByOutput(from, id, fence))
    requires GivenBack(s.buffers[id], from, fence).tracker.releaseCount < s.outputs
    ensures Inv(Next(s, ReleasedByOutput(from, id, fence)))
  {
    MergingTallies(s.buffers[id], from, fence);
    assert !s.abandoned ==> Shared(GivenBack(s.buffers[id], from, fence));
    hide Tallies, Shared;
  }

  lemma RemovalCount(m: map<nat, Entry>, id: nat)
    requires id in m
    ensures |m - {id}| == |m| - 1
  {
    assert (m - {id}).Keys == m.Keys - {id};
    assert |m - {id}| == |(m - {id}).Keys| && |m| == |m.Keys|;
  }

  /** The last output lets go: the buffer is returned or, after abandonment, discarded. */
  lemma LastLetsGo(s: State, from: nat, id: nat, fence: Fence)
    requires Inv(s) && Legal(s, ReleasedByOutput(from, id, fence))
    requires GivenBack(s.buffers[id], from, fence).tracker.releaseCount >= s.outputs
    ensures Inv(Next(s, ReleasedByOutput(from, id, fence)))
  {
    hide Tallies, Shared, GivenBack, Tracked, Conserved;
    var d := Next(s, ReleasedByOutput(from, id, fence));
    RemovalCount(s.buffers, id);
    RemovalTracks(s, d, id);
    RemovalConserves(s, d, id);
  }

  lemma RemovalTracks(s: State, d: State, id: nat)
    requires Tracked(s) && d.buffers == s.buffers - {id} && d.outputs == s.outputs && d.abandoned == s.abandoned
    ensures Tracked(d)
  {
    hide Tallies, Shared;
  }

  lemma RemovalConserves(s: State, d: State, id: nat)
    requires Conserved(s) && id in s.buffers && d.buffers == s.buffers - {id} && d.acquired == s.acquired
    requires || (d.returned == s.returned + multiset{id} && d.discarded == s.discarded)
             || (d.discarded == s.discarded + multiset{id} && d.returned == s.returned)
    ensures Conserved(d)
  {
  }

  lemma ReleaseKeepsInv(s: State, from: nat, id: nat, fence: Fence)
    requires Inv(s) && Legal(s, ReleasedByOutput(from, id, fence))
    ensures Inv(Next(s, ReleasedByOutput(from, id, fence)))
  {
    hide Inv, Next;
    if GivenBack(s.buffers[id], from, fence).tracker.releaseCount < s.outputs {
      SharedStays(s, from, id, fence);
    } else {
      LastLetsGo(s, from, id, fence);
    }
  }

  lemma StepKeepsInv(s: State, step: Step)
    requires Inv(s) && Legal(s, step)
    ensures Inv(Next(s, step))
  {
    match step {
      case FrameAvailable(id, answers) => FrameKeepsInv(s, id, answers);
      case ReleasedByOutput(from, id, fence) => ReleaseKeepsInv(s, from, id, fence);
      case AddOutput =>
        assert forall id :: id in s.buffers ==> s.acquired[id] > 0;
      case OutputDied =>
    }
  }

  /** At every point between calls: for each tracked buffer the release count and the
      outputs still holding it add up to all outputs; and so on. */
  lemma {:induction false} RunKeepsInv(steps: seq<Step>)
    requires LegalRun(steps)
    ensures Inv(Run(steps))
  {
    if steps != [] {
      RunKeepsInv(steps[..|steps| - 1]);
      hide Inv, Next, Legal;
      StepKeepsInv(Run(steps[..|steps| - 1]), steps[|steps| - 1]);
    }
  }

  // ---------- what it means ----------

  /** The step shows that an output has been abandoned. */
  predicate ShowsAbandonment(step: Step) {
    match step
    case OutputDied => true
    case FrameAvailable(_, answers) => exists i :: 0 <= i < |answers| && !answers[i].Queued?
    case _ => false
  }

  /** The splitter is abandoned from the first step on that shows an output to be. */
  lemma {:induction false} AbandonedIff(steps: seq<Step>)
    requires LegalRun(steps)
    ensures Run(steps).abandoned <==> exists i :: 0 <= i < |steps| && ShowsAbandonment(steps[i])
  {
    if steps != [] {
      var before, step := steps[..|steps| - 1], steps[|steps| - 1];
      AbandonedIff(before);
      AbandonedNext(Run(before), step);
      hide Next, ShowsAbandonment, Legal;
      assert steps == before + [step];
    }
  }

  lemma AbandonedNext(s: State, step: Step)
    requires Legal(s, step)
    ensures Next(s, step).abandoned <==> s.abandoned || ShowsAbandonment(step)
  {
    if step.FrameAvailable? {
      var h := InitialHoldings(step.answers);
      NoneDone(h, |h|);
    }
  }

  /** A buffer goes back to the input only when every output has given it back, never after
      abandonment, and the fence that goes with it merges the fences of all outputs. */
  lemma ReturnedWhenAllLetGo(steps: seq<Step>, from: nat, id: nat, fence: Fence)
    requires LegalRun(steps) && Legal(Run(steps), ReleasedByOutput(from, id, fence))
    requires Next(Run(steps), ReleasedByOutput(from, id, fence)).returned != Run(steps).returned
    ensures var s := Run(steps); var e := GivenBack(s.buffers[id], from, fence);
            && !s.abandoned && |e.holdings| == s.outputs
            && forall i :: 0 <= i < s.outputs ==>
                 e.holdings[i].Released? && e.holdings[i].fence in e.tracker.mergedFence
  {
    RunKeepsInv(steps);
    var s := Run(steps);
    var e := GivenBack(s.buffers[id], from, fence);
    MergingTallies(s.buffers[id], from, fence);
    AllDone(e.holdings, |e.holdings|);
    hide Run, LegalRun;
  }

  /** It goes back at most once for each acquisition. */
  lemma ReturnedAtMostOnce(steps: seq<Step>, id: nat)
    requires LegalRun(steps)
    ensures var s := Run(steps);
            s.acquired[id] == s.returned[id] + s.discarded[id] + (if id in s.buffers then 1 else 0)
    ensures Run(steps).outstanding <= 2
    ensures !Run(steps).abandoned ==> Run(steps).outstanding == |Run(steps).buffers|
  {
    RunKeepsInv(steps);
  }

  /** On every run a tracked buffer has no holder if and only if every output refused it. */
  lemma NoHolderIff(steps: seq<Step>, id: nat)
    requires LegalRun(steps) && id in Run(steps).buffers
    ensures var e := Run(steps).buffers[id]; (forall from: nat :: !HeldBy(e, from)) <==> AllRefused(e)
  {
    RunKeepsInv(steps);
    var e := Run(steps).buffers[id];
    AllDone(e.holdings, |e.holdings|);
    hide Run, LegalRun;
    if forall from: nat :: !HeldBy(e, from) {
      forall i | 0 <= i < |e.holdings|
        ensures !e.holdings[i].Holds?
      {
        assert !HeldBy(e, i);
      }
    }
  }

  /** While the splitter is not abandoned and has outputs, every tracked buffer is still held
      by one: none is left behind that every output has given back. */
  lemma TrackedBufferHasHolder(steps: seq<Step>, id: nat) returns (from: nat)
    requires LegalRun(steps)
    requires !Run(steps).abandoned && Run(steps).outputs > 0 && id in Run(steps).buffers
    ensures HeldBy(Run(steps).buffers[id], from)
  {
    RunKeepsInv(steps);
    NoHolderIff(steps, id);
    assert Run(steps).buffers[id].holdings[0].Holds? || !AllRefused(Run(steps).buffers[id]);
    from :| HeldBy(Run(steps).buffers[id], from);
  }

  /** The splitter never lets go of the buffer, whatever happens. */
  ghost predicate StaysForEver(steps: seq<Step>, id: nat) {
    forall more :: LegalRun(steps + more) ==> id in Run(steps + more).buffers
  }

  lemma RunGrows(steps: seq<Step>, step: Step)
    requires LegalRun(steps) && Legal(Run(steps), step)
    ensures LegalRun(steps + [step]) && Run(steps + [step]) == Next(Run(steps), step)
  {
    assert (steps + [step])[..|steps + [step]| - 1] == steps;
  }

  lemma {:induction false} RefusedStays(steps: seq<Step>, more: seq<Step>, id: nat)
    requires LegalRun(steps) && id in Run(steps).buffers && AllRefused(Run(steps).buffers[id])
    requires LegalRun(steps + more)
    ensures id in Run(steps + more).buffers && Run(steps + more).buffers[id] == Run(steps).buffers[id]
  {
    if more == [] {
      assert steps + more == steps;
    } else {
      var n := |more| - 1;
      assert (steps + more)[..|steps + more| - 1] == steps + more[..n] && (steps + more)[|steps + more| - 1] == more[n];
      RefusedStays(steps, more[..n], id);
    }
  }

  /** One holder gives the buffer back. */
  lemma HolderLetsGo(s: State, id: nat) returns (step: Step)
    requires Inv(s) && id in s.buffers && !AllRefused(s.buffers[id])
    ensures Legal(s, step)
    ensures var t := Next(s, step);
            id in t.buffers ==>
              && !AllRefused(t.buffers[id])
              && s.buffers[id].tracker.releaseCount < t.buffers[id].tracker.releaseCount <= s.outputs == t.outputs
  {
    var e := s.buffers[id];
    AllDone(e.holdings, |e.holdings|);
    assert HeldOrRefused(e) && Tallies(e) && |e.holdings| == s.outputs;
    hide Inv;
    var from: nat :| from < |e.holdings| && e.holdings[from].Holds?;
    step := ReleasedByOutput(from, id, NO_FENCE);
    assert GivenBack(e, from, NO_FENCE).holdings[from] == Released(NO_FENCE);
  }

  /** The run has come to where n holders are left. */
  predicate Holders(steps: seq<Step>, id: nat, n: nat)
    requires LegalRun(steps)
  {
    var s := Run(steps);
    id in s.buffers && !AllRefused(s.buffers[id]) && s.buffers[id].tracker.releaseCount + n == s.outputs
  }

  lemma OneLess(steps: seq<Step>, id: nat, n: nat) returns (step: Step, m: nat)
    requires LegalRun(steps) && Holders(steps, id, n)
    ensures LegalRun(steps + [step])
    ensures id in Run(steps + [step]).buffers ==> m < n && Holders(steps + [step], id, m)
  {
    RunKeepsInv(steps);
    hide Inv, Legal, Next, LegalRun, Run, AllRefused;
    step := HolderLetsGo(Run(steps), id);
    RunGrows(steps, step);
    var t := Run(steps + [step]);
    m := if id in t.buffers then t.outputs - t.buffers[id].tracker.releaseCount else 0;
  }

  /** The holders give the buffer back one after the other, until the splitter lets go. */
  lemma {:induction false} HoldersLetGo(steps: seq<Step>, id: nat, n: nat) returns (more: seq<Step>)
    requires LegalRun(steps) && Holders(steps, id, n)
    ensures LegalRun(steps + more) && id !in Run(steps + more).buffers
    decreases n
  {
    hide LegalRun, Run, Holders;
    var step, m := OneLess(steps, id, n);
    more := [step];
    if id in Run(steps + [step]).buffers {
      var rest := HoldersLetGo(steps + [step], id, m);
      more := [step] + rest;
      assert steps + more == steps + [step] + rest;
    }
  }

  /** The source counts a refusal as a release so that the buffer is still let go of: it can
      be, at any point of any run, unless every output refused it; then it stays for ever. */
  lemma StaysForEverIff(steps: seq<Step>, id: nat)
    requires LegalRun(steps) && id in Run(steps).buffers
    ensures StaysForEver(steps, id) <==> AllRefused(Run(steps).buffers[id])
  {
    if AllRefused(Run(steps).buffers[id]) {
      forall more | LegalRun(steps + more)
        ensures id in Run(steps + more).buffers
      {
        RefusedStays(steps, more, id);
      }
    } else {
      RunKeepsInv(steps);
      var n := Run(steps).outputs - Run(steps).buffers[id].tracker.releaseCount;
      assert n >= 0;
      hide Run, LegalRun, Inv, AllRefused;
      var more := HoldersLetGo(steps, id, n);
    }
  }

  /** A run after which the only output has refused the buffer, which then stays for ever. */
  lemma RefusedByAll(id: nat) returns (steps: seq<Step>)
    ensures LegalRun(steps) && id in Run(steps).buffers && AllRefused(Run(steps).buffers[id])
    ensures StaysForEver(steps, id)
  {
    assert LegalRun([]) && Run([]) == START;
    RunGrows([], AddOutput);
    steps := [] + [AddOutput];
    RunGrows(steps, FrameAvailable(id, [AttachRefused]));
    steps := steps + [FrameAvailable(id, [AttachRefused])];
    assert Run(steps).buffers[id] == NewEntry([AttachRefused]);
    hide Run, LegalRun, StaysForEver;
    StaysForEverIff(steps, id);
  }

  // ---------- the object ----------

  /** What becomes of a call of onFrameAvailable: it goes to sleep on the release condition,
      finishes, or aborts the process because the input had no buffer. */
  datatype Outcome = Waits | Finishes | Aborts

  function Trackers(entries: map<nat, Entry>): map<nat, Tracker> {
    map id | id in entries :: entries[id].tracker
  }

  lemma TrackersUpdate(entries: map<nat, Entry>, id: nat, e: Entry)
    ensures Trackers(entries[id := e]) == Trackers(entries)[id := e.tracker]
    ensures Trackers(entries - {id}) == Trackers(entries) - {id}
  {
  }

  lemma FrameFields(s: State, id: nat, answers: seq<Answer>)
    requires Legal(s, FrameAvailable(id, answers))
    ensures var t := Next(s, FrameAvailable(id, answers)); var tracker := NewEntry(answers).tracker;
            && t.outstanding == s.outstanding + 1 && t.outputs == s.outputs
            && t.abandoned == (s.abandoned || tracker.releaseCount > 0)
            && Trackers(t.buffers) == Trackers(s.buffers)[id := tracker]
  {
    TrackersUpdate(s.buffers, id, NewEntry(answers));
  }

  /** Whether a release hands the buffer back to the input. */
  predicate Returns(s: State, from: nat, id: nat, fence: Fence)
    requires Legal(s, ReleasedByOutput(from, id, fence))
  {
    GivenBack(s.buffers[id], from, fence).tracker.releaseCount >= s.outputs && !s.abandoned
  }

  lemma ReturnsIsLogged(s: State, from: nat, id: nat, fence: Fence)
    requires Legal(s, ReleasedByOutput(from, id, fence))
    ensures Returns(s, from, id, fence) <==> Next(s, ReleasedByOutput(from, id, fence)).returned != s.returned
  {
    if Returns(s, from, id, fence) {
      assert Next(s, ReleasedByOutput(from, id, fence)).returned[id] == s.returned[id] + 1;
    }
  }

  class StreamSplitter {
    var isAbandoned: bool
    var outstandingBuffers: int
    var outputs: nat
    var buffers: map<nat, Tracker>

    /** The state that the fields represent. */
    ghost var model: State

    ghost predicate Valid()
      reads this
    {
      && model.abandoned == isAbandoned && model.outstanding == outstandingBuffers && model.outputs == outputs
      && buffers == Trackers(model.buffers)
      && Inv(model)
    }

    constructor ()
      ensures Valid() && model == START
    {
      isAbandoned, outstandingBuffers, outputs, buffers := false, 0, 0, map[];
      model := START;
    }

    method AddOutput()
      requires Valid() && Legal(model, Step.AddOutput)
      modifies this
      ensures Valid() && model == Next(old(model), Step.AddOutput)
    {
      StepKeepsInv(model, Step.AddOutput);
      outputs := outputs + 1;
      model := Next(model, Step.AddOutput);
    }

    /** One pass of the wait loop, and what follows if it ends the wait. `woken` tells a pass
        after a wait from the first; `acquired` is the buffer that the input yields, which an
        abandoned input does not; `answers` are those of the outputs. */
    method OnFrameAvailable(woken: bool, acquired: Option<nat>, answers: seq<Answer>) returns (outcome: Outcome)
      requires Valid() && |answers| == outputs
      requires acquired.Some? ==> !isAbandoned && acquired.value !in buffers
      modifies this
      ensures Valid()
      ensures var s := old(model);
              if woken && s.abandoned then outcome == Finishes && model == s
              else if s.outstanding >= MAX_OUTSTANDING_BUFFERS then outcome == Waits && model == s
              else if acquired.None? then outcome == Aborts && model == s
              else outcome == Finishes && model == Next(s, FrameAvailable(acquired.value, answers))
    {
      hide Inv;
      if woken && isAbandoned {
        return Finishes;
      }
      if outstandingBuffers >= MAX_OUTSTANDING_BUFFERS {
        return Waits;
      }
      if acquired.None? {
        return Aborts;
      }
      TrackBuffer(acquired.value, answers);
      outcome := Finishes;
    }

    method TrackBuffer(id: nat, answers: seq<Answer>)
      requires Valid() && Legal(model, FrameAvailable(id, answers))
      modifies this
      ensures Valid() && model == Next(old(model), FrameAvailable(id, answers))
    {
      hide Inv, Trackers, NewEntry, Legal, Next;
      FrameKeepsInv(model, id, answers);
      FrameFields(model, id, answers);
      ghost var next := Next(model, FrameAvailable(id, answers));
      outstandingBuffers := outstandingBuffers + 1;
      Distribute(id, answers);
      model := next;
    }

    /** Starts tracking the buffer and goes through the outputs. */
    method Distribute(id: nat, answers: seq<Answer>)
      modifies this`isAbandoned, this`buffers
      ensures buffers == old(buffers)[id := NewEntry(answers).tracker]
      ensures isAbandoned == (old(isAbandoned) || NewEntry(answers).tracker.releaseCount > 0)
    {
      ghost var h := InitialHoldings(answers);
      buffers := buffers[id := Tracker(0, {})];
      for output := 0 to |answers|
        invariant buffers == old(buffers)[id := Tracker(Done(h, output), {})]
        invariant isAbandoned == (old(isAbandoned) || Done(h, output) > 0)
      {
        if answers[output].AttachRefused? {
          isAbandoned := true;
          buffers := buffers[id := buffers[id].(releaseCount := buffers[id].releaseCount + 1)];
          continue;
        }
        if answers[output].QueueRefused? {
          isAbandoned := true;
          buffers := buffers[id := buffers[id].(releaseCount := buffers[id].releaseCount + 1)];
          continue;
        }
      }
    }

    /** `detached` is the buffer that the output gives back, none if it is found abandoned;
        `released` is the buffer and the fence that go back to the input. */
    method OnBufferReleasedByOutput(from: nat, detached: Option<(nat, Fence)>)
      returns (released: Option<(nat, set<Fence>)>)
      requires Valid()
      requires detached.Some? ==> Legal(model, ReleasedByOutput(from, detached.value.0, detached.value.1))
      modifies this
      ensures Valid()
      ensures detached.None? ==> model == Next(old(model), OutputDied) && released == None
      ensures detached.Some? ==>
                var s := old(model); var id := detached.value.0; var fence := detached.value.1;
                && model == Next(s, ReleasedByOutput(from, id, fence))
                && (released.Some? <==> model.returned != s.returned)
                && (released.Some? ==> released.value == (id, Merged(s.buffers[id].tracker, fence).mergedFence))
    {
      hide Inv;
      released := None;
      if detached.None? {
        StepKeepsInv(model, OutputDied);
        isAbandoned := true;
        model := Next(model, OutputDied);
        return;
      }
      var (id, fence) := detached.value;
      ReleaseKeepsInv(model, from, id, fence);
      ReturnsIsLogged(model, from, id, fence);
      TrackersUpdate(model.buffers, id, GivenBack(model.buffers[id], from, fence));
      hide Trackers;
      var tracker := Tracker(buffers[id].releaseCount, buffers[id].mergedFence + {fence});
      tracker := tracker.(releaseCount := tracker.releaseCount + 1);
      model := Next(model, ReleasedByOutput(from, id, fence));
      if tracker.releaseCount < outputs {
        buffers := buffers[id := tracker];
        return;
      }
      if isAbandoned {
        buffers := buffers - {id};
        return;
      }
      buffers := buffers - {id};
      outstandingBuffers := outstandingBuffers - 1;
      released := Some((id, tracker.mergedFence));
    }

    method OnAbandoned()
      requires Valid()
      modifies this
      ensures Valid() && model == Next(old(model), OutputDied)
    {
      StepKeepsInv(model, OutputDied);
      isAbandoned := true;
      model := Next(model, OutputDied);
    }
  }
}
