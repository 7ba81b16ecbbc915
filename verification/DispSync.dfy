/** The software vsync model's event times: when a listener's next event is due, which
    events are fired, and how far apart. */
module DispSync {
  import opened Machine

  datatype Model = Model(period: int, phase: int)

  datatype EventListener = EventListener(phase: int, lastEventTime: int, callback: nat)

  datatype Invocation = Invocation(callback: nat, eventTime: int)

  function Max(a: int, b: int): int {
    if a < b then b else a
  }

  /** When the listener's next event after ref is due. */
  function NextEventTime(m: Model, l: EventListener, ref: int): int
    requires m.period > 0
  {
    var r := Max(ref, l.lastEventTime);
    var phase := m.phase + l.phase;
    var t := (TruncDiv(r - phase, m.period) + 1) * m.period + phase;
    if t - l.lastEventTime < m.period / 2 then t + m.period else t
  }

  // ---------- what it computes ----------

  predicate Congruent(t: int, phase: int, period: int)
    requires period > 0
  {
    (t - phase) % period == 0
  }

  lemma MultipleIsCongruent(k: int, phase: int, period: int)
    requires period > 0
    ensures Congruent(k * period + phase, phase, period)
  {
    DivisionIs(k * period, k, 0, period);
  }

  /** Congruent times are whole periods apart. */
  lemma CongruentApart(t: int, u: int, phase: int, period: int)
    requires period > 0 && Congruent(t, phase, period) && Congruent(u, phase, period)
    ensures (u - t) % period == 0
    ensures t < u ==> t + period <= u
  {
    var k := (u - phase) / period - (t - phase) / period;
    assert u - t == k * period;
    MultipleIsCongruent(k, 0, period);
    assert k >= 1 ==> (k - 1) * period >= 0;
    assert k <= 0 ==> -k * period >= 0;
  }

  /** A time at which an event may be due: of the right phase, after the reference and the
      last event, and at least half a period after the latter. */
  predicate Due(m: Model, l: EventListener, ref: int, t: int)
    requires m.period > 0
  {
    && Congruent(t, m.phase + l.phase, m.period)
    && t > ref && t > l.lastEventTime
    && t - l.lastEventTime >= m.period / 2
  }

  ghost predicate IsFirstDue(m: Model, l: EventListener, ref: int, t: int)
    requires m.period > 0
  {
    Due(m, l, ref, t) && forall u :: Due(m, l, ref, u) ==> t <= u
  }

  /** The first time of the right phase after r. */
  function FirstAfter(r: int, phase: int, period: int): (t: int)
    requires period > 0
  {
    r + period - (r - phase) % period
  }

  lemma FirstAfterIsFirst(r: int, phase: int, period: int)
    requires period > 0
    ensures var t := FirstAfter(r, phase, period);
            && Congruent(t, phase, period) && r < t <= r + period
            && forall u :: Congruent(u, phase, period) && u > r ==> t <= u
  {
    var t := FirstAfter(r, phase, period);
    var q := (r - phase) / period;
    assert t == (q + 1) * period + phase;
    MultipleIsCongruent(q + 1, phase, period);
    forall u | Congruent(u, phase, period) && u > r
      ensures t <= u
    {
      if u < t {
        CongruentApart(u, t, phase, period);
      }
    }
  }

  /** The division rounds towards zero: before the phase it skips a period, unless the
      reference is itself of the right phase. */
  predicate Skips(r: int, phase: int, period: int)
    requires period > 0
  {
    r < phase && (phase - r) % period != 0
  }

  lemma RoundedTime(r: int, phase: int, period: int)
    requires period > 0
    ensures (TruncDiv(r - phase, period) + 1) * period + phase
            == FirstAfter(r, phase, period) + (if Skips(r, phase, period) then period else 0)
  {
    var d := r - phase;
    TruncatedMultiple(d, period);
    if d < 0 {
      NegativeRemainder(-d, period);
    }
    var k := TruncDiv(d, period);
    hide TruncDiv;
    assert (k + 1) * period == k * period + period;
  }

  lemma TruncatedMultiple(d: int, n: nat)
    requires n > 0
    ensures TruncDiv(d, n) * n == if d >= 0 then d - d % n else d + (-d) % n
  {
    if d < 0 {
      var q := (-d) / n;
      assert (-q) * n == -(q * n);
    }
  }

  lemma NegativeRemainder(x: int, n: nat)
    requires x > 0 && n > 0
    ensures (-x) % n == if x % n == 0 then 0 else n - x % n
  {
    var q, c := x / n, x % n;
    assert (-q) * n == -(q * n) && (-q - 1) * n == -(q * n) - n;
    if c == 0 {
      DivisionIs(-x, -q, 0, n);
    } else {
      DivisionIs(-x, -q - 1, n - c, n);
    }
  }

  /** Whatever the reference, the time computed is one at which an event may be due. */
  lemma NextEventIsDue(m: Model, l: EventListener, ref: int)
    requires m.period > 0
    ensures Due(m, l, ref, NextEventTime(m, l, ref))
  {
    var r := Max(ref, l.lastEventTime);
    var phase := m.phase + l.phase;
    RoundedTime(r, phase, m.period);
    FirstAfterIsFirst(r, phase, m.period);
    var t := FirstAfter(r, phase, m.period);
    CongruentNext(t, phase, m.period);
    CongruentNext(t + m.period, phase, m.period);
  }

  lemma CongruentNext(t: int, phase: int, period: int)
    requires period > 0 && Congruent(t, phase, period)
    ensures Congruent(t + period, phase, period)
  {
    var q := (t - phase) / period;
    assert (q + 1) * period == q * period + period;
    DivisionIs(t + period - phase, q + 1, 0, period);
  }

  /** It is the first such time exactly when the reference is not before the phase, or is of
      the right phase, or the first time after it is too close to the last event. */
  lemma NextEventIsFirstDueIff(m: Model, l: EventListener, ref: int)
    requires m.period > 0
    ensures var r := Max(ref, l.lastEventTime); var phase := m.phase + l.phase;
            IsFirstDue(m, l, ref, NextEventTime(m, l, ref))
            <==> (|| r >= phase || (phase - r) % m.period == 0
                  || FirstAfter(r, phase, m.period) - l.lastEventTime < m.period / 2)
  {
    var r := Max(ref, l.lastEventTime);
    var phase := m.phase + l.phase;
    var t := FirstAfter(r, phase, m.period);
    NextEventIsDue(m, l, ref);
    RoundedTime(r, phase, m.period);
    FirstAfterIsFirst(r, phase, m.period);
    if t - l.lastEventTime >= m.period / 2 {
      assert Due(m, l, ref, t);
    } else {
      forall u | Due(m, l, ref, u)
        ensures t + m.period <= u
      {
        CongruentApart(t, u, phase, m.period);
      }
    }
  }

  /** Before the phase the time computed can be a whole period late: here 5 is due. */
  lemma NextEventSkipsOne()
    ensures var m := Model(10, 0); var l := EventListener(5, 0, 0);
            NextEventTime(m, l, 0) == 15 && Due(m, l, 0, 5) && !IsFirstDue(m, l, 0, 15)
  {
    var m, l := Model(10, 0), EventListener(5, 0, 0);
    assert Due(m, l, 0, 5) && NextEventTime(m, l, 0) == 15;
    hide Due, NextEventTime;
  }

  // ---------- firing ----------

  /** A listener fires if an event was due within the last period. */
  function FireTime(m: Model, l: EventListener, now: int): int
    requires m.period > 0
  {
    NextEventTime(m, l, now - m.period)
  }

  predicate Fires(m: Model, l: EventListener, now: int)
    requires m.period > 0
  {
    FireTime(m, l, now) < now
  }

  function Gathered(m: Model, l: EventListener, now: int): EventListener
    requires m.period > 0
  {
    if Fires(m, l, now) then l.(lastEventTime := FireTime(m, l, now)) else l
  }

  /** The invocations of the first n listeners, in order. */
  function Invocations(m: Model, listeners: seq<EventListener>, n: nat, now: int): seq<Invocation>
    requires m.period > 0 && n <= |listeners|
  {
    if n == 0 then []
    else
      var l := listeners[n - 1];
      Invocations(m, listeners, n - 1, now)
      + (if Fires(m, l, now) then [Invocation(l.callback, FireTime(m, l, now))] else [])
  }

  class DispSyncThread {
    var period: int
    var phase: int
    var listeners: seq<EventListener>

    constructor ()
      ensures period == 0 && phase == 0 && listeners == []
    {
      period, phase, listeners := 0, 0, [];
    }

    function CurrentModel(): Model
      reads this
    {
      Model(period, phase)
    }

    method UpdateModel(newPeriod: int, newPhase: int)
      modifies this`period, this`phase
      ensures CurrentModel() == Model(newPeriod, newPhase)
    {
      period := newPeriod;
      phase := newPhase;
    }

    /** A callback can be registered once. The last event is taken to lie half a period back. */
    method AddEventListener(listenerPhase: int, callback: nat, now: int) returns (added: bool)
      modifies this`listeners
      ensures added <==> forall i :: 0 <= i < |old(listeners)| ==> old(listeners)[i].callback != callback
      ensures listeners == if added
                           then old(listeners) + [EventListener(listenerPhase, now - TruncDiv(period, 2), callback)]
                           else old(listeners)
    {
      for i := 0 to |listeners|
        invariant listeners == old(listeners)
        invariant forall k :: 0 <= k < i ==> listeners[k].callback != callback
      {
        if listeners[i].callback == callback {
          return false;
        }
      }
      listeners := listeners + [EventListener(listenerPhase, now - TruncDiv(period, 2), callback)];
      added := true;
    }

    method RemoveEventListener(callback: nat) returns (removed: bool)
      modifies this`listeners
      ensures removed <==> exists i :: 0 <= i < |old(listeners)| && old(listeners)[i].callback == callback
      ensures !removed ==> listeners == old(listeners)
      ensures removed ==>
                exists i :: 0 <= i < |old(listeners)| && old(listeners)[i].callback == callback
                            && (forall k :: 0 <= k < i ==> old(listeners)[k].callback != callback)
                            && listeners == old(listeners)[..i] + old(listeners)[i + 1..]
    {
      for i := 0 to |listeners|
        invariant listeners == old(listeners)
        invariant forall k :: 0 <= k < i ==> listeners[k].callback != callback
      {
        if listeners[i].callback == callback {
          listeners := listeners[..i] + listeners[i + 1..];
          return true;
        }
      }
      removed := false;
    }

    /** The time the thread sleeps until: the earliest of the listeners' next events. */
    method ComputeNextEventTime(now: int) returns (nextEventTime: int)
      requires period > 0
      ensures nextEventTime <= MAX_TIME
      ensures forall i :: 0 <= i < |listeners| ==> nextEventTime <= NextEventTime(CurrentModel(), listeners[i], now)
      ensures nextEventTime == MAX_TIME
              || exists i :: 0 <= i < |listeners| && nextEventTime == NextEventTime(CurrentModel(), listeners[i], now)
    {
      hide NextEventTime;
      nextEventTime := MAX_TIME;
      for i := 0 to |listeners|
        invariant nextEventTime <= MAX_TIME
        invariant forall k :: 0 <= k < i ==> nextEventTime <= NextEventTime(CurrentModel(), listeners[k], now)
        invariant nextEventTime == MAX_TIME
                  || exists k :: 0 <= k < i && nextEventTime == NextEventTime(CurrentModel(), listeners[k], now)
      {
        var t := ComputeListenerNextEventTime(listeners[i], now);
        if t < nextEventTime {
          nextEventTime := t;
        }
      }
    }

    method ComputeListenerNextEventTime(listener: EventListener, reference: int) returns (t: int)
      requires period > 0
      ensures t == NextEventTime(CurrentModel(), listener, reference)
    {
      var lastEventTime := listener.lastEventTime;
      var ref := reference;
      if ref < lastEventTime {
        ref := lastEventTime;
      }
      var eventPhase := phase + listener.phase;
      t := (TruncDiv(ref - eventPhase, period) + 1) * period + eventPhase;
      if t - listener.lastEventTime < period / 2 {
        t := t + period;
      }
    }

    method GatherCallbackInvocations(now: int) returns (invocations: seq<Invocation>)
      requires period > 0
      modifies this`listeners
      ensures |listeners| == |old(listeners)|
      ensures forall i :: 0 <= i < |listeners| ==> listeners[i] == Gathered(CurrentModel(), old(listeners)[i], now)
      ensures invocations == Invocations(CurrentModel(), old(listeners), |old(listeners)|, now)
    {
      hide NextEventTime;
      invocations := [];
      var ref := now - period;
      for i := 0 to |listeners|
        invariant |listeners| == |old(listeners)|
        invariant forall k :: 0 <= k < i ==> listeners[k] == Gathered(CurrentModel(), old(listeners)[k], now)
        invariant forall k :: i <= k < |listeners| ==> listeners[k] == old(listeners)[k]
        invariant invocations == Invocations(CurrentModel(), old(listeners), i, now)
      {
        var t := ComputeListenerNextEventTime(listeners[i], ref);
        if t < now {
          invocations := invocations + [Invocation(listeners[i].callback, t)];
          listeners := listeners[i := listeners[i].(lastEventTime := t)];
        }
      }
    }
  }

  const MAX_TIME: int := 0x7FFF_FFFF_FFFF_FFFF

  // ---------- spacing over whole runs ----------

  /** What can happen to a listener: the model is updated, or events are gathered. */
  datatype Step = UpdateModel(period: int, phase: int) | Gather(now: int)

  /** An event with the period it was fired under and the number of updates before it. */
  datatype Fired = Fired(time: int, period: int, updates: nat)

  datatype State = State(model: Model, listener: EventListener, updates: nat, fired: seq<Fired>)

  /** With a zero period the thread waits, so that it gathers only with a positive one. */
  predicate Legal(s: State, step: Step) {
    match step
    case UpdateModel(_, _) => true
    case Gather(_) => s.model.period > 0
  }

  function Next(s: State, step: Step): State
    requires Legal(s, step)
  {
    match step
    case UpdateModel(period, phase) => s.(model := Model(period, phase), updates := s.updates + 1)
    case Gather(now) =>
      if Fires(s.model, s.listener, now) then
        s.(listener := Gathered(s.model, s.listener, now),
           fired := s.fired + [Fired(FireTime(s.model, s.listener, now), s.model.period, s.updates)])
      else s
  }

  predicate LegalRun(s: State, steps: seq<Step>)
    decreases |steps|, 0
  {
    steps == [] || (LegalRun(s, steps[..|steps| - 1]) && Legal(Run(s, steps[..|steps| - 1]), steps[|steps| - 1]))
  }

  function Run(s: State, steps: seq<Step>): State
    requires LegalRun(s, steps)
    decreases |steps|, 1
  {
    if steps == [] then s else Next(Run(s, steps[..|steps| - 1]), steps[|steps| - 1])
  }

  /** A newly added listener, perhaps before the first model. */
  function Added(m: Model, phase: int, callback: nat, now: int): State {
    State(m, EventListener(phase, now - TruncDiv(m.period, 2), callback), 0, [])
  }

  predicate Spaced(a: Fired, b: Fired) {
    a.time < b.time && b.time - a.time >= b.period / 2
  }

  /** Events fired under one model are whole periods apart, and in phase. */
  predicate SpacedInPeriods(s: State, a: Fired, b: Fired) {
    a.updates == b.updates ==>
      a.period == b.period > 0 && (b.time - a.time) % b.period == 0 && a.time + b.period <= b.time
  }

  predicate InPhase(s: State, a: Fired) {
    a.updates == s.updates ==>
      a.period == s.model.period > 0 && Congruent(a.time, s.model.phase + s.listener.phase, a.period)
  }

  predicate Inv(s: State) {
    && (s.fired != [] ==> s.listener.lastEventTime == s.fired[|s.fired| - 1].time)
    && (forall i :: 0 <= i < |s.fired| ==> s.fired[i].updates <= s.updates && s.fired[i].period > 0)
    && (forall i :: 0 <= i < |s.fired| ==> InPhase(s, s.fired[i]))
    && (forall i, j :: 0 <= i < j < |s.fired| ==> Spaced(s.fired[i], s.fired[j]))
    && (forall i, j :: 0 <= i < j < |s.fired| ==> SpacedInPeriods(s, s.fired[i], s.fired[j]))
  }

  lemma GatherKeepsInv(s: State, now: int)
    requires Inv(s) && Legal(s, Gather(now))
    ensures Inv(Next(s, Gather(now)))
  {
    var t := Next(s, Gather(now));
    if Fires(s.model, s.listener, now) {
      var f := Fired(FireTime(s.model, s.listener, now), s.model.period, s.updates);
      NextEventIsDue(s.model, s.listener, now - s.model.period);
      hide NextEventTime, Congruent;
      assert t.fired == s.fired + [f];
      assert InPhase(t, f);
      forall i | 0 <= i < |s.fired|
        ensures Spaced(s.fired[i], f) && SpacedInPeriods(t, s.fired[i], f)
      {
        assert i < |s.fired| - 1 ==> Spaced(s.fired[i], s.fired[|s.fired| - 1]);
        if s.fired[i].updates == s.updates {
          assert InPhase(s, s.fired[i]);
          CongruentApart(s.fired[i].time, f.time, s.model.phase + s.listener.phase, s.model.period);
        }
      }
    }
  }

  lemma {:induction false} RunKeepsInv(s: State, steps: seq<Step>)
    requires Inv(s) && LegalRun(s, steps)
    ensures Inv(Run(s, steps))
  {
    if steps != [] {
      RunKeepsInv(s, steps[..|steps| - 1]);
      match steps[|steps| - 1] {
        case Gather(now) => GatherKeepsInv(Run(s, steps[..|steps| - 1]), now);
        case UpdateModel(_, _) =>
      }
    }
  }

  /** On every run, whatever the model updates, fired times increase and are at least half
      the period apart that was current at the later one; between events of one model they
      are exact multiples of the period apart. */
  lemma EventsAreSpaced(m: Model, phase: int, callback: nat, now: int, steps: seq<Step>, i: nat, j: nat)
    requires LegalRun(Added(m, phase, callback, now), steps)
    requires i < j < |Run(Added(m, phase, callback, now), steps).fired|
    ensures var fired := Run(Added(m, phase, callback, now), steps).fired;
            && fired[i].time < fired[j].time
            && fired[j].time - fired[i].time >= fired[j].period / 2
            && (fired[i].updates == fired[j].updates ==>
                  && fired[i].period == fired[j].period > 0
                  && (fired[j].time - fired[i].time) % fired[j].period == 0)
  {
    RunKeepsInv(Added(m, phase, callback, now), steps);
    var s := Run(Added(m, phase, callback, now), steps);
    assert Spaced(s.fired[i], s.fired[j]) && SpacedInPeriods(s, s.fired[i], s.fired[j]);
  }

  // ---------- which events are fired ----------

  /** The event at t is due in the period before now, whose times are seen rightly because
      neither the start of that period nor the last event lies before the phase. */
  predicate DueAt(m: Model, l: EventListener, now: int, t: int)
    requires m.period > 0
  {
    && Due(m, l, now - m.period, t) && t < now
    && (now - m.period >= m.phase + l.phase || l.lastEventTime >= m.phase + l.phase)
  }

  /** In a period there is one time of the right phase at most. */
  lemma OneDueAt(m: Model, l: EventListener, now: int, t: int, u: int)
    requires m.period > 0 && DueAt(m, l, now, t) && DueAt(m, l, now, u)
    ensures t == u
  {
    hide Congruent;
    if t < u {
      CongruentApart(t, u, m.phase + l.phase, m.period);
    } else if u < t {
      CongruentApart(u, t, m.phase + l.phase, m.period);
    }
  }

  /** An event fires if and only if it is due so. */
  lemma FiresIff(m: Model, l: EventListener, now: int, t: int)
    requires m.period > 0
    ensures Fires(m, l, now) && FireTime(m, l, now) == t <==> DueAt(m, l, now, t)
  {
    var ref := now - m.period;
    var r, phase := Max(ref, l.lastEventTime), m.phase + l.phase;
    var u := FirstAfter(r, phase, m.period);
    NextEventIsDue(m, l, ref);
    RoundedTime(r, phase, m.period);
    FirstAfterIsFirst(r, phase, m.period);
    if r < phase {
      BeforePhaseIsLate(r, phase, m.period);
    }
    hide Congruent, FirstAfter, TruncDiv, Skips;
    if DueAt(m, l, now, t) && u < t {
      CongruentApart(u, t, phase, m.period);
    }
  }

  /** A gathering calls back exactly the listeners with an event due so, in their order, each
      once and with the time of that event. */
  lemma {:induction false} InvokedIff(m: Model, listeners: seq<EventListener>, n: nat, now: int)
    returns (who: seq<nat>)
    requires m.period > 0 && n <= |listeners|
    ensures |who| == |Invocations(m, listeners, n, now)|
    ensures forall k :: 0 <= k < |who| ==>
              var x := Invocations(m, listeners, n, now)[k];
              && who[k] < n && x.callback == listeners[who[k]].callback
              && DueAt(m, listeners[who[k]], now, x.eventTime)
    ensures forall j, k :: 0 <= j < k < |who| ==> who[j] < who[k]
    ensures forall i, t :: 0 <= i < n && DueAt(m, listeners[i], now, t) ==> i in who
  {
    who := [];
    if n > 0 {
      var l := listeners[n - 1];
      var before := InvokedIff(m, listeners, n - 1, now);
      FiresIff(m, l, now, FireTime(m, l, now));
      forall t | DueAt(m, l, now, t)
        ensures Fires(m, l, now)
      {
        FiresIff(m, l, now, t);
      }
      hide DueAt, FireTime, Fires;
      who := before + (if Fires(m, l, now) then [n - 1] else []);
    }
  }

  /** The last event of a listener becomes the one that is due so, if there is one. */
  lemma GatheredIff(m: Model, l: EventListener, now: int)
    requires m.period > 0
    ensures forall t :: DueAt(m, l, now, t) ==> Gathered(m, l, now) == l.(lastEventTime := t)
    ensures (forall t :: !DueAt(m, l, now, t)) ==> Gathered(m, l, now) == l
  {
    forall t
      ensures DueAt(m, l, now, t) <==> Fires(m, l, now) && FireTime(m, l, now) == t
    {
      FiresIff(m, l, now, t);
    }
    hide DueAt, FireTime, Fires;
    assert Fires(m, l, now) ==> DueAt(m, l, now, FireTime(m, l, now));
  }

  /** Gathering at any time within a period after an announced event fires it if and only if
      by then, or at its last event, the listener's phase has been reached. */
  lemma AnnouncedIsFiredIff(m: Model, l: EventListener, ref: int, now: int)
    requires m.period > 0
    requires NextEventTime(m, l, ref) < now < NextEventTime(m, l, ref) + m.period
    ensures var t := NextEventTime(m, l, ref);
            DueAt(m, l, now, t) <==> now - m.period >= m.phase + l.phase || l.lastEventTime >= m.phase + l.phase
  {
    NextEventIsDue(m, l, ref);
    hide NextEventTime, Congruent;
  }

  /** An event announced for 15 is not fired at 16, the listener's phase lying ahead. */
  lemma AnnouncedIsNotFired()
    ensures var m := Model(10, 0); var l := EventListener(25, -5, 0);
            && NextEventTime(m, l, 2) == 15 && Gathered(m, l, 16) == l
            && forall t :: !DueAt(m, l, 16, t)
  {
    var m, l := Model(10, 0), EventListener(25, -5, 0);
    assert NextEventTime(m, l, 2) == 15;
    GatheredIff(m, l, 16);
    hide Due, NextEventTime, Gathered;
  }

  /** Before the phase the time computed lies a period or more ahead. */
  lemma BeforePhaseIsLate(r: int, phase: int, period: int)
    requires period > 0 && r < phase
    ensures FirstAfter(r, phase, period) + (if Skips(r, phase, period) then period else 0) >= r + period
  {
    NegativeRemainder(phase - r, period);
    assert -(phase - r) == r - phase;
  }

  /** An event that is fired was due within the last period. */
  lemma FiredWithinLastPeriod(m: Model, l: EventListener, now: int)
    requires m.period > 0 && Fires(m, l, now)
    ensures now - m.period < FireTime(m, l, now) < now && FireTime(m, l, now) > l.lastEventTime
  {
    NextEventIsDue(m, l, now - m.period);
  }

  /** A new listener's first event is never before its registration and, unless the phase
      lies ahead, it is the first time of its phase that is neither before the registration
      nor at or before the reference. */
  lemma FirstEventNotInPast(m: Model, phase: int, callback: nat, added: int, ref: int)
    requires m.period > 0
    ensures var l := EventListener(phase, added - m.period / 2, callback); var r := Max(ref, l.lastEventTime);
            && NextEventTime(m, l, ref) >= added
            && (m.period > 1 && m.phase + phase <= r ==>
                  NextEventTime(m, l, ref) == FirstAfter(Max(ref, added - 1), m.phase + phase, m.period))
  {
    var l := EventListener(phase, added - m.period / 2, callback);
    var t := FirstAfter(Max(ref, added - 1), m.phase + phase, m.period);
    NextEventIsDue(m, l, ref);
    NextEventIsFirstDueIff(m, l, ref);
    FirstAfterIsFirst(Max(ref, added - 1), m.phase + phase, m.period);
    hide NextEventTime, FirstAfter, Congruent;
    assert m.period > 1 ==> Due(m, l, ref, t);
  }
}
