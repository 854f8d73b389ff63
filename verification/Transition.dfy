/**
  The scene-transition state machine of the sketch, as values.

  The state is the index of the scene shown, the re-entry guard and the
  blend value. Three kinds of event change it: a wheel gesture (with the
  direction the intent filter reports, 0 for "no intent"), a write of the
  blend value by the running tween, and the tween's completion callback.
  The class in Sketch.dfy is proved against these functions.
 */
module Transition {
  import opened SceneIndex

  datatype State = State(current: nat, transitioning: bool, progress: real)

  /** The state the sketch starts in. */
  const Initial: State := State(0, false, 0.0)

  /** What happens to the state. The tween's blend writes carry the value written. */
  datatype Event = Wheel(dir: int) | Tween(value: real) | Done

  /**
    The invariant of the state machine for `n` scenes: the index is a scene,
    the blend value stays in [0, 1], and it is exactly 0 whenever no
    transition is in flight.
   */
  predicate Valid(s: State, n: nat): (b: bool)
    ensures b ==> n > 0 && 0 <= NextIndex(s.current, n) < n
    ensures b && n >= 2 ==> NextIndex(s.current, n) != s.current
  {
    && n > 0
    && s.current < n
    && 0.0 <= s.progress <= 1.0
    && (!s.transitioning ==> s.progress == 0.0)
  }

  /** The intent filter's result is acted upon when it is truthy, whatever its sign. */
  predicate Intentional(dir: int)
  {
    dir != 0
  }

  /** The wheel handler: an intentional gesture while idle starts a transition. */
  function OnWheel(s: State, dir: int): (t: State)
    ensures t.current == s.current && t.progress == s.progress
    ensures t.transitioning <==> s.transitioning || Intentional(dir)
  {
    if Intentional(dir) && !s.transitioning then s.(transitioning := true) else s
  }

  /** The tween writes a new blend value; nothing else changes. */
  function OnTween(s: State, value: real): (t: State)
    ensures t.current == s.current && t.transitioning == s.transitioning
    ensures t.progress == value
  {
    s.(progress := value)
  }

  /** The completion callback: clear the guard, advance the index, reset the blend. */
  function OnDone(s: State, n: nat): (t: State)
    requires n > 0
    ensures !t.transitioning && t.progress == 0.0
    ensures t.current < n
    ensures s.current < n - 1 ==> t.current == s.current + 1
    ensures s.current == n - 1 ==> t.current == 0
  {
    State(AdvanceIndex(s.current, n), false, 0.0)
  }

  function Step(s: State, e: Event, n: nat): State
    requires n > 0
  {
    match e
    case Wheel(dir) => OnWheel(s, dir)
    case Tween(value) => OnTween(s, value)
    case Done => OnDone(s, n)
  }

  /**
    Whether an event can arrive in a state. This is an assumption about the
    foreign tween: it only writes values in [0, 1] and only completes while
    it is running, which is exactly while the guard is set. Gestures can
    arrive at any time.
   */
  predicate Enabled(s: State, e: Event): (b: bool)
    ensures e.Wheel? ==> b
    ensures b && !e.Wheel? ==> s.transitioning
    ensures b && e.Tween? ==> 0.0 <= e.value <= 1.0
  {
    match e
    case Wheel(_) => true
    case Tween(value) => s.transitioning && 0.0 <= value <= 1.0
    case Done => s.transitioning
  }

  /** The state after a sequence of events. */
  function Run(s: State, evs: seq<Event>, n: nat): State
    requires n > 0
    decreases |evs|
  {
    if evs == [] then s else Run(Step(s, evs[0], n), evs[1..], n)
  }

  /** Whether every event of the sequence can arrive in the state it finds. */
  predicate Feasible(s: State, evs: seq<Event>, n: nat)
    requires n > 0
    decreases |evs|
  {
    evs == [] || (Enabled(s, evs[0]) && Feasible(Step(s, evs[0], n), evs[1..], n))
  }

  /** How many completions a sequence holds. */
  function Completions(evs: seq<Event>): nat
    decreases |evs|
  {
    if evs == [] then 0 else (if evs[0].Done? then 1 else 0) + Completions(evs[1..])
  }

  /** How many gestures along the run start a tween. */
  function Starts(s: State, evs: seq<Event>, n: nat): nat
    requires n > 0
    decreases |evs|
  {
    if evs == [] then 0
    else
      var started := if evs[0].Wheel? && Intentional(evs[0].dir) && !s.transitioning then 1 else 0;
      started + Starts(Step(s, evs[0], n), evs[1..], n)
  }

  // ---------------------------------------------------------------------
  // One event at a time

  /** A gesture without intent, or one arriving during a transition, changes nothing. */
  lemma GestureIgnored(s: State, dir: int)
    requires !Intentional(dir) || s.transitioning
    ensures OnWheel(s, dir) == s
  {
  }

  /** An accepted gesture sets the guard and leaves the index and the blend alone. */
  lemma GestureAccepted(s: State, dir: int)
    requires Intentional(dir) && !s.transitioning
    ensures OnWheel(s, dir).transitioning
    ensures OnWheel(s, dir).current == s.current
    ensures OnWheel(s, dir).progress == s.progress
  {
  }

  /** The sign of the direction is never looked at: every intentional direction acts alike. */
  lemma DirectionIgnored(s: State, d1: int, d2: int)
    requires Intentional(d1) && Intentional(d2)
    ensures OnWheel(s, d1) == OnWheel(s, d2)
  {
  }

  /**
    Completion clears the guard, resets the blend to exactly 0 and moves to
    the index the frame was already blending towards.
   */
  lemma CompletionAdvances(s: State, n: nat)
    requires Valid(s, n)
    ensures !OnDone(s, n).transitioning
    ensures OnDone(s, n).progress == 0.0
    ensures OnDone(s, n).current == NextIndex(s.current, n)
    ensures OnDone(s, n).current == (s.current + 1) % n
  {
  }

  /** Every enabled event keeps the invariant. */
  lemma StepPreservesValid(s: State, e: Event, n: nat)
    requires Valid(s, n) && Enabled(s, e)
    ensures Valid(Step(s, e, n), n)
  {
  }

  // ---------------------------------------------------------------------
  // Whole runs

  /** Every feasible run from a valid state ends in a valid state. */
  lemma {:induction false} RunPreservesValid(s: State, evs: seq<Event>, n: nat)
    requires Valid(s, n) && Feasible(s, evs, n)
    ensures Valid(Run(s, evs, n), n)
    decreases |evs|
  {
    if evs != [] {
      StepPreservesValid(s, evs[0], n);
      RunPreservesValid(Step(s, evs[0], n), evs[1..], n);
    }
  }

  /**
    Only completions move the index, each by one scene: after any run the
    index is the start index plus the number of completions, modulo `n`.
   */
  lemma {:induction false} RunAdvancesByCompletions(s: State, evs: seq<Event>, n: nat)
    requires n > 0 && s.current < n
    ensures Run(s, evs, n).current == (s.current + Completions(evs)) % n
    decreases |evs|
  {
    if evs != [] {
      var t := Step(s, evs[0], n);
      var k := Completions(evs[1..]);
      RunAdvancesByCompletions(t, evs[1..], n);
      assert Run(s, evs, n).current == (t.current + k) % n;
      if evs[0].Done? {
        assert Completions(evs) == 1 + k;
        CompletionShift(s.current, k, n);
      } else {
        assert Completions(evs) == k;
      }
    }
  }

  /** A completion followed by `k` more is `1 + k` advances modulo `n`. */
  lemma {:induction false} CompletionShift(c: nat, k: nat, n: nat)
    requires c < n
    ensures (AdvanceIndex(c, n) + k) % n == (c + 1 + k) % n
  {
    assert c % n == c;
    AdvanceStep(c, n);
    ShiftMod(c + 1, k, n);
  }

  /** Adding to a number only through its remainder does not change the result modulo `n`. */
  lemma {:induction false} ShiftMod(a: nat, k: nat, n: nat)
    requires n > 0
    ensures (a % n + k) % n == (a + k) % n
  {
    var q := a / n;
    assert a == q * n + a % n;
    var m := a % n + k;
    assert a + k == q * n + m;
    assert m == (m / n) * n + m % n;
    assert a + k == (q + m / n) * n + m % n by {
      assert q * n + (m / n) * n == (q + m / n) * n;
    }
    RemainderUnique(a + k, q + m / n, n, m % n);
  }

  /**
    Only one tween is ever in flight: along any feasible run, every started
    tween completes exactly once, except the one still running at the end.
   */
  lemma {:induction false} OneTweenInFlight(s: State, evs: seq<Event>, n: nat)
    requires n > 0 && Feasible(s, evs, n)
    ensures Starts(s, evs, n) + (if s.transitioning then 1 else 0)
         == Completions(evs) + (if Run(s, evs, n).transitioning then 1 else 0)
    decreases |evs|
  {
    if evs != [] {
      OneTweenInFlight(Step(s, evs[0], n), evs[1..], n);
    }
  }

  /** Starting from the initial state, the index after a run is the number of completions modulo `n`. */
  lemma {:induction false} IndexCountsCompletions(evs: seq<Event>, n: nat)
    requires n > 0
    ensures Run(Initial, evs, n).current == Completions(evs) % n
  {
    RunAdvancesByCompletions(Initial, evs, n);
  }

  /**
    Two gestures in one transition window followed by one completion advance
    the index by exactly one scene and leave the machine idle.
   */
  lemma {:induction false} DoubleGestureAdvancesOnce(s: State, d1: int, d2: int, n: nat)
    requires Valid(s, n) && !s.transitioning && Intentional(d1)
    ensures Feasible(s, [Wheel(d1), Wheel(d2), Done], n)
    ensures Run(s, [Wheel(d1), Wheel(d2), Done], n).current == (s.current + 1) % n
    ensures !Run(s, [Wheel(d1), Wheel(d2), Done], n).transitioning
    ensures Starts(s, [Wheel(d1), Wheel(d2), Done], n) == 1
  {
    var evs := [Wheel(d1), Wheel(d2), Done];
    var s1 := Step(s, Wheel(d1), n);
    var s2 := Step(s1, Wheel(d2), n);
    assert s2 == s1 == s.(transitioning := true);
    assert evs[1..] == [Wheel(d2), Done] && evs[1..][1..] == [Done] && [Done][1..] == [];
    assert Run(s, evs, n) == Run(s2, [Done], n) == OnDone(s2, n);
    assert Starts(s, evs, n) == 1 + Starts(s1, [Wheel(d2), Done], n);
    assert Feasible(s2, [Done], n);
  }

  /** With the program's three scenes, three full transitions from the start return to scene 0. */
  lemma {:induction false} ThreeTransitionsReturnToFirst(d1: int, d2: int, d3: int)
    requires Intentional(d1) && Intentional(d2) && Intentional(d3)
    ensures Feasible(Initial, [Wheel(d1), Done, Wheel(d2), Done, Wheel(d3), Done], |ScenesData|)
    ensures Run(Initial, [Wheel(d1), Done, Wheel(d2), Done, Wheel(d3), Done], |ScenesData|) == Initial
  {
    var n := |ScenesData|;
    var evs := [Wheel(d1), Done, Wheel(d2), Done, Wheel(d3), Done];
    var tail := evs[2..];
    assert evs[1..][1..] == tail == [Wheel(d2), Done, Wheel(d3), Done];
    assert tail[1..][1..] == [Wheel(d3), Done];
    assert [Wheel(d3), Done][1..] == [Done] && [Done][1..] == [];
    var s1 := State(1, false, 0.0);
    var s2 := State(2, false, 0.0);
    assert Run(Initial, evs, n) == Run(s1, tail, n);
    assert Run(s1, tail, n) == Run(s2, [Wheel(d3), Done], n);
    assert Feasible(s2, [Wheel(d3), Done], n);
    assert Feasible(s1, tail, n);
    assert Run(s2, [Wheel(d3), Done], n) == Run(State(2, true, 0.0), [Done], n) == OnDone(State(2, true, 0.0), n);
    assert AdvanceIndex(2, n) == 0;
  }
}
