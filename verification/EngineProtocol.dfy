/**
  Any number of request threads interleaving on one mock engine: each arrives, then
  spins until it may start, then serves and releases. Safety in every interleaving,
  and an exact account of when the engine drains and when it is stuck for good.
 */
module EngineProtocol {
  import opened EngineState

  type Thread = nat

  /** The engine, the threads that have arrived but not started, and those being served. */
  datatype System = System(engine: Engine, arrived: set<Thread>, serving: set<Thread>)

  /** A failed pass of the start loop changes nothing, so only successful starts are steps. */
  datatype Action = Arrive(t: Thread, key: string) | Begin(t: Thread) | Finish(t: Thread) | ResetStats

  function Initial(maxConcurrency: int): System {
    System(Fresh(maxConcurrency), {}, {})
  }

  predicate Enabled(s: System, a: Action) {
    match a
    case Arrive(t, _) => t !in s.arrived && t !in s.serving
    case Begin(t) => t in s.arrived && CanStart(s.engine)
    case Finish(t) => t in s.serving
    case ResetStats => true
  }

  function Do(s: System, a: Action): System
    requires Enabled(s, a)
  {
    match a
    case Arrive(t, key) => System(Admit(s.engine, key), s.arrived + {t}, s.serving)
    case Begin(t) => System(Start(s.engine), s.arrived - {t}, s.serving + {t})
    case Finish(t) => System(Release(s.engine), s.arrived, s.serving - {t})
    case ResetStats => s.(engine := DebugReset(s.engine))
  }

  predicate IsRun(s: System, actions: seq<Action>)
    decreases |actions|
  {
    actions != [] ==> Enabled(s, actions[0]) && IsRun(Do(s, actions[0]), actions[1..])
  }

  function After(s: System, actions: seq<Action>): System
    requires IsRun(s, actions)
    decreases |actions|
  {
    if actions == [] then s else After(Do(s, actions[0]), actions[1..])
  }

  // ----- Safety -----

  ghost predicate Safe(s: System) {
    var e := s.engine;
    && s.arrived !! s.serving
    && |s.serving| <= e.running <= Larger(0, e.maxConcurrency)
    && 0 <= e.waiting <= |s.arrived|
    && e.running + e.waiting == |s.arrived| + |s.serving|
    && e.hits + |e.seen| == e.queries
    && 0 <= e.peakRunning <= Larger(0, e.maxConcurrency)
  }

  lemma ArriveSafe(s: System, t: Thread, key: string)
    requires Safe(s) && Enabled(s, Arrive(t, key))
    ensures Safe(Do(s, Arrive(t, key)))
  {
    assert |s.arrived + {t}| == |s.arrived| + 1;
    if key in s.engine.seen {
      assert s.engine.seen + {key} == s.engine.seen;
    } else {
      assert |s.engine.seen + {key}| == |s.engine.seen| + 1;
    }
  }

  lemma BeginSafe(s: System, t: Thread)
    requires Safe(s) && Enabled(s, Begin(t))
    ensures Safe(Do(s, Begin(t)))
  {
    assert |s.arrived - {t}| == |s.arrived| - 1 && |s.serving + {t}| == |s.serving| + 1;
  }

  lemma StepSafe(s: System, a: Action)
    requires Safe(s) && Enabled(s, a)
    ensures Safe(Do(s, a))
    ensures Do(s, a).engine.maxConcurrency == s.engine.maxConcurrency
  {
    match a
    case Arrive(t, key) =>
      ArriveSafe(s, t, key);
    case Begin(t) =>
      BeginSafe(s, t);
    case Finish(t) =>
      assert |s.serving - {t}| == |s.serving| - 1;
    case ResetStats =>
  }

  /** From any safe state, every interleaving stays safe. */
  lemma {:induction false} RunSafe(s: System, actions: seq<Action>)
    requires Safe(s) && IsRun(s, actions)
    ensures Safe(After(s, actions)) && After(s, actions).engine.maxConcurrency == s.engine.maxConcurrency
    decreases |actions|
  {
    if actions != [] {
      StepSafe(s, actions[0]);
      RunSafe(Do(s, actions[0]), actions[1..]);
    }
  }

  /**
    Main safety result: in every interleaving the served never exceed the slots and no request
    is lost from the counts.
   */
  lemma SlotSafety(maxConcurrency: int, actions: seq<Action>)
    requires IsRun(Initial(maxConcurrency), actions)
    ensures var s := After(Initial(maxConcurrency), actions);
            && |s.serving| <= s.engine.running <= Larger(0, maxConcurrency)
            && s.engine.running + s.engine.waiting == |s.arrived| + |s.serving|
            && s.engine.hits + |s.engine.seen| == s.engine.queries
            && s.engine.peakRunning <= Larger(0, maxConcurrency)
  {
    RunSafe(Initial(maxConcurrency), actions);
  }

  /** The clamp in release is never needed: a finishing thread always gives back a counted slot. */
  lemma ReleaseNeverClamps(maxConcurrency: int, actions: seq<Action>, t: Thread)
    requires IsRun(Initial(maxConcurrency), actions)
    requires t in After(Initial(maxConcurrency), actions).serving
    ensures var s := After(Initial(maxConcurrency), actions);
            Do(s, Finish(t)).engine.running == s.engine.running - 1
  {
    RunSafe(Initial(maxConcurrency), actions);
    var s := After(Initial(maxConcurrency), actions);
    assert |s.serving - {t}| == |s.serving| - 1;
  }

  // ----- Draining -----

  /** All slots are held by threads that have not started, and a waiter keeps each of them from starting. */
  predicate Stuck(s: System) {
    s.engine.running >= s.engine.maxConcurrency && s.engine.waiting > 0 && s.serving == {}
  }

  predicate Draining(a: Action) {
    a.Begin? || a.Finish?
  }

  predicate Idle(s: System) {
    s.arrived == {} && s.serving == {}
  }

  /** Successful steps still to come once arrivals stop. */
  function Work(s: System): nat {
    |s.serving| + 2 * |s.arrived|
  }

  lemma DrainingStep(s: System, a: Action)
    requires Safe(s) && Enabled(s, a) && Draining(a)
    ensures Safe(Do(s, a)) && !Stuck(Do(s, a)) && Work(Do(s, a)) == Work(s) - 1
  {
    StepSafe(s, a);
    match a
    case Begin(t) =>
      assert |s.arrived - {t}| == |s.arrived| - 1;
      assert t in Do(s, a).serving;
    case Finish(t) =>
      assert |s.serving - {t}| == |s.serving| - 1;
  }

  /** Some thread can move unless the engine is idle or stuck. */
  lemma Progress(s: System) returns (a: Action)
    requires Safe(s) && !Stuck(s) && !Idle(s)
    ensures Enabled(s, a) && Draining(a)
  {
    if s.serving != {} {
      var t :| t in s.serving;
      a := Finish(t);
    } else {
      assert |s.arrived| > 0;
      var t :| t in s.arrived;
      a := Begin(t);
    }
  }

  ghost predicate Quiet(actions: seq<Action>) {
    forall a <- actions :: Draining(a)
  }

  /** Every arrival-free run spends exactly one unit of work per step, so none is longer than Work. */
  lemma {:induction false} DrainLength(s: System, actions: seq<Action>)
    requires Safe(s) && IsRun(s, actions) && Quiet(actions)
    ensures |actions| + Work(After(s, actions)) == Work(s)
    ensures !Stuck(s) ==> !Stuck(After(s, actions))
    decreases |actions|
  {
    if actions != [] {
      DrainingStep(s, actions[0]);
      DrainLength(Do(s, actions[0]), actions[1..]);
    }
  }

  lemma {:induction false} DrainRun(s: System) returns (actions: seq<Action>)
    requires Safe(s) && !Stuck(s)
    ensures IsRun(s, actions) && Quiet(actions) && Idle(After(s, actions)) && |actions| == Work(s)
    decreases Work(s)
  {
    if Idle(s) {
      actions := [];
    } else {
      var a := Progress(s);
      DrainingStep(s, a);
      var rest := DrainRun(Do(s, a));
      actions := [a] + rest;
      assert actions[1..] == rest;
    }
  }

  ghost predicate Drains(s: System, actions: seq<Action>) {
    IsRun(s, actions) && Quiet(actions) && Idle(After(s, actions))
  }

  /** Main liveness result: once arrivals stop, a reachable engine can empty itself exactly when it is not stuck. */
  lemma DrainsIffNotStuck(maxConcurrency: int, actions: seq<Action>)
    requires IsRun(Initial(maxConcurrency), actions)
    ensures var s := After(Initial(maxConcurrency), actions);
            !Stuck(s) <==> exists rest :: Drains(s, rest)
  {
    RunSafe(Initial(maxConcurrency), actions);
    var s := After(Initial(maxConcurrency), actions);
    if Stuck(s) {
      forall rest ensures !Drains(s, rest) {
        if IsRun(s, rest) {
          StuckForever(s, rest);
        }
      }
    } else {
      var rest := DrainRun(s);
      assert Drains(s, rest);
    }
  }

  /** An arrival-free run that cannot be continued has drained everything, in exactly Work steps. */
  lemma MaximalRunDrains(s: System, actions: seq<Action>)
    requires Safe(s) && !Stuck(s) && IsRun(s, actions) && Quiet(actions)
    requires forall a | Draining(a) :: !Enabled(After(s, actions), a)
    ensures Idle(After(s, actions)) && |actions| == Work(s)
  {
    DrainLength(s, actions);
    RunSafe(s, actions);
    if !Idle(After(s, actions)) {
      var a := Progress(After(s, actions));
    }
  }

  /** A stuck engine stays stuck whatever happens next, further arrivals included, and never serves anyone again. */
  lemma {:induction false} StuckForever(s: System, actions: seq<Action>)
    requires Safe(s) && Stuck(s) && IsRun(s, actions)
    ensures Stuck(After(s, actions)) && s.arrived <= After(s, actions).arrived
    ensures forall a <- actions :: !Draining(a)
    ensures !Idle(After(s, actions))
    decreases |actions|
  {
    if actions == [] {
      assert |s.arrived| > 0;
    } else {
      StepSafe(s, actions[0]);
      StuckForever(Do(s, actions[0]), actions[1..]);
    }
  }

  /** Threads from, from + 1, ... arriving back to back. */
  function Burst(from: nat, k: nat): seq<Action>
    decreases k
  {
    if k == 0 then [] else [Arrive(from, "")] + Burst(from + 1, k - 1)
  }

  ghost predicate OnlyArrived(s: System, from: nat) {
    && Safe(s) && s.serving == {}
    && (forall t <- s.arrived :: t < from)
    && (s.engine.waiting > 0 ==> s.engine.running >= s.engine.maxConcurrency)
  }

  lemma {:induction false} BurstRun(s: System, from: nat, k: nat)
    requires OnlyArrived(s, from)
    ensures IsRun(s, Burst(from, k))
    ensures var s' := After(s, Burst(from, k));
            OnlyArrived(s', from + k) && |s'.arrived| == |s.arrived| + k
              && s'.engine.maxConcurrency == s.engine.maxConcurrency
    decreases k
  {
    if k > 0 {
      var a := Arrive(from, "");
      assert Enabled(s, a) && Burst(from, k)[1..] == Burst(from + 1, k - 1);
      StepSafe(s, a);
      assert |s.arrived + {from}| == |s.arrived| + 1;
      BurstRun(Do(s, a), from + 1, k - 1);
    }
  }

  /**
    For every concurrency limit the stuck state is reachable: one arrival more than there are
    slots, before anyone starts.
   */
  lemma StuckReachable(maxConcurrency: int)
    ensures var burst := Burst(0, Larger(0, maxConcurrency) + 1);
            IsRun(Initial(maxConcurrency), burst) && Stuck(After(Initial(maxConcurrency), burst))
  {
    BurstRun(Initial(maxConcurrency), 0, Larger(0, maxConcurrency) + 1);
  }

  /**
    Which step jams the engine: exactly an arrival while nobody is served that either finds
    no free slot or takes the last one from under a waiter.
   */
  lemma WhatGetsStuck(s: System, a: Action)
    requires Safe(s) && !Stuck(s) && Enabled(s, a)
    ensures Stuck(Do(s, a)) <==>
            && a.Arrive? && s.serving == {}
            && (s.engine.running >= s.engine.maxConcurrency
                || (s.engine.running + 1 == s.engine.maxConcurrency && s.engine.waiting > 0))
  {
    if Draining(a) {
      DrainingStep(s, a);
    }
  }

  /** Ordinary traffic suffices: with one slot, an arrival between a finish and the waiter's start jams the engine. */
  lemma LateArrivalJams()
    ensures var actions := [Arrive(0, "a"), Begin(0), Arrive(1, "b"), Finish(0), Arrive(2, "c")];
            IsRun(Initial(1), actions) && Stuck(After(Initial(1), actions))
  {
    var s0 := Initial(1);
    var s1 := Do(s0, Arrive(0, "a"));
    var s2 := Do(s1, Begin(0));
    var s3 := Do(s2, Arrive(1, "b"));
    var s4 := Do(s3, Finish(0));
    var s5 := Do(s4, Arrive(2, "c"));
    assert s5.engine.running == 1 && s5.engine.waiting == 1 && s5.serving == {};
    var a4 := [Arrive(2, "c")];
    assert IsRun(s4, a4) && After(s4, a4) == s5 by { assert a4[1..] == []; }
    var a3 := [Finish(0)] + a4;
    assert IsRun(s3, a3) && After(s3, a3) == s5 by { assert a3[1..] == a4; }
    var a2 := [Arrive(1, "b")] + a3;
    assert IsRun(s2, a2) && After(s2, a2) == s5 by { assert a2[1..] == a3; }
    var a1 := [Begin(0)] + a2;
    assert IsRun(s1, a1) && After(s1, a1) == s5 by { assert a1[1..] == a2; }
    var a0 := [Arrive(0, "a")] + a1;
    assert IsRun(s0, a0) && After(s0, a0) == s5 by { assert a0[1..] == a1; }
    assert a0 == [Arrive(0, "a"), Begin(0), Arrive(1, "b"), Finish(0), Arrive(2, "c")];
  }
}
