/**
  The dual-timescale NLMS latency predictor as a function on values, with two results
  about whole runs: bounded inputs keep every parameter bounded, and on noise-free data
  an energy falls by a fixed multiple of every squared error.
 */
module Nlms {
  import opened Constants
  import opened RealArith

  datatype Predictor = Predictor(
    fast: real,
    slow: real,
    intercept: real,
    avgLatency: real,
    interference: seq<real>,
    histIdx: nat,
    sumSquared: real,
    sumAbs: real,
    sumRel: real,
    updates: nat,
    dual: bool,
    frozen: bool)

  /** One completed request as the predictor sees it. */
  datatype Observation = Observation(actual: real, tokens: int, vramMb: int)

  function Registered(slope: real, intercept: real, dual: bool, frozen: bool): Predictor {
    Predictor(slope, slope, intercept, 0.0, [0.0, 0.0, 0.0], 0, 0.0, 0.0, 0.0, 0, dual, frozen)
  }

  function EffectiveSlope(p: Predictor): real {
    if p.dual then FAST_SLOW_BLEND * p.fast + (1.0 - FAST_SLOW_BLEND) * p.slow else p.fast
  }

  /** The line itself, without memory effects. */
  function Line(p: Predictor, tokens: int): real {
    Affine(EffectiveSlope(p), tokens as real, p.intercept)
  }

  function Shortfall(vramMb: int): real {
    (VRAM_SOFT_LIMIT_MB as real - vramMb as real) / VRAM_SOFT_LIMIT_MB as real
  }

  function Slowdown(vramMb: int): (r: real)
    ensures r >= 1.0
  {
    if vramMb < VRAM_SOFT_LIMIT_MB then 1.0 + Shortfall(vramMb) else 1.0
  }

  function Expected(p: Predictor, o: Observation): real {
    Times(Line(p, o.tokens), Slowdown(o.vramMb))
  }

  function Error(p: Predictor, o: Observation): real {
    o.actual - Expected(p, o)
  }

  /** Floats divide by zero to infinity; here that ratio is 0. Reachable predictors never divide by zero. */
  function Ratio(actual: real, predicted: real): real {
    if predicted + 1e-9 == 0.0 then 0.0 else actual / (predicted + 1e-9)
  }

  /** Error statistics and latency average, which frozen predictors keep as well. */
  function Account(p: Predictor, o: Observation): Predictor {
    var err := Error(p, o);
    p.(sumSquared := p.sumSquared + Square(err),
       sumAbs := p.sumAbs + Abs(err),
       sumRel := p.sumRel + Abs(err) / Max(o.actual, 1.0),
       updates := p.updates + 1,
       avgLatency := Average(p.avgLatency, o.actual))
  }

  function Moved(slope: real, mu: real, err: real, tokens: int): real {
    if tokens > 0 then slope + mu * (err / tokens as real) else slope
  }

  function Adapt(p: Predictor, o: Observation): Predictor
    requires p.histIdx < |p.interference|
  {
    var err := Error(p, o);
    var fast := Moved(p.fast, MU_FAST, err, o.tokens);
    var slow := if p.dual then Moved(p.slow, MU_SLOW, err, o.tokens) else if o.tokens > 0 then fast else p.slow;
    p.(fast := Max(fast, INITIAL_SLOPE),
       slow := Max(slow, INITIAL_SLOPE),
       intercept := Max(p.intercept + MU_BIAS * err, MIN_INTERCEPT),
       interference := p.interference[p.histIdx := Ratio(o.actual, Expected(p, o))],
       histIdx := (p.histIdx + 1) % 3)
  }

  function Step(p: Predictor, o: Observation): (q: Predictor)
    requires p.histIdx < 3 == |p.interference|
    ensures q.histIdx < 3 == |q.interference| && q.dual == p.dual && q.frozen == p.frozen
  {
    if p.frozen then Account(p, o)
    else
      var a := Adapt(p, o);
      Account(p, o).(fast := a.fast, slow := a.slow, intercept := a.intercept,
                     interference := a.interference, histIdx := a.histIdx)
  }

  function Reset(p: Predictor): Predictor {
    p.(fast := INITIAL_SLOPE, slow := INITIAL_SLOPE, intercept := INITIAL_INTERCEPT)
  }

  const BANDWIDTH_PENALTY := 1.5

  function Interference(p: Predictor): real
    requires |p.interference| == 3
  {
    var avg := (p.interference[0] + p.interference[1] + p.interference[2]) / 3.0;
    if avg < 1e-9 then 1.0 else avg
  }

  /** What a line costs under memory contention alone. */
  function Contended(base: real, vramMb: int): real {
    if vramMb < VRAM_SOFT_LIMIT_MB then base * Shortfall(vramMb) * BANDWIDTH_PENALTY else 0.0
  }

  function EstimateOf(p: Predictor, tokens: int, vramMb: int): Estimate
    requires |p.interference| == 3
  {
    if 0 < vramMb < VRAM_HARD_LIMIT_MB && tokens > LARGE_REQUEST_TOKENS then Unusable
    else
      var base := Line(p, tokens);
      Ms(Times(Max(base, Contended(base, vramMb)), Max(1.0, Interference(p))))
  }

  // ----- Bounded input, bounded state -----

  /** Slopes, intercept and average latency of a learning predictor that has only seen latencies in (0, limit]. */
  ghost predicate Bounded(p: Predictor, limit: real) {
    && p.histIdx < 3 == |p.interference|
    && !p.frozen
    && INITIAL_SLOPE <= p.fast && INITIAL_SLOPE <= p.slow
    && MIN_INTERCEPT <= p.intercept <= Max(INITIAL_INTERCEPT, limit)
    && 0.0 <= p.avgLatency <= limit
    && if p.dual then p.fast <= Max(INITIAL_SLOPE, 1.25 * limit) && p.slow <= Max(INITIAL_SLOPE, 5.0 * limit)
       else p.slow == p.fast <= Max(INITIAL_SLOPE, limit)
  }

  /** The line stays above its own floors. */
  lemma LinePositive(p: Predictor, tokens: int)
    requires INITIAL_SLOPE <= p.fast && INITIAL_SLOPE <= p.slow && MIN_INTERCEPT <= p.intercept && tokens >= 0
    ensures Line(p, tokens) >= INITIAL_SLOPE * tokens as real + MIN_INTERCEPT
  {
    assert EffectiveSlope(p) >= INITIAL_SLOPE;
    hide EffectiveSlope;
    MulMono(tokens as real, INITIAL_SLOPE, EffectiveSlope(p));
  }

  /** A usable estimate never undercuts the line, and only memory bars a request. */
  lemma EstimateAboveLine(p: Predictor, tokens: int, vramMb: int)
    requires |p.interference| == 3 && tokens >= 0
    requires INITIAL_SLOPE <= p.fast && INITIAL_SLOPE <= p.slow && MIN_INTERCEPT <= p.intercept
    ensures var e := EstimateOf(p, tokens, vramMb);
            && (e.Unusable? <==> 0 < vramMb < VRAM_HARD_LIMIT_MB && tokens > LARGE_REQUEST_TOKENS)
            && (e.Ms? ==> e.value >= Line(p, tokens) >= INITIAL_SLOPE * tokens as real + MIN_INTERCEPT)
  {
    LinePositive(p, tokens);
    hide Times, Line, Interference;
    var base := Line(p, tokens);
    var memory := if vramMb < VRAM_SOFT_LIMIT_MB then base * Shortfall(vramMb) * BANDWIDTH_PENALTY else 0.0;
    TimesGrows(Max(base, memory), Max(1.0, Interference(p)));
  }

  /** An error below limit - line is, per token, below limit - slope. */
  lemma PerToken(limit: real, slope: real, b: real, t: real, err: real)
    requires t >= 1.0 && limit > 0.0 && b > 0.0 && err <= limit - Affine(slope, t, b)
    ensures err / t <= limit - slope
  {
    MulNonNeg(limit, t - 1.0, limit * (t - 1.0));
    assert (limit - slope) * t == limit + limit * (t - 1.0) - slope * t;
    DivLe(err, limit - slope, t);
  }

  /** The error never exceeds what the bare line leaves of the latency bound. */
  lemma ErrorBelow(p: Predictor, o: Observation, limit: real)
    requires Bounded(p, limit) && 0.0 < o.actual <= limit && o.tokens >= 0
    ensures Error(p, o) <= limit - p.intercept
    ensures o.tokens > 0 ==> Error(p, o) / o.tokens as real <= limit - EffectiveSlope(p)
  {
    LinePositive(p, o.tokens);
    LineAboveIntercept(p, o.tokens);
    hide Slowdown, Times, EffectiveSlope, Affine;
    TimesGrows(Line(p, o.tokens), Slowdown(o.vramMb));
    if o.tokens > 0 {
      PerToken(limit, EffectiveSlope(p), p.intercept, o.tokens as real, Error(p, o));
    }
  }

  lemma LineAboveIntercept(p: Predictor, tokens: int)
    requires INITIAL_SLOPE <= p.fast && INITIAL_SLOPE <= p.slow && tokens >= 0
    ensures Line(p, tokens) >= p.intercept
  {
    assert EffectiveSlope(p) >= 0.0;
    hide EffectiveSlope;
    MulNonNeg(EffectiveSlope(p), tokens as real, EffectiveSlope(p) * tokens as real);
  }

  lemma StepBounded(p: Predictor, o: Observation, limit: real)
    requires Bounded(p, limit) && 0.0 < o.actual <= limit && o.tokens >= 0
    ensures Bounded(Step(p, o), limit)
  {
    ErrorBelow(p, o, limit);
    hide Error, Ratio, Expected;
  }

  datatype Event = Observe(o: Observation) | ResetState

  predicate Admissible(ev: Event, limit: real) {
    ev.Observe? ==> 0.0 < ev.o.actual <= limit && ev.o.tokens >= 0
  }

  function Run(p: Predictor, events: seq<Event>): (q: Predictor)
    requires p.histIdx < 3 == |p.interference|
    ensures q.histIdx < 3 == |q.interference|
  {
    if events == [] then p
    else
      var before := Run(p, events[..|events| - 1]);
      match events[|events| - 1]
      case Observe(o) => Step(before, o)
      case ResetState => Reset(before)
  }

  /**
    Main result: bounded latencies keep every parameter bounded on every run, whatever the
    tokens, memory readings and resets.
   */
  lemma {:induction false} BoundedInputBoundedState(dual: bool, events: seq<Event>, limit: real)
    requires limit > 0.0 && forall ev <- events :: Admissible(ev, limit)
    ensures Bounded(Run(Registered(INITIAL_SLOPE, INITIAL_INTERCEPT, dual, false), events), limit)
  {
    if events != [] {
      var p := Registered(INITIAL_SLOPE, INITIAL_INTERCEPT, dual, false);
      var before, ev := events[..|events| - 1], events[|events| - 1];
      BoundedInputBoundedState(dual, before, limit);
      assert ev in events;
      if ev.Observe? {
        StepBounded(Run(p, before), ev.o, limit);
      }
    }
  }

  // ----- Energy decrease on noise-free data -----

  /** A line the workload could truly follow, at one token count. */
  datatype Truth = Truth(slope: real, intercept: real, tokens: int)

  predicate Learnable(w: Truth) {
    w.slope >= INITIAL_SLOPE && w.intercept >= MIN_INTERCEPT && w.tokens >= 1
  }

  function Noiseless(w: Truth, vramMb: int): Observation {
    Observation(w.slope * w.tokens as real + w.intercept, w.tokens, vramMb)
  }

  /** How far a slope is off, in milliseconds on the whole request. */
  function Offset(t: real, v: real, target: real): real {
    t * (v - target)
  }

  /** Distance from the truth in the metric of the learning rates: each weight is share / rate. */
  function Energy(p: Predictor, w: Truth): real {
    var t := w.tokens as real;
    if p.dual then
      8.0 * Square(Offset(t, p.fast, w.slope)) + 20.0 * Square(Offset(t, p.slow, w.slope))
        + 200.0 * Square(Offset(1.0, p.intercept, w.intercept))
    else
      10.0 * Square(Offset(t, p.fast, w.slope)) + 200.0 * Square(Offset(1.0, p.intercept, w.intercept))
  }

  function Decrease(dual: bool): real {
    if dual then 1.913 else 1.895
  }

  lemma DualAlgebra(x: real, y: real, z: real, e: real)
    requires e == -(0.8 * x + 0.2 * y + z)
    ensures 8.0 * Square(x + 0.1 * e) + 20.0 * Square(y + 0.01 * e) + 200.0 * Square(z + 0.005 * e)
            == 8.0 * Square(x) + 20.0 * Square(y) + 200.0 * Square(z) - 1.913 * Square(e)
  {
  }

  lemma SingleAlgebra(x: real, z: real, e: real)
    requires e == -(x + z)
    ensures 10.0 * Square(x + 0.1 * e) + 200.0 * Square(z + 0.005 * e)
            == 10.0 * Square(x) + 200.0 * Square(z) - 1.895 * Square(e)
  {
  }

  /** Raising a value to a floor the target respects brings it no further from the target. */
  lemma FloorContracts(t: real, v: real, floor: real, target: real)
    requires target >= floor && t > 0.0
    ensures Square(Offset(t, Max(v, floor), target)) <= Square(Offset(t, v, target))
  {
    if v < floor {
      MulMono(t, v - target, floor - target);
      MulMono(t, floor - target, 0.0);
      SquareMono(Offset(t, floor, target), Offset(t, v, target));
    }
  }

  lemma MovedOffset(v: real, mu: real, err: real, tokens: int, target: real)
    requires tokens > 0
    ensures Offset(tokens as real, Moved(v, mu, err, tokens), target) == Offset(tokens as real, v, target) + mu * err
  {
    var t := tokens as real;
    var g := err / t;
    assert t * g == err;
    assert t * (v + mu * g - target) == t * (v - target) + mu * (t * g);
  }

  lemma NoiselessError(p: Predictor, w: Truth, vramMb: int)
    requires vramMb >= VRAM_SOFT_LIMIT_MB
    ensures var t := w.tokens as real;
            var x, y, z := Offset(t, p.fast, w.slope), Offset(t, p.slow, w.slope),
              Offset(1.0, p.intercept, w.intercept);
            Error(p, Noiseless(w, vramMb)) == -(if p.dual then 0.8 * x + 0.2 * y + z else x + z)
  {
  }

  /**
    One update on noise-free data loses at least 1.913 (dual) or 1.895 (single) times the
    squared error, floors included.
   */
  lemma EnergyFalls(p: Predictor, w: Truth, vramMb: int)
    requires p.histIdx < 3 == |p.interference| && !p.frozen && Learnable(w) && vramMb >= VRAM_SOFT_LIMIT_MB
    ensures Energy(Step(p, Noiseless(w, vramMb)), w)
            <= Energy(p, w) - Decrease(p.dual) * Square(Error(p, Noiseless(w, vramMb)))
  {
    hide Error, Square, Offset, Moved;
    var t, e := w.tokens as real, Error(p, Noiseless(w, vramMb));
    var x, y, z := Offset(t, p.fast, w.slope), Offset(t, p.slow, w.slope), Offset(1.0, p.intercept, w.intercept);
    NoiselessError(p, w, vramMb);
    MovedOffset(p.fast, MU_FAST, e, w.tokens, w.slope);
    FloorContracts(t, Moved(p.fast, MU_FAST, e, w.tokens), INITIAL_SLOPE, w.slope);
    BiasOffset(p.intercept, e, w.intercept);
    FloorContracts(1.0, p.intercept + MU_BIAS * e, MIN_INTERCEPT, w.intercept);
    if p.dual {
      MovedOffset(p.slow, MU_SLOW, e, w.tokens, w.slope);
      FloorContracts(t, Moved(p.slow, MU_SLOW, e, w.tokens), INITIAL_SLOPE, w.slope);
      DualAlgebra(x, y, z, e);
    } else {
      SingleAlgebra(x, z, e);
    }
  }

  lemma BiasOffset(b: real, e: real, target: real)
    ensures Offset(1.0, b + MU_BIAS * e, target) == Offset(1.0, b, target) + MU_BIAS * e
  {
  }

  /** A run of noise-free observations at fixed token count, one per memory reading. */
  function NoiselessRun(p: Predictor, w: Truth, vrams: seq<int>): (q: Predictor)
    requires p.histIdx < 3 == |p.interference|
    ensures q.histIdx < 3 == |q.interference| && q.dual == p.dual && q.frozen == p.frozen
  {
    if vrams == [] then p
    else Step(NoiselessRun(p, w, vrams[..|vrams| - 1]), Noiseless(w, vrams[|vrams| - 1]))
  }

  /** Main result: the total squared error of any noise-free run is paid for by the initial energy. */
  lemma {:induction false} TotalSquaredError(p: Predictor, w: Truth, vrams: seq<int>)
    requires p.histIdx < 3 == |p.interference| && !p.frozen && Learnable(w)
    requires forall v <- vrams :: v >= VRAM_SOFT_LIMIT_MB
    ensures var q := NoiselessRun(p, w, vrams);
            0.0 <= Decrease(p.dual) * (q.sumSquared - p.sumSquared) + Energy(q, w) <= Energy(p, w)
    ensures NoiselessRun(p, w, vrams).sumSquared >= p.sumSquared
  {
    hide Energy, Error, Square, Ratio, Adapt;
    EnergyNonNeg(NoiselessRun(p, w, vrams), w);
    if vrams != [] {
      var before, v := vrams[..|vrams| - 1], vrams[|vrams| - 1];
      assert v in vrams && forall u <- before :: u in vrams;
      TotalSquaredError(p, w, before);
      var b := NoiselessRun(p, w, before);
      EnergyFalls(b, w, v);
      SquareAtLeastZero(Error(b, Noiseless(w, v)));
    }
  }

  lemma EnergyNonNeg(p: Predictor, w: Truth)
    ensures Energy(p, w) >= 0.0
  {
    var t := w.tokens as real;
    SquareAtLeastZero(Offset(t, p.fast, w.slope));
    SquareAtLeastZero(Offset(t, p.slow, w.slope));
    SquareAtLeastZero(Offset(1.0, p.intercept, w.intercept));
  }

  /** How often a noise-free run predicts wrongly by at least eps. */
  function Misses(p: Predictor, w: Truth, vrams: seq<int>, eps: real): nat
    requires p.histIdx < 3 == |p.interference|
  {
    if vrams == [] then 0
    else
      var before, v := vrams[..|vrams| - 1], vrams[|vrams| - 1];
      Misses(p, w, before, eps) + if Abs(Error(NoiselessRun(p, w, before), Noiseless(w, v))) >= eps then 1 else 0
  }

  lemma {:induction false} MissesAreSquaredError(p: Predictor, w: Truth, vrams: seq<int>, eps: real)
    requires p.histIdx < 3 == |p.interference| && eps > 0.0
    ensures Times(Misses(p, w, vrams, eps) as real, Square(eps)) <= NoiselessRun(p, w, vrams).sumSquared - p.sumSquared
  {
    if vrams != [] {
      hide Error, Square, Times, Adapt;
      var before, v := vrams[..|vrams| - 1], vrams[|vrams| - 1];
      MissesAreSquaredError(p, w, before, eps);
      var e := Error(NoiselessRun(p, w, before), Noiseless(w, v));
      SquareAtLeastZero(e);
      if Abs(e) >= eps {
        SquareMono(eps, e);
      }
      TimesSucc(Misses(p, w, before, eps) as real, Square(eps));
    }
  }

  /** Errors of any given size die out: at most Energy / (1.913·eps²) of them ever occur. */
  lemma FiniteMisses(p: Predictor, w: Truth, vrams: seq<int>, eps: real)
    requires p.histIdx < 3 == |p.interference| && !p.frozen && Learnable(w)
    requires eps > 0.0 && forall v <- vrams :: v >= VRAM_SOFT_LIMIT_MB
    ensures Decrease(p.dual) * Times(Misses(p, w, vrams, eps) as real, Square(eps)) <= Energy(p, w)
  {
    hide Energy, Square, Times, NoiselessRun;
    TotalSquaredError(p, w, vrams);
    EnergyNonNeg(NoiselessRun(p, w, vrams), w);
    MissesAreSquaredError(p, w, vrams, eps);
  }
}
