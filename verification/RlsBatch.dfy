/**
  Recursive least squares against its independent definition: the update without floors
  tracks the unique minimiser of the exponentially discounted batch least-squares cost
  with a Gaussian prior. The held parameters equal it until a floor fires, and an update
  without floors never loses or regains it.
 */
module RlsBatch {
  import opened Constants
  import opened RealArith
  import opened Rls

  function RunSamples(samples: seq<Sample>): Model {
    if samples == [] then INITIAL
    else Step(RunSamples(samples[..|samples| - 1]), samples[|samples| - 1])
  }

  /** No update of the run had to raise a parameter to its floor. */
  predicate NoFloor(samples: seq<Sample>) {
    samples != [] ==>
      NoFloor(samples[..|samples| - 1]) && FloorsIdle(RunSamples(samples[..|samples| - 1]), samples[|samples| - 1])
  }

  /** The same recursion without floors. */
  function Ideal(samples: seq<Sample>): Model {
    if samples == [] then INITIAL
    else
      var m, z := Ideal(samples[..|samples| - 1]), samples[|samples| - 1];
      if z.tokens <= 0 then m else m.(slope := Unfloored(m, z).0, intercept := Unfloored(m, z).1,
        p := NextP(m.p, z.tokens as real))
  }

  /** The samples that count: updates without tokens are ignored. */
  function Kept(samples: seq<Sample>): seq<Sample> {
    if samples == [] then []
    else
      var z := samples[|samples| - 1];
      Kept(samples[..|samples| - 1]) + if z.tokens > 0 then [z] else []
  }

  function Power(n: nat): real {
    if n == 0 then 1.0 else LAMBDA * Power(n - 1)
  }

  function Term(weight: real, z: Sample, s: real, b: real): real {
    weight * (Residual(z, s, b) * Residual(z, s, b))
  }

  /** The squared residuals of the first `upto` samples, the newest of all undiscounted. */
  function Discounted(kept: seq<Sample>, upto: nat, s: real, b: real): real
    requires upto <= |kept|
  {
    if upto == 0 then 0.0
    else Discounted(kept, upto - 1, s, b) + Term(Power(|kept| - upto), kept[upto - 1], s, b)
  }

  function PriorCost(s: real, b: real): real {
    ((s - INITIAL_SLOPE) * (s - INITIAL_SLOPE) + (b - INITIAL_INTERCEPT) * (b - INITIAL_INTERCEPT)) / PRIOR_VARIANCE
  }

  /** λⁿ·‖(s, b) - prior‖² / 1000 + Σᵢ λⁿ⁻ⁱ·(yᵢ - s·xᵢ - b)² */
  function Cost(kept: seq<Sample>, s: real, b: real): real {
    Power(|kept|) * PriorCost(s, b) + Discounted(kept, |kept|, s, b)
  }

  lemma {:induction false} DiscountedSnoc(kept: seq<Sample>, z: Sample, upto: nat, s: real, b: real)
    requires upto <= |kept|
    ensures Discounted(kept + [z], upto, s, b) == LAMBDA * Discounted(kept, upto, s, b)
  {
    if upto > 0 {
      DiscountedSnoc(kept, z, upto - 1, s, b);
      TermScales(Power(|kept| - upto), kept[upto - 1], s, b);
      hide Term, Residual;
      assert Power(|kept + [z]| - upto) == LAMBDA * Power(|kept| - upto);
    }
  }

  lemma TermScales(weight: real, z: Sample, s: real, b: real)
    ensures Term(LAMBDA * weight, z, s, b) == LAMBDA * Term(weight, z, s, b)
  {
    hide Residual;
  }

  lemma CostSnoc(kept: seq<Sample>, z: Sample, s: real, b: real)
    ensures Cost(kept + [z], s, b) == LAMBDA * Cost(kept, s, b) + Residual(z, s, b) * Residual(z, s, b)
  {
    hide Residual;
    DiscountedSnoc(kept, z, |kept|, s, b);
    var all, r := kept + [z], Residual(z, s, b) * Residual(z, s, b);
    assert Discounted(all, |all|, s, b) == Discounted(all, |kept|, s, b) + Term(1.0, z, s, b);
    assert Power(|all|) * PriorCost(s, b) == LAMBDA * Power(|kept|) * PriorCost(s, b)
           == LAMBDA * (Power(|kept|) * PriorCost(s, b));
  }

  /** The least cost: each update adds err²·λ/denom to the discounted old minimum. */
  function Minimum(samples: seq<Sample>): real {
    if samples == [] then 0.0
    else
      var m, z := Ideal(samples[..|samples| - 1]), samples[|samples| - 1];
      var before := Minimum(samples[..|samples| - 1]);
      if z.tokens <= 0 then before else Grown(before, Residual(z, m.slope, m.intercept),
        Shrinkage(m.p, z.tokens as real))
  }

  function Grown(before: real, e: real, shrinkage: real): real {
    LAMBDA * before + e * e * shrinkage
  }

  lemma {:induction false} IdealPosDef(samples: seq<Sample>)
    ensures Ideal(samples).p.PosDef()
  {
    hide Unfloored, NextP, Matrix.PosDef;
    if samples == [] {
      PriorQuad(0.0, 0.0);
    } else {
      IdealPosDef(samples[..|samples| - 1]);
      var z := samples[|samples| - 1];
      if z.tokens > 0 {
        StepKeepsPosDef(Ideal(samples[..|samples| - 1]).p, z.tokens as real);
      }
    }
  }

  lemma PriorQuad(s: real, b: real)
    ensures PRIOR.PosDef() && PRIOR.Inverse().Quad(s - INITIAL_SLOPE, b - INITIAL_INTERCEPT) == PriorCost(s, b)
  {
    assert PRIOR.Inverse() == Matrix(1.0 / PRIOR_VARIANCE, 0.0, 0.0, 1.0 / PRIOR_VARIANCE);
  }

  /** One counted update turns the cost into the bowl around the unfloored parameters. */
  lemma CostAfterUpdate(kept: seq<Sample>, m: Model, z: Sample, least: real, s: real, b: real)
    requires m.p.PosDef() && NextP(m.p, z.tokens as real).PosDef()
    requires Cost(kept, s, b) == least + m.p.Inverse().Quad(s - m.slope, b - m.intercept)
    ensures Cost(kept + [z], s, b)
            == Grown(least, Residual(z, m.slope, m.intercept), Shrinkage(m.p, z.tokens as real))
               + NextP(m.p, z.tokens as real).Inverse().Quad(s - Unfloored(m, z).0, b - Unfloored(m, z).1)
  {
    hide Cost, Residual, Shrinkage, NextP, Unfloored, Matrix.Inverse, Matrix.Quad;
    CostSnoc(kept, z, s, b);
    StepCompletesSquare(m, z, s, b);
  }

  /** The whole batch cost is its minimum plus the quadratic bowl around the ideal parameters, on every run. */
  lemma {:induction false} BatchSplit(samples: seq<Sample>, s: real, b: real)
    ensures var m := Ideal(samples);
            && m.p.PosDef()
            && Cost(Kept(samples), s, b) == Minimum(samples) + m.p.Inverse().Quad(s - m.slope, b - m.intercept)
  {
    IdealPosDef(samples);
    if samples == [] {
      PriorQuad(s, b);
    } else {
      hide Cost, Residual, Shrinkage, NextP, Grown, Unfloored, Matrix.PosDef, Matrix.Inverse, Matrix.Quad;
      var before, z := samples[..|samples| - 1], samples[|samples| - 1];
      BatchSplit(before, s, b);
      if z.tokens > 0 {
        CostAfterUpdate(Kept(before), Ideal(before), z, Minimum(before), s, b);
      } else {
        assert Kept(samples) == Kept(before);
      }
    }
  }

  lemma InversePosDef(p: Matrix)
    requires p.PosDef()
    ensures var i := p.Inverse(); i.a00 > 0.0 && i.a00 * i.a11 - i.a01 * i.a01 > 0.0 && i.a10 == i.a01
  {
    var i, det := p.Inverse(), p.Det();
    assert p.a00 * p.a11 == det + p.a01 * p.a10;
    SquareNonNeg(p.a01, p.a01 * p.a10);
    PositiveFactor(p.a00, p.a11);
    DivPos(p.a11, det);
    assert i.a00 * det == p.a11 && i.a01 * det == -p.a01 && i.a11 * det == p.a00;
    hide Matrix.Inverse, Matrix.Det;
    InverseDet(i.a00, i.a01, i.a11, det, p.a11, -p.a01, p.a00);
  }

  lemma InversePositive(p: Matrix, u: real, v: real)
    requires p.PosDef()
    ensures p.Inverse().Quad(0.0, 0.0) == 0.0
    ensures u != 0.0 || v != 0.0 ==> p.Inverse().Quad(u, v) > 0.0
  {
    var i := p.Inverse();
    InversePosDef(p);
    hide Matrix.Inverse, Matrix.PosDef;
    QuadForm(i, 0.0, 0.0);
    if u != 0.0 || v != 0.0 {
      QuadForm(i, u, v);
      hide Matrix.Quad;
      QuadPositive(i.a00, i.a01, i.a11, u, v);
    }
  }

  lemma PositiveFactor(x: real, y: real)
    requires x > 0.0 && x * y > 0.0
    ensures y > 0.0
  {
    PositiveQuotient(y, x);
  }

  lemma InverseDet(i00: real, i01: real, i11: real, det: real, g00: real, g01: real, g11: real)
    requires det > 0.0 && g00 * g11 - g01 * g01 == det
    requires i00 * det == g00 && i01 * det == g01 && i11 * det == g11
    ensures i00 * i11 - i01 * i01 > 0.0
  {
    assert ((i00 * i11 - i01 * i01) * det) * det == (i00 * det) * (i11 * det) - (i01 * det) * (i01 * det);
    PositiveQuotient((i00 * i11 - i01 * i01) * det, det);
    PositiveQuotient(i00 * i11 - i01 * i01, det);
  }

  lemma QuadForm(i: Matrix, u: real, v: real)
    requires i.a01 == i.a10
    ensures i.Quad(u, v) == i.a00 * u * u + 2.0 * i.a01 * u * v + i.a11 * v * v
  {
  }

  ghost predicate Minimises(kept: seq<Sample>, s: real, b: real) {
    forall s', b' :: Cost(kept, s, b) <= Cost(kept, s', b')
  }

  /** The ideal parameters have no rival, whatever the samples. */
  lemma IdealIsBatchLeastSquares(samples: seq<Sample>, s: real, b: real)
    ensures var m := Ideal(samples);
            && Cost(Kept(samples), m.slope, m.intercept) == Minimum(samples)
            && ((s, b) != (m.slope, m.intercept) ==>
                  Cost(Kept(samples), m.slope, m.intercept) < Cost(Kept(samples), s, b))
  {
    var m := Ideal(samples);
    hide Cost, Kept, Ideal, Minimum, Matrix.Inverse, Matrix.Quad, Matrix.PosDef;
    BatchSplit(samples, s, b);
    BatchSplit(samples, m.slope, m.intercept);
    InversePositive(m.p, s - m.slope, b - m.intercept);
  }

  // ----- The held parameters against the ideal ones -----

  /** The covariance never sees the floors. */
  lemma {:induction false} SameCovariance(samples: seq<Sample>)
    ensures RunSamples(samples).p == Ideal(samples).p
  {
    hide Unfloored, NextP;
    if samples != [] {
      SameCovariance(samples[..|samples| - 1]);
    }
  }

  predicate HoldsIdeal(samples: seq<Sample>) {
    RunSamples(samples).slope == Ideal(samples).slope && RunSamples(samples).intercept == Ideal(samples).intercept
  }

  /** The held parameters minimise the batch cost of their samples. */
  ghost predicate Optimal(samples: seq<Sample>) {
    var m := RunSamples(samples);
    Minimises(Kept(samples), m.slope, m.intercept)
  }

  lemma OptimalIffIdeal(samples: seq<Sample>)
    ensures Optimal(samples) <==> HoldsIdeal(samples)
  {
    hide Cost, Kept, Ideal, RunSamples, Minimum;
    var m, best := RunSamples(samples), Ideal(samples);
    IdealIsBatchLeastSquares(samples, m.slope, m.intercept);
    if HoldsIdeal(samples) {
      forall s, b ensures Cost(Kept(samples), m.slope, m.intercept) <= Cost(Kept(samples), s, b) {
        IdealIsBatchLeastSquares(samples, s, b);
      }
    } else {
      assert Cost(Kept(samples), best.slope, best.intercept) < Cost(Kept(samples), m.slope, m.intercept);
    }
  }

  /** Two models with one covariance stay apart under an update without floors: I - K·xᵀ is invertible. */
  lemma DisplacementSurvives(m: Model, n: Model, z: Sample)
    requires m.p == n.p && m.p.PosDef()
    ensures Unfloored(m, z) == Unfloored(n, z) <==> m.slope == n.slope && m.intercept == n.intercept
  {
    var x := z.tokens as real;
    var k0, k1, l := Gain0(m.p, x), Gain1(m.p, x), Shrinkage(m.p, x);
    GainAlongFeature(m.p, x);
    ShrinkageBounds(m.p, x);
    hide Gain0, Gain1, Shrinkage, Matrix.PosDef, Residual, Nudge, Dot, Prod;
    if Unfloored(m, z) == Unfloored(n, z) {
      var e, e' := Residual(z, m.slope, m.intercept), Residual(z, n.slope, n.intercept);
      ResidualGap(m, n, z);
      NudgeGap(m.slope, n.slope, k0, e, e', e' - e);
      NudgeGap(m.intercept, n.intercept, k1, e, e', e' - e);
      KilledByFeature(x, m.slope - n.slope, m.intercept - n.intercept, k0, k1, e' - e, l);
    }
  }

  lemma ResidualGap(m: Model, n: Model, z: Sample)
    ensures Dot(z.tokens as real, 1.0, m.slope - n.slope, m.intercept - n.intercept,
                Residual(z, n.slope, n.intercept) - Residual(z, m.slope, m.intercept))
  {
  }

  lemma NudgeGap(v: real, w: real, k: real, e: real, e': real, q: real)
    requires q == e' - e && Nudge(v, k, e) == Nudge(w, k, e')
    ensures Prod(k, q, v - w)
  {
    assert k * (e' - e) == k * e' - k * e;
    MulCong(q, e' - e, k);
  }

  lemma KilledByFeature(x: real, d0: real, d1: real, k0: real, k1: real, q: real, l: real)
    requires Dot(x, 1.0, d0, d1, q) && Prod(k0, q, d0) && Prod(k1, q, d1) && Dot(x, 1.0, k0, k1, 1.0 - l) && l > 0.0
    ensures d0 == 0.0 && d1 == 0.0
  {
    assert q == x * (k0 * q) + k1 * q == (x * k0 + k1) * q == (1.0 - l) * q;
    assert l * q == 0.0;
    if q > 0.0 {
      MulPos(l, q, l * q);
    } else if q < 0.0 {
      MulPos(l, -q, l * -q);
    }
  }

  lemma RunSnoc(samples: seq<Sample>, z: Sample)
    ensures RunSamples(samples + [z]) == Step(RunSamples(samples), z)
    ensures NoFloor(samples + [z]) <==> NoFloor(samples) && FloorsIdle(RunSamples(samples), z)
    ensures var m := Ideal(samples);
            z.tokens > 0 ==>
              && Ideal(samples + [z]).slope == Unfloored(m, z).0 && Ideal(samples + [z]).intercept == Unfloored(m, z).1
    ensures z.tokens <= 0 ==> Ideal(samples + [z]) == Ideal(samples)
  {
    hide Step, FloorsIdle, Unfloored, NextP;
    assert (samples + [z])[..|samples|] == samples;
  }

  lemma StepHolds(m: Model, z: Sample)
    requires z.tokens > 0
    ensures Step(m, z).slope == Max(Unfloored(m, z).0, INITIAL_SLOPE)
            && Step(m, z).intercept == Max(Unfloored(m, z).1, MIN_INTERCEPT)
    ensures FloorsIdle(m, z) <==> Step(m, z).slope == Unfloored(m, z).0 && Step(m, z).intercept == Unfloored(m, z).1
  {
    hide Unfloored, NextP;
  }

  /** An update whose floors are idle neither loses nor regains optimality. */
  lemma IdleFloorsKeepStatus(samples: seq<Sample>, z: Sample)
    requires FloorsIdle(RunSamples(samples), z)
    ensures Optimal(samples + [z]) <==> Optimal(samples)
  {
    OptimalIffIdeal(samples);
    OptimalIffIdeal(samples + [z]);
    RunSnoc(samples, z);
    if z.tokens > 0 {
      StepHolds(RunSamples(samples), z);
      SameCovariance(samples);
      IdealPosDef(samples);
      DisplacementSurvives(RunSamples(samples), Ideal(samples), z);
    }
    hide RunSamples, Ideal, Optimal, FloorsIdle, Unfloored, Matrix.PosDef;
    assert z.tokens <= 0 ==> Step(RunSamples(samples), z) == RunSamples(samples);
    hide Step;
  }

  /** From optimal parameters, the next update stays optimal exactly when its floors are idle. */
  lemma OptimalIffFloorsIdle(samples: seq<Sample>, z: Sample)
    requires Optimal(samples)
    ensures Optimal(samples + [z]) <==> FloorsIdle(RunSamples(samples), z)
  {
    if FloorsIdle(RunSamples(samples), z) {
      IdleFloorsKeepStatus(samples, z);
    } else {
      OptimalIffIdeal(samples);
      OptimalIffIdeal(samples + [z]);
      RunSnoc(samples, z);
      StepHolds(RunSamples(samples), z);
      SameCovariance(samples);
      IdealPosDef(samples);
      DisplacementSurvives(RunSamples(samples), Ideal(samples), z);
      hide RunSamples, Ideal, Optimal, Unfloored, Step, Matrix.PosDef;
    }
  }

  /**
    Main result on floors: the held parameters are optimal after every prefix of a run exactly
    when no floor ever fires.
   */
  lemma {:induction false} AlwaysOptimalIffNoFloor(samples: seq<Sample>)
    ensures (forall k :: 0 <= k <= |samples| ==> Optimal(samples[..k])) <==> NoFloor(samples)
  {
    hide RunSamples, Optimal, FloorsIdle;
    assert samples[..|samples|] == samples;
    if samples == [] {
      OptimalIffIdeal(samples);
      assert RunSamples([]) == INITIAL == Ideal([]) by { InitialIsIdeal(); }
    } else {
      var before, z := samples[..|samples| - 1], samples[|samples| - 1];
      assert before + [z] == samples;
      AlwaysOptimalIffNoFloor(before);
      assert forall k :: 0 <= k <= |before| ==> before[..k] == samples[..k];
      assert samples[..|before|] == before;
      if Optimal(before) {
        OptimalIffFloorsIdle(before, z);
      }
    }
  }

  lemma InitialIsIdeal()
    ensures RunSamples([]) == Ideal([]) == INITIAL
  {
  }

  /** Floors idle from `samples` on. */
  predicate IdleAfter(samples: seq<Sample>, rest: seq<Sample>) {
    rest != [] ==>
      && IdleAfter(samples, rest[..|rest| - 1])
      && FloorsIdle(RunSamples(samples + rest[..|rest| - 1]), rest[|rest| - 1])
  }

  /**
    What a floor once spoilt stays spoilt: no number of updates with idle floors brings the
    optimum back, or loses it.
   */
  lemma {:induction false} FloorsLeaveATrace(samples: seq<Sample>, rest: seq<Sample>)
    requires IdleAfter(samples, rest)
    ensures Optimal(samples + rest) <==> Optimal(samples)
  {
    hide RunSamples, Optimal, FloorsIdle;
    if rest == [] {
      assert samples + rest == samples;
    } else {
      var before, z := rest[..|rest| - 1], rest[|rest| - 1];
      FloorsLeaveATrace(samples, before);
      assert samples + before + [z] == samples + rest;
      IdleFloorsKeepStatus(samples + before, z);
    }
  }

  /** Main result: without floors, recursive least squares is batch least squares, with no rival. */
  lemma RlsIsBatchLeastSquares(samples: seq<Sample>, s: real, b: real)
    requires NoFloor(samples)
    ensures var m := RunSamples(samples);
            && Cost(Kept(samples), m.slope, m.intercept) == Minimum(samples)
            && ((s, b) != (m.slope, m.intercept) ==>
                  Cost(Kept(samples), m.slope, m.intercept) < Cost(Kept(samples), s, b))
  {
    AlwaysOptimalIffNoFloor(samples);
    assert samples[..|samples|] == samples;
    OptimalIffIdeal(samples);
    hide RunSamples, Ideal, Cost, Kept, Minimum, Optimal, NoFloor;
    IdealIsBatchLeastSquares(samples, s, b);
  }

  /** From optimal parameters, a floor that fires moves the model to strictly higher cost. */
  lemma FloorCosts(samples: seq<Sample>, z: Sample)
    requires Optimal(samples) && !FloorsIdle(RunSamples(samples), z)
    ensures var m, held := RunSamples(samples), RunSamples(samples + [z]);
            Cost(Kept(samples + [z]), Unfloored(m, z).0, Unfloored(m, z).1)
              < Cost(Kept(samples + [z]), held.slope, held.intercept)
  {
    OptimalIffFloorsIdle(samples, z);
    OptimalIffIdeal(samples);
    OptimalIffIdeal(samples + [z]);
    RunSnoc(samples, z);
    SameCovariance(samples);
    var m, held := RunSamples(samples), RunSamples(samples + [z]);
    SameUnfloored(m, Ideal(samples), z);
    hide RunSamples, Ideal, Optimal, Cost, Kept, Minimum, Unfloored, Step;
    IdealIsBatchLeastSquares(samples + [z], held.slope, held.intercept);
  }

  lemma SameUnfloored(m: Model, n: Model, z: Sample)
    requires m.p == n.p && m.slope == n.slope && m.intercept == n.intercept
    ensures Unfloored(m, z) == Unfloored(n, z)
  {
  }

  /** One more counted sample recentres the bowl at the ideal update and grows its minimum by err²·λ/denom. */
  lemma NextCost(samples: seq<Sample>, z: Sample, s: real, b: real)
    requires z.tokens > 0
    ensures var m := Ideal(samples);
            && m.p.PosDef() && NextP(m.p, z.tokens as real).PosDef()
            && Cost(Kept(samples + [z]), s, b)
               == Grown(Minimum(samples), Residual(z, m.slope, m.intercept), Shrinkage(m.p, z.tokens as real))
                  + NextP(m.p, z.tokens as real).Inverse().Quad(s - Unfloored(m, z).0, b - Unfloored(m, z).1)
  {
    hide Ideal, Cost, Residual, Shrinkage, NextP, Unfloored, Grown, Minimum, Matrix.PosDef, Matrix.Inverse, Matrix.Quad;
    var all, m := samples + [z], Ideal(samples);
    assert all[..|all| - 1] == samples;
    BatchSplit(samples, s, b);
    StepKeepsPosDef(m.p, z.tokens as real);
    CostAfterUpdate(Kept(samples), m, z, Minimum(samples), s, b);
  }

  /** Floors do fire: an instant first completion already raises both parameters. */
  lemma FirstSampleCanHitFloor()
    ensures !FloorsIdle(INITIAL, Sample(0.0, 1))
  {
    var x := 1.0;
    assert Denom(PRIOR, x) == 2000.99;
    assert Gain0(PRIOR, x) * 2000.99 == 1000.0;
    assert Unfloored(INITIAL, Sample(0.0, 1)).0 == 2.0 - Gain0(PRIOR, x) * 152.0;
  }

  /** After that first sample the held parameters are not optimal, nor ever again while floors stay idle. */
  lemma FirstFloorIsNeverForgotten(rest: seq<Sample>)
    requires IdleAfter([Sample(0.0, 1)], rest)
    ensures !Optimal([Sample(0.0, 1)] + rest)
  {
    var first := Sample(0.0, 1);
    OptimalIffIdeal([]);
    InitialIsIdeal();
    FirstSampleCanHitFloor();
    hide RunSamples, Optimal, FloorsIdle;
    OptimalIffFloorsIdle([], first);
    assert [] + [first] == [first];
    FloorsLeaveATrace([first], rest);
  }
}
