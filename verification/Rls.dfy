/**
  The recursive-least-squares latency predictor as a function on values: one update,
  its covariance algebra, and what every reachable model satisfies.
  The class in RlsPredictor.dfy performs the same update in place.
 */
module Rls {
  import opened Constants
  import opened RealArith

  const LAMBDA := 0.99
  const MIN_DENOM := 1e-9
  const PRIOR_VARIANCE := 1000.0

  datatype Matrix = Matrix(a00: real, a01: real, a10: real, a11: real) {
    function Det(): real {
      a00 * a11 - a01 * a10
    }

    /** Symmetric and positive definite (leading minors). */
    predicate PosDef() {
      a01 == a10 && a00 > 0.0 && Det() > 0.0
    }

    function Inverse(): Matrix
      requires PosDef()
    {
      Matrix(a11 / Det(), -a01 / Det(), -a10 / Det(), a00 / Det())
    }

    function Quad(u: real, v: real): real {
      a00 * u * u + (a01 + a10) * u * v + a11 * v * v
    }
  }

  const PRIOR := Matrix(PRIOR_VARIANCE, 0.0, 0.0, PRIOR_VARIANCE)

  /** One completed request: measured latency and token count. */
  datatype Sample = Sample(latency: real, tokens: int)

  datatype Model = Model(slope: real, intercept: real, p: Matrix, avgLatency: real, updates: nat)

  const INITIAL := Model(INITIAL_SLOPE, INITIAL_INTERCEPT, PRIOR, 0.0, 0)

  // The scalar building blocks of the update.

  function Nudge(param: real, gain: real, err: real): real {
    param + gain * err
  }

  function Deflated(a: real, gain: real, row: real): real {
    (a - gain * row) / LAMBDA
  }

  function Residual(z: Sample, slope: real, intercept: real): real {
    z.latency - Affine(slope, z.tokens as real, intercept)
  }

  function Px0(p: Matrix, x: real): real {
    Affine(p.a00, x, p.a01)
  }

  function Px1(p: Matrix, x: real): real {
    Affine(p.a10, x, p.a11)
  }

  /** The row vector xᵀP. */
  function Row0(p: Matrix, x: real): real {
    Affine(p.a00, x, p.a10)
  }

  function Row1(p: Matrix, x: real): real {
    Affine(p.a01, x, p.a11)
  }

  function RawDenom(p: Matrix, x: real): real {
    LAMBDA + Affine(Px0(p, x), x, Px1(p, x))
  }

  function Denom(p: Matrix, x: real): (d: real)
    ensures d >= MIN_DENOM
  {
    if RawDenom(p, x) < MIN_DENOM then MIN_DENOM else RawDenom(p, x)
  }

  function Gain0(p: Matrix, x: real): real {
    Px0(p, x) / Denom(p, x)
  }

  function Gain1(p: Matrix, x: real): real {
    Px1(p, x) / Denom(p, x)
  }

  /** (P - K xᵀ P) / λ with K = (k0, k1) and xᵀP = (r0, r1). */
  function Deflate(p: Matrix, k0: real, k1: real, r0: real, r1: real): Matrix {
    Matrix(Deflated(p.a00, k0, r0), Deflated(p.a01, k0, r1), Deflated(p.a10, k1, r0), Deflated(p.a11, k1, r1))
  }

  function NextP(p: Matrix, x: real): Matrix {
    Deflate(p, Gain0(p, x), Gain1(p, x), Row0(p, x), Row1(p, x))
  }

  /** The parameters after the gain step and before the floors. */
  function Unfloored(m: Model, z: Sample): (real, real) {
    var x := z.tokens as real;
    var err := Residual(z, m.slope, m.intercept);
    (Nudge(m.slope, Gain0(m.p, x), err), Nudge(m.intercept, Gain1(m.p, x), err))
  }

  predicate FloorsIdle(m: Model, z: Sample) {
    z.tokens > 0 ==> Unfloored(m, z).0 >= INITIAL_SLOPE && Unfloored(m, z).1 >= MIN_INTERCEPT
  }

  function Step(m: Model, z: Sample): Model {
    if z.tokens <= 0 then m
    else
      var (s, b) := Unfloored(m, z);
      Model(Max(s, INITIAL_SLOPE), Max(b, MIN_INTERCEPT), NextP(m.p, z.tokens as real),
            Average(m.avgLatency, z.latency), m.updates + 1)
  }

  function EstimateOf(m: Model, tokens: int, vramMb: int): Estimate {
    if vramMb < VRAM_HARD_LIMIT_MB && tokens > LARGE_REQUEST_TOKENS then Unusable
    else Ms(Affine(m.slope, tokens as real, m.intercept))
  }

  /** The operator's reset: parameters and covariance only. */
  function Reset(m: Model): Model {
    m.(slope := INITIAL_SLOPE, intercept := INITIAL_INTERCEPT, p := PRIOR)
  }

  // ----- Covariance algebra -----

  /** The denominator exceeds λ, so its guard against tiny values is dead code. */
  lemma DenomExceedsLambda(p: Matrix, x: real)
    requires p.PosDef()
    ensures Denom(p, x) == RawDenom(p, x) > LAMBDA
  {
    QuadPositive(p.a00, p.a01, p.a11, x, 1.0);
    assert RawDenom(p, x) == LAMBDA + (p.a00 * x * x + 2.0 * p.a01 * x * 1.0 + p.a11 * 1.0 * 1.0);
  }

  // Relations between products, named so that proofs that only chain them can hide the products.

  ghost predicate Prod(x: real, y: real, z: real) {
    x * y == z
  }

  ghost predicate Dot(x0: real, x1: real, y0: real, y1: real, z: real) {
    x0 * y0 + x1 * y1 == z
  }

  ghost predicate DotTimes(x0: real, x1: real, y0: real, y1: real, y: real, r: real) {
    x0 * y0 + x1 * y1 == y * r
  }

  /** An entry of (λ·denom)·P': old entry e, determinant of P, and a power of the feature. */
  function Target(e: real, det: real, r: real): real {
    LAMBDA * e + det * r
  }

  ghost predicate Scaled(n: Matrix, a: real, c: real, b: real, det: real, x: real, w: real) {
    && Prod(n.a00, w, Target(a, det, 1.0))
    && Prod(n.a01, w, Target(c, det, -x))
    && Prod(n.a10, w, Target(c, det, -x))
    && Prod(n.a11, w, Target(b, det, x * x))
  }

  /** The denominator for the symmetric matrix (a c; c b), spelled out. */
  function Spread(a: real, c: real, b: real, x: real): real {
    LAMBDA + x * (a * x + c) + (c * x + b)
  }

  lemma ScaleEntry(a: real, q: real, y: real, d: real, k: real, t: real)
    requires d > 0.0 && Prod(k, d, q) && Dot(a, -q, d, y, t)
    ensures Prod(Deflated(a, k, y), LAMBDA * d, t)
  {
    assert Deflated(a, k, y) * (LAMBDA * d) == (a - k * y) * d == a * d - (k * d) * y;
  }

  lemma EntryIdentity(a: real, c: real, b: real, x: real)
    ensures var det := a * b - c * c;
            && Dot(a, -(a * x + c), Spread(a, c, b, x), a * x + c, Target(a, det, 1.0))
            && Dot(c, -(a * x + c), Spread(a, c, b, x), c * x + b, Target(c, det, -x))
            && Dot(c, -(c * x + b), Spread(a, c, b, x), a * x + c, Target(c, det, -x))
            && Dot(b, -(c * x + b), Spread(a, c, b, x), c * x + b, Target(b, det, x * x))
  {
  }

  lemma EntryAlgebra(a: real, c: real, b: real, x: real, q0: real, q1: real, d: real, k0: real, k1: real)
    requires q0 == a * x + c && q1 == c * x + b && d == Spread(a, c, b, x) > 0.0
    requires Prod(k0, d, q0) && Prod(k1, d, q1)
    ensures Scaled(Deflate(Matrix(a, c, c, b), k0, k1, q0, q1), a, c, b, a * b - c * c, x, LAMBDA * d)
  {
    hide Spread, Dot, Prod, Target, Deflated;
    var det := a * b - c * c;
    EntryIdentity(a, c, b, x);
    ScaleEntry(a, q0, q0, d, k0, Target(a, det, 1.0));
    ScaleEntry(c, q0, q1, d, k0, Target(c, det, -x));
    ScaleEntry(c, q1, q0, d, k1, Target(c, det, -x));
    ScaleEntry(b, q1, q1, d, k1, Target(b, det, x * x));
  }

  lemma GainProducts(p: Matrix, x: real)
    ensures Prod(Gain0(p, x), Denom(p, x), Px0(p, x)) && Prod(Gain1(p, x), Denom(p, x), Px1(p, x))
  {
    hide Px0, Px1, Denom;
  }

  lemma Features(a: real, c: real, b: real, x: real)
    requires Matrix(a, c, c, b).PosDef()
    ensures var p := Matrix(a, c, c, b);
            && Px0(p, x) == Row0(p, x) == a * x + c
            && Px1(p, x) == Row1(p, x) == c * x + b
            && Denom(p, x) == Spread(a, c, b, x) > LAMBDA
            && p.Det() == a * b - c * c
  {
    DenomExceedsLambda(Matrix(a, c, c, b), x);
  }

  lemma ScaledEntries(a: real, c: real, b: real, x: real)
    requires Matrix(a, c, c, b).PosDef()
    ensures Scaled(NextP(Matrix(a, c, c, b), x), a, c, b, Matrix(a, c, c, b).Det(), x, LAMBDA * Spread(a, c, b, x))
  {
    hide Deflate, Prod, Px0, Px1, Row0, Row1, Gain0, Gain1, Denom, Spread, Scaled, Matrix.PosDef, Matrix.Det;
    var p := Matrix(a, c, c, b);
    Features(a, c, b, x);
    GainProducts(p, x);
    EntryAlgebra(a, c, b, x, a * x + c, c * x + b, Spread(a, c, b, x), Gain0(p, x), Gain1(p, x));
  }

  /** det P' = det P / (λ·denom), and P stays symmetric positive definite. */
  lemma StepKeepsPosDef(p: Matrix, x: real)
    requires p.PosDef()
    ensures NextP(p, x).PosDef()
    ensures NextP(p, x).Det() * (LAMBDA * Denom(p, x)) == p.Det()
  {
    hide NextP, Denom, Px0, Px1, Row0, Row1, Scaled, Spread;
    assert p == Matrix(p.a00, p.a01, p.a01, p.a11);
    ScaledEntries(p.a00, p.a01, p.a11, x);
    Features(p.a00, p.a01, p.a11, x);
    PosDefAlgebra(p.a00, p.a01, p.a11, p.Det(), x, LAMBDA * Spread(p.a00, p.a01, p.a11, x), NextP(p, x));
  }

  lemma PosDefAlgebra(a: real, c: real, b: real, det: real, x: real, w: real, n: Matrix)
    requires w == LAMBDA * Spread(a, c, b, x) > 0.0
    requires a > 0.0 && det == a * b - c * c > 0.0
    requires Scaled(n, a, c, b, det, x, w)
    ensures n.PosDef() && n.Det() * w == det
  {
    CancelProd(n.a01, n.a10, w, Target(c, det, -x));
    TargetDet(a, c, b, x, w);
    DetProduct(n, w, Target(a, det, 1.0), Target(c, det, -x), Target(b, det, x * x), det);
    assert Target(a, det, 1.0) > 0.0;
    hide Spread, Target, Matrix.Det;
    PositiveQuotient(n.Det(), w);
    PositiveQuotient(n.a00, w);
  }

  lemma CancelProd(y: real, z: real, w: real, t: real)
    requires w > 0.0 && Prod(y, w, t) && Prod(z, w, t)
    ensures y == z
  {
    Cancel(y, z, w);
  }

  lemma TargetDet(a: real, c: real, b: real, x: real, w: real)
    requires w == LAMBDA * Spread(a, c, b, x)
    ensures var det := a * b - c * c;
            Target(a, det, 1.0) * Target(b, det, x * x) - Target(c, det, -x) * Target(c, det, -x) == det * w
  {
  }

  lemma DetProduct(n: Matrix, w: real, t00: real, t01: real, t11: real, det: real)
    requires w > 0.0
    requires Prod(n.a00, w, t00) && Prod(n.a01, w, t01) && Prod(n.a10, w, t01) && Prod(n.a11, w, t11)
    requires t00 * t11 - t01 * t01 == det * w
    ensures n.Det() * w == det
  {
    assert t00 * t11 == (n.a00 * w) * (n.a11 * w);
    assert t01 * t01 == (n.a01 * w) * (n.a10 * w);
    assert (n.Det() * w) * w == (n.a00 * w) * (n.a11 * w) - (n.a01 * w) * (n.a10 * w);
    Cancel(n.Det() * w, det, w);
  }

  /** j = λ i + x xᵀ for the feature vector (x, 1). */
  ghost predicate Accumulates(i: Matrix, j: Matrix, x: real) {
    j == Matrix(LAMBDA * i.a00 + x * x, LAMBDA * i.a01 + x, LAMBDA * i.a10 + x, LAMBDA * i.a11 + 1.0)
  }

  /** Information form: P'⁻¹ = λ P⁻¹ + x xᵀ. */
  lemma InverseUpdate(p: Matrix, x: real)
    requires p.PosDef()
    ensures NextP(p, x).PosDef()
    ensures Accumulates(p.Inverse(), NextP(p, x).Inverse(), x)
  {
    hide NextP, Denom, Px0, Px1, Row0, Row1, Scaled, Spread, Matrix.Det;
    StepKeepsPosDef(p, x);
    assert p == Matrix(p.a00, p.a01, p.a01, p.a11);
    ScaledEntries(p.a00, p.a01, p.a11, x);
    Features(p.a00, p.a01, p.a11, x);
    InverseAlgebra(p, x, LAMBDA * Spread(p.a00, p.a01, p.a11, x), NextP(p, x));
  }

  lemma InverseAlgebra(p: Matrix, x: real, w: real, n: Matrix)
    requires p.PosDef() && n.PosDef() && w > 0.0
    requires Scaled(n, p.a00, p.a01, p.a11, p.Det(), x, w) && Prod(n.Det(), w, p.Det())
    ensures Accumulates(p.Inverse(), n.Inverse(), x)
  {
    var det := p.Det();
    hide Prod, Target, Matrix.Det;
    NegProd(n.a01, w, p.a01, det, x);
    InverseEntry(n.a11, n.Det(), p.a11, det, x * x, w);
    InverseEntry(-n.a01, n.Det(), -p.a01, det, x, w);
    InverseEntry(n.a00, n.Det(), p.a00, det, 1.0, w);
  }

  lemma NegProd(y: real, w: real, e: real, det: real, x: real)
    requires Prod(y, w, Target(e, det, -x))
    ensures Prod(-y, w, Target(-e, det, x))
  {
  }

  lemma InverseEntry(e': real, det': real, e: real, det: real, r: real, w: real)
    requires det > 0.0 && det' > 0.0 && w > 0.0
    requires Prod(det', w, det) && Prod(e', w, Target(e, det, r))
    ensures e' / det' == LAMBDA * (e / det) + r
  {
    var q := e / det;
    assert q * det == e;
    assert e' * w == (LAMBDA * q + r) * det == (LAMBDA * q + r) * (det' * w) == ((LAMBDA * q + r) * det') * w;
    Cancel(e', (LAMBDA * q + r) * det', w);
    assert (e' / det') * det' == e';
    Cancel(e' / det', LAMBDA * q + r, det');
  }

  // ----- One step of optimality -----

  /** The fraction of an error that survives the update on its own sample. */
  function Shrinkage(p: Matrix, x: real): real {
    LAMBDA / Denom(p, x)
  }

  /** The residual on the sample just absorbed, before floors, is err·λ/denom. */
  lemma PosteriorResidual(m: Model, z: Sample)
    requires m.p.PosDef()
    ensures var (s, b) := Unfloored(m, z);
            Prod(Residual(z, m.slope, m.intercept), Shrinkage(m.p, z.tokens as real), Residual(z, s, b))
    ensures 0.0 < Shrinkage(m.p, z.tokens as real) < 1.0
  {
    hide Affine, Nudge, Dot, Gain0, Gain1, Shrinkage, Denom, Matrix.PosDef;
    var x := z.tokens as real;
    var e, l := Residual(z, m.slope, m.intercept), Shrinkage(m.p, x);
    GainAlongFeature(m.p, x);
    ShrinkageBounds(m.p, x);
    ResidualAfter(m.slope, m.intercept, x, Gain0(m.p, x), Gain1(m.p, x), e, l);
    hide Residual;
  }

  lemma ResidualAfter(s: real, b: real, x: real, k0: real, k1: real, e: real, l: real)
    requires Dot(x, 1.0, k0, k1, 1.0 - l)
    ensures Prod(e, l, e - (Affine(Nudge(s, k0, e), x, Nudge(b, k1, e)) - Affine(s, x, b)))
  {
    assert (s + k0 * e) * x + (b + k1 * e) == s * x + b + e * (x * k0 + k1);
  }

  lemma ShrinkageBounds(p: Matrix, x: real)
    requires p.PosDef()
    ensures 0.0 < Shrinkage(p, x) < 1.0
  {
    DenomExceedsLambda(p, x);
    hide Denom;
    DivPos(LAMBDA, Denom(p, x));
    DivPos(Denom(p, x) - LAMBDA, Denom(p, x));
    assert (Denom(p, x) - LAMBDA) / Denom(p, x) == 1.0 - Shrinkage(p, x);
  }

  lemma GainAlongFeature(p: Matrix, x: real)
    requires p.PosDef()
    ensures Dot(x, 1.0, Gain0(p, x), Gain1(p, x), 1.0 - Shrinkage(p, x))
  {
    DenomExceedsLambda(p, x);
    var d, k0, k1, l := Denom(p, x), Gain0(p, x), Gain1(p, x), Shrinkage(p, x);
    assert k0 * d == Px0(p, x) && k1 * d == Px1(p, x) && l * d == LAMBDA;
    assert (x * k0 + k1 + l) * d == x * (k0 * d) + k1 * d + l * d == 1.0 * d;
    Cancel(x * k0 + k1 + l, 1.0, d);
  }

  /** P⁻¹ K = x / denom. */
  lemma InverseTimesGain(p: Matrix, x: real)
    requires p.PosDef()
    ensures DotTimes(p.Inverse().a00, p.Inverse().a01, Gain0(p, x), Gain1(p, x), x, Shrinkage(p, x) / LAMBDA)
    ensures DotTimes(p.Inverse().a01, p.Inverse().a11, Gain0(p, x), Gain1(p, x), 1.0, Shrinkage(p, x) / LAMBDA)
  {
    var i, det, r := p.Inverse(), p.Det(), Shrinkage(p, x) / LAMBDA;
    AdjugateRows(p, x);
    InverseEntries(p);
    GainEntries(p, x, r);
    InverseSymmetric(p);
    hide DotTimes, Prod, Px0, Px1, Gain0, Gain1, Denom, Shrinkage, Matrix.Inverse, Matrix.Det;
    Adjugate(i.a00, i.a01, p.a11, -p.a01, det, Px0(p, x), Px1(p, x), x, r, Gain0(p, x), Gain1(p, x));
    Adjugate(i.a10, i.a11, -p.a10, p.a00, det, Px0(p, x), Px1(p, x), 1.0, r, Gain0(p, x), Gain1(p, x));
  }

  lemma AdjugateRows(p: Matrix, x: real)
    ensures DotTimes(p.a11, -p.a01, Px0(p, x), Px1(p, x), x, p.Det())
    ensures DotTimes(-p.a10, p.a00, Px0(p, x), Px1(p, x), 1.0, p.Det())
  {
  }

  lemma InverseEntries(p: Matrix)
    requires p.PosDef()
    ensures var i, det := p.Inverse(), p.Det();
            Prod(i.a00, det, p.a11) && Prod(i.a01, det, -p.a01) && Prod(i.a10, det, -p.a10) && Prod(i.a11, det, p.a00)
  {
    hide Matrix.Det;
  }

  lemma GainEntries(p: Matrix, x: real, r: real)
    requires r == Shrinkage(p, x) / LAMBDA
    ensures Prod(Px0(p, x), r, Gain0(p, x)) && Prod(Px1(p, x), r, Gain1(p, x))
  {
    hide Px0, Px1, Denom;
    assert r == 1.0 / Denom(p, x);
  }

  lemma Adjugate(i0: real, i1: real, g0: real, g1: real, det: real, q0: real, q1: real, y: real, r: real, k0: real,
                 k1: real)
    requires det > 0.0 && Prod(i0, det, g0) && Prod(i1, det, g1)
    requires DotTimes(g0, g1, q0, q1, y, det)
    requires Prod(q0, r, k0) && Prod(q1, r, k1)
    ensures DotTimes(i0, i1, k0, k1, y, r)
  {
    assert (i0 * q0 + i1 * q1) * det == (i0 * det) * q0 + (i1 * det) * q1;
    Cancel(i0 * q0 + i1 * q1, y, det);
    assert i0 * k0 + i1 * k1 == (i0 * q0 + i1 * q1) * r;
  }

  /** With N = λ M + x xᵀ and M K = r x: N K = x, because x·K = 1 - λ r. */
  lemma NextInverseTimesGain(i0: real, i1: real, x: real, k0: real, k1: real, y: real, r: real)
    requires DotTimes(i0, i1, k0, k1, y, r) && x * k0 + k1 == 1.0 - LAMBDA * r
    ensures Dot(LAMBDA * i0 + y * x, LAMBDA * i1 + y, k0, k1, y)
  {
    assert (LAMBDA * i0 + y * x) * k0 + (LAMBDA * i1 + y) * k1 == LAMBDA * (i0 * k0 + i1 * k1) + y * (x * k0 + k1);
  }

  /** Discounted old bowl plus squared residual y equals new bowl plus what the error e costs. */
  ghost predicate Balance(bowl: real, y: real, bowl': real, e: real, shrinkage: real) {
    LAMBDA * bowl + y * y == bowl' + e * e * shrinkage
  }

  /** What moving by (u, v) from the old parameters does to the residual and to the offset from the new ones. */
  ghost predicate Moved(x: real, k0: real, k1: real, e: real, u: real, v: real, y: real, u': real, v': real) {
    y == e - x * u - v && u' == u - k0 * e && v' == v - k1 * e
  }

  lemma SquareCompletion(i: Matrix, j: Matrix, x: real, k0: real, k1: real, l: real, e: real, u: real, v: real,
                         y: real, u': real, v': real)
    requires i.a01 == i.a10 && Accumulates(i, j, x)
    requires DotTimes(i.a00, i.a01, k0, k1, x, l / LAMBDA) && DotTimes(i.a01, i.a11, k0, k1, 1.0, l / LAMBDA)
    requires Dot(x, 1.0, k0, k1, 1.0 - l)
    requires Moved(x, k0, k1, e, u, v, y, u', v')
    ensures Balance(i.Quad(u, v), y, j.Quad(u', v'), e, l)
  {
    SquareCompletionAlgebra(i.a00, i.a01, i.a11, x, k0, k1, l / LAMBDA, e, u, v);
  }

  lemma SquareCompletionAlgebra(m00: real, m01: real, m11: real, x: real, k0: real, k1: real, r: real, e: real,
                                u: real, v: real)
    requires DotTimes(m00, m01, k0, k1, x, r) && DotTimes(m01, m11, k0, k1, 1.0, r)
    requires x * k0 + k1 == 1.0 - LAMBDA * r
    ensures Balance(Matrix(m00, m01, m01, m11).Quad(u, v), e - x * u - v,
                    Matrix(LAMBDA * m00 + x * x, LAMBDA * m01 + x, LAMBDA * m01 + x,
                      LAMBDA * m11 + 1.0).Quad(u - k0 * e, v - k1 * e),
                    e, LAMBDA * r)
  {
    NextInverseTimesGain(m00, m01, x, k0, k1, x, r);
    NextInverseTimesGain(m01, m11, x, k0, k1, 1.0, r);
    hide Dot, DotTimes;
    ShiftedQuad(LAMBDA * m00 + x * x, LAMBDA * m01 + x, LAMBDA * m11 + 1.0, x, k0, k1, e, u, v);
    assert e * e * (x * k0 + k1) + e * e * (LAMBDA * r) == e * e * (x * k0 + k1 + LAMBDA * r) == e * e;
  }

  lemma ShiftedQuad(n00: real, n01: real, n11: real, x: real, k0: real, k1: real, e: real, u: real, v: real)
    requires Dot(n00, n01, k0, k1, x) && Dot(n01, n11, k0, k1, 1.0)
    ensures Matrix(n00, n01, n01, n11).Quad(u - k0 * e, v - k1 * e)
            == Matrix(n00, n01, n01, n11).Quad(u, v) - 2.0 * e * (x * u + v) + e * e * (x * k0 + k1)
  {
    assert x * u + v == (n00 * k0 + n01 * k1) * u + (n01 * k0 + n11 * k1) * v;
    assert x * k0 + k1 == (n00 * k0 + n01 * k1) * k0 + (n01 * k0 + n11 * k1) * k1;
  }

  lemma Moves(m: Model, z: Sample, s: real, b: real)
    ensures Moved(z.tokens as real, Gain0(m.p, z.tokens as real), Gain1(m.p, z.tokens as real),
            Residual(z, m.slope, m.intercept),
                  s - m.slope, b - m.intercept, Residual(z, s, b), s - Unfloored(m, z).0, b - Unfloored(m, z).1)
  {
    hide Gain0, Gain1;
  }

  /**
    From any positive definite model, the step turns discounted old cost plus new
    squared residual into the quadratic bowl of the new model, up to err²·λ/denom.
   */
  lemma StepCompletesSquare(m: Model, z: Sample, s: real, b: real)
    requires m.p.PosDef()
    ensures NextP(m.p, z.tokens as real).PosDef()
    ensures var x := z.tokens as real; var e := Residual(z, m.slope, m.intercept); var (s', b') := Unfloored(m, z);
            Balance(m.p.Inverse().Quad(s - m.slope, b - m.intercept), Residual(z, s, b),
                    NextP(m.p, x).Inverse().Quad(s - s', b - b'), e, Shrinkage(m.p, x))
  {
    hide NextP, Gain0, Gain1, Dot, DotTimes, Shrinkage, Accumulates, Moved, Balance, Unfloored, Matrix.Inverse;
    hide Matrix.Quad, Residual;
    var x, i := z.tokens as real, m.p.Inverse();
    InverseUpdate(m.p, x);
    InverseSymmetric(m.p);
    GainAlongFeature(m.p, x);
    InverseTimesGain(m.p, x);
    Moves(m, z, s, b);
    SquareCompletion(i, NextP(m.p, x).Inverse(), x, Gain0(m.p, x), Gain1(m.p, x), Shrinkage(m.p, x),
      Residual(z, m.slope, m.intercept),
                     s - m.slope, b - m.intercept, Residual(z, s, b), s - Unfloored(m, z).0, b - Unfloored(m, z).1);
  }

  lemma InverseSymmetric(p: Matrix)
    requires p.PosDef()
    ensures p.Inverse().a10 == p.Inverse().a01
  {
  }

  // ----- Reachable models -----

  datatype Event = Update(z: Sample) | ResetState

  function Apply(m: Model, ev: Event): Model {
    match ev
    case Update(z) => Step(m, z)
    case ResetState => Reset(m)
  }

  function Run(events: seq<Event>): Model {
    if events == [] then INITIAL else Apply(Run(events[..|events| - 1]), events[|events| - 1])
  }

  /** Every run of updates, floors and resets keeps P positive definite and the parameters above their floors. */
  lemma {:induction false} ReachableModels(events: seq<Event>)
    ensures Run(events).p.PosDef()
    ensures Run(events).slope >= INITIAL_SLOPE && Run(events).intercept >= MIN_INTERCEPT
  {
    if events != [] {
      ReachableModels(events[..|events| - 1]);
      var m, ev := Run(events[..|events| - 1]), events[|events| - 1];
      if ev.Update? && ev.z.tokens > 0 {
        StepKeepsPosDef(m.p, ev.z.tokens as real);
      }
    }
  }
}
