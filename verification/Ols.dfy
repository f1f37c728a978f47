/** The offline least-squares line that serves as ground truth for the learned slopes. */
module Ols {
  import opened RealArith
  import opened Wrappers

  datatype Point = Point(x: real, y: real)

  datatype Outcome =
    | TooFew(n: nat)
    | Degenerate(n: nat)
    | Fitted(slope: real, intercept: real, n: nat, r2: Option<real>)

  const MIN_SPREAD := 1e-12

  /** Only positive token counts enter the fit. */
  function Usable(pairs: seq<Point>): (pts: seq<Point>)
    ensures forall p :: p in pts <==> p in pairs && p.x > 0.0
  {
    if pairs == [] then []
    else
      assert forall p :: p in pairs <==> p == pairs[0] || p in pairs[1..];
      (if pairs[0].x > 0.0 then [pairs[0]] else []) + Usable(pairs[1..])
  }

  function SumX(pts: seq<Point>): real {
    if pts == [] then 0.0 else pts[0].x + SumX(pts[1..])
  }

  function SumY(pts: seq<Point>): real {
    if pts == [] then 0.0 else pts[0].y + SumY(pts[1..])
  }

  function Sxx(pts: seq<Point>, mx: real): real {
    if pts == [] then 0.0 else Square(pts[0].x - mx) + Sxx(pts[1..], mx)
  }

  function Sxy(pts: seq<Point>, mx: real, my: real): real {
    if pts == [] then 0.0 else Times(pts[0].x - mx, pts[0].y - my) + Sxy(pts[1..], mx, my)
  }

  function Residual(p: Point, s: real, b: real): real {
    p.y - Affine(s, p.x, b)
  }

  /** Sum of squared residuals of the line y = s·x + b. */
  function Ssr(pts: seq<Point>, s: real, b: real): real {
    if pts == [] then 0.0 else Square(Residual(pts[0], s, b)) + Ssr(pts[1..], s, b)
  }

  function OlsFit(pairs: seq<Point>): Outcome {
    var pts := Usable(pairs);
    var n := |pts|;
    if n < 3 then TooFew(n)
    else
      var mx, my := SumX(pts) / n as real, SumY(pts) / n as real;
      if Sxx(pts, mx) <= MIN_SPREAD then Degenerate(n)
      else
        var slope := Sxy(pts, mx, my) / Sxx(pts, mx);
        var intercept := my - slope * mx;
        var total := Ssr(pts, 0.0, my);
        Fitted(slope, intercept, n, if total > MIN_SPREAD then Some(1.0 - Ssr(pts, slope, intercept) / total) else None)
  }

  // ----- Normal equations -----

  function SumResidual(pts: seq<Point>, s: real, b: real): real {
    if pts == [] then 0.0 else Residual(pts[0], s, b) + SumResidual(pts[1..], s, b)
  }

  function SumXResidual(pts: seq<Point>, s: real, b: real): real {
    if pts == [] then 0.0 else Times(pts[0].x, Residual(pts[0], s, b)) + SumXResidual(pts[1..], s, b)
  }

  lemma {:induction false} ResidualTotal(pts: seq<Point>, s: real, b: real)
    ensures SumResidual(pts, s, b) == SumY(pts) - Times(s, SumX(pts)) - Times(|pts| as real, b)
  {
    if pts != [] {
      ResidualTotal(pts[1..], s, b);
      TimesAdd(s, pts[0].x, SumX(pts[1..]), SumX(pts));
      TimesSucc(|pts[1..]| as real, b);
      assert Residual(pts[0], s, b) == pts[0].y - Times(s, pts[0].x) - b;
      hide Times, Residual;
    }
  }

  /** For a line through the centre of mass, residuals weighted by distance from the mean sum to sxy - s·sxx. */
  lemma {:induction false} CentredTotal(pts: seq<Point>, s: real, b: real, mx: real, my: real)
    requires b == my - s * mx
    ensures SumXResidual(pts, s, b) - Times(mx, SumResidual(pts, s, b)) == Sxy(pts, mx, my) - Times(s, Sxx(pts, mx))
  {
    if pts != [] {
      CentredTotal(pts[1..], s, b, mx, my);
      CentredTerm(pts[0], s, b, mx, my);
      hide Residual, Times, Square;
      TimesAdd(mx, Residual(pts[0], s, b), SumResidual(pts[1..], s, b), SumResidual(pts, s, b));
      TimesAdd(s, Square(pts[0].x - mx), Sxx(pts[1..], mx), Sxx(pts, mx));
    }
  }

  lemma CentredTerm(p: Point, s: real, b: real, mx: real, my: real)
    requires b == my - s * mx
    ensures var r := Residual(p, s, b);
            Times(p.x, r) - Times(mx, r) == Times(p.x - mx, p.y - my) - Times(s, Square(p.x - mx))
  {
    assert p.y - (s * p.x + (my - s * mx)) == (p.y - my) - s * (p.x - mx);
  }

  predicate Normal(pts: seq<Point>, s: real, b: real) {
    SumResidual(pts, s, b) == 0.0 && SumXResidual(pts, s, b) == 0.0
  }

  /** The fitted line leaves residuals orthogonal to 1 and to x. */
  lemma FitIsNormal(pairs: seq<Point>)
    requires OlsFit(pairs).Fitted?
    ensures Normal(Usable(pairs), OlsFit(pairs).slope, OlsFit(pairs).intercept)
  {
    hide SumResidual, SumXResidual, SumX, SumY, Sxx, Sxy, Ssr, Usable, Times;
    var pts, fit := Usable(pairs), OlsFit(pairs);
    var n := |pts| as real;
    var mx, my := SumX(pts) / n, SumY(pts) / n;
    hide OlsFit;
    ResidualTotal(pts, fit.slope, fit.intercept);
    CentredTotal(pts, fit.slope, fit.intercept, mx, my);
    CentredLine(n, mx, my, fit.slope, fit.intercept, SumX(pts), SumY(pts));
    QuotientTimes(fit.slope, Sxy(pts, mx, my), Sxx(pts, mx));
    TimesZero(mx);
  }

  lemma QuotientTimes(q: real, x: real, d: real)
    requires d > 0.0 && q == x / d
    ensures Times(q, d) == x
  {
  }

  lemma TimesZero(k: real)
    ensures Times(k, 0.0) == 0.0
  {
  }

  lemma CentredLine(n: real, mx: real, my: real, s: real, b: real, sumX: real, sumY: real)
    requires n > 0.0 && mx == sumX / n && my == sumY / n && b == my - s * mx
    ensures sumY - Times(s, sumX) - Times(n, b) == 0.0
  {
    assert mx * n == sumX && my * n == sumY;
    assert n * (my - s * mx) == n * my - s * (n * mx);
    MulCong(b, my - s * mx, n);
    MulCong(n * mx, sumX, s);
  }

  // ----- Optimality -----

  /** Squared differences between two lines at the sampled points. */
  function Gap(pts: seq<Point>, ds: real, db: real): real {
    if pts == [] then 0.0 else Square(Affine(ds, pts[0].x, db)) + Gap(pts[1..], ds, db)
  }

  lemma {:induction false} SsrSplit(pts: seq<Point>, s: real, b: real, s': real, b': real)
    ensures Ssr(pts, s', b') == Ssr(pts, s, b) + 2.0 * Times(s - s', SumXResidual(pts, s, b))
                                + 2.0 * Times(b - b', SumResidual(pts, s, b)) + Gap(pts, s - s', b - b')
  {
    if pts == [] {
      TimesZero(s - s');
      TimesZero(b - b');
    } else {
      SsrSplit(pts[1..], s, b, s', b');
      SsrTerm(pts[0], s, b, s', b');
      hide Square, Residual, Affine, Times;
      TimesAdd(s - s', Times(pts[0].x, Residual(pts[0], s, b)), SumXResidual(pts[1..], s, b), SumXResidual(pts, s, b));
      TimesAdd(b - b', Residual(pts[0], s, b), SumResidual(pts[1..], s, b), SumResidual(pts, s, b));
    }
  }

  lemma SsrTerm(p: Point, s: real, b: real, s': real, b': real)
    ensures var r := Residual(p, s, b);
            Square(Residual(p, s', b')) == Square(r) + 2.0 * Times(s - s', Times(p.x, r)) + 2.0 * Times(b - b', r)
              + Square(Affine(s - s', p.x, b - b'))
  {
    var r, g := Residual(p, s, b), Affine(s - s', p.x, b - b');
    assert Residual(p, s', b') == r + g;
    SquareOfSum(r, g, s - s', p.x, b - b');
  }

  lemma SquareOfSum(r: real, g: real, ds: real, x: real, db: real)
    requires g == Affine(ds, x, db)
    ensures Square(r + g) == Square(r) + 2.0 * Times(ds, Times(x, r)) + 2.0 * Times(db, r) + Square(g)
  {
    assert (ds * x + db) * r == ds * (x * r) + db * r;
    MulCong(g, ds * x + db, r);
    assert (r + g) * (r + g) == r * r + 2.0 * (g * r) + g * g;
  }

  function SumDeviation(pts: seq<Point>, mx: real): real {
    if pts == [] then 0.0 else pts[0].x - mx + SumDeviation(pts[1..], mx)
  }

  lemma {:induction false} DeviationTotal(pts: seq<Point>, mx: real)
    ensures SumDeviation(pts, mx) == SumX(pts) - Times(|pts| as real, mx)
  {
    if pts != [] {
      DeviationTotal(pts[1..], mx);
      TimesSucc(|pts[1..]| as real, mx);
      hide Times;
    }
  }

  lemma {:induction false} GapSplit(pts: seq<Point>, ds: real, db: real, mx: real, e: real, de: real)
    requires e == Affine(ds, mx, db) && de == ds * e
    ensures Gap(pts, ds, db) == Times(Square(ds), Sxx(pts, mx)) + 2.0 * Times(de, SumDeviation(pts, mx))
            + Times(|pts| as real, Square(e))
  {
    if pts == [] {
      TimesZero(Square(ds));
      TimesZero(de);
    } else {
      GapSplit(pts[1..], ds, db, mx, e, de);
      GapTerm(pts[0].x, ds, db, mx, e, de);
      hide Affine, Square, Times;
      TimesAdd(Square(ds), Square(pts[0].x - mx), Sxx(pts[1..], mx), Sxx(pts, mx));
      TimesAdd(de, pts[0].x - mx, SumDeviation(pts[1..], mx), SumDeviation(pts, mx));
      TimesSucc(|pts[1..]| as real, Square(e));
    }
  }

  lemma GapTerm(x: real, ds: real, db: real, mx: real, e: real, de: real)
    requires e == Affine(ds, mx, db) && de == ds * e
    ensures Square(Affine(ds, x, db)) == Times(Square(ds), Square(x - mx)) + 2.0 * Times(de, x - mx) + Square(e)
  {
    var d := x - mx;
    assert Affine(ds, x, db) == ds * d + e;
    assert (ds * d + e) * (ds * d + e) == ds * ds * (d * d) + 2.0 * (ds * e * d) + e * e;
  }

  /** Two different lines differ at the sampled points when those have any spread. */
  lemma GapPositive(pts: seq<Point>, ds: real, db: real, mx: real)
    requires |pts| > 0 && mx == SumX(pts) / |pts| as real && Sxx(pts, mx) > 0.0
    ensures Gap(pts, ds, db) >= 0.0
    ensures ds != 0.0 || db != 0.0 ==> Gap(pts, ds, db) > 0.0
  {
    var e, n := Affine(ds, mx, db), |pts| as real;
    var de := ds * e;
    GapSplit(pts, ds, db, mx, e, de);
    DeviationTotal(pts, mx);
    hide Gap, SumX, Sxx, SumDeviation, Times, Square, Affine;
    MeanTimes(n, mx, SumX(pts));
    TimesZero(de);
    GapSign(ds, db, mx, e, Sxx(pts, mx), n);
  }

  lemma MeanTimes(n: real, mean: real, sum: real)
    requires n > 0.0 && mean == sum / n
    ensures Times(n, mean) == sum
  {
  }

  lemma GapSign(ds: real, db: real, mx: real, e: real, sxx: real, n: real)
    requires e == Affine(ds, mx, db) && sxx > 0.0 && n > 0.0
    ensures Times(Square(ds), sxx) + Times(n, Square(e)) >= 0.0
    ensures ds != 0.0 || db != 0.0 ==> Times(Square(ds), sxx) + Times(n, Square(e)) > 0.0
  {
    SquareAtLeastZero(ds);
    SquareAtLeastZero(e);
    assert ds == 0.0 ==> e == db;
    if ds != 0.0 {
      SquareAboveZero(ds);
    } else if db != 0.0 {
      SquareAboveZero(e);
    }
    hide Square, Affine;
    MulNonNeg(Square(ds), sxx, Times(Square(ds), sxx));
    MulNonNeg(n, Square(e), Times(n, Square(e)));
    if ds != 0.0 {
      MulPos(Square(ds), sxx, Times(Square(ds), sxx));
    } else if db != 0.0 {
      MulPos(n, Square(e), Times(n, Square(e)));
    }
  }

  /** Main result: no line beats the fitted one on the usable points, and none ties with it. */
  lemma FitIsOptimal(pairs: seq<Point>, s: real, b: real)
    requires OlsFit(pairs).Fitted?
    ensures var fit, pts := OlsFit(pairs), Usable(pairs);
            && Ssr(pts, fit.slope, fit.intercept) <= Ssr(pts, s, b)
            && ((s, b) != (fit.slope, fit.intercept) ==> Ssr(pts, fit.slope, fit.intercept) < Ssr(pts, s, b))
  {
    var fit, pts := OlsFit(pairs), Usable(pairs);
    FitIsNormal(pairs);
    hide Ssr, Gap, SumResidual, SumXResidual, Times, Usable;
    TimesZero(fit.slope - s);
    TimesZero(fit.intercept - b);
    SsrSplit(pts, fit.slope, fit.intercept, s, b);
    GapPositive(pts, fit.slope - s, fit.intercept - b, SumX(pts) / |pts| as real);
  }

  lemma {:induction false} SsrNonNeg(pts: seq<Point>, s: real, b: real)
    ensures Ssr(pts, s, b) >= 0.0
  {
    if pts != [] {
      SsrNonNeg(pts[1..], s, b);
      SquareAtLeastZero(Residual(pts[0], s, b));
    }
  }

  /** The goodness of fit lies between 0 and 1 whenever it is reported. */
  lemma R2InRange(pairs: seq<Point>)
    requires OlsFit(pairs).Fitted? && OlsFit(pairs).r2.Some?
    ensures 0.0 <= OlsFit(pairs).r2.value <= 1.0
  {
    var fit, pts := OlsFit(pairs), Usable(pairs);
    var my := SumY(pts) / |pts| as real;
    var rest, total := Ssr(pts, fit.slope, fit.intercept), Ssr(pts, 0.0, my);
    FitIsOptimal(pairs, 0.0, my);
    SsrNonNeg(pts, fit.slope, fit.intercept);
    DivLe(rest, 1.0, total);
    DivNonNeg(rest, total);
  }

  lemma {:induction false} SsrZero(pts: seq<Point>, s: real, b: real)
    requires forall p <- pts :: p.y == Affine(s, p.x, b)
    ensures Ssr(pts, s, b) == 0.0
  {
    if pts != [] {
      assert pts[0] in pts && forall p <- pts[1..] :: p in pts;
      SsrZero(pts[1..], s, b);
    }
  }

  /** Ground truth is recovered: points on a line give back exactly that line, with r² = 1 if reported. */
  lemma ExactLineRecovered(pairs: seq<Point>, s: real, b: real)
    requires OlsFit(pairs).Fitted?
    requires forall p <- pairs :: p.x > 0.0 ==> p.y == Affine(s, p.x, b)
    ensures var fit := OlsFit(pairs);
            fit.slope == s && fit.intercept == b && (fit.r2.Some? ==> fit.r2.value == 1.0)
  {
    var fit, pts := OlsFit(pairs), Usable(pairs);
    SsrZero(pts, s, b);
    FitIsOptimal(pairs, s, b);
    SsrNonNeg(pts, fit.slope, fit.intercept);
  }
}
