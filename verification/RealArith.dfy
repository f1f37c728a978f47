/**
  Absolute value, maximum, and the few facts about products that linear reasoning
  does not supply. Products are passed in as a named argument: `z` stands for `x * y`.
 */
module RealArith {
  function Abs(x: real): real {
    if x < 0.0 then -x else x
  }

  function Max(x: real, y: real): real {
    if x < y then y else x
  }

  // Products under a name, so that proofs that only pass them along need not look inside.

  function Times(x: real, y: real): real {
    x * y
  }

  function Square(x: real): real {
    x * x
  }

  function Affine(a: real, x: real, b: real): real {
    a * x + b
  }

  lemma MulPos(x: real, y: real, z: real)
    requires x > 0.0 && y > 0.0 && z == x * y
    ensures z > 0.0
  {
  }

  lemma MulNonNeg(x: real, y: real, z: real)
    requires x >= 0.0 && y >= 0.0 && z == x * y
    ensures z >= 0.0
  {
  }

  lemma SquareNonNeg(x: real, z: real)
    requires z == x * x
    ensures z >= 0.0
  {
    if x >= 0.0 {
      MulNonNeg(x, x, z);
    } else {
      MulNonNeg(-x, -x, z);
    }
  }

  lemma SquarePos(x: real, z: real)
    requires x != 0.0 && z == x * x
    ensures z > 0.0
  {
    if x > 0.0 {
      MulPos(x, x, z);
    } else {
      MulPos(-x, -x, z);
    }
  }

  /** Multiplying a non-negative number by at least one does not shrink it. */
  lemma TimesGrows(x: real, k: real)
    requires x >= 0.0 && k >= 1.0
    ensures Times(x, k) >= x
  {
    MulNonNeg(x, k - 1.0, x * (k - 1.0));
  }

  lemma TimesNonNeg(x: real, y: real)
    requires x >= 0.0 && y >= 0.0
    ensures Times(x, y) >= 0.0
  {
    MulNonNeg(x, y, x * y);
  }

  lemma TimesMono(x: real, y: real, k: real)
    requires x <= y && k >= 0.0
    ensures Times(x, k) <= Times(y, k) && Times(k, x) <= Times(k, y)
  {
    MulNonNeg(y - x, k, (y - x) * k);
  }

  lemma TimesAdd(k: real, a: real, b: real, c: real)
    requires c == a + b
    ensures Times(k, c) == Times(k, a) + Times(k, b)
  {
    assert k * (a + b) == k * a + k * b;
    MulCong(c, a + b, k);
  }

  lemma TimesSucc(k: real, x: real)
    ensures Times(k + 1.0, x) == Times(k, x) + x
  {
  }

  lemma SquareMono(x: real, y: real)
    requires Abs(x) <= Abs(y)
    ensures Square(x) <= Square(y)
  {
    SquareOfAbs(x);
    SquareOfAbs(y);
    hide Square;
    SquareMonoNonNeg(Abs(x), Abs(y));
  }

  lemma SquareOfAbs(x: real)
    ensures Square(Abs(x)) == Square(x)
  {
  }

  lemma SquareMonoNonNeg(a: real, b: real)
    requires 0.0 <= a <= b
    ensures Square(a) <= Square(b)
  {
    MulNonNeg(b - a, b + a, (b - a) * (b + a));
    assert (b - a) * (b + a) == b * b - a * a;
  }

  lemma SquareAtLeastZero(x: real)
    ensures Square(x) >= 0.0
  {
    SquareNonNeg(x, x * x);
  }

  lemma SquareAboveZero(x: real)
    requires x != 0.0
    ensures Square(x) > 0.0
  {
    SquarePos(x, x * x);
  }

  lemma MulCong(x: real, y: real, k: real)
    requires x == y
    ensures x * k == y * k
  {
  }

  lemma MulMono(k: real, x: real, y: real)
    requires x <= y && k >= 0.0
    ensures k * x <= k * y
  {
    MulNonNeg(k, y - x, k * (y - x));
  }

  lemma DivPos(x: real, d: real)
    requires x > 0.0 && d > 0.0
    ensures x / d > 0.0
  {
    var q := x / d;
    assert q * d == x;
    if q < 0.0 {
      MulPos(-q, d, -q * d);
    }
  }

  lemma DivNonNeg(x: real, d: real)
    requires x >= 0.0 && d > 0.0
    ensures x / d >= 0.0
  {
    if x > 0.0 {
      DivPos(x, d);
    }
  }

  lemma DivLe(x: real, y: real, d: real)
    requires d > 0.0 && x <= y * d
    ensures x / d <= y
  {
    DivNonNeg(y * d - x, d);
    assert (y * d - x) / d == y - x / d;
  }

  lemma Cancel(x: real, y: real, w: real)
    requires w > 0.0 && x * w == y * w
    ensures x == y
  {
    assert (x - y) * w == 0.0;
    if x > y {
      MulPos(x - y, w, (x - y) * w);
    } else if x < y {
      MulPos(y - x, w, (y - x) * w);
    }
  }

  lemma PositiveQuotient(x: real, w: real)
    requires w > 0.0 && x * w > 0.0
    ensures x > 0.0
  {
    if x <= 0.0 {
      MulNonNeg(-x, w, -x * w);
    }
  }

  /** A positive definite quadratic form is positive away from the origin. */
  lemma QuadPositive(a: real, c: real, d: real, u: real, v: real)
    requires a > 0.0 && a * d - c * c > 0.0
    requires u != 0.0 || v != 0.0
    ensures a * u * u + 2.0 * c * u * v + d * v * v > 0.0
  {
    var q := a * u * u + 2.0 * c * u * v + d * v * v;
    if v == 0.0 {
      SquarePos(u, u * u);
      MulPos(a, u * u, q);
    } else {
      CompleteSquare(a, c, d, u, v, q, v * v, a * u + c * v);
    }
  }

  lemma CompleteSquare(a: real, c: real, d: real, u: real, v: real, q: real, vv: real, w: real)
    requires a > 0.0 && a * d - c * c > 0.0 && v != 0.0
    requires q == a * u * u + 2.0 * c * u * v + d * v * v && vv == v * v && w == a * u + c * v
    ensures q > 0.0
  {
    SquarePos(v, vv);
    SquareNonNeg(w, w * w);
    MulPos(a * d - c * c, vv, (a * d - c * c) * vv);
    assert a * q == w * w + (a * d - c * c) * vv;
    if q <= 0.0 {
      MulNonNeg(a, -q, a * (-q));
    }
  }
}
