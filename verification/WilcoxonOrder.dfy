/** The rank sum of the positive differences as a function of their order. */
module WilcoxonOrder {
  import opened RealArith
  import opened SubsetSums
  import opened Wilcoxon

  function Smaller(xs: seq<real>, m: real): nat {
    if xs == [] then 0 else (if Abs(xs[0]) < m then 1 else 0) + Smaller(xs[1..], m)
  }

  function AtMost(xs: seq<real>, m: real): nat {
    if xs == [] then 0 else (if Abs(xs[0]) <= m then 1 else 0) + AtMost(xs[1..], m)
  }

  /** The rank of x between the differences before it and after it, if x is positive. */
  function RankTerm(before: seq<real>, x: real, rest: seq<real>): int {
    if x > 0.0 then 1 + AtMost(before, Abs(x)) + Smaller(rest, Abs(x)) else 0
  }

  /** The rank sum of the positive differences among xs, which follow those in `before`. */
  function PositiveRanks(before: seq<real>, xs: seq<real>): int
    decreases |xs|
  {
    if xs == [] then 0 else RankTerm(before, xs[0], xs[1..]) + PositiveRanks(before + [xs[0]], xs[1..])
  }

  // ----- Any ranking gives this sum -----

  lemma {:induction false} CountPermuted(xs: seq<int>, ys: seq<int>, w: int)
    requires multiset(xs) == multiset(ys)
    ensures CountLe(xs, w) == CountLe(ys, w)
    decreases |xs|
  {
    assert |xs| == |multiset(xs)| == |multiset(ys)| == |ys|;
    if xs != [] {
      var k := SameMultisetPull(xs, ys);
      CountPermuted(xs[1..], Without(ys, k), w);
      assert ys == ys[..k] + ([ys[k]] + ys[k + 1..]);
      assert ([ys[k]] + ys[k + 1..])[1..] == ys[k + 1..];
      CountAppend(ys[..k], [ys[k]] + ys[k + 1..], w);
      CountAppend(ys[..k], ys[k + 1..], w);
    }
  }

  lemma {:induction false} CountUpTo(n: nat, v: nat)
    ensures CountLe(UpTo(n), v) == if v <= n then v else n
  {
    if n > 0 {
      assert UpTo(n) == UpTo(n - 1) + [n];
      CountUpTo(n - 1, v);
      CountAppend(UpTo(n - 1), [n], v);
      assert [n][1..] == [];
    }
  }

  lemma {:induction false} CountIsAtMost(ranks: seq<int>, xs: seq<real>, v: int, m: real)
    requires |ranks| == |xs| && forall j :: 0 <= j < |xs| ==> (ranks[j] <= v <==> Abs(xs[j]) <= m)
    ensures CountLe(ranks, v) == AtMost(xs, m)
  {
    if xs != [] {
      CountIsAtMost(ranks[1..], xs[1..], v, m);
    }
  }

  lemma {:induction false} CountIsSmaller(ranks: seq<int>, xs: seq<real>, v: int, m: real)
    requires |ranks| == |xs| && forall j :: 0 <= j < |xs| ==> (ranks[j] <= v <==> Abs(xs[j]) < m)
    ensures CountLe(ranks, v) == Smaller(xs, m)
  {
    if xs != [] {
      CountIsSmaller(ranks[1..], xs[1..], v, m);
    }
  }

  lemma RankInRange(nz: seq<real>, ranks: seq<int>, i: nat)
    requires IsRanking(nz, ranks) && i < |nz|
    ensures 1 <= ranks[i] <= |nz|
  {
    assert ranks[i] in multiset(ranks);
    assert ranks[i] in UpTo(|nz|);
  }

  /** The rank of a difference counts those that precede it: smaller magnitudes, and equal ones that come earlier. */
  lemma RankIs(nz: seq<real>, ranks: seq<int>, i: nat)
    requires IsRanking(nz, ranks) && i < |nz|
    ensures ranks[i] == 1 + AtMost(nz[..i], Abs(nz[i])) + Smaller(nz[i + 1..], Abs(nz[i]))
  {
    var v, m := ranks[i], Abs(nz[i]);
    RankInRange(nz, ranks, i);
    CountPermuted(ranks, UpTo(|nz|), v);
    CountUpTo(|nz|, v);
    assert ranks == ranks[..i] + ([v] + ranks[i + 1..]) && ([v] + ranks[i + 1..])[1..] == ranks[i + 1..];
    CountAppend(ranks[..i], [v] + ranks[i + 1..], v);
    Separates(nz, ranks, i);
    hide IsRanking, Abs;
    CountIsAtMost(ranks[..i], nz[..i], v, m);
    CountIsSmaller(ranks[i + 1..], nz[i + 1..], v, m);
  }

  lemma Separates(nz: seq<real>, ranks: seq<int>, i: nat)
    requires IsRanking(nz, ranks) && i < |nz|
    ensures forall j :: 0 <= j < i ==> (ranks[j] <= ranks[i] <==> Abs(nz[j]) <= Abs(nz[i]))
    ensures forall j :: i < j < |nz| ==> (ranks[j] <= ranks[i] <==> Abs(nz[j]) < Abs(nz[i]))
  {
    hide Abs;
    forall j | 0 <= j < |nz| && j != i
      ensures j < i ==> (ranks[j] <= ranks[i] <==> Abs(nz[j]) <= Abs(nz[i]))
      ensures i < j ==> (ranks[j] <= ranks[i] <==> Abs(nz[j]) < Abs(nz[i]))
    {
      assert Less(nz, i, j) || Less(nz, j, i);
    }
  }

  lemma {:induction false} RankSumFrom(nz: seq<real>, ranks: seq<int>, k: nat)
    requires IsRanking(nz, ranks) && k <= |nz|
    ensures Selected(ranks[k..], Positive(nz)[k..]) == PositiveRanks(nz[..k], nz[k..])
    decreases |nz| - k
  {
    if k < |nz| {
      RankSumFrom(nz, ranks, k + 1);
      RankIs(nz, ranks, k);
      hide IsRanking, AtMost, Smaller, Abs;
      assert nz[..k] + [nz[k]] == nz[..k + 1] && nz[k..][1..] == nz[k + 1..];
      assert ranks[k..][1..] == ranks[k + 1..] && Positive(nz)[k..][1..] == Positive(nz)[k + 1..];
    }
  }

  /** Every ranking by magnitude with ties in input order gives the same rank sum of the positives. */
  lemma RankSumIs(nz: seq<real>, ranks: seq<int>)
    requires IsRanking(nz, ranks)
    ensures Selected(ranks, Positive(nz)) == PositiveRanks([], nz)
  {
    RankSumFrom(nz, ranks, 0);
    assert ranks[0..] == ranks && Positive(nz)[0..] == Positive(nz) && nz[..0] == [] && nz[0..] == nz;
  }

  // ----- Permuting the differences -----

  lemma {:induction false} TallyAppend(a: seq<real>, b: seq<real>, m: real)
    ensures Smaller(a + b, m) == Smaller(a, m) + Smaller(b, m) && AtMost(a + b, m) == AtMost(a, m) + AtMost(b, m)
  {
    if a == [] {
      assert a + b == b;
    } else {
      assert (a + b)[1..] == a[1..] + b;
      TallyAppend(a[1..], b, m);
    }
  }

  lemma TallyCons(x: real, r: seq<real>, m: real)
    ensures Smaller([x] + r, m) == (if Abs(x) < m then 1 else 0) + Smaller(r, m)
    ensures AtMost([x] + r, m) == (if Abs(x) <= m then 1 else 0) + AtMost(r, m)
  {
    assert ([x] + r)[1..] == r;
  }

  lemma {:induction false} TallyPermuted(xs: seq<real>, ys: seq<real>, m: real)
    requires multiset(xs) == multiset(ys)
    ensures Smaller(xs, m) == Smaller(ys, m) && AtMost(xs, m) == AtMost(ys, m)
    decreases |xs|
  {
    assert |xs| == |multiset(xs)| == |multiset(ys)| == |ys|;
    if xs != [] {
      var k := SameMultisetPull(xs, ys);
      TallyPermuted(xs[1..], Without(ys, k), m);
      assert ys == ys[..k] + ([ys[k]] + ys[k + 1..]);
      TallyCons(ys[k], ys[k + 1..], m);
      TallyAppend(ys[..k], [ys[k]] + ys[k + 1..], m);
      TallyAppend(ys[..k], ys[k + 1..], m);
    }
  }

  lemma {:induction false} BeforePermuted(a: seq<real>, b: seq<real>, xs: seq<real>)
    requires multiset(a) == multiset(b)
    ensures PositiveRanks(a, xs) == PositiveRanks(b, xs)
    decreases |xs|
  {
    if xs != [] {
      TallyPermuted(a, b, Abs(xs[0]));
      BeforePermuted(a + [xs[0]], b + [xs[0]], xs[1..]);
    }
  }

  lemma RanksCons(before: seq<real>, x: real, r: seq<real>)
    ensures PositiveRanks(before, [x] + r) == RankTerm(before, x, r) + PositiveRanks(before + [x], r)
  {
    assert ([x] + r)[1..] == r;
  }

  /** What swapping two neighbours changes: nothing, unless they tie with opposite signs. */
  lemma SwapNeighbours(before: seq<real>, x: real, y: real, r: seq<real>)
    ensures PositiveRanks(before, [x] + ([y] + r)) - PositiveRanks(before, [y] + ([x] + r))
            == if Abs(x) == Abs(y) then (if y > 0.0 then 1 else 0) - (if x > 0.0 then 1 else 0) else 0
  {
    RanksCons(before, x, [y] + r);
    RanksCons(before + [x], y, r);
    RanksCons(before, y, [x] + r);
    RanksCons(before + [y], x, r);
    BeforePermuted(before + [x] + [y], before + [y] + [x], r);
    SwappedTerms(before, x, y, r);
    hide PositiveRanks, RankTerm, Abs;
  }

  lemma SwappedTerms(before: seq<real>, x: real, y: real, r: seq<real>)
    ensures RankTerm(before, x, [y] + r) + RankTerm(before + [x], y, r) - RankTerm(before, y, [x] + r)
            - RankTerm(before + [y], x, r)
            == if Abs(x) == Abs(y) then (if y > 0.0 then 1 else 0) - (if x > 0.0 then 1 else 0) else 0
  {
    TallyCons(y, r, Abs(x));
    TallyCons(x, r, Abs(y));
    TallyOne(before, x, Abs(y));
    TallyOne(before, y, Abs(x));
    hide Smaller, AtMost, Abs;
  }

  lemma TallyOne(before: seq<real>, x: real, m: real)
    ensures AtMost(before + [x], m) == AtMost(before, m) + if Abs(x) <= m then 1 else 0
  {
    TallyAppend(before, [x], m);
    assert [x][1..] == [];
  }

  lemma PulledSameElements(t: seq<real>, k: nat)
    requires k < |t|
    ensures multiset([t[k]] + Without(t, k)) == multiset(t)
  {
    assert t == t[..k] + [t[k]] + t[k + 1..];
  }

  lemma TermPermuted(before: seq<real>, x: real, r: seq<real>, r': seq<real>)
    requires multiset(r) == multiset(r')
    ensures RankTerm(before, x, r) == RankTerm(before, x, r')
  {
    TallyPermuted(r, r', Abs(x));
  }

  // ----- The audit -----

  /** W⁺ of the audit, as a function of the differences in their order. */
  function WPlus(diffs: seq<real>): int {
    PositiveRanks([], NonZero(diffs))
  }

  lemma {:induction false} NonZeroCount(diffs: seq<real>, d: real)
    ensures multiset(NonZero(diffs))[d] == if d == 0.0 then 0 else multiset(diffs)[d]
  {
    if diffs != [] {
      NonZeroCount(diffs[1..], d);
      assert diffs == [diffs[0]] + diffs[1..];
    }
  }

  lemma NonZeroPermuted(diffs: seq<real>, perm: seq<real>)
    requires multiset(diffs) == multiset(perm)
    ensures multiset(NonZero(diffs)) == multiset(NonZero(perm)) && |NonZero(diffs)| == |NonZero(perm)|
  {
    forall d ensures multiset(NonZero(diffs))[d] == multiset(NonZero(perm))[d] {
      NonZeroCount(diffs, d);
      NonZeroCount(perm, d);
    }
    assert |NonZero(diffs)| == |multiset(NonZero(diffs))| && |NonZero(perm)| == |multiset(NonZero(perm))|;
  }

  lemma NonZeroCons(d: real, r: seq<real>)
    requires d != 0.0
    ensures NonZero([d] + r) == [d] + NonZero(r)
  {
    assert ([d] + r)[1..] == r;
  }

  lemma SignSums(nz: seq<real>, ranks: seq<int>)
    requires IsRanking(nz, ranks) && 0.0 !in nz
    ensures Selected(ranks, Positive(nz)) + Selected(ranks, Negative(nz)) == |nz| * (|nz| + 1) / 2
  {
    forall i | 0 <= i < |nz| ensures Positive(nz)[i] == !Negative(nz)[i] {
      assert nz[i] in nz;
    }
    SignsPartition(ranks, Positive(nz), Negative(nz));
    OrderIrrelevant(ranks, UpTo(|nz|), 0);
    TotalUpTo(|nz|);
  }

  lemma ThreeRanks(x: real, y: real, z: real)
    ensures PositiveRanks([], [x, y, z]) == RankTerm([], x, [y, z]) + RankTerm([x], y, [z]) + RankTerm([x, y], z, [])
  {
    assert [x] + [y, z] == [x, y, z] && [y] + [z] == [y, z] && [z] + [] == [z] && [] + [x] == [x]
           && [x] + [y] == [x, y];
    RanksCons([], x, [y, z]);
    RanksCons([x], y, [z]);
    RanksCons([x, y], z, []);
    hide RankTerm;
  }

  lemma NoZeros(x: real, y: real, z: real)
    requires x != 0.0 && y != 0.0 && z != 0.0
    ensures NonZero([x, y, z]) == [x, y, z]
  {
    assert [x] + [y, z] == [x, y, z] && [y] + [z] == [y, z] && [z] + [] == [z];
    NonZeroCons(x, [y, z]);
    NonZeroCons(y, [z]);
    NonZeroCons(z, []);
  }

  lemma TallyTwo(x: real, y: real, m: real)
    ensures Smaller([x, y], m) == (if Abs(x) < m then 1 else 0) + if Abs(y) < m then 1 else 0
    ensures AtMost([x, y], m) == (if Abs(x) <= m then 1 else 0) + if Abs(y) <= m then 1 else 0
  {
    assert [x] + [y] == [x, y] && [y] + [] == [y];
    TallyCons(x, [y], m);
    TallyCons(y, [], m);
  }

  /** The smallest case: the differences 1, 1 and -1 have W⁺ = 3 in this order and 5 with -1 first. */
  lemma MixedTieExample()
    ensures WPlus([1.0, 1.0, -1.0]) == 3 && WPlus([-1.0, 1.0, 1.0]) == 5
  {
    NoZeros(1.0, 1.0, -1.0);
    NoZeros(-1.0, 1.0, 1.0);
    ThreeRanks(1.0, 1.0, -1.0);
    ThreeRanks(-1.0, 1.0, 1.0);
    hide NonZero, PositiveRanks;
    TallyTwo(1.0, -1.0, 1.0);
    TallyTwo(-1.0, 1.0, 1.0);
    TallyOne([], 1.0, 1.0);
    TallyOne([], -1.0, 1.0);
    assert [] + [1.0] == [1.0] && [] + [-1.0] == [-1.0];
  }
}
