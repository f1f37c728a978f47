/** All subset sums of a sequence of ranks, how many fall in either tail, and what does not matter about their order. */
module SubsetSums {
  function Total(xs: seq<int>): int {
    if xs == [] then 0 else xs[0] + Total(xs[1..])
  }

  function ShiftAll(s: seq<int>, x: int): (r: seq<int>)
    ensures |r| == |s| && forall i :: 0 <= i < |s| ==> r[i] == s[i] + x
  {
    seq(|s|, i requires 0 <= i < |s| => s[i] + x)
  }

  function Pow2(n: nat): (p: nat)
    ensures p >= 1
  {
    if n == 0 then 1 else 2 * Pow2(n - 1)
  }

  /** The sums of all 2ⁿ sub-selections, those without the first element before those with it. */
  function Sums(xs: seq<int>): (s: seq<int>)
    ensures |s| == Pow2(|xs|)
  {
    if xs == [] then [0] else Sums(xs[1..]) + ShiftAll(Sums(xs[1..]), xs[0])
  }

  function CountLe(s: seq<int>, w: int): nat {
    if s == [] then 0 else (if s[0] <= w then 1 else 0) + CountLe(s[1..], w)
  }

  function CountGe(s: seq<int>, w: int): nat {
    if s == [] then 0 else (if s[0] >= w then 1 else 0) + CountGe(s[1..], w)
  }

  function Min(x: int, y: int): int {
    if x <= y then x else y
  }

  /** How many sums, or their complements to the total, are at most w. */
  function CountTails(s: seq<int>, total: int, w: int): nat {
    if s == [] then 0 else (if Min(s[0], total - s[0]) <= w then 1 else 0) + CountTails(s[1..], total, w)
  }

  lemma {:induction false} CountAppend(a: seq<int>, b: seq<int>, w: int)
    ensures CountLe(a + b, w) == CountLe(a, w) + CountLe(b, w)
    ensures CountGe(a + b, w) == CountGe(a, w) + CountGe(b, w)
  {
    if a == [] {
      assert a + b == b;
    } else {
      assert (a + b)[1..] == a[1..] + b;
      CountAppend(a[1..], b, w);
    }
  }

  lemma {:induction false} CountShift(s: seq<int>, x: int, w: int)
    ensures CountLe(ShiftAll(s, x), w) == CountLe(s, w - x)
    ensures CountGe(ShiftAll(s, x), w) == CountGe(s, w - x)
  {
    if s != [] {
      assert ShiftAll(s, x)[1..] == ShiftAll(s[1..], x);
      CountShift(s[1..], x, w);
    }
  }

  /** Selections with sum at most w either skip the first element or take it. */
  lemma CountSplit(x: int, xs: seq<int>, w: int)
    ensures CountLe(Sums([x] + xs), w) == CountLe(Sums(xs), w) + CountLe(Sums(xs), w - x)
    ensures CountGe(Sums([x] + xs), w) == CountGe(Sums(xs), w) + CountGe(Sums(xs), w - x)
  {
    assert ([x] + xs)[1..] == xs;
    CountAppend(Sums(xs), ShiftAll(Sums(xs), x), w);
    CountShift(Sums(xs), x, w);
  }

  /** Complementing a selection mirrors its sum, so the two tails are equally heavy. */
  lemma {:induction false} TailsMirror(xs: seq<int>, w: int)
    ensures CountGe(Sums(xs), Total(xs) - w) == CountLe(Sums(xs), w)
  {
    if xs == [] {
      assert Sums(xs) == [0] && [0][1..] == [];
    } else {
      assert xs == [xs[0]] + xs[1..];
      CountSplit(xs[0], xs[1..], w);
      CountSplit(xs[0], xs[1..], Total(xs) - w);
      TailsMirror(xs[1..], w);
      TailsMirror(xs[1..], w - xs[0]);
    }
  }

  lemma {:induction false} TailsDisjoint(s: seq<int>, total: int, w: int)
    requires 2 * w < total
    ensures CountTails(s, total, w) == CountLe(s, w) + CountGe(s, total - w) <= |s|
  {
    if s != [] {
      TailsDisjoint(s[1..], total, w);
    }
  }

  lemma {:induction false} TailsMeet(s: seq<int>, total: int, w: int)
    requires 2 * w == total
    ensures CountTails(s, total, w) == |s| <= CountLe(s, w) + CountGe(s, total - w)
  {
    if s != [] {
      TailsMeet(s[1..], total, w);
    }
  }

  /** Both tails together hold twice the lower tail, or everything once the tails meet. */
  lemma TwoTails(xs: seq<int>, w: int)
    requires 2 * w <= Total(xs)
    ensures CountTails(Sums(xs), Total(xs), w) == Min(Pow2(|xs|), 2 * CountLe(Sums(xs), w))
    ensures 2 * w < Total(xs) ==> CountTails(Sums(xs), Total(xs), w) == 2 * CountLe(Sums(xs), w)
    ensures 2 * w == Total(xs) ==> CountTails(Sums(xs), Total(xs), w) == Pow2(|xs|)
  {
    TailsMirror(xs, w);
    if 2 * w < Total(xs) {
      TailsDisjoint(Sums(xs), Total(xs), w);
    } else {
      TailsMeet(Sums(xs), Total(xs), w);
    }
  }

  // ----- Order of the ranks -----

  function Without<T>(xs: seq<T>, k: nat): seq<T>
    requires k < |xs|
  {
    xs[..k] + xs[k + 1..]
  }

  lemma {:induction false} PullFrontTotal(xs: seq<int>, k: nat)
    requires k < |xs|
    ensures Total(xs) == xs[k] + Total(Without(xs, k))
  {
    if k == 0 {
      assert Without(xs, 0) == xs[1..];
    } else {
      PullFrontTotal(xs[1..], k - 1);
      assert Without(xs, k) == [xs[0]] + Without(xs[1..], k - 1);
    }
  }

  lemma SwapFront(x: int, y: int, r: seq<int>, w: int)
    ensures CountLe(Sums([x] + ([y] + r)), w) == CountLe(Sums([y] + ([x] + r)), w)
  {
    hide Sums, CountLe;
    CountSplit(x, [y] + r, w);
    CountSplit(y, [x] + r, w);
    CountSplit(y, r, w);
    CountSplit(y, r, w - x);
    CountSplit(x, r, w);
    CountSplit(x, r, w - y);
  }

  lemma {:induction false} PullFront(xs: seq<int>, k: nat, w: int)
    requires k < |xs|
    ensures CountLe(Sums(xs), w) == CountLe(Sums([xs[k]] + Without(xs, k)), w)
  {
    hide Sums, CountLe;
    var y, ys, z := xs[0], xs[1..], xs[k];
    assert xs == [y] + ys;
    if k == 0 {
      assert Without(xs, 0) == ys;
    } else {
      var r := Without(ys, k - 1);
      assert Without(xs, k) == [y] + r;
      PullFront(ys, k - 1, w);
      PullFront(ys, k - 1, w - y);
      CountSplit(y, ys, w);
      CountSplit(y, [z] + r, w);
      SwapFront(y, z, r, w);
    }
  }

  lemma SameMultisetPull<T>(xs: seq<T>, ys: seq<T>) returns (k: nat)
    requires multiset(xs) == multiset(ys) && xs != []
    ensures k < |ys| && ys[k] == xs[0] && multiset(xs[1..]) == multiset(Without(ys, k))
  {
    assert xs == [xs[0]] + xs[1..];
    assert xs[0] in multiset(ys);
    k :| 0 <= k < |ys| && ys[k] == xs[0];
    assert ys == ys[..k] + [ys[k]] + ys[k + 1..];
    assert multiset(xs[1..]) == multiset(xs) - multiset{xs[0]};
  }

  /** Which position holds which rank is irrelevant to the count and to the total. */
  lemma {:induction false} OrderIrrelevant(xs: seq<int>, ys: seq<int>, w: int)
    requires multiset(xs) == multiset(ys)
    ensures CountLe(Sums(xs), w) == CountLe(Sums(ys), w) && Total(xs) == Total(ys) && |xs| == |ys|
    decreases |xs|
  {
    assert |xs| == |multiset(xs)| == |multiset(ys)| == |ys|;
    if xs == [] {
      assert ys == [];
    } else {
      hide Sums, CountLe;
      var k := SameMultisetPull(xs, ys);
      var x, rest := xs[0], xs[1..];
      assert xs == [x] + rest;
      OrderIrrelevant(rest, Without(ys, k), w);
      OrderIrrelevant(rest, Without(ys, k), w - x);
      CountSplit(x, rest, w);
      CountSplit(x, Without(ys, k), w);
      PullFront(ys, k, w);
      PullFrontTotal(ys, k);
    }
  }

  // ----- Enumerating selections -----

  function PrependAll(b: bool, s: seq<seq<bool>>): (r: seq<seq<bool>>)
    ensures |r| == |s| && forall i :: 0 <= i < |s| ==> r[i] == [b] + s[i]
  {
    seq(|s|, i requires 0 <= i < |s| => [b] + s[i])
  }

  /** Every sequence of n signs once, the last position varying fastest. */
  function Product(n: nat): (signs: seq<seq<bool>>)
    ensures |signs| == Pow2(n)
  {
    if n == 0 then [[]] else PrependAll(false, Product(n - 1)) + PrependAll(true, Product(n - 1))
  }

  lemma HalvesAt(a: seq<seq<bool>>, k: nat)
    requires k < 2 * |a|
    ensures (PrependAll(false, a) + PrependAll(true, a))[k] == if k < |a| then [false] + a[k] else [true] + a[k - |a|]
  {
  }

  lemma ProductAt(n: nat, k: nat)
    requires 0 < n && k < Pow2(n)
    ensures Product(n)[k] == if k < Pow2(n - 1) then [false] + Product(n - 1)[k]
                             else [true] + Product(n - 1)[k - Pow2(n - 1)]
  {
    HalvesAt(Product(n - 1), k);
  }

  /** A sign vector read as a binary number. */
  function Rank(s: seq<bool>): (k: nat)
    ensures k < Pow2(|s|)
  {
    if s == [] then 0 else (if s[0] then Pow2(|s| - 1) else 0) + Rank(s[1..])
  }

  /** The enumeration lists every sign vector, at the position given by its binary number ... */
  lemma {:induction false} ProductRank(s: seq<bool>)
    ensures Product(|s|)[Rank(s)] == s
  {
    if s != [] {
      hide Product;
      var t := s[1..];
      var n := |t|;
      assert Rank(s) == (if s[0] then Pow2(n) else 0) + Rank(t);
      hide Rank, Pow2;
      ProductRank(t);
      ProductAt(n + 1, Rank(s));
      ConsHead(s, t, Product(n)[Rank(t)]);
    }
  }

  lemma ConsHead(s: seq<bool>, t: seq<bool>, u: seq<bool>)
    requires s != [] && t == s[1..] && u == t
    ensures (if s[0] then [true] + u else [false] + u) == s
  {
  }

  /** ... and nothing twice: each position holds a vector of full length with that binary number. */
  lemma {:induction false} RankProduct(n: nat, k: nat)
    requires k < Pow2(n)
    ensures |Product(n)[k]| == n && Rank(Product(n)[k]) == k
  {
    if n > 0 {
      hide Product;
      var h := Pow2(n - 1);
      ProductAt(n, k);
      RankProduct(n - 1, if k < h then k else k - h);
      var rest := Product(n - 1)[if k < h then k else k - h];
      assert ([false] + rest)[1..] == rest && ([true] + rest)[1..] == rest;
    }
  }

  /** The sum of the elements whose sign is set, over the common length of the two sequences. */
  function Selected(xs: seq<int>, signs: seq<bool>): int {
    if xs == [] || signs == [] then 0 else (if signs[0] then xs[0] else 0) + Selected(xs[1..], signs[1..])
  }

  lemma {:induction false} SumsEnumerate(xs: seq<int>, k: nat)
    requires k < Pow2(|xs|)
    ensures Selected(xs, Product(|xs|)[k]) == Sums(xs)[k]
  {
    if xs == [] {
      hide Pow2;
    } else {
      hide Product, Sums;
      var t := xs[1..];
      var n := |t|;
      assert |xs| == n + 1 && Pow2(n + 1) == 2 * Pow2(n);
      hide Pow2;
      hide Selected;
      ProductAt(n + 1, k);
      SumsAt(xs, k);
      if k < Pow2(n) {
        SumsEnumerate(t, k);
        SelectedCons(xs, false, Product(n)[k]);
      } else {
        SumsEnumerate(t, k - Pow2(n));
        SelectedCons(xs, true, Product(n)[k - Pow2(n)]);
      }
    }
  }

  lemma SelectedCons(xs: seq<int>, b: bool, signs: seq<bool>)
    requires xs != []
    ensures Selected(xs, if b then [true] + signs else [false] + signs)
            == (if b then xs[0] else 0) + Selected(xs[1..], signs)
  {
    assert ([true] + signs)[1..] == signs && ([false] + signs)[1..] == signs;
  }

  lemma ShiftedAt(a: seq<int>, x: int, k: nat)
    requires k < 2 * |a|
    ensures (a + ShiftAll(a, x))[k] == if k < |a| then a[k] else a[k - |a|] + x
  {
  }

  lemma SumsAt(xs: seq<int>, k: nat)
    requires xs != [] && k < Pow2(|xs|)
    ensures var h := Pow2(|xs| - 1);
            Sums(xs)[k] == if k < h then Sums(xs[1..])[k] else Sums(xs[1..])[k - h] + xs[0]
  {
    SumsHalves(xs);
    assert Pow2(|xs|) == 2 * Pow2(|xs| - 1);
    hide Sums, Pow2, ShiftAll;
    ShiftedAt(Sums(xs[1..]), xs[0], k);
  }

  lemma SumsHalves(xs: seq<int>)
    requires xs != []
    ensures Sums(xs) == Sums(xs[1..]) + ShiftAll(Sums(xs[1..]), xs[0])
  {
    hide Pow2, ShiftAll;
  }

  lemma {:induction false} SelectedSnoc(xs: seq<int>, signs: seq<bool>, k: nat)
    requires k < |xs| == |signs|
    ensures Selected(xs[..k + 1], signs[..k + 1]) == Selected(xs[..k], signs[..k]) + if signs[k] then xs[k] else 0
  {
    if k == 0 {
      assert xs[..1][1..] == [] && signs[..1][1..] == [];
    } else {
      SelectedSnoc(xs[1..], signs[1..], k - 1);
      assert xs[..k + 1][1..] == xs[1..][..k] && signs[..k + 1][1..] == signs[1..][..k];
      assert xs[..k][1..] == xs[1..][..k - 1] && signs[..k][1..] == signs[1..][..k - 1];
    }
  }

  lemma {:induction false} CountTailsSnoc(s: seq<int>, k: nat, total: int, w: int)
    requires k < |s|
    ensures CountTails(s[..k + 1], total, w) == CountTails(s[..k], total, w)
                                                 + if Min(s[k], total - s[k]) <= w then 1 else 0
  {
    if k == 0 {
      assert s[..1][1..] == [];
    } else {
      CountTailsSnoc(s[1..], k - 1, total, w);
      assert s[..k + 1][1..] == s[1..][..k] && s[..k][1..] == s[1..][..k - 1];
    }
  }
}
