/** The exact two-sided signed-rank test: ranking by magnitude, then counting all 2ⁿ sign patterns. */
module Wilcoxon {
  import opened RealArith
  import opened SubsetSums

  function NonZero(diffs: seq<real>): (nz: seq<real>)
    ensures forall d :: d in nz <==> d in diffs && d != 0.0
  {
    if diffs == [] then []
    else
      assert forall d :: d in diffs <==> d == diffs[0] || d in diffs[1..];
      (if diffs[0] != 0.0 then [diffs[0]] else []) + NonZero(diffs[1..])
  }

  /** The ranks 1..n. */
  function UpTo(n: nat): (r: seq<int>)
    ensures |r| == n
  {
    seq(n, i => i + 1)
  }

  // ----- The stable sort of positions by magnitude -----

  predicate Less(nz: seq<real>, i: nat, j: nat)
    requires i < |nz| && j < |nz|
  {
    Abs(nz[i]) < Abs(nz[j]) || (Abs(nz[i]) == Abs(nz[j]) && i < j)
  }

  predicate Positions(nz: seq<real>, order: seq<nat>) {
    forall i :: 0 <= i < |order| ==> order[i] < |nz|
  }

  predicate Sorted(nz: seq<real>, order: seq<nat>)
    requires Positions(nz, order)
  {
    forall p, q :: 0 <= p < q < |order| ==> Less(nz, order[p], order[q])
  }

  function Insert(nz: seq<real>, order: seq<nat>, i: nat): seq<nat>
    requires Positions(nz, order) && i < |nz|
  {
    if order != [] && Abs(nz[i]) < Abs(nz[order[|order| - 1]])
    then Insert(nz, order[..|order| - 1], i) + [order[|order| - 1]]
    else order + [i]
  }

  lemma {:induction false} InsertElements(nz: seq<real>, order: seq<nat>, i: nat)
    requires Positions(nz, order) && i < |nz|
    ensures multiset(Insert(nz, order, i)) == multiset(order) + multiset{i}
    ensures Positions(nz, Insert(nz, order, i))
  {
    if order != [] && Abs(nz[i]) < Abs(nz[order[|order| - 1]]) {
      var init, last := order[..|order| - 1], order[|order| - 1];
      assert order == init + [last];
      InsertElements(nz, init, i);
    }
  }

  lemma {:induction false} InsertKeepsSorted(nz: seq<real>, order: seq<nat>, i: nat)
    requires Positions(nz, order) && i < |nz| && Sorted(nz, order)
    requires forall p :: 0 <= p < |order| ==> order[p] < i
    ensures Positions(nz, Insert(nz, order, i)) && Sorted(nz, Insert(nz, order, i))
  {
    InsertElements(nz, order, i);
    if order != [] && Abs(nz[i]) < Abs(nz[order[|order| - 1]]) {
      var init, last := order[..|order| - 1], order[|order| - 1];
      InsertKeepsSorted(nz, init, i);
      InsertElements(nz, init, i);
      var r := Insert(nz, init, i);
      hide Insert;
      forall p | 0 <= p < |r| ensures Less(nz, r[p], last) {
        assert r[p] in multiset(init) + multiset{i};
        if r[p] != i {
          assert r[p] in init;
        }
      }
    }
  }

  /** Positions 0..n-1 by magnitude, ties in order of position. */
  function Order(nz: seq<real>, n: nat): (order: seq<nat>)
    requires n <= |nz|
    ensures Positions(nz, order)
  {
    if n == 0 then []
    else
      InsertElements(nz, Order(nz, n - 1), n - 1);
      Insert(nz, Order(nz, n - 1), n - 1)
  }

  function Range(n: nat): (r: seq<nat>)
    ensures |r| == n && forall i :: 0 <= i < n ==> r[i] == i
  {
    seq(n, i requires 0 <= i < n => i)
  }

  /** order lists each of 0..n-1 once. */
  ghost predicate Covers(order: seq<nat>, n: nat) {
    multiset(order) == multiset(Range(n))
  }

  lemma CoversOne(before: seq<nat>, after: seq<nat>, n: nat)
    requires Covers(before, n) && multiset(after) == multiset(before) + multiset{n}
    ensures Covers(after, n + 1)
  {
    assert Range(n + 1) == Range(n) + [n];
  }

  lemma CoversBounds(order: seq<nat>, n: nat)
    requires Covers(order, n)
    ensures |order| == n && forall p :: 0 <= p < |order| ==> order[p] < n
  {
    assert |order| == |multiset(order)| == |multiset(Range(n))|;
    forall p | 0 <= p < |order| ensures order[p] < n {
      assert order[p] in multiset(order);
      assert order[p] in Range(n);
    }
  }

  lemma {:induction false} OrderElements(nz: seq<real>, n: nat)
    requires n <= |nz|
    ensures Covers(Order(nz, n), n)
  {
    if n == 0 {
      assert Order(nz, n) == Range(n);
    } else {
      OrderElements(nz, n - 1);
      hide Covers, Insert;
      InsertElements(nz, Order(nz, n - 1), n - 1);
      CoversOne(Order(nz, n - 1), Order(nz, n), n - 1);
    }
  }

  lemma {:induction false} OrderIsSort(nz: seq<real>, n: nat)
    requires n <= |nz|
    ensures Sorted(nz, Order(nz, n))
  {
    hide Order, Insert, Covers, Sorted, Positions;
    if n == 0 {
      NothingToSort(nz);
    } else {
      OrderIsSort(nz, n - 1);
      OrderElements(nz, n - 1);
      InsertNext(nz, Order(nz, n - 1), n - 1);
      OrderUnfolds(nz, n);
    }
  }

  lemma NothingToSort(nz: seq<real>)
    ensures Sorted(nz, Order(nz, 0))
  {
  }

  lemma InsertNext(nz: seq<real>, order: seq<nat>, n: nat)
    requires n < |nz| && Positions(nz, order) && Sorted(nz, order) && Covers(order, n)
    ensures Positions(nz, Insert(nz, order, n)) && Sorted(nz, Insert(nz, order, n))
  {
    hide Insert, Sorted, Covers;
    CoversBounds(order, n);
    InsertKeepsSorted(nz, order, n);
  }

  lemma OrderUnfolds(nz: seq<real>, n: nat)
    requires 0 < n <= |nz|
    ensures Order(nz, n) == Insert(nz, Order(nz, n - 1), n - 1)
  {
    hide Insert, Positions;
  }

  /** Ranks 1..n, smaller for smaller magnitudes and, among equal ones, for earlier positions. */
  ghost predicate IsRanking(nz: seq<real>, ranks: seq<int>) {
    && |ranks| == |nz|
    && multiset(ranks) == multiset(UpTo(|nz|))
    && forall i, j :: 0 <= i < |nz| && 0 <= j < |nz| && Less(nz, i, j) ==> ranks[i] < ranks[j]
  }

  function Zeros(n: nat): (r: seq<int>)
    ensures |r| == n && forall i :: 0 <= i < n ==> r[i] == 0
  {
    seq(n, i => 0)
  }

  /** The entries of s are the ranks 1..r and zeros. */
  ghost predicate HoldsRanks(s: seq<int>, r: nat) {
    r <= |s| && multiset(s) == multiset(UpTo(r) + Zeros(|s| - r))
  }

  lemma FillOne(before: seq<int>, at: nat, r: nat)
    requires r < |before| && at < |before| && before[at] == 0 && HoldsRanks(before, r)
    ensures HoldsRanks(before[at := r + 1], r + 1)
  {
    hide UpTo, Zeros;
    var n := |before|;
    OneZeroLess(r, n - r);
    OneRankMore(r, n - r - 1);
    OneElementChanged(before, at, r + 1);
    Traded(multiset(before[at := r + 1]), multiset(before), multiset(UpTo(r) + Zeros(n - r - 1)), 0, r + 1);
  }

  lemma Traded(after: multiset<int>, before: multiset<int>, rest: multiset<int>, x: int, y: int)
    requires after + multiset{x} == before + multiset{y} && before == rest + multiset{x}
    ensures after == rest + multiset{y}
  {
    assert after + multiset{x} - multiset{x} == after;
    assert rest + multiset{x} + multiset{y} - multiset{x} == rest + multiset{y};
  }

  lemma OneZeroLess(r: nat, zeros: nat)
    requires zeros > 0
    ensures multiset(UpTo(r) + Zeros(zeros)) == multiset(UpTo(r) + Zeros(zeros - 1)) + multiset{0}
  {
    assert Zeros(zeros) == Zeros(zeros - 1) + [0];
    hide UpTo, Zeros;
    assert UpTo(r) + Zeros(zeros) == UpTo(r) + Zeros(zeros - 1) + [0];
  }

  lemma OneRankMore(r: nat, zeros: nat)
    ensures multiset(UpTo(r + 1) + Zeros(zeros)) == multiset(UpTo(r) + Zeros(zeros)) + multiset{r + 1}
  {
    assert UpTo(r + 1) == UpTo(r) + [r + 1];
    hide UpTo, Zeros;
  }

  lemma OneElementChanged(s: seq<int>, at: nat, v: int)
    requires at < |s|
    ensures multiset(s[at := v]) + multiset{s[at]} == multiset(s) + multiset{v}
  {
    assert s == s[..at] + [s[at]] + s[at + 1..];
    assert s[at := v] == s[..at] + [v] + s[at + 1..];
  }

  lemma FillEnds(s: seq<int>)
    ensures HoldsRanks(Zeros(|s|), 0)
    ensures HoldsRanks(s, |s|) ==> multiset(s) == multiset(UpTo(|s|))
  {
    assert UpTo(0) + Zeros(|s|) == Zeros(|s|) && UpTo(|s|) + Zeros(0) == UpTo(|s|);
  }

  /** The rank list after the first r positions of the order have received their ranks. */
  function Filled(order: seq<nat>, r: nat, n: nat): (ranks: seq<int>)
    requires r <= |order| && forall q :: 0 <= q < |order| ==> order[q] < n
    ensures |ranks| == n
  {
    if r == 0 then Zeros(n) else Filled(order, r - 1, n)[order[r - 1] := r]
  }

  predicate Injective(order: seq<nat>) {
    forall p, q :: 0 <= p < q < |order| ==> order[p] != order[q]
  }

  lemma {:induction false} FilledAt(order: seq<nat>, r: nat, n: nat, q: nat)
    requires r <= |order| && q < |order| && Injective(order) && forall q :: 0 <= q < |order| ==> order[q] < n
    ensures Filled(order, r, n)[order[q]] == if q < r then q + 1 else 0
  {
    if r > 0 {
      FilledAt(order, r - 1, n, q);
    }
  }

  lemma {:induction false} FilledElements(order: seq<nat>, r: nat, n: nat)
    requires r <= |order| <= n && Injective(order) && forall q :: 0 <= q < |order| ==> order[q] < n
    ensures HoldsRanks(Filled(order, r, n), r)
  {
    FillEnds(Zeros(n));
    hide HoldsRanks, Injective, Zeros, UpTo;
    if r > 0 {
      FilledElements(order, r - 1, n);
      FilledAt(order, r - 1, n, r - 1);
      FillOne(Filled(order, r - 1, n), order[r - 1], r - 1);
    }
  }

  lemma RankingFromOrder(nz: seq<real>, order: seq<nat>, ranks: seq<int>)
    requires Positions(nz, order) && Sorted(nz, order) && Covers(order, |nz|) && |order| == |nz| == |ranks|
    requires multiset(ranks) == multiset(UpTo(|nz|)) && forall q :: 0 <= q < |nz| ==> ranks[order[q]] == q + 1
    ensures IsRanking(nz, ranks)
  {
    forall i, j | 0 <= i < |nz| && 0 <= j < |nz| && Less(nz, i, j) ensures ranks[i] < ranks[j] {
      var p := PlaceOf(order, |nz|, i);
      var q := PlaceOf(order, |nz|, j);
      assert !Less(nz, j, i);
    }
  }

  lemma FilledIsRanking(nz: seq<real>, order: seq<nat>)
    requires Positions(nz, order) && Sorted(nz, order) && Covers(order, |nz|) && |order| == |nz|
    ensures IsRanking(nz, Filled(order, |nz|, |nz|))
  {
    hide UpTo, Zeros, HoldsRanks, Less, Sorted, Covers, Filled, Injective, IsRanking;
    var n := |nz|;
    OrderInjective(nz, order);
    FilledElements(order, n, n);
    FillEnds(Filled(order, n, n));
    forall q | 0 <= q < n ensures Filled(order, n, n)[order[q]] == q + 1 {
      FilledAt(order, n, n, q);
    }
    RankingFromOrder(nz, order, Filled(order, n, n));
  }

  method RankByMagnitude(nz: seq<real>) returns (ranks: array<int>)
    ensures fresh(ranks) && IsRanking(nz, ranks[..])
  {
    hide Sorted, Covers, Order, IsRanking;
    var n := |nz|;
    var order := Order(nz, n);
    OrderIsSort(nz, n);
    OrderElements(nz, n);
    CoversBounds(order, n);
    ranks := new int[n];
    forall i | 0 <= i < n {
      ranks[i] := 0;
    }
    var r := 0;
    while r < n
      invariant 0 <= r <= n
      invariant ranks[..] == Filled(order, r, n)
    {
      ranks[order[r]] := r + 1;
      r := r + 1;
    }
    FilledIsRanking(nz, order);
  }

  lemma OrderInjective(nz: seq<real>, order: seq<nat>)
    requires Positions(nz, order) && Sorted(nz, order)
    ensures Injective(order)
  {
    forall p, q | 0 <= p < q < |order| ensures order[p] != order[q] {
      assert Less(nz, order[p], order[q]);
    }
  }

  lemma PlaceOf(order: seq<nat>, n: nat, i: nat) returns (p: nat)
    requires Covers(order, n) && i < n
    ensures p < |order| && order[p] == i
  {
    assert Range(n)[i] == i;
    assert i in multiset(Range(n));
    p :| 0 <= p < |order| && order[p] == i;
  }

  // ----- Sums by sign -----

  function Positive(nz: seq<real>): (mask: seq<bool>)
    ensures |mask| == |nz|
  {
    seq(|nz|, i requires 0 <= i < |nz| => nz[i] > 0.0)
  }

  function Negative(nz: seq<real>): (mask: seq<bool>)
    ensures |mask| == |nz|
  {
    seq(|nz|, i requires 0 <= i < |nz| => nz[i] < 0.0)
  }

  lemma {:induction false} SignsPartition(xs: seq<int>, a: seq<bool>, b: seq<bool>)
    requires |a| == |b| == |xs| && forall i :: 0 <= i < |a| ==> a[i] == !b[i]
    ensures Selected(xs, a) + Selected(xs, b) == Total(xs)
  {
    if xs != [] {
      SignsPartition(xs[1..], a[1..], b[1..]);
    }
  }

  lemma {:induction false} SelectedBounds(xs: seq<int>, signs: seq<bool>)
    requires |signs| == |xs| && forall i :: 0 <= i < |xs| ==> xs[i] >= 0
    ensures 0 <= Selected(xs, signs) <= Total(xs)
  {
    if xs != [] {
      SelectedBounds(xs[1..], signs[1..]);
    }
  }

  lemma {:induction false} TotalSnoc(xs: seq<int>, x: int)
    ensures Total(xs + [x]) == Total(xs) + x
  {
    if xs != [] {
      assert (xs + [x])[1..] == xs[1..] + [x];
      TotalSnoc(xs[1..], x);
    }
  }

  lemma {:induction false} TotalUpTo(n: nat)
    ensures Total(UpTo(n)) == n * (n + 1) / 2
  {
    if n > 0 {
      assert UpTo(n) == UpTo(n - 1) + [n];
      TotalUpTo(n - 1);
      TotalSnoc(UpTo(n - 1), n);
      assert n * (n + 1) == (n - 1) * n + 2 * n;
    }
  }

  /** The sum over the positions whose flag is set, as the comprehension computes it. */
  method SumWhere(xs: array<int>, flags: seq<bool>) returns (sum: int)
    requires |flags| == xs.Length
    ensures sum == Selected(xs[..], flags)
  {
    sum := 0;
    var i := 0;
    while i < xs.Length
      invariant 0 <= i <= xs.Length
      invariant sum == Selected(xs[..][..i], flags[..i])
    {
      SelectedSnoc(xs[..], flags, i);
      if flags[i] {
        sum := sum + xs[i];
      }
      i := i + 1;
    }
    assert xs[..][..i] == xs[..] && flags[..i] == flags;
  }

  /** How many sign patterns are at least as extreme as w. */
  method CountExtreme(ranks: array<int>, total: int, w: int) returns (count: nat)
    ensures count == CountTails(Sums(ranks[..]), total, w)
  {
    var n := ranks.Length;
    var patterns := Product(n);
    count := 0;
    var k := 0;
    ghost var sums := Sums(ranks[..]);
    while k < |patterns|
      invariant 0 <= k <= |patterns|
      invariant count == CountTails(sums[..k], total, w)
    {
      hide Product, Sums, CountTails;
      RankProduct(n, k);
      SumsEnumerate(ranks[..], k);
      CountTailsSnoc(sums, k, total, w);
      var wp := SumWhere(ranks, patterns[k]);
      if Min(wp, total - wp) <= w {
        count := count + 1;
      }
      k := k + 1;
    }
    assert sums[..k] == sums;
  }

  /** The two-sided count in closed form: twice the selections of {1..n} with sum at most w, at most everything. */
  function ExtremeCount(n: nat, w: int): int {
    Min(Pow2(n), 2 * CountLe(Sums(UpTo(n)), w))
  }

  method ExactWilcoxon(diffs: seq<real>) returns (n: nat, wPlus: int, wMinus: int, w: int, count: nat)
    ensures n == |NonZero(diffs)|
    ensures exists ranks :: IsRanking(NonZero(diffs), ranks)
                            && wPlus == Selected(ranks, Positive(NonZero(diffs)))
                            && wMinus == Selected(ranks, Negative(NonZero(diffs)))
    ensures wPlus + wMinus == n * (n + 1) / 2 && w == Min(wPlus, wMinus) && 0 <= 2 * w <= n * (n + 1) / 2
    ensures count == ExtremeCount(n, w)
  {
    var nz := NonZero(diffs);
    n := |nz|;
    var ranks := RankByMagnitude(nz);
    wPlus := SumWhere(ranks, Positive(nz));
    wMinus := SumWhere(ranks, Negative(nz));
    w := Min(wPlus, wMinus);
    var total := n * (n + 1) / 2;
    count := CountExtreme(ranks, total, w);

    forall i | 0 <= i < n ensures Positive(nz)[i] == !Negative(nz)[i] {
      assert nz[i] in nz;
    }
    SignsPartition(ranks[..], Positive(nz), Negative(nz));
    OrderIrrelevant(ranks[..], UpTo(n), w);
    TotalUpTo(n);
    RanksNonNegative(nz, ranks[..]);
    SelectedBounds(ranks[..], Positive(nz));
    SelectedBounds(ranks[..], Negative(nz));
    TwoTails(ranks[..], w);
  }

  lemma RanksNonNegative(nz: seq<real>, ranks: seq<int>)
    requires IsRanking(nz, ranks)
    ensures forall i :: 0 <= i < |ranks| ==> ranks[i] >= 0
  {
    forall i | 0 <= i < |ranks| ensures ranks[i] >= 0 {
      assert ranks[i] in multiset(ranks);
      assert ranks[i] in UpTo(|nz|);
    }
  }

  lemma {:induction false} EmptySelection(xs: seq<int>)
    ensures Sums(xs)[0] == 0
  {
    if xs != [] {
      EmptySelection(xs[1..]);
    }
  }

  lemma SomeSelection(xs: seq<int>, w: int)
    requires w >= 0
    ensures CountLe(Sums(xs), w) >= 1
  {
    EmptySelection(xs);
    hide Sums;
  }

  /**
    The p-value lies in (0, 1]; with any data the count is even and at least 2, and is
    everything exactly when the tails meet.
   */
  lemma CountIsPValue(n: nat, w: int)
    requires 0 <= 2 * w <= n * (n + 1) / 2
    ensures 1 <= ExtremeCount(n, w) <= Pow2(n)
    ensures n >= 1 ==> ExtremeCount(n, w) % 2 == 0 && ExtremeCount(n, w) >= 2
    ensures 2 * w < n * (n + 1) / 2 ==> ExtremeCount(n, w) == 2 * CountLe(Sums(UpTo(n)), w)
    ensures 2 * w == n * (n + 1) / 2 ==> ExtremeCount(n, w) == Pow2(n)
  {
    TotalUpTo(n);
    hide ExtremeCount, UpTo, Sums, CountLe, Total, Pow2;
    TailFacts(n, w, n * (n + 1) / 2);
  }

  lemma TailFacts(n: nat, w: int, total: int)
    requires total == Total(UpTo(n)) && 0 <= 2 * w <= total
    ensures 1 <= ExtremeCount(n, w) <= Pow2(n)
    ensures n >= 1 ==> ExtremeCount(n, w) % 2 == 0 && ExtremeCount(n, w) >= 2
    ensures 2 * w < total ==> ExtremeCount(n, w) == 2 * CountLe(Sums(UpTo(n)), w)
    ensures 2 * w == total ==> ExtremeCount(n, w) == Pow2(n)
  {
    assert if n == 0 then Pow2(n) == 1 else Pow2(n) == 2 * Pow2(n - 1);
    hide UpTo, Sums, CountLe, CountTails, Total, Pow2;
    var c := CountLe(Sums(UpTo(n)), w);
    TwoTails(UpTo(n), w);
    SomeSelection(UpTo(n), w);
    if n >= 1 {
      EvenMin(Pow2(n), Pow2(n - 1), c);
    }
  }

  lemma EvenMin(p: int, half: int, c: int)
    requires p == 2 * half && half >= 1 && c >= 1
    ensures Min(p, 2 * c) % 2 == 0 && Min(p, 2 * c) >= 2
  {
  }
}
