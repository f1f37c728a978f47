/**
  How much the signed-rank audit depends on the order of its differences. Opposite-signed
  ties are all that matters: over all orders W⁺ takes exactly the values from its least to
  its least plus the number of such ties.
 */
module WilcoxonTies {
  import opened RealArith
  import opened SubsetSums
  import opened Wilcoxon
  import opened WilcoxonOrder

  /** How many of xs tie with x with the opposite sign. */
  function TiesWith(x: real, xs: seq<real>): nat {
    if x == 0.0 then 0 else multiset(xs)[-x]
  }

  /** Pairs that tie with opposite signs. */
  function Opposed(xs: seq<real>): nat {
    if xs == [] then 0 else TiesWith(xs[0], xs[1..]) + Opposed(xs[1..])
  }

  /** Those among them in which the negative difference comes first. */
  function Inverted(xs: seq<real>): nat {
    if xs == [] then 0 else (if xs[0] < 0.0 then TiesWith(xs[0], xs[1..]) else 0) + Inverted(xs[1..])
  }

  lemma TiesCons(x: real, r: seq<real>)
    ensures Opposed([x] + r) == TiesWith(x, r) + Opposed(r)
    ensures Inverted([x] + r) == (if x < 0.0 then TiesWith(x, r) else 0) + Inverted(r)
  {
    assert ([x] + r)[1..] == r;
  }

  lemma TiesWithCons(x: real, y: real, r: seq<real>)
    ensures TiesWith(x, [y] + r) == TiesWith(x, r) + if x != 0.0 && y == -x then 1 else 0
  {
    assert multiset([y] + r) == multiset{y} + multiset(r);
  }

  lemma {:induction false} InvertedBelowOpposed(xs: seq<real>)
    ensures Inverted(xs) <= Opposed(xs)
  {
    if xs != [] {
      InvertedBelowOpposed(xs[1..]);
    }
  }

  // ----- What no order changes -----

  /** The rank sum less the inverted ties. */
  function Core(before: seq<real>, xs: seq<real>): int {
    PositiveRanks(before, xs) - Inverted(xs)
  }

  function CoreTerm(before: seq<real>, x: real, r: seq<real>): int {
    RankTerm(before, x, r) - if x < 0.0 then TiesWith(x, r) else 0
  }

  lemma CoreCons(before: seq<real>, x: real, r: seq<real>)
    ensures Core(before, [x] + r) == CoreTerm(before, x, r) + Core(before + [x], r)
  {
    RanksCons(before, x, r);
    TiesCons(x, r);
    hide PositiveRanks, RankTerm, Inverted, TiesWith;
  }

  lemma CoreTermPermuted(before: seq<real>, x: real, r: seq<real>, r': seq<real>)
    requires multiset(r) == multiset(r')
    ensures CoreTerm(before, x, r) == CoreTerm(before, x, r') && TiesWith(x, r) == TiesWith(x, r')
  {
    TermPermuted(before, x, r, r');
    hide RankTerm;
  }

  lemma SwapKeepsCore(before: seq<real>, x: real, y: real, r: seq<real>)
    ensures Core(before, [x] + ([y] + r)) == Core(before, [y] + ([x] + r))
    ensures Opposed([x] + ([y] + r)) == Opposed([y] + ([x] + r))
  {
    SwapNeighbours(before, x, y, r);
    TiesCons(x, [y] + r);
    TiesCons(y, r);
    TiesCons(y, [x] + r);
    TiesCons(x, r);
    TiesWithCons(x, y, r);
    TiesWithCons(y, x, r);
    hide PositiveRanks, Inverted, Opposed, TiesWith;
  }

  lemma WithoutFront<T>(ys: seq<T>, k: nat)
    requires k < |ys|
    ensures ys == [ys[0]] + ys[1..]
    ensures Without(ys, k) == if k == 0 then ys[1..] else [ys[0]] + Without(ys[1..], k - 1)
  {
  }

  lemma {:induction false} PullKeepsCore(before: seq<real>, ys: seq<real>, k: nat)
    requires k < |ys|
    ensures Core(before, ys) == Core(before, [ys[k]] + Without(ys, k))
    ensures Opposed(ys) == Opposed([ys[k]] + Without(ys, k))
    decreases |ys|
  {
    hide Core, CoreTerm, Opposed, TiesWith, Without;
    var y, t, z := ys[0], ys[1..], ys[k];
    WithoutFront(ys, k);
    if k > 0 {
      var r := Without(t, k - 1);
      assert z == t[k - 1];
      PullKeepsCore(before + [y], t, k - 1);
      PulledSameElements(t, k - 1);
      CoreCons(before, y, t);
      CoreCons(before, y, [z] + r);
      TiesCons(y, t);
      TiesCons(y, [z] + r);
      CoreTermPermuted(before, y, t, [z] + r);
      SwapKeepsCore(before, y, z, r);
    }
  }

  lemma {:induction false} OrderKeepsCore(before: seq<real>, xs: seq<real>, ys: seq<real>)
    requires multiset(xs) == multiset(ys)
    ensures Core(before, xs) == Core(before, ys) && Opposed(xs) == Opposed(ys)
    decreases |xs|
  {
    assert |xs| == |multiset(xs)| == |multiset(ys)| == |ys|;
    if xs == [] {
      assert ys == [];
    } else {
      hide Core, CoreTerm, Opposed, TiesWith;
      var k := SameMultisetPull(xs, ys);
      var x, rest := xs[0], xs[1..];
      assert xs == [x] + rest;
      OrderKeepsCore(before + [x], rest, Without(ys, k));
      PullKeepsCore(before, ys, k);
      hide Without;
      CoreCons(before, x, rest);
      CoreCons(before, x, Without(ys, k));
      TiesCons(x, rest);
      TiesCons(x, Without(ys, k));
      CoreTermPermuted(before, x, rest, Without(ys, k));
    }
  }

  // ----- Every number of inverted ties occurs -----

  function Placed(ys: seq<real>, x: real, p: nat): seq<real>
    requires p <= |ys|
  {
    ys[..p] + [x] + ys[p..]
  }

  /** A positive difference inverts the ties before it, a negative one those after it. */
  lemma {:induction false} InsertInverts(ys: seq<real>, x: real, p: nat)
    requires p <= |ys|
    ensures Inverted(Placed(ys, x, p))
            == Inverted(ys) + if x < 0.0 then TiesWith(x, ys[p..]) else TiesWith(x, ys[..p])
    decreases p
  {
    if p == 0 {
      assert Placed(ys, x, 0) == [x] + ys && ys[0..] == ys;
      TiesCons(x, ys);
    } else {
      var y, t := ys[0], ys[1..];
      assert ys == [y] + t && ys[p..] == t[p - 1..] && ys[..p] == [y] + t[..p - 1];
      assert Placed(ys, x, p) == [y] + Placed(t, x, p - 1);
      InsertInverts(t, x, p - 1);
      InsertedElements(t, x, p - 1);
      hide Placed, Inverted;
      TiesCons(y, t);
      TiesCons(y, Placed(t, x, p - 1));
      TiesWithCons(y, x, t);
      TiesWithCons(x, y, t[..p - 1]);
      assert TiesWith(y, Placed(t, x, p - 1)) == TiesWith(y, [x] + t);
    }
  }

  lemma InsertedElements(ys: seq<real>, x: real, p: nat)
    requires p <= |ys|
    ensures multiset(Placed(ys, x, p)) == multiset([x] + ys)
  {
    assert ys == ys[..p] + ys[p..];
  }

  lemma {:induction false} SomePrefix(ys: seq<real>, x: real, j: nat) returns (p: nat)
    requires j <= TiesWith(x, ys)
    ensures p <= |ys| && TiesWith(x, ys[..p]) == j
    decreases |ys|
  {
    if j == 0 {
      p := 0;
    } else {
      assert ys != [];
      var y, t := ys[0], ys[1..];
      assert ys == [y] + t;
      TiesWithCons(x, y, t);
      hide TiesWith;
      var q := SomePrefix(t, x, if y == -x then j - 1 else j);
      p := q + 1;
      assert ys[..p] == [y] + t[..q];
      TiesWithCons(x, y, t[..q]);
    }
  }

  lemma TiesSplit(x: real, ys: seq<real>, p: nat)
    requires p <= |ys|
    ensures TiesWith(x, ys) == TiesWith(x, ys[..p]) + TiesWith(x, ys[p..])
  {
    assert ys == ys[..p] + ys[p..];
  }

  lemma SomePlace(ys: seq<real>, x: real, j: nat) returns (p: nat)
    requires j <= TiesWith(x, ys)
    ensures p <= |ys| && Inverted(Placed(ys, x, p)) == Inverted(ys) + j
  {
    hide TiesWith, Inverted, Placed;
    if x < 0.0 {
      p := SomePrefix(ys, x, TiesWith(x, ys) - j);
      TiesSplit(x, ys, p);
    } else {
      p := SomePrefix(ys, x, j);
    }
    InsertInverts(ys, x, p);
  }

  /** Some order inverts any given number of the opposed pairs. */
  lemma {:induction false} SomeOrder(xs: seq<real>, v: nat) returns (ys: seq<real>)
    requires v <= Opposed(xs)
    ensures multiset(ys) == multiset(xs) && Inverted(ys) == v
    decreases |xs|
  {
    if xs == [] {
      ys := [];
    } else {
      var x, rest := xs[0], xs[1..];
      var u := Min(v, Opposed(rest));
      var before := SomeOrder(rest, u);
      CoreTermPermuted([], x, rest, before);
      hide Inverted, Opposed, TiesWith, CoreTerm;
      var p := SomePlace(before, x, v - u);
      ys := Placed(before, x, p);
      InsertedElements(before, x, p);
      hide Placed;
      assert xs == [x] + rest;
      assert multiset([x] + before) == multiset{x} + multiset(before) == multiset([x] + rest);
    }
  }

  // ----- W⁺ over all orders -----

  lemma TiesOfNonZero(x: real, diffs: seq<real>)
    ensures TiesWith(x, NonZero(diffs)) == TiesWith(x, diffs)
  {
    NonZeroCount(diffs, -x);
  }

  lemma NonZeroSkips(r: seq<real>)
    ensures NonZero([0.0] + r) == NonZero(r)
  {
    assert ([0.0] + r)[1..] == r;
  }

  lemma {:induction false} ZerosDoNotTie(diffs: seq<real>)
    ensures Inverted(NonZero(diffs)) == Inverted(diffs) && Opposed(NonZero(diffs)) == Opposed(diffs)
  {
    if diffs == [] {
      assert NonZero(diffs) == [];
    } else {
      var d, r := diffs[0], diffs[1..];
      assert diffs == [d] + r;
      assert TiesWith(0.0, r) == 0;
      hide NonZero, Inverted, Opposed, TiesWith;
      ZerosDoNotTie(r);
      TiesCons(d, r);
      if d == 0.0 {
        NonZeroSkips(r);
      } else {
        NonZeroCons(d, r);
        TiesCons(d, NonZero(r));
        TiesOfNonZero(d, r);
      }
    }
  }

  /** The least W⁺ any order gives. */
  function Least(diffs: seq<real>): int {
    WPlus(diffs) - Inverted(diffs)
  }

  /** W⁺ exceeds a bound common to all orders by the number of inverted ties. */
  lemma LeastIsCommon(diffs: seq<real>, perm: seq<real>)
    requires multiset(perm) == multiset(diffs)
    ensures Least(perm) == Least(diffs) && Opposed(perm) == Opposed(diffs) && RankTotal(diffs) == RankTotal(perm)
  {
    NonZeroPermuted(diffs, perm);
    ZerosDoNotTie(diffs);
    ZerosDoNotTie(perm);
    hide NonZero, Inverted, Opposed, PositiveRanks;
    OrderKeepsCore([], NonZero(diffs), NonZero(perm));
  }

  /** Over all orders W⁺ stays between its least value and that plus the opposed pairs ... */
  lemma WPlusRange(diffs: seq<real>, perm: seq<real>)
    requires multiset(perm) == multiset(diffs)
    ensures Least(diffs) <= WPlus(perm) <= Least(diffs) + Opposed(diffs)
  {
    LeastIsCommon(diffs, perm);
    InvertedBelowOpposed(perm);
    hide WPlus, Inverted, Opposed;
  }

  /** ... and takes every value in between. */
  lemma WPlusAttained(diffs: seq<real>, v: int) returns (perm: seq<real>)
    requires Least(diffs) <= v <= Least(diffs) + Opposed(diffs)
    ensures multiset(perm) == multiset(diffs) && WPlus(perm) == v
  {
    hide WPlus, Inverted, Opposed;
    perm := SomeOrder(diffs, v - Least(diffs));
    LeastIsCommon(diffs, perm);
  }

  // ----- When the order is irrelevant -----

  /** No magnitude occurs with both signs. */
  ghost predicate SignsAgree(xs: seq<real>) {
    forall x, y :: x in xs && y in xs && Abs(x) == Abs(y) ==> x == y
  }

  lemma {:induction false} AgreeIffUnopposed(xs: seq<real>)
    ensures SignsAgree(xs) <==> Opposed(xs) == 0
  {
    if xs != [] {
      var x, r := xs[0], xs[1..];
      AgreeIffUnopposed(r);
      assert forall y :: y in xs <==> y == x || y in r;
      assert TiesWith(x, r) > 0 <==> x != 0.0 && -x in r;
      hide TiesWith;
      if x != 0.0 && -x in r {
        assert Abs(x) == Abs(-x) && -x in xs;
      }
      assert forall y :: Abs(x) == Abs(y) <==> y == x || y == -x;
      hide Abs;
    }
  }

  /** W⁺ is the same for every order. */
  ghost predicate OrderFree(diffs: seq<real>) {
    forall perm :: multiset(perm) == multiset(diffs) ==> WPlus(perm) == WPlus(diffs)
  }

  /** The order of the differences is irrelevant to W⁺ exactly when no magnitude occurs with both signs. */
  lemma OrderFreeIff(diffs: seq<real>)
    ensures OrderFree(diffs) <==> SignsAgree(diffs)
  {
    AgreeIffUnopposed(diffs);
    hide WPlus, Least, Opposed, SignsAgree;
    if Opposed(diffs) == 0 {
      forall perm | multiset(perm) == multiset(diffs) ensures WPlus(perm) == WPlus(diffs) {
        WPlusRange(diffs, perm);
        WPlusRange(diffs, diffs);
      }
    } else {
      var low := WPlusAttained(diffs, Least(diffs));
      var high := WPlusAttained(diffs, Least(diffs) + 1);
      assert !(WPlus(low) == WPlus(diffs) == WPlus(high));
    }
  }

  /** The sum of all ranks. */
  function RankTotal(diffs: seq<real>): int {
    |NonZero(diffs)| * (|NonZero(diffs)| + 1) / 2
  }

  /** The statistic the audit reports: the smaller of W⁺ and W⁻. */
  function Statistic(diffs: seq<real>): int {
    Min(WPlus(diffs), RankTotal(diffs) - WPlus(diffs))
  }

  /** The count the p-value is made of. */
  function Count(diffs: seq<real>): int {
    ExtremeCount(|NonZero(diffs)|, Statistic(diffs))
  }

  /** Any ranking the audit may use gives this statistic. */
  lemma StatisticIs(diffs: seq<real>, ranks: seq<int>)
    requires IsRanking(NonZero(diffs), ranks)
    ensures var nz := NonZero(diffs);
            && Selected(ranks, Positive(nz)) == WPlus(diffs)
            && Selected(ranks, Negative(nz)) == RankTotal(diffs) - WPlus(diffs)
            && Statistic(diffs) == Min(Selected(ranks, Positive(nz)), Selected(ranks, Negative(nz)))
  {
    RankSumIs(NonZero(diffs), ranks);
    SignSums(NonZero(diffs), ranks);
  }

  /**
    Without opposite-signed ties any rankings of two orders agree on everything the audit
    reports.
   */
  lemma AuditIsOrderFree(diffs: seq<real>, perm: seq<real>, ranks: seq<int>, ranks': seq<int>)
    requires SignsAgree(diffs) && multiset(perm) == multiset(diffs)
    requires IsRanking(NonZero(diffs), ranks) && IsRanking(NonZero(perm), ranks')
    ensures var nz, nz' := NonZero(diffs), NonZero(perm);
            && |nz| == |nz'|
            && Selected(ranks, Positive(nz)) == Selected(ranks', Positive(nz'))
            && Selected(ranks, Negative(nz)) == Selected(ranks', Negative(nz'))
  {
    OrderFreeIff(diffs);
    assert WPlus(perm) == WPlus(diffs);
    NonZeroPermuted(diffs, perm);
    hide NonZero, WPlus, SignsAgree, OrderFree, IsRanking;
    StatisticIs(diffs, ranks);
    StatisticIs(perm, ranks');
  }

  /** No ties that the order could show in the statistic: none, or one that merely swaps W⁺ and W⁻. */
  predicate Harmless(diffs: seq<real>) {
    Opposed(diffs) == 0 || (Opposed(diffs) == 1 && 2 * Least(diffs) + 1 == RankTotal(diffs))
  }

  ghost predicate StatisticFree(diffs: seq<real>) {
    forall perm :: multiset(perm) == multiset(diffs) ==> Statistic(perm) == Statistic(diffs)
  }

  ghost predicate CountFree(diffs: seq<real>) {
    forall perm :: multiset(perm) == multiset(diffs) ==> Count(perm) == Count(diffs)
  }

  lemma HarmlessIsFree(diffs: seq<real>, perm: seq<real>)
    requires Harmless(diffs) && multiset(perm) == multiset(diffs)
    ensures Statistic(perm) == Statistic(diffs)
  {
    hide WPlus, Least, Opposed, RankTotal;
    LeastIsCommon(diffs, perm);
    WPlusRange(diffs, perm);
    WPlusRange(diffs, diffs);
  }

  /** Otherwise two orders give different statistics. */
  lemma HarmShows(diffs: seq<real>) returns (perm: seq<real>, perm': seq<real>)
    requires !Harmless(diffs)
    ensures multiset(perm) == multiset(perm') == multiset(diffs) && Statistic(perm) != Statistic(perm')
  {
    hide WPlus, Least, Opposed, RankTotal;
    var l, total := Least(diffs), RankTotal(diffs);
    perm := WPlusAttained(diffs, l);
    perm' := WPlusAttained(diffs, l + 1);
    LeastIsCommon(diffs, perm);
    LeastIsCommon(diffs, perm');
    if 2 * l + 1 == total {
      perm' := WPlusAttained(diffs, l + 2);
      LeastIsCommon(diffs, perm');
    }
  }

  /** Main result: the statistic is the same for every order exactly when the ties are harmless. */
  lemma StatisticFreeIff(diffs: seq<real>)
    ensures StatisticFree(diffs) <==> Harmless(diffs)
  {
    hide Harmless, Statistic;
    if Harmless(diffs) {
      forall perm | multiset(perm) == multiset(diffs) ensures Statistic(perm) == Statistic(diffs) {
        HarmlessIsFree(diffs, perm);
      }
    } else {
      var perm, perm' := HarmShows(diffs);
      assert !(Statistic(perm) == Statistic(diffs) == Statistic(perm'));
    }
  }

  // ----- The count tells statistics apart -----

  lemma {:induction false} CountMono(s: seq<int>, w: int, w': int)
    requires w <= w'
    ensures CountLe(s, w) <= CountLe(s, w')
  {
    if s != [] {
      CountMono(s[1..], w, w');
    }
  }

  /** Some selection of the ranks sums to w. */
  predicate Occurs(ranks: seq<int>, w: int) {
    CountLe(Sums(ranks), w) > CountLe(Sums(ranks), w - 1)
  }

  lemma OccursCons(x: int, u: seq<int>, w: int)
    requires Occurs(u, w) || Occurs(u, w - x)
    ensures Occurs([x] + u, w)
  {
    hide Sums, CountLe;
    CountSplit(x, u, w);
    CountSplit(x, u, w - 1);
    CountMono(Sums(u), w - 1, w);
    CountMono(Sums(u), w - x - 1, w - x);
  }

  lemma OccursPermuted(u: seq<int>, v: seq<int>, w: int)
    requires multiset(u) == multiset(v) && Occurs(u, w)
    ensures Occurs(v, w)
  {
    OrderIrrelevant(u, v, w);
    OrderIrrelevant(u, v, w - 1);
    hide Sums, CountLe;
  }

  lemma ZeroOccurs()
    ensures Occurs(UpTo(0), 0) && Total(UpTo(0)) == 0
  {
    assert UpTo(0) == [] && Sums([]) == [0] && [0][1..] == [];
  }

  /** Every number up to the total is the sum of some of the ranks 1..n. */
  lemma {:induction false} EverySumOccurs(n: nat, w: int)
    requires 0 <= w <= Total(UpTo(n))
    ensures Occurs(UpTo(n), w)
  {
    hide Occurs, UpTo, Total;
    if n == 0 {
      ZeroOccurs();
    } else {
      LastToFront(n);
      TotalAtLeast(n - 1);
      EverySumOccurs(n - 1, if w <= Total(UpTo(n - 1)) then w else w - n);
      OccursCons(n, UpTo(n - 1), w);
      OccursPermuted([n] + UpTo(n - 1), UpTo(n), w);
    }
  }

  lemma LastToFront(n: nat)
    requires n > 0
    ensures multiset(UpTo(n)) == multiset([n] + UpTo(n - 1)) && Total(UpTo(n)) == Total(UpTo(n - 1)) + n
  {
    assert UpTo(n) == UpTo(n - 1) + [n];
    TotalSnoc(UpTo(n - 1), n);
  }

  lemma {:induction false} TotalAtLeast(n: nat)
    ensures Total(UpTo(n)) >= n
  {
    if n > 0 {
      TotalAtLeast(n - 1);
      assert UpTo(n) == UpTo(n - 1) + [n];
      TotalSnoc(UpTo(n - 1), n);
    }
  }

  lemma {:induction false} TailsGrow(s: seq<int>, total: int, w: int, w': int)
    requires w < w' && 2 * w' <= total
    ensures CountTails(s, total, w') - CountTails(s, total, w) >= CountLe(s, w') - CountLe(s, w' - 1)
  {
    if s != [] {
      TailsGrow(s[1..], total, w, w');
    }
  }

  lemma CountGrows(n: nat, w: int, w': int)
    requires 0 <= w < w' && 2 * w' <= n * (n + 1) / 2
    ensures ExtremeCount(n, w) < ExtremeCount(n, w')
  {
    TotalUpTo(n);
    hide UpTo, Sums, CountLe, CountTails, Pow2, Total;
    TwoTails(UpTo(n), w);
    TwoTails(UpTo(n), w');
    EverySumOccurs(n, w');
    TailsGrow(Sums(UpTo(n)), Total(UpTo(n)), w, w');
  }

  lemma WPlusInRange(diffs: seq<real>)
    ensures 0 <= WPlus(diffs) <= RankTotal(diffs)
  {
    var nz := NonZero(diffs);
    var n := |nz|;
    OrderIsSort(nz, n);
    OrderElements(nz, n);
    CoversBounds(Order(nz, n), n);
    FilledIsRanking(nz, Order(nz, n));
    var ranks := Filled(Order(nz, n), n, n);
    hide NonZero, Order, Filled, IsRanking, WPlus, RankTotal;
    StatisticIs(diffs, ranks);
    RanksNonNegative(nz, ranks);
    SelectedAtLeastZero(ranks, Positive(nz));
    SelectedAtLeastZero(ranks, Negative(nz));
  }

  lemma SelectedAtLeastZero(xs: seq<int>, signs: seq<bool>)
    requires |signs| == |xs| && forall i :: 0 <= i < |xs| ==> xs[i] >= 0
    ensures Selected(xs, signs) >= 0
  {
    SelectedBounds(xs, signs);
  }

  /** Main result on the p-value: its count is the same for every order exactly when the statistic is. */
  lemma CountFreeIff(diffs: seq<real>)
    ensures CountFree(diffs) <==> Harmless(diffs)
  {
    StatisticFreeIff(diffs);
    hide Harmless, Statistic, ExtremeCount, NonZero;
    if Harmless(diffs) {
      forall perm | multiset(perm) == multiset(diffs) ensures Count(perm) == Count(diffs) {
        NonZeroPermuted(diffs, perm);
      }
    } else {
      var perm, perm' := HarmShows(diffs);
      NonZeroPermuted(diffs, perm);
      NonZeroPermuted(diffs, perm');
      CountTells(perm, perm');
      assert !(Count(perm) == Count(diffs) == Count(perm'));
    }
  }

  lemma CountTells(diffs: seq<real>, perm: seq<real>)
    requires |NonZero(diffs)| == |NonZero(perm)| && Statistic(diffs) != Statistic(perm)
    ensures Count(diffs) != Count(perm)
  {
    hide WPlus, NonZero, ExtremeCount;
    WPlusInRange(diffs);
    WPlusInRange(perm);
    if Statistic(diffs) < Statistic(perm) {
      CountGrows(|NonZero(diffs)|, Statistic(diffs), Statistic(perm));
    } else {
      CountGrows(|NonZero(diffs)|, Statistic(perm), Statistic(diffs));
    }
  }

  /** A harmless tie: the differences 1 and -1 give W⁺ = 1 or 2, but always W = 1. */
  lemma HarmlessExample()
    ensures Harmless([1.0, -1.0]) && !SignsAgree([1.0, -1.0])
    ensures WPlus([1.0, -1.0]) == 1 && WPlus([-1.0, 1.0]) == 2
  {
    TwoDifferences(1.0, -1.0);
    TwoDifferences(-1.0, 1.0);
    hide WPlus, NonZero;
    assert [1.0] + [-1.0] == [1.0, -1.0] && [-1.0] + [] == [-1.0];
    TiesCons(1.0, [-1.0]);
    TiesCons(-1.0, []);
    AgreeIffUnopposed([1.0, -1.0]);
    hide SignsAgree;
  }

  lemma TwoDifferences(x: real, y: real)
    requires x != 0.0 && y != 0.0
    ensures NonZero([x, y]) == [x, y] && WPlus([x, y]) == RankTerm([], x, [y]) + RankTerm([x], y, [])
  {
    assert [x] + [y] == [x, y] && [y] + [] == [y] && [] + [x] == [x];
    NonZeroCons(x, [y]);
    NonZeroCons(y, []);
    RanksCons([], x, [y]);
    RanksCons([x], y, []);
    hide NonZero, RankTerm;
  }
}
