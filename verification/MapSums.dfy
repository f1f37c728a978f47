/** Sums over the values of a finite map. */
module MapSums {
  import opened RealArith

  ghost function SumOver<K(!new)>(m: map<K, real>): real
    decreases |m|
  {
    if m == map[] then 0.0
    else
      var k :| k in m;
      m[k] + SumOver(m - {k})
  }

  /** Any key may be taken out first. */
  lemma {:induction false} SumRemove<K(!new)>(m: map<K, real>, k: K)
    requires k in m
    ensures SumOver(m) == m[k] + SumOver(m - {k})
    decreases |m|
  {
    var j :| j in m && SumOver(m) == m[j] + SumOver(m - {j});
    if j != k {
      SumRemove(m - {j}, k);
      SumRemove(m - {k}, j);
      assert m - {j} - {k} == m - {k} - {j};
    }
  }

  lemma SumUpdate<K(!new)>(m: map<K, real>, k: K, v: real)
    ensures SumOver(m[k := v]) == SumOver(m) + v - (if k in m then m[k] else 0.0)
  {
    SumRemove(m[k := v], k);
    if k in m {
      SumRemove(m, k);
      assert m[k := v] - {k} == m - {k};
    } else {
      assert m[k := v] - {k} == m;
    }
  }

  /** Bounds on every value bound the sum. */
  lemma {:induction false} SumBounds<K(!new)>(m: map<K, real>, low: real, high: real)
    requires forall k <- m :: low <= m[k] <= high
    ensures Times(|m| as real, low) <= SumOver(m) <= Times(|m| as real, high)
    decreases |m|
  {
    if m == map[] {
      assert SumOver(m) == 0.0;
    } else {
      hide SumOver;
      var k :| k in m;
      var rest := m - {k};
      assert forall j <- rest :: j in m && rest[j] == m[j];
      SumBounds(rest, low, high);
      SumRemove(m, k);
      assert |m| as real == |rest| as real + 1.0;
      TimesSucc(|rest| as real, low);
      TimesSucc(|rest| as real, high);
      hide Times;
    }
  }
}
