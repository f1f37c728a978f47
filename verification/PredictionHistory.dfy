/** The bounded record of predictions against measured latencies. */
module PredictionHistory {
  import opened Constants
  import opened Windows

  datatype PredSample = PredSample(
    workerId: string,
    tokens: int,
    predicted: real,
    actual: real,
    absErr: real,
    relErr: real,
    fastSlope: real,
    slowSlope: real,
    mode: Mode)

  datatype Mode = Dual | Single | Frozen | Configured(name: string)

  function AbsErrors(samples: seq<PredSample>): (errs: seq<real>)
    ensures |errs| == |samples|
  {
    seq(|samples|, i requires 0 <= i < |samples| => samples[i].absErr)
  }

  function RelErrors(samples: seq<PredSample>): (errs: seq<real>)
    ensures |errs| == |samples|
  {
    seq(|samples|, i requires 0 <= i < |samples| => samples[i].relErr)
  }

  lemma DropOldest(w: seq<PredSample>)
    requires w != []
    ensures Sum(AbsErrors(w[1..])) == Sum(AbsErrors(w)) - w[0].absErr
    ensures Sum(RelErrors(w[1..])) == Sum(RelErrors(w)) - w[0].relErr
  {
    assert AbsErrors(w)[1..] == AbsErrors(w[1..]) && RelErrors(w)[1..] == RelErrors(w[1..]);
  }

  lemma AppendNewest(w: seq<PredSample>, s: PredSample)
    ensures Sum(AbsErrors(w + [s])) == Sum(AbsErrors(w)) + s.absErr
    ensures Sum(RelErrors(w + [s])) == Sum(RelErrors(w)) + s.relErr
  {
    SumAppend(AbsErrors(w), s.absErr);
    SumAppend(RelErrors(w), s.relErr);
    assert AbsErrors(w + [s]) == AbsErrors(w) + [s.absErr];
    assert RelErrors(w + [s]) == RelErrors(w) + [s.relErr];
  }

  class PredHistory {
    const max: nat
    var samples: seq<PredSample>
    var sumAbs: real
    var sumRel: real
    var n: int
    ghost var added: seq<PredSample>

    /** The window holds exactly the last `max` samples ever added, and the sums are over that window. */
    ghost predicate Valid()
      reads this
    {
      && max > 0
      && samples == LastN(added, max)
      && n == |samples|
      && sumAbs == Sum(AbsErrors(samples))
      && sumRel == Sum(RelErrors(samples))
    }

    constructor (max: int)
      ensures Valid() && added == []
      ensures this.max == if max <= 0 then PRED_HISTORY_CAP else max
    {
      this.max := if max <= 0 then PRED_HISTORY_CAP else max;
      samples, sumAbs, sumRel, n := [], 0.0, 0.0, 0;
      added := [];
    }

    method Add(s: PredSample)
      requires Valid()
      modifies this
      ensures Valid() && added == old(added) + [s]
    {
      hide Sum, AbsErrors, RelErrors;
      LastNSlide(added, s, max);
      if |samples| >= max {
        var oldest := samples[0];
        DropOldest(samples);
        sumAbs := sumAbs - oldest.absErr;
        sumRel := sumRel - oldest.relErr;
        samples := samples[1..];
        n := n - 1;
      }
      AppendNewest(samples, s);
      samples := samples + [s];
      sumAbs := sumAbs + s.absErr;
      sumRel := sumRel + s.relErr;
      n := n + 1;
      added := added + [s];
    }

    /** Mean errors over the window and its most recent `limit` samples (all of them when limit <= 0). */
    method Snapshot(limit: int) returns (count: int, mae: real, mape: real, recent: seq<PredSample>)
      requires Valid()
      ensures count == |LastN(added, max)|
      ensures count > 0 ==> mae * count as real == Sum(AbsErrors(LastN(added, max)))
      ensures count > 0 ==> mape * count as real == 100.0 * Sum(RelErrors(LastN(added, max)))
      ensures count == 0 ==> mae == mape == 0.0
      ensures recent == if limit > 0 then LastN(LastN(added, max), limit) else LastN(added, max)
    {
      mae, mape := 0.0, 0.0;
      if n > 0 {
        mae := sumAbs / n as real;
        mape := (sumRel / n as real) * 100.0;
      }
      recent := samples;
      if limit > 0 && |recent| > limit {
        recent := recent[|recent| - limit..];
      }
      count := n;
    }
  }
}
