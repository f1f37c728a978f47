/** The recursive-least-squares predictor as the object the scheduler updates in place. */
module RlsPredictor {
  import opened Constants
  import opened RealArith
  import opened Rls

  lemma DeflatedRow(a: real, k: real, x: real, e: real, f: real)
    ensures (a - k * (x * e + f)) / LAMBDA == Deflated(a, k, Affine(e, x, f))
  {
  }

  class PerWorkerRLSPredictor {
    const tier: string
    const totalVram: int
    var slope: real
    var intercept: real
    var p00: real
    var p01: real
    var p10: real
    var p11: real
    var averageLatency: real
    var updateCount: nat

    function View(): Model
      reads this
    {
      Model(slope, intercept, Matrix(p00, p01, p10, p11), averageLatency, updateCount)
    }

    constructor (tier: string, totalVram: int)
      ensures View() == INITIAL && this.tier == tier && this.totalVram == totalVram
    {
      this.tier, this.totalVram := tier, totalVram;
      slope, intercept := INITIAL_SLOPE, INITIAL_INTERCEPT;
      p00, p01, p10, p11 := PRIOR_VARIANCE, 0.0, 0.0, PRIOR_VARIANCE;
      averageLatency, updateCount := 0.0, 0;
    }

    method Update(actual: real, tokens: int)
      modifies this
      ensures View() == Step(old(View()), Sample(actual, tokens))
    {
      hide Residual, Gain0, Gain1, Nudge, Row0, Row1, Deflate;
      if tokens <= 0 {
        return;
      }
      var err := Innovation(actual, tokens);
      var k0, k1 := Gain(tokens as real);
      Correct(tokens as real, err, k0, k1);
      if slope < INITIAL_SLOPE {
        slope := INITIAL_SLOPE;
      }
      if intercept < MIN_INTERCEPT {
        intercept := MIN_INTERCEPT;
      }
      updateCount := updateCount + 1;
      if averageLatency == 0.0 {
        averageLatency := actual;
      } else {
        averageLatency := 0.9 * averageLatency + 0.1 * actual;
      }
    }

    method Innovation(actual: real, tokens: int) returns (err: real)
      ensures err == Residual(Sample(actual, tokens), slope, intercept)
    {
      var predicted := slope * tokens as real + intercept;
      assert predicted == Affine(slope, tokens as real, intercept);
      hide Affine;
      err := actual - predicted;
    }

    method Gain(x0: real) returns (k0: real, k1: real)
      ensures k0 == Gain0(View().p, x0) && k1 == Gain1(View().p, x0)
    {
      var px0 := p00 * x0 + p01;
      var px1 := p10 * x0 + p11;
      var spread := x0 * px0 + px1;
      assert px0 == Affine(p00, x0, p01) && px1 == Affine(p10, x0, p11) && spread == Affine(px0, x0, px1);
      hide Affine;
      var denom := LAMBDA + spread;
      if denom < MIN_DENOM {
        denom := MIN_DENOM;
      }
      k0 := px0 / denom;
      k1 := px1 / denom;
    }

    /** The gain step and the new covariance, before any floor. */
    method Correct(x0: real, err: real, k0: real, k1: real)
      modifies `slope, `intercept, `p00, `p01, `p10, `p11
      ensures slope == Nudge(old(slope), k0, err) && intercept == Nudge(old(intercept), k1, err)
      ensures var p := old(View()).p;
              Matrix(p00, p01, p10, p11) == Deflate(p, k0, k1, Row0(p, x0), Row1(p, x0))
    {
      slope := slope + k0 * err;
      intercept := intercept + k1 * err;
      assert slope == Nudge(old(slope), k0, err) && intercept == Nudge(old(intercept), k1, err);
      hide Nudge, Affine, Deflated;
      var q00, q01, q10, q11 := p00, p01, p10, p11;
      p00 := (q00 - k0 * (x0 * q00 + q10)) / LAMBDA;
      p01 := (q01 - k0 * (x0 * q01 + q11)) / LAMBDA;
      p10 := (q10 - k1 * (x0 * q00 + q10)) / LAMBDA;
      p11 := (q11 - k1 * (x0 * q01 + q11)) / LAMBDA;
      DeflatedRow(q00, k0, x0, q00, q10);
      DeflatedRow(q01, k0, x0, q01, q11);
      DeflatedRow(q10, k1, x0, q00, q10);
      DeflatedRow(q11, k1, x0, q01, q11);
    }

    /** Barred exactly for large requests on a worker short of memory; else the line at `tokens`. */
    method Predict(tokens: int, vramMb: int) returns (exec: Estimate, avg: real)
      ensures exec == EstimateOf(View(), tokens, vramMb) && avg == averageLatency
    {
      if vramMb < VRAM_HARD_LIMIT_MB && tokens > LARGE_REQUEST_TOKENS {
        return Unusable, averageLatency;
      }
      var base := slope * tokens as real + intercept;
      return Ms(base), averageLatency;
    }

    method ResetState()
      modifies this
      ensures View() == Reset(old(View()))
    {
      slope, intercept := INITIAL_SLOPE, INITIAL_INTERCEPT;
      p00, p01, p10, p11 := PRIOR_VARIANCE, 0.0, 0.0, PRIOR_VARIANCE;
    }
  }
}
