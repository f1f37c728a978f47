/** The NLMS predictor as the object the scheduler updates in place. */
module NlmsPredictor {
  import opened Constants
  import opened RealArith
  import opened Nlms

  class PerWorkerPredictor {
    const tier: string
    const totalVram: int
    const useDualSlope: bool
    const frozen: bool
    var fastSlope: real
    var slowSlope: real
    var intercept: real
    var averageLatency: real
    var interferenceHist: seq<real>
    var histIdx: nat
    var sumSquaredError: real
    var sumAbsErr: real
    var sumRelErr: real
    var updateCount: nat

    predicate Valid()
      reads this
    {
      histIdx < 3 == |interferenceHist|
    }

    function View(): Predictor
      reads this
    {
      Predictor(fastSlope, slowSlope, intercept, averageLatency, interferenceHist, histIdx,
                sumSquaredError, sumAbsErr, sumRelErr, updateCount, useDualSlope, frozen)
    }

    constructor (tier: string, totalVram: int, slope: real, intercept: real, dual: bool, frozen: bool)
      ensures Valid() && View() == Registered(slope, intercept, dual, frozen)
      ensures this.tier == tier && this.totalVram == totalVram
    {
      this.tier, this.totalVram, this.useDualSlope, this.frozen := tier, totalVram, dual, frozen;
      fastSlope, slowSlope, this.intercept := slope, slope, intercept;
      averageLatency, interferenceHist, histIdx := 0.0, [0.0, 0.0, 0.0], 0;
      sumSquaredError, sumAbsErr, sumRelErr, updateCount := 0.0, 0.0, 0.0, 0;
    }

    method Slope() returns (slope: real)
      ensures slope == EffectiveSlope(View())
    {
      if useDualSlope {
        return FAST_SLOW_BLEND * fastSlope + (1.0 - FAST_SLOW_BLEND) * slowSlope;
      }
      return fastSlope;
    }

    /** Observe a completion: account for the error, then adapt unless frozen. */
    method Update(actual: real, tokens: int, vramMb: int)
      requires Valid()
      modifies this
      ensures Valid() && View() == Step(old(View()), Observation(actual, tokens, vramMb))
    {
      ghost var o := Observation(actual, tokens, vramMb);
      var predicted := PredictLine(tokens, vramMb);
      var err := actual - predicted;
      assert err == Error(View(), o);
      hide Expected, Error, Square, Average;
      Record(actual, err);
      assert View() == Account(old(View()), o);
      if frozen {
        return;
      }
      hide Account;

      if tokens > 0 {
        var grad := err / tokens as real;
        fastSlope := fastSlope + MU_FAST * grad;
        if useDualSlope {
          slowSlope := slowSlope + MU_SLOW * grad;
        } else {
          slowSlope := fastSlope;
        }
      }
      intercept := intercept + MU_BIAS * err;
      if fastSlope < INITIAL_SLOPE {
        fastSlope := INITIAL_SLOPE;
      }
      if slowSlope < INITIAL_SLOPE {
        slowSlope := INITIAL_SLOPE;
      }
      if intercept < MIN_INTERCEPT {
        intercept := MIN_INTERCEPT;
      }

      var ratio := Ratio(actual, predicted);
      interferenceHist := interferenceHist[histIdx := ratio];
      histIdx := (histIdx + 1) % 3;
    }

    /** The line at `tokens`, slowed down when memory is short. */
    method PredictLine(tokens: int, vramMb: int) returns (predicted: real)
      ensures forall actual :: predicted == Expected(View(), Observation(actual, tokens, vramMb))
    {
      var bwPenalty := 1.0;
      if vramMb < VRAM_SOFT_LIMIT_MB {
        bwPenalty := 1.0 + (VRAM_SOFT_LIMIT_MB as real - vramMb as real) / VRAM_SOFT_LIMIT_MB as real;
      }
      var slope := Slope();
      var line := slope * tokens as real + intercept;
      assert line == Affine(slope, tokens as real, intercept);
      hide Affine, EffectiveSlope;
      predicted := line * bwPenalty;
      assert predicted == Times(line, bwPenalty);
    }

    /** Error sums, update count and average latency. */
    method Record(actual: real, err: real)
      modifies `sumSquaredError, `sumAbsErr, `sumRelErr, `updateCount, `averageLatency
      ensures sumSquaredError == old(sumSquaredError) + Square(err)
      ensures sumAbsErr == old(sumAbsErr) + Abs(err)
      ensures sumRelErr == old(sumRelErr) + Abs(err) / Max(actual, 1.0)
      ensures updateCount == old(updateCount) + 1
      ensures averageLatency == Average(old(averageLatency), actual)
    {
      var absErr := Abs(err);
      var relErr := absErr / Max(actual, 1.0);
      sumSquaredError := sumSquaredError + err * err;
      sumAbsErr := sumAbsErr + absErr;
      sumRelErr := sumRelErr + relErr;
      updateCount := updateCount + 1;
      if averageLatency == 0.0 {
        averageLatency := actual;
      } else {
        averageLatency := 0.9 * averageLatency + 0.1 * actual;
      }
    }

    method Predict(tokens: int, vramMb: int) returns (exec: Estimate, avg: real)
      requires Valid()
      ensures exec == EstimateOf(View(), tokens, vramMb) && avg == averageLatency
    {
      if 0 < vramMb < VRAM_HARD_LIMIT_MB && tokens > LARGE_REQUEST_TOKENS {
        return Unusable, averageLatency;
      }
      var slope := Slope();
      var base := slope * tokens as real + intercept;
      assert base == Line(View(), tokens);
      hide Line, EffectiveSlope, Affine;
      var memCost := 0.0;
      if vramMb < VRAM_SOFT_LIMIT_MB {
        var contention := (VRAM_SOFT_LIMIT_MB as real - vramMb as real) / VRAM_SOFT_LIMIT_MB as real;
        memCost := base * contention * BANDWIDTH_PENALTY;
      }
      var sum, i := 0.0, 0;
      while i < 3
        invariant 0 <= i <= 3
        invariant sum == (if i > 0 then interferenceHist[0] else 0.0) + (if i > 1 then interferenceHist[1] else 0.0)
                         + if i > 2 then interferenceHist[2] else 0.0
      {
        sum := sum + interferenceHist[i];
        i := i + 1;
      }
      var avgInterference := sum / 3.0;
      if avgInterference < 1e-9 {
        avgInterference := 1.0;
      }
      assert avgInterference == Interference(View());
      hide Interference;
      var predicted := Max(base, memCost) * Max(1.0, avgInterference);
      return Ms(predicted), averageLatency;
    }

    method ResetState()
      requires Valid()
      modifies this
      ensures Valid() && View() == Reset(old(View()))
    {
      fastSlope, slowSlope, intercept := INITIAL_SLOPE, INITIAL_SLOPE, INITIAL_INTERCEPT;
    }
  }
}
