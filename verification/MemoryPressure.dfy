/**
  What a lower memory reading does to a worker's cost and candidacy, with every way it
  enters: the memory penalty, the latency estimate, which an NLMS predictor scales when
  memory is short, and the hard limit, which overlooks readings of zero or less.
 */
module MemoryPressure {
  import opened Constants
  import opened RealArith
  import opened Cost
  import opened SchedulerModel
  import opened SchedulerRuns
  import Nlms
  import Rls

  /**
    How often an estimate counts in the cost: once as execution, and once more per eight
    pending tasks while no average is known.
   */
  function Load(w: Worker, avg: real, flags: Flags): real {
    1.0 + if !flags.noQueue && avg == 0.0 then w.pending as real / BATCH_SIZE else 0.0
  }

  function Penalty(w: Worker, totalVram: int, flags: Flags): real {
    if flags.noVramSoft then 0.0 else VramMs(w, Forecast(Unusable, 0.0, "", totalVram))
  }

  /** The memory penalty turned discount: what a reading above the registered memory takes off. */
  function Discount(vram: int, totalVram: int): real
    requires totalVram > 0
  {
    (vram as real / totalVram as real - 1.0) * 1000.0
  }

  // ----- The penalty -----

  lemma PenaltyFalls(w: Worker, vram: int, totalVram: int, flags: Flags)
    requires vram <= w.vram && totalVram > 0
    ensures var low, high := Penalty(w.(vram := vram), totalVram, flags), Penalty(w, totalVram, flags);
            if flags.noVramSoft || VRAM_SOFT_LIMIT_MB <= vram then low == high
            else if VRAM_SOFT_LIMIT_MB <= w.vram then low == -Discount(vram, totalVram) && high == 0.0
            else high <= low
    ensures Discount(vram, totalVram) > 0.0 <==> vram > totalVram
  {
    MoreMemorySmallerShare(vram, w.vram, totalVram);
    ShareAboveOne(vram, totalVram);
  }

  /**
    Between two readings the cost moves by the load-weighted change of the estimate and by
    the change of the penalty; nothing but the estimate and the hard limit bars.
   */
  lemma ScoreGap(req: Request, w: Worker, vram: int, f: Forecast, g: Forecast, cache: map<Hash, string>, key: Hash,
                 flags: Flags)
    requires g == f.(exec := g.exec)
    ensures var s, t := ComputeWorkerScore(req, w, f, cache, key, flags),
                        ComputeWorkerScore(req, w.(vram := vram), g, cache, key, flags);
            && (t.Scored? ==>
                  (s.Blocked? <==> EstimateBars(f.exec) || (!flags.noVramHard && MemoryBars(w, Tokens(req)))))
            && (s.Scored? && t.Scored? ==>
                  t.total - s.total
                  == Times(t.breakdown.execMs - s.breakdown.execMs, Load(w, f.avg, flags))
                     + Penalty(w.(vram := vram), f.totalVram, flags) - Penalty(w, f.totalVram, flags))
  {
    if f.exec.Ms? && g.exec.Ms? {
      LoadSplits(w, f.exec.value, g.exec.value, f.avg, flags);
      hide Times, Tokens, Load;
    }
  }

  lemma LoadSplits(w: Worker, e: real, e': real, avg: real, flags: Flags)
    ensures var share := w.pending as real / BATCH_SIZE;
            Times(e' - e, Load(w, avg, flags))
            == e' - e + if !flags.noQueue && avg == 0.0 then Times(share, e') - Times(share, e) else 0.0
  {
  }

  /** The exact price of any other reading, whatever the predictor holds. */
  lemma ReadingPrice(cfg: Config, s: State, req: Request, id: string, vram: int)
    requires WellFormed(s) && Known(cfg, s, id)
    ensures var t, f := SetVram(s, id, vram), ForecastOf(cfg, s, req, id);
            && Known(cfg, t, id)
            && var before, after := ScoreOf(cfg, s, req, id), ScoreOf(cfg, t, req, id);
               before.Scored? && after.Scored? ==>
                 after.total - before.total
                 == Times(after.breakdown.execMs - before.breakdown.execMs, Load(s.workers[id], f.avg, cfg.flags))
                    + Penalty(t.workers[id], f.totalVram, cfg.flags)
                    - Penalty(s.workers[id], f.totalVram, cfg.flags)
  {
    var w, t := s.workers[id], SetVram(s, id, vram);
    var f, g := ForecastOf(cfg, s, req, id), ForecastOf(cfg, t, req, id);
    hide Rls.EstimateOf, Nlms.EstimateOf, PrefixHash, Penalty, Load, Times, ComputeWorkerScore;
    ScoreGap(req, w, vram, f, g, s.prefixCache, PrefixHash(cfg.fnv, req.data), cfg.flags);
  }

  // ----- RLS: the estimate does not move -----

  /**
    Under RLS a lower reading never lets a worker in, and makes it cheaper exactly when it
    crosses the soft limit while above the registered memory.
   */
  lemma RlsWhenLessMemoryPays(cfg: Config, s: State, req: Request, id: string, vram: int)
    requires Consistent(cfg, s) && cfg.strategy.RLS? && id in s.workers && vram <= s.workers[id].vram
    ensures var t := SetVram(s, id, vram);
            && Known(cfg, s, id) && Known(cfg, t, id)
            && var before, after := ScoreOf(cfg, s, req, id), ScoreOf(cfg, t, req, id);
               after.Scored? ==>
                 && before.Scored?
                 && (after.total < before.total
                     <==> !cfg.flags.noVramSoft
                          && s.rls[id].totalVram < vram < VRAM_SOFT_LIMIT_MB <= s.workers[id].vram)
  {
    assert WorkerFine(id, s.workers[id]) && Paired(s.nlms[id], s.rls[id]);
    hide Consistent, Rls.Matrix.PosDef;
    var w, t := s.workers[id], SetVram(s, id, vram);
    var f, g := ForecastOf(cfg, s, req, id), ForecastOf(cfg, t, req, id);
    if ScoreOf(cfg, t, req, id).Scored? {
      assert g == f;
      assert MemoryBars(w, Tokens(req)) ==> vram >= VRAM_HARD_LIMIT_MB;
      hide ComputeWorkerScore, PrefixHash;
      WhenLessMemoryPays(req, w, vram, f, s.prefixCache, PrefixHash(cfg.fnv, req.data), cfg.flags);
    }
  }

  lemma ZeroTimes(x: real)
    ensures Times(0.0, x) == 0.0
  {
  }

  // ----- NLMS: the estimate in closed form -----

  function Scale(p: Nlms.Predictor): real
    requires |p.interference| == 3
  {
    Max(1.0, Nlms.Interference(p))
  }

  /** The estimate with memory to spare: the scaled line, or 0 for a negative one. */
  function Ample(p: Nlms.Predictor, tokens: int): real
    requires |p.interference| == 3
  {
    Times(Max(Nlms.Line(p, tokens), 0.0), Scale(p))
  }

  /** How much of a line memory contention charges. */
  function Contention(vram: int): real {
    Nlms.BANDWIDTH_PENALTY * Nlms.Shortfall(vram)
  }

  /**
    What short memory adds to the estimate. A non-negative line rises once 3·vram < 4096, a
    negative one falls below 0 as soon as vram < 4096.
   */
  function Rise(p: Nlms.Predictor, tokens: int, vram: int): real
    requires |p.interference| == 3
  {
    var base := Nlms.Line(p, tokens);
    if base >= 0.0 then
      if 3 * vram >= VRAM_SOFT_LIMIT_MB then 0.0 else Times(Times(base, Contention(vram) - 1.0), Scale(p))
    else if vram >= VRAM_SOFT_LIMIT_MB then 0.0
    else Times(Max(base, Times(base, Contention(vram))), Scale(p))
  }

  lemma ContendedIs(base: real, vram: int)
    requires vram < VRAM_SOFT_LIMIT_MB
    ensures Nlms.Contended(base, vram) == Times(base, Contention(vram))
  {
  }

  lemma ContentionAt(vram: int)
    ensures Contention(vram) <= 1.0 <==> 3 * vram >= VRAM_SOFT_LIMIT_MB
    ensures Contention(vram) > 0.0 <==> vram < VRAM_SOFT_LIMIT_MB
  {
  }

  /** A usable estimate is the ample one plus the rise, for every line and every reading. */
  lemma EstimateSplits(p: Nlms.Predictor, tokens: int, vram: int)
    requires |p.interference| == 3 && Nlms.EstimateOf(p, tokens, vram).Ms?
    ensures Nlms.EstimateOf(p, tokens, vram).value == Ample(p, tokens) + Rise(p, tokens, vram)
  {
    hide Nlms.Line, Nlms.Interference, Times, Contention;
    var base, k, scale := Nlms.Line(p, tokens), Contention(vram), Scale(p);
    assert Nlms.EstimateOf(p, tokens, vram).value == Times(Max(base, Nlms.Contended(base, vram)), scale);
    assert vram >= VRAM_SOFT_LIMIT_MB ==> Nlms.Contended(base, vram) == 0.0;
    ContentionAt(vram);
    hide Nlms.EstimateOf, Nlms.Contended, Scale;
    if vram >= VRAM_SOFT_LIMIT_MB {
      assert Rise(p, tokens, vram) == 0.0;
    } else {
      ContendedIs(base, vram);
      if base < 0.0 {
        ZeroTimes(scale);
        assert Ample(p, tokens) == Times(0.0, scale);
      } else if k <= 1.0 {
        TimesBelow(base, k);
        assert Max(base, Times(base, k)) == base == Max(base, 0.0);
      } else {
        TimesAbove(base, k, scale);
        assert Max(base, Times(base, k)) == Times(base, k) && Max(base, 0.0) == base;
        assert Rise(p, tokens, vram) == Times(Times(base, k - 1.0), scale);
      }
    }
  }

  lemma TimesBelow(base: real, k: real)
    requires base >= 0.0 && k <= 1.0
    ensures Times(base, k) <= base
  {
    MulNonNeg(base, 1.0 - k, base * (1.0 - k));
  }

  lemma TimesAbove(base: real, k: real, scale: real)
    requires base >= 0.0 && k >= 1.0
    ensures Times(base, k) >= base
    ensures Times(Times(base, k), scale) == Times(base, scale) + Times(Times(base, k - 1.0), scale)
  {
    MulNonNeg(base, k - 1.0, base * (k - 1.0));
    assert base * k * scale == base * scale + base * (k - 1.0) * scale;
  }

  /** Lower readings move the estimate further: up for a non-negative line, down for a negative one. */
  lemma RiseMoves(p: Nlms.Predictor, tokens: int, low: int, high: int)
    requires |p.interference| == 3 && low <= high
    ensures Nlms.Line(p, tokens) >= 0.0 ==> 0.0 <= Rise(p, tokens, high) <= Rise(p, tokens, low)
    ensures Nlms.Line(p, tokens) < 0.0 ==> Rise(p, tokens, low) <= Rise(p, tokens, high) <= 0.0
    ensures Nlms.Line(p, tokens) < 0.0 && low < VRAM_SOFT_LIMIT_MB ==> Rise(p, tokens, low) < 0.0
  {
    hide Nlms.Line, Nlms.Interference;
    var base, scale := Nlms.Line(p, tokens), Scale(p);
    var k, k' := Contention(high), Contention(low);
    ContentionAt(high);
    ContentionAt(low);
    assert k <= k';
    hide Contention, Times;
    if base >= 0.0 {
      if 3 * low < VRAM_SOFT_LIMIT_MB {
        ScaledMono(base, if 3 * high < VRAM_SOFT_LIMIT_MB then k - 1.0 else 0.0, k' - 1.0, scale);
      }
    } else if low < VRAM_SOFT_LIMIT_MB {
      NegativeMono(base, if high < VRAM_SOFT_LIMIT_MB then k else k', k', scale);
    }
  }

  lemma ScaledMono(base: real, k: real, k': real, scale: real)
    requires base >= 0.0 && 0.0 <= k <= k' && scale >= 0.0
    ensures 0.0 <= Times(Times(base, k), scale) <= Times(Times(base, k'), scale)
  {
    hide Times;
    TimesNonNeg(base, k);
    TimesNonNeg(Times(base, k), scale);
    TimesMono(k, k', base);
    TimesMono(Times(base, k), Times(base, k'), scale);
  }

  lemma NegativeMono(base: real, k: real, k': real, scale: real)
    requires base < 0.0 && 0.0 < k <= k' && scale >= 1.0
    ensures Times(Max(base, Times(base, k')), scale) <= Times(Max(base, Times(base, k)), scale) < 0.0
  {
    NegativeTimes(base, k);
    NegativeTimes(-base, k' - k);
    assert Times(base, k') - Times(base, k) == Times(base, k' - k);
    NegativeTimes(Max(base, Times(base, k)), scale);
    hide Times;
    TimesMono(Max(base, Times(base, k')), Max(base, Times(base, k)), scale);
  }

  lemma NegativeTimes(x: real, y: real)
    requires y >= 0.0
    ensures x < 0.0 && y > 0.0 ==> Times(x, y) < 0.0
    ensures x > 0.0 ==> Times(-x, y) <= 0.0
  {
    if x < 0.0 && y > 0.0 {
      MulPos(-x, y, -x * y);
    } else if x > 0.0 {
      MulNonNeg(x, y, x * y);
    }
  }

  // ----- NLMS: what a lower reading does -----

  /** The load-weighted change of the estimate between the current reading and another. */
  function Shift(cfg: Config, s: State, req: Request, id: string, vram: int): real
    requires WellFormed(s) && id in s.workers && id in s.nlms
  {
    var w, e := s.workers[id], s.nlms[id];
    Times(Rise(e.model, Tokens(req), vram) - Rise(e.model, Tokens(req), w.vram), Load(w, e.model.avgLatency, cfg.flags))
  }

  /** The change of the penalty between the current reading and another. */
  function PenaltyShift(cfg: Config, s: State, id: string, vram: int): real
    requires id in s.workers && id in s.nlms
  {
    var w, total := s.workers[id], s.nlms[id].totalVram;
    Penalty(w.(vram := vram), total, cfg.flags) - Penalty(w, total, cfg.flags)
  }

  /** The change of the cost in closed form, for every line and every reading. */
  lemma NlmsPrice(cfg: Config, s: State, req: Request, id: string, vram: int)
    requires WellFormed(s) && !cfg.strategy.RLS? && Known(cfg, s, id)
    ensures Known(cfg, SetVram(s, id, vram), id)
    ensures var before, after := ScoreOf(cfg, s, req, id), ScoreOf(cfg, SetVram(s, id, vram), req, id);
            before.Scored? && after.Scored? ==>
              after.total - before.total == Shift(cfg, s, req, id, vram) + PenaltyShift(cfg, s, id, vram)
  {
    ReadingPrice(cfg, s, req, id, vram);
    var w, p, tokens, t := s.workers[id], s.nlms[id].model, Tokens(req), SetVram(s, id, vram);
    if ScoreOf(cfg, s, req, id).Scored? && ScoreOf(cfg, t, req, id).Scored? {
      ExecIs(cfg, s, req, id);
      ExecIs(cfg, t, req, id);
      hide ScoreOf, Nlms.EstimateOf, Rise, Ample, Times, Load, Penalty, Tokens;
      EstimateSplits(p, tokens, w.vram);
      EstimateSplits(p, tokens, vram);
    }
  }

  lemma ExecIs(cfg: Config, s: State, req: Request, id: string)
    requires WellFormed(s) && !cfg.strategy.RLS? && Known(cfg, s, id) && ScoreOf(cfg, s, req, id).Scored?
    ensures var e := Nlms.EstimateOf(s.nlms[id].model, Tokens(req), s.workers[id].vram);
            e.Ms? && ScoreOf(cfg, s, req, id).breakdown.execMs == e.value
  {
    hide Nlms.EstimateOf, Tokens, WaitMs, VramMs, PrefixHash;
  }

  /** Zero or less passes for "no reading": the hard limit bars a large request only for readings above zero. */
  predicate Unnoticed(tokens: int, vram: int, current: int) {
    tokens > LARGE_REQUEST_TOKENS && vram <= 0 < current < VRAM_HARD_LIMIT_MB
  }

  /** A lower reading lets a barred worker in exactly when it drops out of the range the hard limit looks at. */
  lemma NlmsWhenLessMemoryAdmits(cfg: Config, s: State, req: Request, id: string, vram: int)
    requires WellFormed(s) && !cfg.strategy.RLS? && Known(cfg, s, id) && vram <= s.workers[id].vram
    ensures Known(cfg, SetVram(s, id, vram), id)
    ensures ScoreOf(cfg, SetVram(s, id, vram), req, id).Scored? ==>
              (ScoreOf(cfg, s, req, id).Blocked? <==> Unnoticed(Tokens(req), vram, s.workers[id].vram))
  {
    var w, p, tokens, t := s.workers[id], s.nlms[id].model, Tokens(req), SetVram(s, id, vram);
    var f, g := ForecastOf(cfg, s, req, id), ForecastOf(cfg, t, req, id);
    if ScoreOf(cfg, t, req, id).Scored? {
      BarsOnlyFor(p, tokens, w.vram);
      BarsOnlyFor(p, tokens, vram);
      assert !EstimateBars(g.exec) && (cfg.flags.noVramHard || !MemoryBars(t.workers[id], tokens)) by {
        hide Nlms.EstimateOf, WaitMs, VramMs, PrefixHash, Tokens;
      }
      hide Nlms.EstimateOf, ComputeWorkerScore, PrefixHash, Tokens;
      if f.exec.Ms? {
        EstimateSplits(p, tokens, w.vram);
        EstimateSplits(p, tokens, vram);
        RiseMoves(p, tokens, vram, w.vram);
        AmpleIs(p, tokens);
      }
      hide Rise, Ample, Nlms.Line;
      ScoreGap(req, w, vram, f, g, s.prefixCache, PrefixHash(cfg.fnv, req.data), cfg.flags);
    }
  }

  lemma BarsOnlyFor(p: Nlms.Predictor, tokens: int, vram: int)
    requires |p.interference| == 3
    ensures Nlms.EstimateOf(p, tokens, vram).Unusable?
            <==> 0 < vram < VRAM_HARD_LIMIT_MB && tokens > LARGE_REQUEST_TOKENS
  {
  }

  lemma AmpleIs(p: Nlms.Predictor, tokens: int)
    requires |p.interference| == 3
    ensures Nlms.Line(p, tokens) < 0.0 ==> Ample(p, tokens) == 0.0
  {
    hide Nlms.Line, Scale;
  }

  /**
    For a non-negative line the reading pays if it crosses the soft limit above the
    registered memory and the discount outweighs the rise of the estimate.
   */
  predicate DiscountWins(cfg: Config, s: State, req: Request, id: string, vram: int)
    requires WellFormed(s) && id in s.workers && id in s.nlms
  {
    var w, e := s.workers[id], s.nlms[id];
    && !cfg.flags.noVramSoft && 0 < e.totalVram < vram < VRAM_SOFT_LIMIT_MB <= w.vram
    && Shift(cfg, s, req, id, vram) < Discount(vram, e.totalVram)
  }

  /** For a negative line it pays if the fall of the estimate outweighs the change of the penalty. */
  predicate FallWins(cfg: Config, s: State, req: Request, id: string, vram: int)
    requires WellFormed(s) && id in s.workers && id in s.nlms
  {
    -Shift(cfg, s, req, id, vram) > PenaltyShift(cfg, s, id, vram)
  }

  /**
    Main result for the NLMS predictors, for every line and every lower reading: when it
    lets a worker in, and exactly when it makes one cheaper. Learned lines are never
    negative; a static one is what it was configured to be.
   */
  lemma NlmsWhenLessMemoryPays(cfg: Config, s: State, req: Request, id: string, vram: int)
    requires Consistent(cfg, s) && !cfg.strategy.RLS? && id in s.workers && vram <= s.workers[id].vram
    ensures Known(cfg, s, id) && Known(cfg, SetVram(s, id, vram), id)
    ensures var before, after := ScoreOf(cfg, s, req, id), ScoreOf(cfg, SetVram(s, id, vram), req, id);
            after.Scored? ==>
              && (before.Blocked? <==> Unnoticed(Tokens(req), vram, s.workers[id].vram))
              && (before.Scored? ==>
                    (after.total < before.total
                     <==> if Nlms.Line(s.nlms[id].model, Tokens(req)) >= 0.0 then DiscountWins(cfg, s, req, id, vram)
                          else FallWins(cfg, s, req, id, vram)))
    ensures !Frozen(cfg) ==> Nlms.Line(s.nlms[id].model, Tokens(req)) >= 0.0
  {
    assert WorkerFine(id, s.workers[id]) && NlmsFine(cfg, s.nlms[id]) && Paired(s.nlms[id], s.rls[id]);
    hide Consistent;
    var w, p, tokens := s.workers[id], s.nlms[id].model, Tokens(req);
    if !Frozen(cfg) {
      Nlms.LinePositive(p, tokens);
    }
    hide Nlms.Line, ScoreOf, Tokens, Shift, PenaltyShift;
    NlmsPrice(cfg, s, req, id, vram);
    NlmsWhenLessMemoryAdmits(cfg, s, req, id, vram);
    if Nlms.Line(p, tokens) >= 0.0 {
      DiscountOrNot(cfg, s, req, id, vram);
    }
    hide DiscountWins;
  }

  lemma DiscountOrNot(cfg: Config, s: State, req: Request, id: string, vram: int)
    requires WellFormed(s) && id in s.workers && id in s.nlms && vram <= s.workers[id].vram
    requires s.workers[id].pending >= 0 && s.nlms[id].totalVram > 0
    requires Nlms.Line(s.nlms[id].model, Tokens(req)) >= 0.0
    ensures Shift(cfg, s, req, id, vram) + PenaltyShift(cfg, s, id, vram) < 0.0 <==> DiscountWins(cfg, s, req, id, vram)
  {
    var w, e, tokens := s.workers[id], s.nlms[id], Tokens(req);
    hide Nlms.Line, Tokens, Rise, Penalty, Discount;
    RiseMoves(e.model, tokens, vram, w.vram);
    var load := Load(w, e.model.avgLatency, cfg.flags);
    assert load >= 1.0;
    hide Load, Times;
    TimesNonNeg(Rise(e.model, tokens, vram) - Rise(e.model, tokens, w.vram), load);
    PenaltyFalls(w, vram, e.totalVram, cfg.flags);
  }

  /** With the penalty switched off, a negative line always makes a worker cheaper once memory is short. */
  lemma NegativeLinePays(cfg: Config, s: State, req: Request, id: string, vram: int)
    requires Consistent(cfg, s) && !cfg.strategy.RLS? && id in s.workers && cfg.flags.noVramSoft
    requires vram < VRAM_SOFT_LIMIT_MB <= s.workers[id].vram && Nlms.Line(s.nlms[id].model, Tokens(req)) < 0.0
    ensures FallWins(cfg, s, req, id, vram)
    ensures Known(cfg, s, id) && Known(cfg, SetVram(s, id, vram), id)
    ensures var before, after := ScoreOf(cfg, s, req, id), ScoreOf(cfg, SetVram(s, id, vram), req, id);
            after.Scored? ==> before.Scored? && after.total < before.total
  {
    NegativeShift(cfg, s, req, id, vram);
    hide FallWins, ScoreOf, Tokens, Nlms.Line, Consistent;
    NlmsWhenLessMemoryPays(cfg, s, req, id, vram);
  }

  lemma NegativeShift(cfg: Config, s: State, req: Request, id: string, vram: int)
    requires Consistent(cfg, s) && id in s.workers && cfg.flags.noVramSoft
    requires vram < VRAM_SOFT_LIMIT_MB <= s.workers[id].vram && Nlms.Line(s.nlms[id].model, Tokens(req)) < 0.0
    ensures FallWins(cfg, s, req, id, vram)
  {
    assert WorkerFine(id, s.workers[id]);
    hide Consistent, Nlms.Line, Tokens;
    var w, p, tokens := s.workers[id], s.nlms[id].model, Tokens(req);
    RiseMoves(p, tokens, vram, w.vram);
    assert Rise(p, tokens, w.vram) == 0.0;
    hide Rise;
    var load := Load(w, p.avgLatency, cfg.flags);
    assert load >= 1.0;
    hide Load, Times;
    NegativeTimes(Rise(p, tokens, vram) - Rise(p, tokens, w.vram), load);
  }
}
