/** Concrete runs for each way a lower memory reading acts on a worker. */
module MemoryWitness {
  import opened Constants
  import opened Cost
  import opened MemoryPressure
  import opened SchedulerModel
  import opened SchedulerRuns
  import Nlms
  import opened Wrappers

  /** The worker registers with some memory, then reports a first reading. */
  function Readings(w: string, registered: int, reading: int): seq<Event> {
    [RegisterWorker(w, "small", registered), VramReading(w, reading)]
  }

  ghost predicate OnlyWorker(cfg: Config, s: State, w: string, registered: int, vram: int) {
    && WellFormed(s) && s.prefixCache == map[]
    && s.workers == map[w := Worker(w, true, vram, 0)]
    && s.nlms == map[w := NlmsEntry("small", registered, FreshNlms(cfg))]
  }

  lemma AfterReadings(cfg: Config, w: string, registered: int, first: int, second: int)
    requires registered > 0
    ensures var events, last := Readings(w, registered, first), VramReading(w, second);
            && IsRun(cfg, events) && IsRun(cfg, events + [last])
            && Consistent(cfg, After(cfg, events))
            && OnlyWorker(cfg, After(cfg, events), w, registered, first)
            && After(cfg, events + [last]) == SetVram(After(cfg, events), w, second)
            && OnlyWorker(cfg, After(cfg, events + [last]), w, registered, second)
  {
    var register, reading := RegisterWorker(w, "small", registered), VramReading(w, first);
    RunExtends(cfg, [], register);
    assert [] + [register] == [register] && [register] + [reading] == Readings(w, registered, first);
    RunExtends(cfg, [register], reading);
    hide FreshNlms, IsRun;
    RunExtends(cfg, Readings(w, registered, first), VramReading(w, second));
    hide After, Consistent;
    ReachableConsistent(cfg, Readings(w, registered, first));
  }

  // ----- Fresh workers -----

  lemma FreshLine(cfg: Config, tokens: int)
    requires !Frozen(cfg)
    ensures var p := FreshNlms(cfg);
            && Nlms.Interference(p) == 1.0 && p.avgLatency == 0.0
            && Nlms.Line(p, tokens) == 2.0 * tokens as real + 150.0
  {
  }

  lemma FreshEstimate(cfg: Config, tokens: int, vram: int)
    requires !Frozen(cfg) && tokens >= 1 && Nlms.EstimateOf(FreshNlms(cfg), tokens, vram).Ms?
    ensures var p := FreshNlms(cfg);
            Nlms.EstimateOf(p, tokens, vram) == Ms(2.0 * tokens as real + 150.0 + Rise(p, tokens, vram))
  {
    var p := FreshNlms(cfg);
    FreshLine(cfg, tokens);
    hide FreshNlms, Nlms.Line, Nlms.Interference;
    EstimateSplits(p, tokens, vram);
    hide Nlms.EstimateOf, Rise;
    assert Ample(p, tokens) == Nlms.Line(p, tokens);
  }

  /** What a fresh idle worker costs, when its estimate is usable and no memory or tier rule bars it. */
  lemma FreshScore(cfg: Config, s: State, req: Request, w: string, registered: int, vram: int)
    requires cfg.strategy.NLMS? && OnlyWorker(cfg, s, w, registered, vram)
    requires req.tier == "any" && Tokens(req) <= 10000 && !MemoryBars(s.workers[w], Tokens(req))
    requires Rise(FreshNlms(cfg), Tokens(req), vram) <= 10000.0
    ensures Candidate(cfg, s, req, w)
    ensures ScoreOf(cfg, s, req, w).total
            == 2.0 * Tokens(req) as real + 150.0 + Rise(FreshNlms(cfg), Tokens(req), vram)
               + Penalty(s.workers[w], registered, cfg.flags)
  {
    BarsOnlyFor(FreshNlms(cfg), Tokens(req), vram);
    FreshEstimate(cfg, Tokens(req), vram);
    IdleWait(s.workers[w], ForecastOf(cfg, s, req, w));
    hide Nlms.EstimateOf, FreshNlms, Rise, Tokens, WaitMs, VramMs, PrefixHash;
    assert VramMs(s.workers[w], ForecastOf(cfg, s, req, w))
        == VramMs(s.workers[w], Forecast(Unusable, 0.0, "", registered)) by { SamePenalty(cfg, s, req, w, registered); }
  }

  lemma SamePenalty(cfg: Config, s: State, req: Request, w: string, registered: int)
    requires WellFormed(s) && Known(cfg, s, w) && ForecastOf(cfg, s, req, w).totalVram == registered
    ensures VramMs(s.workers[w], ForecastOf(cfg, s, req, w))
            == VramMs(s.workers[w], Forecast(Unusable, 0.0, "", registered))
  {
    hide ForecastOf;
  }

  lemma IdleWait(w: Worker, f: Forecast)
    requires w.pending == 0 && f.exec.Ms?
    ensures WaitMs(w, f) == 0.0
  {
  }

  // ----- Losing memory pays -----

  lemma DiscountAt3000(cfg: Config, s: State, w: string, req: Request)
    requires cfg.strategy.NLMS? && !cfg.flags.noVramSoft && OnlyWorker(cfg, s, w, 1000, 5000)
    ensures DiscountWins(cfg, s, req, w, 3000) && Rise(FreshNlms(cfg), Tokens(req), 3000) == 0.0
    ensures Nlms.Line(FreshNlms(cfg), Tokens(req)) >= 0.0
  {
    FreshLine(cfg, Tokens(req));
    hide FreshNlms, Nlms.Line, Load, Tokens;
    ZeroTimes(Load(s.workers[w], s.nlms[w].model.avgLatency, cfg.flags));
  }

  /**
    A worker registered with 1000 MB reports 5000 and then 3000 MB: the second reading makes
    it cheaper, for any request below the limit for large ones.
   */
  lemma LosingMemoryPays(cfg: Config, w: string, req: Request)
    requires cfg.strategy.NLMS? && !cfg.flags.noVramSoft && req.tier == "any" && Tokens(req) <= LARGE_REQUEST_TOKENS
    ensures var events := Readings(w, 1000, 5000);
            var before, after := After(cfg, events), After(cfg, events + [VramReading(w, 3000)]);
            && IsRun(cfg, events + [VramReading(w, 3000)])
            && Candidate(cfg, before, req, w) && Candidate(cfg, after, req, w)
            && ScoreOf(cfg, after, req, w).total < ScoreOf(cfg, before, req, w).total
  {
    hide After, IsRun, Consistent, Rise, FreshNlms, DiscountWins, ScoreOf, Readings, Tokens, Nlms.Line;
    AfterReadings(cfg, w, 1000, 5000, 3000);
    var s := After(cfg, Readings(w, 1000, 5000));
    DiscountAt3000(cfg, s, w, req);
    FreshScore(cfg, SetVram(s, w, 3000), req, w, 1000, 3000);
    NlmsWhenLessMemoryPays(cfg, s, req, w, 3000);
  }

  lemma RiseAt1100(cfg: Config, s: State, w: string, req: Request)
    requires cfg.strategy.NLMS? && |req.data| == 4000 && OnlyWorker(cfg, s, w, 1000, 5000)
    ensures Tokens(req) == 1000 && !DiscountWins(cfg, s, req, w, 1100)
    ensures Rise(FreshNlms(cfg), 1000, 1100) <= 10000.0 && Nlms.Line(FreshNlms(cfg), 1000) >= 0.0
  {
    FreshLine(cfg, 1000);
    hide FreshNlms, Nlms.Line, Nlms.Interference;
    assert Rise(s.nlms[w].model, 1000, 1100) == 2150.0 * (1.5 * (2996.0 / 4096.0) - 1.0);
    assert Rise(s.nlms[w].model, 1000, 5000) == 0.0;
    hide Rise;
  }

  /**
    Reporting 1100 MB instead does not, for a request of 1000 tokens: the reading is still
    above the registered memory, but the estimate rises by more than the discount.
   */
  lemma RiseOutweighsDiscount(cfg: Config, w: string, req: Request)
    requires cfg.strategy.NLMS? && !cfg.flags.noVramSoft && |req.data| == 4000 && req.tier == "any"
    ensures var events := Readings(w, 1000, 5000);
            var before, after := After(cfg, events), After(cfg, events + [VramReading(w, 1100)]);
            && IsRun(cfg, events + [VramReading(w, 1100)])
            && Candidate(cfg, before, req, w) && Candidate(cfg, after, req, w)
            && ScoreOf(cfg, after, req, w).total >= ScoreOf(cfg, before, req, w).total
  {
    hide After, IsRun, Consistent, Rise, FreshNlms, DiscountWins, ScoreOf, Readings, Tokens, Nlms.Line;
    AfterReadings(cfg, w, 1000, 5000, 1100);
    var s := After(cfg, Readings(w, 1000, 5000));
    RiseAt1100(cfg, s, w, req);
    FreshScore(cfg, SetVram(s, w, 1100), req, w, 1000, 1100);
    NlmsWhenLessMemoryPays(cfg, s, req, w, 1100);
  }

  // ----- Losing all memory lets a worker in -----

  lemma RiseAt0(cfg: Config, req: Request)
    requires !Frozen(cfg) && |req.data| == 8000
    ensures Tokens(req) == 2000 && Rise(FreshNlms(cfg), 2000, 0) == 2075.0
  {
    FreshLine(cfg, 2000);
    hide FreshNlms, Nlms.Line, Nlms.Interference;
  }

  lemma PenaltyAt0(w: Worker, flags: Flags)
    requires w.vram == 0
    ensures Penalty(w, 24000, flags) == if flags.noVramSoft then 0.0 else 1000.0
  {
  }

  /**
    A worker barred at 1500 MB for a request of 2000 tokens becomes a candidate when it
    reports 0 MB, and takes the request if the SLO allows its cost.
   */
  lemma NoMemoryIsLetIn(cfg: Config, w: string, req: Request)
    requires cfg.strategy.NLMS? && |req.data| == 8000 && req.tier == "any"
    ensures var events := Readings(w, 24000, 1500);
            var before, after := After(cfg, events), After(cfg, events + [VramReading(w, 0)]);
            && IsRun(cfg, events + [VramReading(w, 0)])
            && !Candidate(cfg, before, req, w)
            && Candidate(cfg, after, req, w)
            && (w != "" && (cfg.admissionOff || cfg.sloMs >= 7225.0) ==>
                  ValidChoice(cfg, after, req, Some(w)) && Pick(cfg, after, req, Some(w)).1 == Picked(w))
  {
    hide After, IsRun, Consistent, Rise, FreshNlms, ScoreOf, Readings, Tokens, Nlms.Line, Penalty;
    AfterReadings(cfg, w, 24000, 1500, 0);
    var s, t := After(cfg, Readings(w, 24000, 1500)), After(cfg, Readings(w, 24000, 1500) + [VramReading(w, 0)]);
    RiseAt0(cfg, req);
    PenaltyAt0(t.workers[w], cfg.flags);
    FreshScore(cfg, t, req, w, 24000, 0);
    NlmsWhenLessMemoryAdmits(cfg, s, req, w, 0);
    OnlyChoice(cfg, t, req, w, 24000, 0);
  }

  lemma OnlyChoice(cfg: Config, s: State, req: Request, w: string, registered: int, vram: int)
    requires cfg.strategy.NLMS? && OnlyWorker(cfg, s, w, registered, vram) && Candidate(cfg, s, req, w)
    ensures ValidChoice(cfg, s, req, Some(w))
    ensures w != "" && (cfg.admissionOff || ScoreOf(cfg, s, req, w).total <= cfg.sloMs) ==>
              Pick(cfg, s, req, Some(w)).1 == Picked(w)
  {
    hide ScoreOf, FreshNlms, RecordDecision, PrefixHash;
  }

  // ----- A negative static line -----

  lemma FallAt3000(cfg: Config, s: State, w: string, req: Request)
    requires cfg.strategy.STATIC? && cfg.staticSlope == 0.0 && cfg.staticIntercept == -10.0 && !cfg.flags.noVramSoft
    requires OnlyWorker(cfg, s, w, 24000, 5000)
    ensures Shift(cfg, s, req, w, 3000) >= -10.0 && PenaltyShift(cfg, s, w, 3000) == 875.0
  {
    var e, tokens := s.nlms[w], Tokens(req);
    assert Nlms.Line(e.model, tokens) == -10.0 && Scale(e.model) == 1.0;
    hide Nlms.Line, Scale, Tokens;
    assert Rise(e.model, tokens, 5000) == 0.0;
    assert -10.0 <= Rise(e.model, tokens, 3000);
    assert Load(s.workers[w], e.model.avgLatency, cfg.flags) == 1.0;
    hide Rise, Load;
  }

  /**
    With the penalty on, a negative line need not pay: a static profile at -10 ms, registered
    with 24000 MB, gets dearer when the reading goes from 5000 to 3000 MB.
   */
  lemma PenaltyOutweighsFall(cfg: Config, w: string, req: Request)
    requires cfg.strategy.STATIC? && cfg.staticSlope == 0.0 && cfg.staticIntercept == -10.0 && !cfg.flags.noVramSoft
    requires req.tier == "any" && Tokens(req) <= LARGE_REQUEST_TOKENS
    ensures var events := Readings(w, 24000, 5000);
            var before, after := After(cfg, events), After(cfg, events + [VramReading(w, 3000)]);
            && IsRun(cfg, events + [VramReading(w, 3000)])
            && Candidate(cfg, before, req, w) && Candidate(cfg, after, req, w)
            && !FallWins(cfg, before, req, w, 3000)
            && ScoreOf(cfg, after, req, w).total > ScoreOf(cfg, before, req, w).total
  {
    hide After, IsRun, Consistent, ScoreOf, Readings, FreshNlms, Shift, PenaltyShift, Tokens;
    AfterReadings(cfg, w, 24000, 5000, 3000);
    var s := After(cfg, Readings(w, 24000, 5000));
    FallAt3000(cfg, s, w, req);
    StaticScored(cfg, s, req, w, 24000, 5000);
    StaticScored(cfg, SetVram(s, w, 3000), req, w, 24000, 3000);
    NlmsPrice(cfg, s, req, w, 3000);
  }

  lemma StaticScored(cfg: Config, s: State, req: Request, w: string, registered: int, vram: int)
    requires cfg.strategy.STATIC? && cfg.staticSlope == 0.0 && cfg.staticIntercept == -10.0
    requires OnlyWorker(cfg, s, w, registered, vram) && req.tier == "any" && Tokens(req) <= LARGE_REQUEST_TOKENS
    ensures Candidate(cfg, s, req, w)
  {
    var p, tokens := s.nlms[w].model, Tokens(req);
    assert Nlms.Line(p, tokens) == -10.0;
    BarsOnlyFor(p, tokens, vram);
    EstimateSplits(p, tokens, vram);
    RiseMoves(p, tokens, vram, vram);
    AmpleIs(p, tokens);
    hide Nlms.EstimateOf, Nlms.Line, Rise, Ample, FreshNlms, WaitMs, VramMs, PrefixHash, Tokens;
  }
}
