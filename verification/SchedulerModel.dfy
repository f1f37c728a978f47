/**
  The scheduler as a state machine on values: registration, picking, feedback, cancellation,
  memory readings and resets. Which worker a pick settles on may depend on map iteration
  order, so a pick is a step for any choice that the strategy allows.
 */
module SchedulerModel {
  import opened Constants
  import opened RealArith
  import opened Cost
  import Nlms
  import Rls
  import opened PredictionHistory
  import opened Windows
  import opened Wrappers
  import RetryAfter

  datatype Strategy = NLMS | RLS | STATIC | RoundRobin | LeastLoaded | LatencyBased | Session | Other(name: string)

  /** Everything fixed by the environment before the scheduler starts. */
  datatype Config = Config(
    strategy: Strategy,
    single: bool,
    nlmsMode: string,
    flags: Flags,
    sloMs: real,
    admissionOff: bool,
    staticSlope: real,
    staticIntercept: real,
    fnv: seq<Byte> -> Hash,
    floatOverflow: RetryAfter.Int64)

  datatype NlmsEntry = NlmsEntry(tier: string, totalVram: int, model: Nlms.Predictor)

  datatype RlsEntry = RlsEntry(tier: string, totalVram: int, model: Rls.Model)

  datatype Stats = Stats(
    admitted: nat,
    rejectedSlo: nat,
    rejectedVram: nat,
    rejectedNoWorker: nat,
    completedUnder: nat,
    completedOver: nat,
    completedTotal: nat,
    sumE2eMs: int,
    sumPredictedMs: int)

  const NO_STATS := Stats(0, 0, 0, 0, 0, 0, 0, 0, 0)

  datatype State = State(
    workers: map<string, Worker>,
    nlms: map<string, NlmsEntry>,
    rls: map<string, RlsEntry>,
    prefixCache: map<Hash, string>,
    lastDecision: Option<Decision>,
    log: seq<Decision>,
    stats: Stats,
    history: seq<PredSample>,
    lastMinScore: Option<real>)

  const EMPTY := State(map[], map[], map[], map[], None, [], NO_STATS, [], Some(0.0))

  // ----- Registration -----

  predicate Frozen(cfg: Config) {
    cfg.strategy == STATIC
  }

  function FreshNlms(cfg: Config): Nlms.Predictor {
    if Frozen(cfg) then Nlms.Registered(cfg.staticSlope, cfg.staticIntercept, false, true)
    else Nlms.Registered(INITIAL_SLOPE, INITIAL_INTERCEPT, !cfg.single, false)
  }

  function Register(cfg: Config, s: State, id: string, tier: string, vramMb: int): (s': State)
    ensures WellFormed(s) ==> WellFormed(s')
  {
    var vram := if vramMb <= 0 then DEFAULT_VRAM_MB else vramMb;
    s.(workers := s.workers[id := Worker(id, true, vram, 0)],
       nlms := s.nlms[id := NlmsEntry(tier, vram, FreshNlms(cfg))],
       rls := s.rls[id := RlsEntry(tier, vram, Rls.INITIAL)])
  }

  // ----- Picking -----

  predicate Predictive(strategy: Strategy) {
    strategy.NLMS? || strategy.RLS? || strategy.STATIC? || strategy.Other?
  }

  /** Every learning predictor is in a state its updates can reach. */
  predicate WellFormed(s: State) {
    forall id <- s.nlms :: s.nlms[id].model.histIdx < 3 == |s.nlms[id].model.interference|
  }

  predicate Known(cfg: Config, s: State, id: string) {
    id in s.workers && s.workers[id].healthy && if cfg.strategy.RLS? then id in s.rls else id in s.nlms
  }

  function ForecastOf(cfg: Config, s: State, req: Request, id: string): Forecast
    requires WellFormed(s) && Known(cfg, s, id)
  {
    var tokens, vram := Tokens(req), s.workers[id].vram;
    if cfg.strategy.RLS? then
      var e := s.rls[id];
      Forecast(Rls.EstimateOf(e.model, tokens, vram), e.model.avgLatency, e.tier, e.totalVram)
    else
      var e := s.nlms[id];
      Forecast(Nlms.EstimateOf(e.model, tokens, vram), e.model.avgLatency, e.tier, e.totalVram)
  }

  function ScoreOf(cfg: Config, s: State, req: Request, id: string): Score
    requires WellFormed(s) && Known(cfg, s, id)
  {
    ComputeWorkerScore(req, s.workers[id], ForecastOf(cfg, s, req, id), s.prefixCache, PrefixHash(cfg.fnv, req.data),
      cfg.flags)
  }

  /** A worker the cost model can consider for this request. */
  predicate Candidate(cfg: Config, s: State, req: Request, id: string)
    requires WellFormed(s)
  {
    Known(cfg, s, id) && ScoreOf(cfg, s, req, id).Scored?
  }

  predicate Healthy(s: State, id: string) {
    id in s.workers && s.workers[id].healthy
  }

  /** Average latency as LatencyBased compares it. */
  function RoutingLatency(s: State, id: string): real
    requires id in s.nlms
  {
    if s.nlms[id].model.avgLatency == 0.0 then 0.1 else s.nlms[id].model.avgLatency
  }

  /** The workers a strategy looks at. */
  predicate Eligible(cfg: Config, s: State, req: Request, id: string)
    requires WellFormed(s)
  {
    if Predictive(cfg.strategy) then Candidate(cfg, s, req, id)
    else if cfg.strategy.LatencyBased? then Healthy(s, id) && id in s.nlms
    else Healthy(s, id)
  }

  /** a is at least as good as b for the strategy; RoundRobin and Session have no preference. */
  predicate AtLeastAsGood(cfg: Config, s: State, req: Request, a: string, b: string)
    requires WellFormed(s) && Eligible(cfg, s, req, a) && Eligible(cfg, s, req, b)
  {
    if Predictive(cfg.strategy) then ScoreOf(cfg, s, req, a).total <= ScoreOf(cfg, s, req, b).total
    else if cfg.strategy.LatencyBased? then RoutingLatency(s, a) <= RoutingLatency(s, b)
    else if cfg.strategy.LeastLoaded? then s.workers[a].pending <= s.workers[b].pending
    else true
  }

  /** What the selection loop may settle on, for some order of the worker map. */
  ghost predicate ValidChoice(cfg: Config, s: State, req: Request, choice: Option<string>)
    requires WellFormed(s)
  {
    match choice
    case None => forall id :: !Eligible(cfg, s, req, id)
    case Some(id) =>
      && Eligible(cfg, s, req, id)
      && forall other :: Eligible(cfg, s, req, other) ==> AtLeastAsGood(cfg, s, req, id, other)
  }

  datatype PickResult = Picked(id: string) | Refused(err: RetryAfter.AdmissionError) | NoWorker

  function RecordDecision(s: State, d: Decision): State {
    s.(lastDecision := Some(d), log := LastN(s.log + [d], DECISION_LOG_CAP))
  }

  predicate SloGated(cfg: Config) {
    !cfg.admissionOff && (cfg.strategy.NLMS? || cfg.strategy.RLS? || cfg.strategy.STATIC?)
  }

  const VRAM_RETRY_MS := 5000.0

  datatype Reason = OverloadedEverywhere | SloExceeded

  function ReasonText(r: Reason): string {
    match r
    case OverloadedEverywhere => "all workers exceed SLO or VRAM capacity"
    case SloExceeded => "predicted latency exceeds SLO"
  }

  function Refuse(cfg: Config, retryMs: real, reason: Reason): PickResult {
    Refused(RetryAfter.NewAdmissionError(retryMs, ReasonText(reason), cfg.floatOverflow))
  }

  /** The refusal path for an empty worker id: no choice at all, or the worker registered under "". */
  function RefuseEmpty(cfg: Config, s: State, min: Option<real>): (State, PickResult) {
    if !cfg.admissionOff && min.Some? && (min.value >= UNUSABLE_MS || min.value > cfg.sloMs) then
      if min.value >= UNUSABLE_MS then
        (s.(stats := s.stats.(rejectedVram := s.stats.rejectedVram + 1)),
         Refuse(cfg, VRAM_RETRY_MS, OverloadedEverywhere))
      else
        (s.(stats := s.stats.(rejectedSlo := s.stats.rejectedSlo + 1)),
         Refuse(cfg, min.value, OverloadedEverywhere))
    else
      (s.(stats := s.stats.(rejectedNoWorker := s.stats.rejectedNoWorker + 1)), NoWorker)
  }

  function Admit(cfg: Config, s: State, req: Request, id: string): (State, PickResult) {
    if id in s.workers then
      var w := s.workers[id];
      (s.(workers := s.workers[id := w.(pending := w.pending + 1)],
          prefixCache := s.prefixCache[PrefixHash(cfg.fnv, req.data) := id],
          stats := s.stats.(admitted := s.stats.admitted + 1)),
       Picked(id))
    else (s, Picked(id))
  }

  /** The minimum score the selection reports; none stands for the largest float. */
  function MinScore(cfg: Config, s: State, req: Request, choice: Option<string>): Option<real>
    requires WellFormed(s) && (choice.Some? ==> Eligible(cfg, s, req, choice.value))
  {
    if Predictive(cfg.strategy) && choice.Some? then Some(ScoreOf(cfg, s, req, choice.value).total) else None
  }

  /** The breakdown the selection reports for its choice. */
  function BreakdownOf(cfg: Config, s: State, req: Request, choice: Option<string>): Option<Decision>
    requires WellFormed(s) && (choice.Some? ==> Eligible(cfg, s, req, choice.value))
  {
    if Predictive(cfg.strategy) && choice.Some? then Some(ScoreOf(cfg, s, req, choice.value).breakdown) else None
  }

  /** Everything after the selection: log the decision, apply the admission rule, take the work on. */
  function Settle(cfg: Config, s: State, req: Request, best: string, min: Option<real>,
                  breakdown: Option<Decision>): (r: (State, PickResult))
    ensures r.0.nlms == s.nlms && r.0.rls == s.rls
  {
    var s1 := if best != "" && breakdown.Some? then RecordDecision(s, breakdown.value) else s;
    var s2 := s1.(lastMinScore := min);
    if best == "" then RefuseEmpty(cfg, s2, min)
    else if SloGated(cfg) && min.Some? && min.value > cfg.sloMs then
      (s2.(stats := s2.stats.(rejectedSlo := s2.stats.rejectedSlo + 1)),
       Refuse(cfg, min.value, SloExceeded))
    else Admit(cfg, s2, req, best)
  }

  function Pick(cfg: Config, s: State, req: Request, choice: Option<string>): (r: (State, PickResult))
    requires WellFormed(s) && (choice.Some? ==> Eligible(cfg, s, req, choice.value))
    ensures r.0.nlms == s.nlms && r.0.rls == s.rls
  {
    if cfg.strategy.RoundRobin? && choice.None? then (s, NoWorker)
    else Settle(cfg, s, req, if choice.Some? then choice.value else "", MinScore(cfg, s, req, choice),
      BreakdownOf(cfg, s, req, choice))
  }

  // ----- Feedback and the rest -----

  function WorkerVram(s: State, id: string): int {
    if id in s.workers then s.workers[id].vram else UNKNOWN_WORKER_VRAM_MB
  }

  function ModeOf(p: Nlms.Predictor): Mode {
    if p.frozen then Mode.Frozen else if p.dual then Dual else Single
  }

  /** The prediction a completion is measured against, before the predictor learns from it. */
  function PriorPrediction(s: State, id: string, tokens: int): real {
    if id in s.nlms then Nlms.Line(s.nlms[id].model, tokens) else 0.0
  }

  function SampleOf(cfg: Config, s: State, id: string, e2eMs: real, tokens: int): PredSample
    requires WellFormed(s)
  {
    var predicted := PriorPrediction(s, id, tokens);
    var absErr := Abs(e2eMs - predicted);
    var after := if id in s.nlms then Some(Nlms.Step(s.nlms[id].model,
      Nlms.Observation(e2eMs, tokens, WorkerVram(s, id)))) else None;
    PredSample(id, tokens, predicted, e2eMs, absErr, absErr / Max(e2eMs, 1.0),
               if after.Some? then after.value.fast else 0.0,
               if after.Some? then after.value.slow else 0.0,
               if after.Some? then ModeOf(after.value) else Configured(cfg.nlmsMode))
  }

  predicate Recordable(predicted: real) {
    0.0 < predicted < UNUSABLE_MS
  }

  function RecordCompletion(cfg: Config, st: Stats, e2eMs: real, predictedMs: real): Stats {
    st.(completedTotal := st.completedTotal + 1,
        sumE2eMs := if e2eMs > 0.0 then st.sumE2eMs + e2eMs.Floor else st.sumE2eMs,
        sumPredictedMs := if predictedMs > 0.0 then st.sumPredictedMs + predictedMs.Floor else st.sumPredictedMs,
        completedUnder := if 0.0 < e2eMs <= cfg.sloMs then st.completedUnder + 1 else st.completedUnder,
        completedOver := if e2eMs > 0.0 && e2eMs > cfg.sloMs then st.completedOver + 1 else st.completedOver)
  }

  function Learn(cfg: Config, s: State, id: string, e2eMs: real, tokens: int): (s': State)
    requires WellFormed(s)
    ensures WellFormed(s')
  {
    var predicted := PriorPrediction(s, id, tokens);
    var o := Nlms.Observation(e2eMs, tokens, WorkerVram(s, id));
    s.(nlms := if id in s.nlms then s.nlms[id := s.nlms[id].(model := Nlms.Step(s.nlms[id].model, o))] else s.nlms,
       rls := if id in s.rls then s.rls[id :=
         s.rls[id].(model := Rls.Step(s.rls[id].model, Rls.Sample(e2eMs, tokens)))] else s.rls,
       history := if Recordable(predicted) then s.history + [SampleOf(cfg, s, id, e2eMs, tokens)] else s.history,
       stats := RecordCompletion(cfg, s.stats, e2eMs, predicted))
  }

  /** One unit of work off a worker, if it has any. */
  function Complete(s: State, id: string): (s': State)
    ensures s'.nlms == s.nlms && s'.rls == s.rls
  {
    if id in s.workers && s.workers[id].pending > 0 then
      s.(workers := s.workers[id := s.workers[id].(pending := s.workers[id].pending - 1)])
    else s
  }

  /** A failed request reports a non-positive latency: nothing is learned, but the work is gone. */
  function Feedback(cfg: Config, s: State, id: string, e2eMs: real, tokens: int): (s': State)
    requires WellFormed(s)
    ensures WellFormed(s')
  {
    Complete(if e2eMs > 0.0 then Learn(cfg, s, id, e2eMs, tokens) else s, id)
  }

  function SetVram(s: State, id: string, freeMb: int): (s': State)
    ensures s'.nlms == s.nlms && s'.rls == s.rls
  {
    if id in s.workers then s.(workers := s.workers[id := s.workers[id].(vram := freeMb)]) else s
  }

  function ResetWorker(s: State, id: string): (s': State)
    ensures WellFormed(s) ==> WellFormed(s')
  {
    s.(nlms := if id in s.nlms then s.nlms[id := s.nlms[id].(model := Nlms.Reset(s.nlms[id].model))] else s.nlms,
       rls := if id in s.rls then s.rls[id := s.rls[id].(model := Rls.Reset(s.rls[id].model))] else s.rls)
  }

  function ResetStats(s: State): State {
    s.(stats := NO_STATS, history := [])
  }
}
