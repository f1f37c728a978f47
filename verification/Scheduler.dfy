/**
  The scheduler as the source keeps it: maps from worker ids to mutable records, updated in
  place. Each method is one step of the model on the abstract state `View()`; a loop over
  the worker map takes its ids in an arbitrary order.
 */
module Scheduler {
  import opened Constants
  import opened RealArith
  import opened Cost
  import opened SchedulerModel
  import opened SchedulerObjects
  import opened SchedulerRuns
  import opened NlmsPredictor
  import opened RlsPredictor
  import opened PredictionHistory
  import opened Wrappers
  import Balance
  import MapSums
  import Nlms
  import Rls

  class Scheduler {
    const cfg: Config
    var workers: map<string, WorkerRecord>
    var predictors: map<string, PerWorkerPredictor>
    var rlsPredictors: map<string, PerWorkerRLSPredictor>
    var prefixCache: map<Hash, string>
    var lastDecision: Option<Decision>
    var decisionLog: seq<Decision>
    var admission: AdmissionStats
    var predHistory: PredHistory
    var lastMinScore: Option<real>
    var rrIndex: nat
    var statsHistory: map<string, seq<DetailedMetrics>>
    ghost var trace: seq<Event>

    /** No record is shared between two ids. */
    ghost predicate OwnWorkers()
      reads `workers
    {
      forall a, b :: a in workers && b in workers && a != b ==> workers[a] != workers[b]
    }

    ghost predicate OwnPredictors()
      reads `predictors
    {
      forall a, b :: a in predictors && b in predictors && a != b ==> predictors[a] != predictors[b]
    }

    ghost predicate OwnRlsPredictors()
      reads `rlsPredictors
    {
      forall a, b :: a in rlsPredictors && b in rlsPredictors && a != b ==> rlsPredictors[a] != rlsPredictors[b]
    }

    ghost predicate Ready()
      reads `predictors, predictors.Values
    {
      forall id :: id in predictors ==> predictors[id].Valid()
    }

    ghost predicate Valid()
      reads `workers, `predictors, `rlsPredictors, `predHistory, predictors.Values, predHistory
    {
      && OwnWorkers() && OwnPredictors() && OwnRlsPredictors()
      && Ready() && predHistory.Valid() && predHistory.max == PRED_HISTORY_CAP
    }

    ghost function Workers(): map<string, Worker>
      reads `workers, workers.Values
    {
      map id | id in workers :: workers[id].View()
    }

    ghost function NlmsEntries(): map<string, NlmsEntry>
      reads `predictors, predictors.Values
    {
      map id | id in predictors :: NlmsEntry(predictors[id].tier, predictors[id].totalVram, predictors[id].View())
    }

    ghost function RlsEntries(): map<string, RlsEntry>
      reads `rlsPredictors, rlsPredictors.Values
    {
      map id | id in rlsPredictors :: RlsEntry(rlsPredictors[id].tier, rlsPredictors[id].totalVram,
        rlsPredictors[id].View())
    }

    ghost function View(): State
      reads `workers, `predictors, `rlsPredictors, `prefixCache, `lastDecision, `decisionLog, `admission, `predHistory,
            `lastMinScore
      reads workers.Values, predictors.Values, rlsPredictors.Values, admission, predHistory
    {
      State(Workers(), NlmsEntries(), RlsEntries(), prefixCache, lastDecision, decisionLog,
            admission.View(), predHistory.added, lastMinScore)
    }

    /** The state is what the model reaches on the calls made so far, so every theorem about runs applies to it. */
    ghost predicate Reached()
      reads `workers, `predictors, `rlsPredictors, `prefixCache, `lastDecision, `decisionLog, `admission, `predHistory,
            `lastMinScore, `trace
      reads workers.Values, predictors.Values, rlsPredictors.Values, admission, predHistory
    {
      IsRun(cfg, trace) && After(cfg, trace) == View()
    }

    ghost method Trace(ev: Event, before: State)
      requires IsRun(cfg, trace) && After(cfg, trace) == before
      requires Possible(cfg, before, ev) && Usable(cfg, before, ev) && View() == Apply(cfg, before, ev)
      modifies `trace
      ensures Reached() && trace == old(trace) + [ev]
    {
      hide View, IsRun, After, Possible, Usable, Apply;
      RunExtends(cfg, trace, ev);
      trace := trace + [ev];
    }

    constructor (cfg: Config)
      ensures Valid() && Reached() && trace == [] && statsHistory == map[] && this.cfg == cfg
    {
      this.cfg := cfg;
      workers, predictors, rlsPredictors, prefixCache := map[], map[], map[], map[];
      lastDecision, decisionLog, lastMinScore, rrIndex := None, [], Some(0.0), 0;
      trace, statsHistory := [], map[];
      admission := new AdmissionStats();
      predHistory := new PredHistory(PRED_HISTORY_CAP);
    }

    // ----- Registration -----

    /** An unnamed engine is recorded as the default one. */
    function EngineName(engineType: string): string {
      if engineType == "" then "hf" else engineType
    }

    method RegisterWorkerWithEngine(id: string, address: string, tier: string, vramMb: int, engineType: string)
      requires Valid() && Reached()
      modifies `workers, `predictors, `rlsPredictors, `trace
      ensures Valid() && Reached() && trace == old(trace) + [RegisterWorker(id, tier, vramMb)]
      ensures View() == Register(cfg, old(View()), id, tier, vramMb)
      ensures workers.Keys == old(workers.Keys) + {id} && workers[id].address == address
      ensures workers[id].engineType == EngineName(engineType)
      ensures forall other :: other in old(workers) && other != id ==> workers[other] == old(workers)[other]
    {
      hide IsRun, After, View, Register, Pick, SetVram, SchedulerModel.Feedback, Complete, ResetStats, Eligible;
      hide ResetWorker, Valid;
      AddRecords(id, address, tier, vramMb, EngineName(engineType));
      Trace(RegisterWorker(id, tier, vramMb), old(View()));
    }

    /** Fresh records for an id, whether or not it had some already. */
    method AddRecords(id: string, address: string, tier: string, vramMb: int, engineType: string)
      requires Valid()
      modifies `workers, `predictors, `rlsPredictors
      ensures Valid() && View() == Register(cfg, old(View()), id, tier, vramMb)
      ensures id in workers && workers == old(workers)[id := workers[id]]
      ensures workers[id].address == address && workers[id].engineType == engineType
    {
      hide Workers, NlmsEntries, RlsEntries, OwnWorkers, OwnPredictors, OwnRlsPredictors, Ready, FreshNlms;
      hide WellFormed, PredHistory.Valid, AdmissionStats.View;
      var vram := if vramMb <= 0 then DEFAULT_VRAM_MB else vramMb;
      NewWorker(id, address, vram, engineType);
      NewPredictor(id, tier, vram);
      NewRlsPredictor(id, tier, vram);
    }

    method NewWorker(id: string, address: string, vramMb: int, engineType: string)
      requires OwnWorkers()
      modifies `workers
      ensures id in workers && workers == old(workers)[id := workers[id]]
      ensures workers[id].address == address && workers[id].engineType == engineType
      ensures OwnWorkers() && Workers() == old(Workers())[id := Worker(id, true, vramMb, 0)]
    {
      var w := new WorkerRecord(id, address, vramMb, engineType);
      workers := workers[id := w];
    }

    method NewPredictor(id: string, tier: string, vramMb: int)
      requires OwnPredictors() && Ready()
      modifies `predictors
      ensures OwnPredictors() && Ready()
      ensures NlmsEntries() == old(NlmsEntries())[id := NlmsEntry(tier, vramMb, FreshNlms(cfg))]
    {
      var useDual := !cfg.single;
      var frozen := cfg.strategy == STATIC;
      var slope, intercept := INITIAL_SLOPE, INITIAL_INTERCEPT;
      if frozen {
        slope, intercept := cfg.staticSlope, cfg.staticIntercept;
      }
      var p := new PerWorkerPredictor(tier, vramMb, slope, intercept, useDual && !frozen, frozen);
      assert p.View() == FreshNlms(cfg);
      hide FreshNlms, Nlms.Registered;
      predictors := predictors[id := p];
    }

    method NewRlsPredictor(id: string, tier: string, vramMb: int)
      requires OwnRlsPredictors()
      modifies `rlsPredictors
      ensures OwnRlsPredictors() && RlsEntries() == old(RlsEntries())[id := RlsEntry(tier, vramMb, Rls.INITIAL)]
    {
      var r := new PerWorkerRLSPredictor(tier, vramMb);
      rlsPredictors := rlsPredictors[id := r];
    }

    // ----- Selection -----

    lemma ViewIsWellFormed()
      requires Valid()
      ensures WellFormed(View())
    {
    }

    /** The joint cost of one worker, unless it is unhealthy or has no predictor. */
    method ScoreWorker(req: Request, id: string, useRls: bool) returns (known: bool, score: Score)
      requires Valid() && WellFormed(View()) && id in workers && useRls == cfg.strategy.RLS?
      ensures known == Known(cfg, View(), id)
      ensures known ==> score == ScoreOf(cfg, View(), req, id)
    {
      var w := workers[id];
      var exec, avg, tier, totalVram := Unusable, 0.0, "", 0;
      known, score := w.healthy, Blocked;
      if useRls {
        known := known && id in rlsPredictors;
        if known {
          exec, avg := rlsPredictors[id].Predict(Tokens(req), w.lastKnownVram);
          tier, totalVram := rlsPredictors[id].tier, rlsPredictors[id].totalVram;
        }
      } else {
        known := known && id in predictors;
        if known {
          exec, avg := predictors[id].Predict(Tokens(req), w.lastKnownVram);
          tier, totalVram := predictors[id].tier, predictors[id].totalVram;
        }
      }
      hide ComputeWorkerScore, Rls.EstimateOf, Nlms.EstimateOf, Tokens, PrefixHash;
      if known {
        score := ComputeWorkerScore(req, w.View(), Forecast(exec, avg, tier, totalVram), prefixCache,
          PrefixHash(cfg.fnv, req.data), cfg.flags);
      }
    }

    /** The cheapest worker the cost model allows, with its cost and breakdown. */
    method PickPredictive(req: Request, useRls: bool)
      returns (minScore: Option<real>, best: Option<Decision>, choice: Option<string>)
      requires Valid() && WellFormed(View()) && useRls == cfg.strategy.RLS? && Predictive(cfg.strategy)
      ensures ValidChoice(cfg, View(), req, choice)
      ensures minScore == MinScore(cfg, View(), req, choice) && best == BreakdownOf(cfg, View(), req, choice)
    {
      hide ScoreOf, Known, Valid, WellFormed, NlmsEntries, RlsEntries;
      ghost var s := View();
      minScore, best, choice := None, None, None;
      var remaining := workers.Keys;
      while remaining != {}
        invariant remaining <= workers.Keys
        invariant choice.Some? ==> Eligible(cfg, s, req, choice.value)
        invariant minScore == MinScore(cfg, s, req, choice) && best == BreakdownOf(cfg, s, req, choice)
        invariant forall id :: id in workers && id !in remaining && Candidate(cfg, s, req, id)
                    ==> choice.Some? && ScoreOf(cfg, s, req, choice.value).total <= ScoreOf(cfg, s, req, id).total
      {
        var id :| id in remaining;
        remaining := remaining - {id};
        var known, score := ScoreWorker(req, id, useRls);
        if known && score.Scored? && (minScore.None? || score.total < minScore.value) {
          minScore, best, choice := Some(score.total), Some(score.breakdown), Some(id);
        }
      }
      assert forall id :: Candidate(cfg, s, req, id) ==> id in workers by {
        KnownAreRegistered(req);
      }
    }

    lemma KnownAreRegistered(req: Request)
      requires WellFormed(View())
      ensures forall id :: Candidate(cfg, View(), req, id) ==> id in workers
    {
      hide ScoreOf;
    }

    method PickLeastLoaded(req: Request) returns (choice: Option<string>)
      requires WellFormed(View()) && cfg.strategy.LeastLoaded?
      ensures ValidChoice(cfg, View(), req, choice)
    {
      hide WellFormed;
      choice := None;
      var minTasks: Option<int> := None;
      var remaining := workers.Keys;
      while remaining != {}
        invariant remaining <= workers.Keys
        invariant choice.Some? ==> choice.value in workers && workers[choice.value].healthy
        invariant minTasks == if choice.Some? then Some(workers[choice.value].pendingTasks) else None
        invariant forall id :: id in workers && id !in remaining && workers[id].healthy
                    ==> choice.Some? && workers[choice.value].pendingTasks <= workers[id].pendingTasks
      {
        var id :| id in remaining;
        remaining := remaining - {id};
        var w := workers[id];
        if w.healthy && (minTasks.None? || w.pendingTasks < minTasks.value) {
          minTasks, choice := Some(w.pendingTasks), Some(id);
        }
      }
    }

    method PickLatencyBased(req: Request) returns (choice: Option<string>)
      requires WellFormed(View()) && cfg.strategy.LatencyBased?
      ensures ValidChoice(cfg, View(), req, choice)
    {
      hide WellFormed;
      ghost var s := View();
      choice := None;
      var minLat: Option<real> := None;
      var remaining := workers.Keys;
      while remaining != {}
        invariant remaining <= workers.Keys
        invariant choice.Some? ==> Eligible(cfg, s, req, choice.value)
        invariant minLat == if choice.Some? then Some(RoutingLatency(s, choice.value)) else None
        invariant forall id :: id !in remaining && Eligible(cfg, s, req, id)
                    ==> choice.Some? && RoutingLatency(s, choice.value) <= RoutingLatency(s, id)
      {
        var id :| id in remaining;
        remaining := remaining - {id};
        if workers[id].healthy && id in predictors {
          var lat := predictors[id].averageLatency;
          if lat == 0.0 {
            lat := 0.1;
          }
          if minLat.None? || lat < minLat.value {
            minLat, choice := Some(lat), Some(id);
          }
        }
      }
    }

    /** The healthy workers, each once, in map order. */
    method HealthyWorkerIds() returns (out: seq<string>)
      ensures forall id :: id in out <==> id in workers && workers[id].healthy
      ensures forall i, j :: 0 <= i < j < |out| ==> out[i] != out[j]
    {
      out := [];
      var remaining := workers.Keys;
      while remaining != {}
        invariant remaining <= workers.Keys
        invariant forall id :: id in out <==> id in workers && id !in remaining && workers[id].healthy
        invariant forall i, j :: 0 <= i < j < |out| ==> out[i] != out[j]
      {
        var id :| id in remaining;
        remaining := remaining - {id};
        if workers[id].healthy {
          out := out + [id];
        }
      }
    }

    /** The healthy worker at position n of the map order, wrapping around. */
    method ChooseHealthy(req: Request, n: nat) returns (choice: Option<string>)
      requires WellFormed(View()) && (cfg.strategy.RoundRobin? || cfg.strategy.Session?)
      ensures ValidChoice(cfg, View(), req, choice)
    {
      hide WellFormed;
      choice := None;
      var ids := HealthyWorkerIds();
      if ids != [] {
        choice := Some(ids[n % |ids|]);
        assert choice.value in ids;
      }
    }

    /** The 64-bit round-robin counter after one more pick. */
    function NextTurn(): nat
      reads `rrIndex
    {
      (rrIndex + 1) % 0x1_0000_0000_0000_0000
    }

    // ----- Picking -----

    method PickBestWorker(req: Request) returns (result: PickResult, choice: Option<string>)
      requires Valid() && Reached()
      modifies this, workers.Values, admission
      ensures Valid() && Reached() && trace == old(trace) + [PickWorker(req, choice)]
      ensures WellFormed(old(View()))
      ensures ValidChoice(cfg, old(View()), req, choice)
      ensures (View(), result) == Pick(cfg, old(View()), req, choice)
      ensures workers == old(workers) && statsHistory == old(statsHistory)
    {
      hide IsRun, After;
      hide Valid, View, Workers, NlmsEntries, RlsEntries, OwnWorkers, OwnPredictors, OwnRlsPredictors, Ready;
      hide WellFormed, ValidChoice, Eligible, MinScore, BreakdownOf, Settle, NextTurn;
      ViewIsWellFormed();
      ChoiceIsEligible(req);
      var minScore, best;
      minScore, best, choice := Select(req);
      if cfg.strategy.RoundRobin? && choice.None? {
        result := NoWorker;
      } else {
        if cfg.strategy.RoundRobin? {
          rrIndex := NextTurn();
        }
        result := Conclude(req, if choice.Some? then choice.value else "", minScore, best);
      }
      Trace(PickWorker(req, choice), old(View()));
    }

    lemma ChoiceIsEligible(req: Request)
      requires WellFormed(View())
      ensures forall choice :: ValidChoice(cfg, View(), req, choice) && choice.Some? ==>
                Eligible(cfg, View(), req, choice.value)
    {
      hide Eligible;
    }

    /** What the strategy settles on, before any admission rule. */
    method Select(req: Request)
      returns (minScore: Option<real>, best: Option<Decision>, choice: Option<string>)
      requires Valid() && WellFormed(View())
      ensures ValidChoice(cfg, View(), req, choice) && (choice.Some? ==> Eligible(cfg, View(), req, choice.value))
      ensures minScore == MinScore(cfg, View(), req, choice) && best == BreakdownOf(cfg, View(), req, choice)
    {
      hide Valid, View, WellFormed, Eligible, ScoreOf, AtLeastAsGood;
      minScore, best := None, None;
      match cfg.strategy {
        case RoundRobin =>
          choice := ChooseHealthy(req, NextTurn());
        case Session =>
          choice := ChooseHealthy(req, cfg.fnv(req.data));
        case LeastLoaded =>
          choice := PickLeastLoaded(req);
        case LatencyBased =>
          choice := PickLatencyBased(req);
        case RLS =>
          minScore, best, choice := PickPredictive(req, true);
        case _ =>
          minScore, best, choice := PickPredictive(req, false);
      }
    }

    /** Log the decision, then apply the admission rule. */
    method Conclude(req: Request, bestId: string, minScore: Option<real>, best: Option<Decision>)
      returns (result: PickResult)
      requires Valid()
      modifies `lastDecision, `decisionLog, `lastMinScore, `prefixCache, workers.Values, admission
      ensures Valid() && (View(), result) == Settle(cfg, old(View()), req, bestId, minScore, best)
    {
      hide View, Workers, NlmsEntries, RlsEntries, Valid, RecordDecision, Admit, Refuse, SchedulerModel.RefuseEmpty;
      LogDecision(bestId, minScore, best);
      if bestId == "" {
        result := RefuseEmpty(minScore);
      } else if SloGated(cfg) && minScore.Some? && minScore.value > cfg.sloMs {
        CountSloRefusal();
        result := Refuse(cfg, minScore.value, SloExceeded);
      } else {
        TakeOn(req, bestId);
        result := Picked(bestId);
      }
    }

    method LogDecision(bestId: string, minScore: Option<real>, best: Option<Decision>)
      requires Valid()
      modifies `lastDecision, `decisionLog, `lastMinScore
      ensures Valid()
      ensures var s := if bestId != "" && best.Some? then RecordDecision(old(View()), best.value) else old(View());
              View() == s.(lastMinScore := minScore)
    {
      hide Workers, NlmsEntries, RlsEntries, Valid;
      if bestId != "" && best.Some? {
        lastDecision := best;
        decisionLog := decisionLog + [best.value];
        if |decisionLog| > DECISION_LOG_CAP {
          decisionLog := decisionLog[|decisionLog| - DECISION_LOG_CAP..];
        }
      }
      lastMinScore := minScore;
    }

    method CountSloRefusal()
      requires Valid()
      modifies admission
      ensures Valid() && View() == var s := old(View()); s.(stats := s.stats.(rejectedSlo := s.stats.rejectedSlo + 1))
    {
      hide Workers, NlmsEntries, RlsEntries, Valid;
      admission.RecordRejectSlo();
    }

    method RefuseEmpty(minScore: Option<real>) returns (result: PickResult)
      requires Valid()
      modifies admission
      ensures Valid() && (View(), result) == SchedulerModel.RefuseEmpty(cfg, old(View()), minScore)
    {
      hide Workers, NlmsEntries, RlsEntries, Valid, Refuse;
      if !cfg.admissionOff && minScore.Some? && (minScore.value >= UNUSABLE_MS || minScore.value > cfg.sloMs) {
        if minScore.value >= UNUSABLE_MS {
          admission.RecordRejectVram();
          return Refuse(cfg, VRAM_RETRY_MS, OverloadedEverywhere);
        }
        admission.RecordRejectSlo();
        return Refuse(cfg, minScore.value, OverloadedEverywhere);
      }
      admission.RecordRejectNoWorker();
      return NoWorker;
    }

    method TakeOn(req: Request, id: string)
      requires Valid()
      modifies `prefixCache, workers.Values, admission
      ensures Valid() && (View(), Picked(id)) == Admit(cfg, old(View()), req, id)
    {
      hide Workers, NlmsEntries, RlsEntries, OwnWorkers, OwnPredictors, OwnRlsPredictors, Ready, PrefixHash;
      hide PredHistory.Valid;
      SameKeys();
      if id in workers {
        AddPending(id, 1);
        prefixCache := prefixCache[PrefixHash(cfg.fnv, req.data) := id];
        admission.RecordAdmit();
      }
    }

    method AddPending(id: string, delta: int)
      requires OwnWorkers() && id in workers
      modifies workers[id]
      ensures var w := old(Workers())[id];
              Workers() == old(Workers())[id := w.(pending := w.pending + delta)]
    {
      var w := workers[id];
      w.pendingTasks := w.pendingTasks + delta;
    }

    // ----- Feedback, cancellation, readings and resets -----

    /** One unit of work off a worker, if it has any. */
    method Release(id: string)
      requires Valid()
      modifies workers.Values
      ensures Valid() && View() == Complete(old(View()), id)
    {
      hide NlmsEntries, RlsEntries, Ready;
      if id in workers && workers[id].pendingTasks > 0 {
        AddPending(id, -1);
      }
    }

    lemma SameKeys()
      ensures Workers().Keys == workers.Keys
      ensures NlmsEntries().Keys == predictors.Keys
      ensures RlsEntries().Keys == rlsPredictors.Keys
    {
    }

    /** The measurements kept for a worker. */
    function MetricsOf(id: string): seq<DetailedMetrics>
      reads `statsHistory
    {
      if id in statsHistory then statsHistory[id] else []
    }

    /** A completion: learn from its latency if it has one, then release the work. */
    method FeedbackLoop(id: string, metrics: DetailedMetrics, tokens: int)
      requires Valid() && Reached()
      modifies `trace, `statsHistory, workers.Values, predictors.Values, rlsPredictors.Values, admission, predHistory
      ensures Valid() && Reached() && trace == old(trace) + [FeedbackFor(id, metrics.e2eMs, tokens)]
      ensures WellFormed(old(View()))
      ensures View() == Feedback(cfg, old(View()), id, metrics.e2eMs, tokens)
      ensures statsHistory == if metrics.e2eMs > 0.0 then old(statsHistory)[id := old(MetricsOf(id)) + [metrics]]
                              else old(statsHistory)
    {
      hide View, Reached, Valid, WellFormed, SchedulerModel.Feedback, MetricsOf;
      KeepMetrics(id, metrics);
      TraceFeedback(id, metrics.e2eMs, tokens);
    }

    method TraceFeedback(id: string, e2eMs: real, tokens: int)
      requires Valid() && Reached()
      modifies `trace, workers.Values, predictors.Values, rlsPredictors.Values, admission, predHistory
      ensures Valid() && Reached() && trace == old(trace) + [FeedbackFor(id, e2eMs, tokens)]
      ensures WellFormed(old(View()))
      ensures View() == Feedback(cfg, old(View()), id, e2eMs, tokens)
    {
      hide IsRun, After, View, Register, Pick, SetVram, SchedulerModel.Feedback, Complete, ResetStats, Eligible;
      hide ResetWorker, Valid;
      TakeFeedback(id, e2eMs, tokens);
      Trace(FeedbackFor(id, e2eMs, tokens), old(View()));
    }

    method KeepMetrics(id: string, metrics: DetailedMetrics)
      modifies `statsHistory
      ensures statsHistory == if metrics.e2eMs > 0.0 then old(statsHistory)[id := old(MetricsOf(id)) + [metrics]]
                              else old(statsHistory)
    {
      if metrics.e2eMs > 0.0 {
        statsHistory := statsHistory[id := MetricsOf(id) + [metrics]];
      }
    }

    method TakeFeedback(id: string, e2eMs: real, tokens: int)
      requires Valid()
      modifies workers.Values, predictors.Values, rlsPredictors.Values, admission, predHistory
      ensures Valid() && WellFormed(old(View()))
      ensures View() == Feedback(cfg, old(View()), id, e2eMs, tokens)
    {
      hide Valid, View, WellFormed, SchedulerModel.Learn, Complete, Workers, NlmsEntries, RlsEntries;
      ViewIsWellFormed();
      if e2eMs > 0.0 {
        Learn(id, e2eMs, tokens);
      }
      Release(id);
    }

    /** Both predictors, the history and the counters take in one measured latency. */
    method Learn(id: string, e2eMs: real, tokens: int)
      requires Valid() && WellFormed(View())
      modifies predictors.Values, rlsPredictors.Values, admission, predHistory
      ensures Valid() && View() == SchedulerModel.Learn(cfg, old(View()), id, e2eMs, tokens)
    {
      hide Valid, View, WellFormed, Nlms.Step, Nlms.Line, Rls.Step, SchedulerModel.RecordCompletion, Abs, Max;
      var predicted, fast, slow, mode := LearnModels(id, e2eMs, tokens);
      Account(id, e2eMs, tokens, predicted, fast, slow, mode);
    }

    /** Both predictors of a worker learn; the prediction made beforehand and the state reached are reported. */
    method LearnModels(id: string, e2eMs: real, tokens: int)
      returns (predicted: real, fast: real, slow: real, mode: Mode)
      requires Valid() && WellFormed(View())
      modifies predictors.Values, rlsPredictors.Values
      ensures Valid()
      ensures var s := old(View());
              var o := Nlms.Observation(e2eMs, tokens, WorkerVram(s, id));
              && predicted == PriorPrediction(s, id, tokens)
              && (id in s.nlms ==> var after := Nlms.Step(s.nlms[id].model, o);
                   fast == after.fast && slow == after.slow && mode == ModeOf(after))
              && (id !in s.nlms ==> fast == 0.0 && slow == 0.0 && mode == Configured(cfg.nlmsMode))
              && View() == s.(nlms := if id in s.nlms
                   then s.nlms[id := s.nlms[id].(model := Nlms.Step(s.nlms[id].model, o))] else s.nlms,
                              rls := if id in s.rls then s.rls[id :=
                                s.rls[id].(model := Rls.Step(s.rls[id].model, Rls.Sample(e2eMs, tokens)))] else s.rls)
    {
      hide Valid, View, WellFormed, Nlms.Step, Nlms.Line, Rls.Step, ModeOf;
      predicted, fast, slow, mode := LearnNlms(id, e2eMs, tokens);
      LearnRls(id, e2eMs, tokens);
    }

    method LearnNlms(id: string, e2eMs: real, tokens: int) returns (predicted: real, fast: real, slow: real, mode: Mode)
      requires Valid() && WellFormed(View())
      modifies predictors.Values
      ensures Valid() && predicted == PriorPrediction(old(View()), id, tokens)
      ensures var s := old(View());
              if id in s.nlms then
                var after := Nlms.Step(s.nlms[id].model, Nlms.Observation(e2eMs, tokens, WorkerVram(s, id)));
                && fast == after.fast && slow == after.slow && mode == ModeOf(after)
                && View() == s.(nlms := s.nlms[id := s.nlms[id].(model := after)])
              else
                && fast == 0.0 && slow == 0.0 && mode == Configured(cfg.nlmsMode)
                && View() == s
    {
      hide Workers, NlmsEntries, RlsEntries, OwnWorkers, OwnPredictors, OwnRlsPredictors, Ready, WellFormed;
      hide Nlms.Step, Nlms.Line, Rls.Step, ModeOf, PredHistory.Valid, AdmissionStats.View;
      SameKeys();
      var vram := VramOf(id);
      predicted, fast, slow, mode := 0.0, 0.0, 0.0, Configured(cfg.nlmsMode);
      if id in predictors {
        predicted, fast, slow, mode := StepNlms(id, e2eMs, tokens, vram);
      }
    }

    method LearnRls(id: string, e2eMs: real, tokens: int)
      requires Valid()
      modifies rlsPredictors.Values
      ensures Valid()
      ensures var s := old(View());
              View() == if id in s.rls then s.(rls :=
                s.rls[id := s.rls[id].(model := Rls.Step(s.rls[id].model, Rls.Sample(e2eMs, tokens)))]) else s
    {
      hide Workers, NlmsEntries, RlsEntries, OwnWorkers, OwnPredictors, OwnRlsPredictors, Ready, WellFormed;
      hide Rls.Step, PredHistory.Valid, AdmissionStats.View;
      StepRls(id, e2eMs, tokens);
    }

    /** Add the prediction to the history if it is usable, and the completion to the counters. */
    method Account(id: string, e2eMs: real, tokens: int, predicted: real, fast: real, slow: real, mode: Mode)
      requires Valid()
      modifies admission, predHistory
      ensures Valid()
      ensures var s := old(View());
              var absErr := Abs(e2eMs - predicted);
              var sample := PredSample(id, tokens, predicted, e2eMs, absErr, absErr / Max(e2eMs, 1.0), fast, slow,
                mode);
              View() == s.(history := if Recordable(predicted) then s.history + [sample] else s.history,
                           stats := SchedulerModel.RecordCompletion(cfg, s.stats, e2eMs, predicted))
    {
      var absErr := Abs(e2eMs - predicted);
      var rel := absErr / Max(e2eMs, 1.0);
      hide Valid, View, SchedulerModel.RecordCompletion, Abs, Max;
      if 0.0 < predicted < UNUSABLE_MS {
        AddSample(PredSample(id, tokens, predicted, e2eMs, absErr, rel, fast, slow, mode));
      }
      CountCompletion(e2eMs, predicted);
    }

    method AddSample(sample: PredSample)
      requires Valid()
      modifies predHistory
      ensures Valid() && View() == old(View()).(history := old(View()).history + [sample])
    {
      hide Workers, NlmsEntries, RlsEntries, OwnWorkers, OwnPredictors, OwnRlsPredictors, Ready, PredHistory.Valid;
      predHistory.Add(sample);
    }

    method CountCompletion(e2eMs: real, predicted: real)
      requires Valid()
      modifies admission
      ensures Valid() && View() == var s := old(View());
              s.(stats := SchedulerModel.RecordCompletion(cfg, s.stats, e2eMs, predicted))
    {
      hide Workers, NlmsEntries, RlsEntries, OwnWorkers, OwnPredictors, OwnRlsPredictors, Ready;
      hide SchedulerModel.RecordCompletion;
      admission.RecordCompletion(cfg, e2eMs, predicted);
    }

    /** The last memory reading of a worker, or a default for an unknown one. */
    method VramOf(id: string) returns (vram: int)
      ensures vram == WorkerVram(View(), id)
    {
      vram := UNKNOWN_WORKER_VRAM_MB;
      if id in workers {
        vram := workers[id].lastKnownVram;
      }
    }

    /** The prediction before learning, and the model after it. */
    method StepNlms(id: string, e2eMs: real, tokens: int, vram: int)
      returns (predicted: real, fast: real, slow: real, mode: Mode)
      requires OwnPredictors() && Ready() && id in predictors
      modifies predictors[id]
      ensures Ready()
      ensures var e := old(NlmsEntries())[id];
              var after := Nlms.Step(e.model, Nlms.Observation(e2eMs, tokens, vram));
              && predicted == Nlms.Line(e.model, tokens)
              && fast == after.fast && slow == after.slow && mode == ModeOf(after)
              && NlmsEntries() == old(NlmsEntries())[id := e.(model := after)]
    {
      hide OwnRlsPredictors, OwnWorkers, OwnPredictors, Ready, Nlms.Line, Nlms.Step;
      var p := predictors[id];
      predicted := LineOf(p, tokens);
      UpdateNlms(id, e2eMs, tokens, vram);
      fast, slow := p.fastSlope, p.slowSlope;
      mode := if p.frozen then Mode.Frozen else if p.useDualSlope then Dual else Single;
      assert NlmsEntries()[id].model == p.View();
    }

    method UpdateNlms(id: string, e2eMs: real, tokens: int, vram: int)
      requires OwnPredictors() && Ready() && id in predictors
      modifies predictors[id]
      ensures Ready()
      ensures var e := old(NlmsEntries())[id];
              NlmsEntries() == old(NlmsEntries())[id :=
                e.(model := Nlms.Step(e.model, Nlms.Observation(e2eMs, tokens, vram)))]
    {
      hide Nlms.Step;
      predictors[id].Update(e2eMs, tokens, vram);
    }

    method LineOf(p: PerWorkerPredictor, tokens: int) returns (predicted: real)
      ensures predicted == Nlms.Line(p.View(), tokens)
    {
      var slope := p.Slope();
      predicted := slope * tokens as real + p.intercept;
    }

    method StepRls(id: string, e2eMs: real, tokens: int)
      requires OwnRlsPredictors()
      modifies rlsPredictors.Values
      ensures var es := old(RlsEntries());
              RlsEntries() == if id in es then es[id :=
                es[id].(model := Rls.Step(es[id].model, Rls.Sample(e2eMs, tokens)))] else es
    {
      hide Rls.Step;
      if id in rlsPredictors {
        rlsPredictors[id].Update(e2eMs, tokens);
      }
    }

    method CancelRequest(id: string)
      requires Valid() && Reached()
      modifies `trace, workers.Values
      ensures Valid() && Reached() && trace == old(trace) + [CancelFor(id)]
      ensures View() == Complete(old(View()), id)
    {
      Release(id);
      Trace(CancelFor(id), old(View()));
    }

    method SetWorkerVram(id: string, freeMb: int)
      requires Valid() && Reached()
      modifies `trace, workers.Values
      ensures Valid() && Reached() && trace == old(trace) + [VramReading(id, freeMb)]
      ensures View() == SetVram(old(View()), id, freeMb)
    {
      hide IsRun, After, View, Register, Pick, SetVram, SchedulerModel.Feedback, Complete, ResetStats, Eligible;
      hide ResetWorker, Valid;
      StoreReading(id, freeMb);
      Trace(VramReading(id, freeMb), old(View()));
    }

    method StoreReading(id: string, freeMb: int)
      requires Valid()
      modifies workers.Values
      ensures Valid() && View() == SetVram(old(View()), id, freeMb)
    {
      hide NlmsEntries, RlsEntries, Ready;
      if id in workers {
        var w := workers[id];
        w.lastKnownVram := freeMb;
        assert Workers() == old(Workers())[id := old(Workers())[id].(vram := freeMb)];
      }
    }

    method ResetAdmissionStats()
      requires Valid() && Reached()
      modifies `trace, `admission, `predHistory
      ensures Valid() && Reached() && trace == old(trace) + [ResetStatistics]
      ensures View() == ResetStats(old(View()))
    {
      hide IsRun, After, View, Register, Pick, SetVram, SchedulerModel.Feedback, Complete, Eligible, ResetWorker, Valid;
      EmptyCounters();
      EmptyHistory();
      Trace(ResetStatistics, old(View()));
    }

    method EmptyCounters()
      requires Valid()
      modifies `admission
      ensures Valid() && View() == old(View()).(stats := NO_STATS)
    {
      hide Workers, NlmsEntries, RlsEntries, Ready, OwnWorkers, OwnPredictors, OwnRlsPredictors, PredHistory.Valid;
      admission := new AdmissionStats();
    }

    method EmptyHistory()
      requires Valid()
      modifies `predHistory
      ensures Valid() && View() == old(View()).(history := [])
    {
      hide Workers, NlmsEntries, RlsEntries, Ready, OwnWorkers, OwnPredictors, OwnRlsPredictors;
      predHistory := new PredHistory(PRED_HISTORY_CAP);
    }

    method ResetWorkerState(id: string)
      requires Valid() && Reached()
      modifies `trace, predictors.Values, rlsPredictors.Values
      ensures Valid() && Reached() && trace == old(trace) + [SchedulerRuns.ResetWorkerState(id)]
      ensures View() == ResetWorker(old(View()), id)
    {
      hide IsRun, After, View, Register, Pick, SetVram, SchedulerModel.Feedback, Complete, ResetStats, Eligible;
      hide ResetWorker, Valid;
      ResetPredictors(id);
      Trace(SchedulerRuns.ResetWorkerState(id), old(View()));
    }

    method ResetPredictors(id: string)
      requires Valid()
      modifies predictors.Values, rlsPredictors.Values
      ensures Valid() && View() == ResetWorker(old(View()), id)
    {
      hide Valid, View, Nlms.Reset, Rls.Reset;
      ResetNlms(id);
      ResetRls(id);
    }

    method ResetNlms(id: string)
      requires Valid()
      modifies predictors.Values
      ensures Valid()
      ensures var s := old(View());
              View() == s.(nlms := if id in s.nlms
                then s.nlms[id := s.nlms[id].(model := Nlms.Reset(s.nlms[id].model))] else s.nlms)
    {
      hide Workers, RlsEntries, OwnWorkers, OwnRlsPredictors, Nlms.Reset, PredHistory.Valid, AdmissionStats.View;
      if id in predictors {
        predictors[id].ResetState();
      }
    }

    method ResetRls(id: string)
      requires Valid()
      modifies rlsPredictors.Values
      ensures Valid()
      ensures var s := old(View());
              View() == s.(rls := if id in s.rls then s.rls[id := s.rls[id].(model := Rls.Reset(s.rls[id].model))]
                else s.rls)
    {
      hide Workers, NlmsEntries, OwnWorkers, OwnPredictors, Ready, Rls.Reset, PredHistory.Valid, AdmissionStats.View;
      if id in rlsPredictors {
        rlsPredictors[id].ResetState();
      }
    }

    // ----- Observation -----

    /** On any object reached by its own methods the records match up, and nothing learned or cached is out of range. */
    lemma ReachedInvariants()
      requires Reached()
      ensures workers.Keys == predictors.Keys == rlsPredictors.Keys
      ensures forall id <- workers :: workers[id].id == id && workers[id].pendingTasks >= 0
      ensures forall id <- rlsPredictors :: rlsPredictors[id].View().p.PosDef()
      ensures forall key <- prefixCache :: prefixCache[key] in workers
      ensures |decisionLog| <= DECISION_LOG_CAP
    {
      ReachableConsistent(cfg, trace);
      hide IsRun, After;
      SameKeys();
      assert Consistent(cfg, View());
      forall id | id in workers ensures workers[id].id == id && workers[id].pendingTasks >= 0 {
        assert WorkerFine(id, View().workers[id]);
      }
      forall id | id in rlsPredictors ensures rlsPredictors[id].View().p.PosDef() {
        assert RlsFine(View().rls[id]);
      }
    }

    /** The pending work over all workers, summed in any order. */
    method GetGlobalQueueDepth() returns (total: real)
      ensures total == Balance.QueueDepth(View())
    {
      hide NlmsEntries, RlsEntries;
      total := 0.0;
      ghost var pending := Balance.PendingMap(View());
      var remaining := workers.Keys;
      assert pending - (workers.Keys - remaining) == pending;
      while remaining != {}
        invariant remaining <= workers.Keys
        invariant total + MapSums.SumOver(pending - (workers.Keys - remaining)) == MapSums.SumOver(pending)
      {
        var id :| id in remaining;
        total := total + workers[id].pendingTasks as real;
        MapSums.SumRemove(pending - (workers.Keys - remaining), id);
        assert pending - (workers.Keys - remaining) - {id} == pending - (workers.Keys - (remaining - {id}));
        remaining := remaining - {id};
      }
      assert pending - workers.Keys == map[];
    }
  }
}
