/** Two independent records of prediction error agree: the history's sums and the predictors' own totals. */
module PredictionAccounts {
  import opened Constants
  import opened Cost
  import opened MapSums
  import opened Windows
  import opened PredictionHistory
  import opened SchedulerModel
  import opened SchedulerRuns
  import opened Wrappers
  import Nlms

  function AbsMap(s: State): map<string, real> {
    map id | id in s.nlms :: s.nlms[id].model.sumAbs
  }

  function RelMap(s: State): map<string, real> {
    map id | id in s.nlms :: s.nlms[id].model.sumRel
  }

  /** The history since the last reset adds up to what the predictors have accumulated. */
  ghost predicate Agree(s: State) {
    && SumOver(AbsMap(s)) == Sum(AbsErrors(s.history))
    && SumOver(RelMap(s)) == Sum(RelErrors(s.history))
  }

  /**
    No re-registration, no statistics reset, and feedback only where memory is ample and the
    prediction is recordable.
   */
  predicate Accountable(s: State, ev: Event) {
    match ev
    case RegisterWorker(id, _, _) => id !in s.nlms
    case FeedbackFor(id, e2eMs, tokens) =>
      e2eMs > 0.0 && id in s.nlms ==>
        WorkerVram(s, id) >= VRAM_SOFT_LIMIT_MB && Recordable(PriorPrediction(s, id, tokens))
    case ResetStatistics => false
    case _ => true
  }

  /** With ample memory the error a predictor books is the error the history records. */
  lemma SameError(cfg: Config, s: State, id: string, e2eMs: real, tokens: int)
    requires WellFormed(s) && id in s.nlms && WorkerVram(s, id) >= VRAM_SOFT_LIMIT_MB
    ensures var p, o := s.nlms[id].model, Nlms.Observation(e2eMs, tokens, WorkerVram(s, id));
            var z := SampleOf(cfg, s, id, e2eMs, tokens);
            && Nlms.Step(p, o).sumAbs == p.sumAbs + z.absErr
            && Nlms.Step(p, o).sumRel == p.sumRel + z.relErr
  {
    var p, o := s.nlms[id].model, Nlms.Observation(e2eMs, tokens, WorkerVram(s, id));
    assert Nlms.Expected(p, o) == Nlms.Line(p, tokens);
    hide Nlms.Adapt, Nlms.Line, Nlms.Expected;
  }

  lemma LearnAgrees(cfg: Config, s: State, id: string, e2eMs: real, tokens: int)
    requires WellFormed(s) && Agree(s) && id in s.nlms
    requires WorkerVram(s, id) >= VRAM_SOFT_LIMIT_MB && Recordable(PriorPrediction(s, id, tokens))
    ensures Agree(Learn(cfg, s, id, e2eMs, tokens))
  {
    SameError(cfg, s, id, e2eMs, tokens);
    var z := SampleOf(cfg, s, id, e2eMs, tokens);
    hide Nlms.Step, SampleOf, RecordCompletion;
    var s', p := Learn(cfg, s, id, e2eMs, tokens), s.nlms[id].model;
    assert s'.history == s.history + [z];
    AppendNewest(s.history, z);
    assert AbsMap(s') == AbsMap(s)[id := p.sumAbs + z.absErr];
    assert RelMap(s') == RelMap(s)[id := p.sumRel + z.relErr];
    SumUpdate(AbsMap(s), id, p.sumAbs + z.absErr);
    SumUpdate(RelMap(s), id, p.sumRel + z.relErr);
  }

  /** Feedback for an unknown worker is recorded nowhere. */
  lemma UnknownAgrees(cfg: Config, s: State, id: string, e2eMs: real, tokens: int)
    requires WellFormed(s) && Agree(s) && id !in s.nlms
    ensures Agree(Learn(cfg, s, id, e2eMs, tokens))
  {
    hide RecordCompletion, SampleOf;
    var s' := Learn(cfg, s, id, e2eMs, tokens);
    assert s'.nlms == s.nlms && s'.history == s.history;
  }

  lemma SameRecords(s: State, s': State)
    requires Agree(s) && s'.nlms == s.nlms && s'.history == s.history
    ensures Agree(s')
  {
  }

  lemma RegisterAgrees(cfg: Config, s: State, id: string, tier: string, vramMb: int)
    requires Agree(s) && id !in s.nlms
    ensures Agree(Register(cfg, s, id, tier, vramMb))
  {
    var s' := Register(cfg, s, id, tier, vramMb);
    assert AbsMap(s') == AbsMap(s)[id := 0.0] && RelMap(s') == RelMap(s)[id := 0.0];
    SumUpdate(AbsMap(s), id, 0.0);
    SumUpdate(RelMap(s), id, 0.0);
  }

  lemma ResetAgrees(s: State, id: string)
    requires Agree(s)
    ensures Agree(ResetWorker(s, id))
  {
    var s' := ResetWorker(s, id);
    assert AbsMap(s') == AbsMap(s) && RelMap(s') == RelMap(s);
  }

  lemma PickKeepsHistory(cfg: Config, s: State, req: Request, choice: Option<string>)
    requires WellFormed(s) && (choice.Some? ==> Eligible(cfg, s, req, choice.value))
    ensures Pick(cfg, s, req, choice).0.history == s.history
  {
    hide Eligible, MinScore, BreakdownOf, Refuse, LastN, PrefixHash;
  }

  lemma StepAgrees(cfg: Config, s: State, ev: Event)
    requires WellFormed(s) && Usable(cfg, s, ev) && Agree(s) && Accountable(s, ev)
    ensures Agree(Apply(cfg, s, ev))
  {
    var s' := Apply(cfg, s, ev);
    hide Agree, Pick, Learn, Register, ResetWorker;
    match ev
    case RegisterWorker(id, tier, vramMb) => RegisterAgrees(cfg, s, id, tier, vramMb);
    case PickWorker(req, choice) =>
      PickKeepsHistory(cfg, s, req, choice);
      SameRecords(s, s');
    case FeedbackFor(id, e2eMs, tokens) =>
      if e2eMs <= 0.0 {
        SameRecords(s, s');
      } else {
        if id in s.nlms {
          LearnAgrees(cfg, s, id, e2eMs, tokens);
        } else {
          UnknownAgrees(cfg, s, id, e2eMs, tokens);
        }
        SameRecords(Learn(cfg, s, id, e2eMs, tokens), s');
      }
    case ResetWorkerState(id) => ResetAgrees(s, id);
    case _ => SameRecords(s, s');
  }

  ghost predicate AccountableRun(cfg: Config, events: seq<Event>) {
    events != [] ==> AccountableRun(cfg, Front(events)) && Accountable(After(cfg, Front(events)), Last(events))
  }

  lemma {:induction false} RunAgrees(cfg: Config, events: seq<Event>)
    requires AccountableRun(cfg, events)
    ensures Agree(After(cfg, events))
  {
    if events == [] {
      assert AbsMap(EMPTY) == map[] && RelMap(EMPTY) == map[];
    } else {
      RunAgrees(cfg, Front(events));
      hide Apply, Agree, Accountable;
      if Usable(cfg, After(cfg, Front(events)), Last(events)) {
        StepAgrees(cfg, After(cfg, Front(events)), Last(events));
      }
    }
  }

  /** Main result: while nothing has been evicted, the bounded history's error sums are the predictors' own totals. */
  lemma HistoryMatchesPredictors(cfg: Config, events: seq<Event>)
    requires AccountableRun(cfg, events) && |After(cfg, events).history| <= PRED_HISTORY_CAP
    ensures var s := After(cfg, events);
            && Sum(AbsErrors(LastN(s.history, PRED_HISTORY_CAP))) == SumOver(AbsMap(s))
            && Sum(RelErrors(LastN(s.history, PRED_HISTORY_CAP))) == SumOver(RelMap(s))
  {
    RunAgrees(cfg, events);
  }

  /** For a learning predictor the positivity half of the recording guard always holds. */
  lemma LearnersAlwaysRecordable(cfg: Config, events: seq<Event>, id: string, tokens: int)
    requires cfg.strategy != STATIC && tokens >= 0 && id in After(cfg, events).nlms
    ensures PriorPrediction(After(cfg, events), id, tokens) > 0.0
  {
    ReachableConsistent(cfg, events);
    var s := After(cfg, events);
    assert NlmsFine(cfg, s.nlms[id]);
    Nlms.LinePositive(s.nlms[id].model, tokens);
  }
}
