/** Whole runs of the scheduler, and the invariants every reachable state satisfies. */
module SchedulerRuns {
  import opened Constants
  import opened Cost
  import opened SchedulerModel
  import opened Wrappers
  import Nlms
  import RetryAfter
  import Rls

  datatype Event =
    | RegisterWorker(id: string, tier: string, vramMb: int)
    | PickWorker(req: Request, choice: Option<string>)
    | FeedbackFor(id: string, e2eMs: real, tokens: int)
    | CancelFor(id: string)
    | VramReading(id: string, freeMb: int)
    | ResetWorkerState(id: string)
    | ResetStatistics

  /** A pick step is possible for any choice some map order leads to; everything else is always possible. */
  ghost predicate Possible(cfg: Config, s: State, ev: Event)
    requires WellFormed(s)
  {
    ev.PickWorker? ==> ValidChoice(cfg, s, ev.req, ev.choice)
  }

  predicate Usable(cfg: Config, s: State, ev: Event)
    requires WellFormed(s)
  {
    ev.PickWorker? && ev.choice.Some? ==> Eligible(cfg, s, ev.req, ev.choice.value)
  }

  function Apply(cfg: Config, s: State, ev: Event): (s': State)
    requires WellFormed(s) && Usable(cfg, s, ev)
    ensures WellFormed(s')
  {
    match ev
    case RegisterWorker(id, tier, vramMb) => Register(cfg, s, id, tier, vramMb)
    case PickWorker(req, choice) => Pick(cfg, s, req, choice).0
    case FeedbackFor(id, e2eMs, tokens) => Feedback(cfg, s, id, e2eMs, tokens)
    case CancelFor(id) => Complete(s, id)
    case VramReading(id, freeMb) => SetVram(s, id, freeMb)
    case ResetWorkerState(id) => ResetWorker(s, id)
    case ResetStatistics => ResetStats(s)
  }

  function Front(events: seq<Event>): seq<Event>
    requires events != []
  {
    events[..|events| - 1]
  }

  function Last(events: seq<Event>): Event
    requires events != []
  {
    events[|events| - 1]
  }

  /** The state after the events; an impossible pick would leave the state alone. */
  function After(cfg: Config, events: seq<Event>): (s: State)
    ensures WellFormed(s)
  {
    if events == [] then EMPTY
    else
      var s := After(cfg, Front(events));
      if Usable(cfg, s, Last(events)) then Apply(cfg, s, Last(events)) else s
  }

  ghost predicate IsRun(cfg: Config, events: seq<Event>) {
    events != [] ==> IsRun(cfg, Front(events)) && Possible(cfg, After(cfg, Front(events)), Last(events))
  }

  lemma RunExtends(cfg: Config, events: seq<Event>, ev: Event)
    requires IsRun(cfg, events)
    requires Possible(cfg, After(cfg, events), ev) && Usable(cfg, After(cfg, events), ev)
    ensures IsRun(cfg, events + [ev]) && After(cfg, events + [ev]) == Apply(cfg, After(cfg, events), ev)
  {
    var all := events + [ev];
    assert Front(all) == events && Last(all) == ev;
    hide Apply, Usable, Possible;
  }

  lemma LastStep(cfg: Config, events: seq<Event>)
    requires events != [] && IsRun(cfg, events)
    ensures IsRun(cfg, Front(events)) && Usable(cfg, After(cfg, Front(events)), Last(events))
    ensures After(cfg, events) == Apply(cfg, After(cfg, Front(events)), Last(events))
  {
    hide Apply, Eligible;
  }

  // ----- Invariant -----

  /** Predictors that learn respect their floors. */
  predicate Learning(p: Nlms.Predictor) {
    !p.frozen ==> INITIAL_SLOPE <= p.fast && INITIAL_SLOPE <= p.slow && MIN_INTERCEPT <= p.intercept
  }

  predicate WorkerFine(id: string, w: Worker) {
    w.id == id && w.healthy && w.pending >= 0
  }

  predicate NlmsFine(cfg: Config, e: NlmsEntry) {
    e.model.frozen == Frozen(cfg) && Learning(e.model)
  }

  predicate RlsFine(e: RlsEntry) {
    e.model.p.PosDef() && e.model.slope >= INITIAL_SLOPE && e.model.intercept >= MIN_INTERCEPT
  }

  predicate Paired(n: NlmsEntry, r: RlsEntry) {
    n.tier == r.tier && n.totalVram == r.totalVram > 0
  }

  ghost predicate Consistent(cfg: Config, s: State) {
    && WellFormed(s)
    && s.nlms.Keys == s.rls.Keys == s.workers.Keys
    && (forall id <- s.workers :: WorkerFine(id, s.workers[id]))
    && (forall id <- s.nlms :: NlmsFine(cfg, s.nlms[id]) && Paired(s.nlms[id], s.rls[id]))
    && (forall id <- s.rls :: RlsFine(s.rls[id]))
    && (forall key <- s.prefixCache :: s.prefixCache[key] in s.workers)
    && |s.log| <= DECISION_LOG_CAP
  }

  lemma RlsStepFine(m: Rls.Model, z: Rls.Sample)
    requires m.p.PosDef() && m.slope >= INITIAL_SLOPE && m.intercept >= MIN_INTERCEPT
    ensures var n := Rls.Step(m, z); n.p.PosDef() && n.slope >= INITIAL_SLOPE && n.intercept >= MIN_INTERCEPT
  {
    if z.tokens > 0 {
      Rls.StepKeepsPosDef(m.p, z.tokens as real);
    }
    hide Rls.NextP, Rls.Unfloored;
  }

  lemma NlmsStepFine(p: Nlms.Predictor, o: Nlms.Observation)
    requires p.histIdx < 3 == |p.interference| && Learning(p)
    ensures Learning(Nlms.Step(p, o))
  {
    hide Nlms.Error, Nlms.Ratio;
  }

  /** Replacing everything known about one id by fine records keeps a state consistent. */
  lemma EntryUpdateConsistent(cfg: Config, s: State, s': State, id: string, w: Worker, n: NlmsEntry, r: RlsEntry)
    requires Consistent(cfg, s) && n.model.histIdx < 3 == |n.model.interference|
    requires WorkerFine(id, w) && NlmsFine(cfg, n) && RlsFine(r) && Paired(n, r)
    requires s'.workers == s.workers[id := w] && s'.nlms == s.nlms[id := n] && s'.rls == s.rls[id := r]
    requires s'.prefixCache == s.prefixCache && s'.log == s.log
    ensures Consistent(cfg, s')
  {
    hide NlmsFine, RlsFine, Paired, WorkerFine;
  }

  lemma LearnEffect(cfg: Config, s: State, id: string, e2eMs: real, tokens: int)
    requires WellFormed(s)
    ensures var s' := Learn(cfg, s, id, e2eMs, tokens);
            && s'.workers == s.workers && s'.prefixCache == s.prefixCache && s'.log == s.log
            && s'.nlms == (if id in s.nlms
                           then s.nlms[id := s.nlms[id].(model :=
                             Nlms.Step(s.nlms[id].model, Nlms.Observation(e2eMs, tokens, WorkerVram(s, id))))]
                           else s.nlms)
            && s'.rls == if id in s.rls then s.rls[id :=
                 s.rls[id].(model := Rls.Step(s.rls[id].model, Rls.Sample(e2eMs, tokens)))] else s.rls
  {
    hide Nlms.Step, Rls.Step, SampleOf, RecordCompletion, PriorPrediction;
  }

  lemma LearnConsistent(cfg: Config, s: State, id: string, e2eMs: real, tokens: int)
    requires Consistent(cfg, s)
    ensures Consistent(cfg, Learn(cfg, s, id, e2eMs, tokens))
  {
    hide Learn, Nlms.Step, Rls.Step, Rls.Matrix.PosDef, Learning;
    LearnEffect(cfg, s, id, e2eMs, tokens);
    var s' := Learn(cfg, s, id, e2eMs, tokens);
    if id in s.nlms {
      var o, z := Nlms.Observation(e2eMs, tokens, WorkerVram(s, id)), Rls.Sample(e2eMs, tokens);
      assert NlmsFine(cfg, s.nlms[id]) && RlsFine(s.rls[id]) && Paired(s.nlms[id], s.rls[id])
             && WorkerFine(id, s.workers[id]);
      NlmsStepFine(s.nlms[id].model, o);
      RlsStepFine(s.rls[id].model, z);
      assert NlmsFine(cfg, s'.nlms[id]) && RlsFine(s'.rls[id]) && Paired(s'.nlms[id], s'.rls[id]);
      hide Consistent, NlmsFine, RlsFine, Paired, WorkerFine;
      assert s'.workers == s.workers[id := s.workers[id]];
      EntryUpdateConsistent(cfg, s, s', id, s.workers[id], s'.nlms[id], s'.rls[id]);
    } else {
      SameRecords(cfg, s, s');
    }
  }

  lemma SameRecords(cfg: Config, s: State, s': State)
    requires Consistent(cfg, s)
    requires s'.workers == s.workers && s'.nlms == s.nlms && s'.rls == s.rls && s'.prefixCache == s.prefixCache
             && s'.log == s.log
    ensures Consistent(cfg, s')
  {
    hide NlmsFine, RlsFine, Paired, WorkerFine;
  }

  lemma RegisterConsistent(cfg: Config, s: State, id: string, tier: string, vramMb: int)
    requires Consistent(cfg, s)
    ensures Consistent(cfg, Register(cfg, s, id, tier, vramMb))
  {
    var s' := Register(cfg, s, id, tier, vramMb);
    assert RlsFine(s'.rls[id]);
    hide Consistent, RlsFine;
    EntryUpdateConsistent(cfg, s, s', id, s'.workers[id], s'.nlms[id], s'.rls[id]);
  }

  lemma ResetConsistent(cfg: Config, s: State, id: string)
    requires Consistent(cfg, s)
    ensures Consistent(cfg, ResetWorker(s, id))
  {
    if id in s.nlms {
      var s' := ResetWorker(s, id);
      assert RlsFine(s'.rls[id]);
      hide RlsFine;
      assert s'.workers == s.workers[id := s.workers[id]];
      EntryUpdateConsistent(cfg, s, s', id, s.workers[id], s'.nlms[id], s'.rls[id]);
    }
  }

  /** Replacing one worker record, the cache, the log and the counters keeps a state consistent. */
  lemma WorkerUpdateConsistent(cfg: Config, s: State, s': State, id: string)
    requires Consistent(cfg, s) && id in s.workers
    requires s'.nlms == s.nlms && s'.rls == s.rls && s'.workers.Keys == s.workers.Keys
    requires s'.workers == s.workers[id := s'.workers[id]] && WorkerFine(id, s'.workers[id])
    requires forall key <- s'.prefixCache :: s'.prefixCache[key] in s.workers
    requires |s'.log| <= DECISION_LOG_CAP
    ensures Consistent(cfg, s')
  {
    hide NlmsFine, RlsFine, Paired, WorkerFine;
  }

  /** A pick touches one worker and one cache entry when it admits, and neither when it does not. */
  lemma PickEffect(cfg: Config, s: State, req: Request, choice: Option<string>)
    requires WellFormed(s) && (choice.Some? ==> Eligible(cfg, s, req, choice.value))
    ensures var (s', r) := Pick(cfg, s, req, choice);
            if r.Picked? then
              && choice == Some(r.id) && r.id != "" && r.id in s.workers
              && s'.workers == s.workers[r.id := s.workers[r.id].(pending := s.workers[r.id].pending + 1)]
              && s'.prefixCache == s.prefixCache[PrefixHash(cfg.fnv, req.data) := r.id]
            else s'.workers == s.workers && s'.prefixCache == s.prefixCache
    ensures |s.log| <= DECISION_LOG_CAP ==> |Pick(cfg, s, req, choice).0.log| <= DECISION_LOG_CAP
  {
    assert choice.Some? ==> choice.value in s.workers;
    hide Eligible, MinScore, BreakdownOf, Settle;
    var best := if choice.Some? then choice.value else "";
    SettleEffect(cfg, s, req, best, MinScore(cfg, s, req, choice), BreakdownOf(cfg, s, req, choice));
  }

  lemma SettleEffect(cfg: Config, s: State, req: Request, best: string, min: Option<real>, breakdown: Option<Decision>)
    requires best == "" || best in s.workers
    ensures var (s', r) := Settle(cfg, s, req, best, min, breakdown);
            if r.Picked? then
              && best == r.id != "" && r.id in s.workers
              && s'.workers == s.workers[r.id := s.workers[r.id].(pending := s.workers[r.id].pending + 1)]
              && s'.prefixCache == s.prefixCache[PrefixHash(cfg.fnv, req.data) := r.id]
            else s'.workers == s.workers && s'.prefixCache == s.prefixCache
    ensures |s.log| <= DECISION_LOG_CAP ==> |Settle(cfg, s, req, best, min, breakdown).0.log| <= DECISION_LOG_CAP
  {
    hide PrefixHash, RetryAfter.NewAdmissionError, ReasonText;
  }

  lemma CacheStays(cache: map<Hash, string>, after: map<Hash, string>, key: Hash, id: string, ids: set<string>)
    requires after == cache[key := id] && id in ids && forall k <- cache :: cache[k] in ids
    ensures forall k <- after :: after[k] in ids
  {
    forall k | k in after ensures after[k] in ids {
      if k != key {
        assert k in cache && after[k] == cache[k];
      }
    }
  }

  lemma PickConsistent(cfg: Config, s: State, req: Request, choice: Option<string>)
    requires Consistent(cfg, s) && (choice.Some? ==> Eligible(cfg, s, req, choice.value))
    ensures Consistent(cfg, Pick(cfg, s, req, choice).0)
  {
    hide Pick, Eligible, NlmsFine, RlsFine, Paired, PrefixHash;
    PickEffect(cfg, s, req, choice);
    var (s', r) := Pick(cfg, s, req, choice);
    if r.Picked? {
      assert s'.workers.Keys == s.workers.Keys;
      CacheStays(s.prefixCache, s'.prefixCache, PrefixHash(cfg.fnv, req.data), r.id, s.workers.Keys);
      WorkerUpdateConsistent(cfg, s, s', r.id);
    } else {
      hide WorkerFine;
    }
  }

  lemma StepConsistent(cfg: Config, s: State, ev: Event)
    requires Consistent(cfg, s) && Usable(cfg, s, ev)
    ensures Consistent(cfg, Apply(cfg, s, ev))
  {
    assert WellFormed(s);
    hide Consistent, Pick, Learn, Register, ResetWorker, SetVram, Complete, ResetStats;
    match ev
    case RegisterWorker(id, tier, vramMb) => RegisterConsistent(cfg, s, id, tier, vramMb);
    case PickWorker(req, choice) => PickConsistent(cfg, s, req, choice);
    case FeedbackFor(id, e2eMs, tokens) =>
      if e2eMs > 0.0 {
        LearnConsistent(cfg, s, id, e2eMs, tokens);
        CompleteConsistent(cfg, Learn(cfg, s, id, e2eMs, tokens), id);
      } else {
        CompleteConsistent(cfg, s, id);
      }
    case CancelFor(id) => CompleteConsistent(cfg, s, id);
    case VramReading(id, freeMb) => ReadingConsistent(cfg, s, id, freeMb);
    case ResetWorkerState(id) => ResetConsistent(cfg, s, id);
    case ResetStatistics => StatsConsistent(cfg, s);
  }

  lemma CompleteConsistent(cfg: Config, s: State, id: string)
    requires Consistent(cfg, s)
    ensures Consistent(cfg, Complete(s, id))
  {
    hide NlmsFine, RlsFine, Paired;
  }

  lemma ReadingConsistent(cfg: Config, s: State, id: string, freeMb: int)
    requires Consistent(cfg, s)
    ensures Consistent(cfg, SetVram(s, id, freeMb))
  {
    hide NlmsFine, RlsFine, Paired;
  }

  lemma StatsConsistent(cfg: Config, s: State)
    requires Consistent(cfg, s)
    ensures Consistent(cfg, ResetStats(s))
  {
    hide NlmsFine, RlsFine, Paired, WorkerFine;
  }

  /**
    Every reachable state is consistent: one predictor of each kind per worker, caches pointing
    at workers, floors respected.
   */
  lemma {:induction false} ReachableConsistent(cfg: Config, events: seq<Event>)
    ensures Consistent(cfg, After(cfg, events))
  {
    if events != [] {
      ReachableConsistent(cfg, Front(events));
      hide Apply, Consistent;
      if Usable(cfg, After(cfg, Front(events)), Last(events)) {
        StepConsistent(cfg, After(cfg, Front(events)), Last(events));
      }
    }
  }

  // ----- Pending work -----

  function Pending(s: State, w: string): int {
    if w in s.workers then s.workers[w].pending else 0
  }

  predicate PicksWorker(cfg: Config, s: State, ev: Event, w: string)
    requires WellFormed(s)
  {
    ev.PickWorker? && Usable(cfg, s, ev) && Pick(cfg, s, ev.req, ev.choice).1 == Picked(w)
  }

  predicate Completes(ev: Event, w: string) {
    (ev.FeedbackFor? || ev.CancelFor?) && ev.id == w
  }

  /** Picks of w minus its feedbacks and cancels. */
  function Outstanding(cfg: Config, events: seq<Event>, w: string): int {
    if events == [] then 0
    else
      Outstanding(cfg, Front(events), w)
      + (if PicksWorker(cfg, After(cfg, Front(events)), Last(events), w) then 1 else 0)
      - (if Completes(Last(events), w) then 1 else 0)
  }

  /** Every completion of w answers an earlier pick of w. */
  predicate AnswersPicks(cfg: Config, events: seq<Event>, w: string) {
    events != [] ==> AnswersPicks(cfg, Front(events), w) && Outstanding(cfg, events, w) >= 0
  }

  /** w was re-registered with work outstanding, and some work has been outstanding ever since. */
  predicate Forgotten(cfg: Config, events: seq<Event>, w: string) {
    events != [] &&
    if Last(events).RegisterWorker? && Last(events).id == w then Outstanding(cfg, events, w) > 0
    else Forgotten(cfg, Front(events), w) && Outstanding(cfg, events, w) > 0
  }

  lemma PickPending(cfg: Config, s: State, req: Request, choice: Option<string>, w: string)
    requires WellFormed(s) && (choice.Some? ==> Eligible(cfg, s, req, choice.value))
    ensures var (s', r) := Pick(cfg, s, req, choice);
            Pending(s', w) == Pending(s, w) + if r == Picked(w) then 1 else 0
  {
    PickEffect(cfg, s, req, choice);
    hide Pick;
  }

  lemma StepPending(cfg: Config, s: State, ev: Event, w: string)
    requires WellFormed(s) && Usable(cfg, s, ev)
    ensures var before, after := Pending(s, w), Pending(Apply(cfg, s, ev), w);
            after == if ev.RegisterWorker? && ev.id == w then 0
                     else if PicksWorker(cfg, s, ev, w) then before + 1
                     else if Completes(ev, w) && before > 0 then before - 1
                     else before
  {
    if ev.PickWorker? {
      hide Pick;
      PickPending(cfg, s, ev.req, ev.choice, w);
    } else {
      hide Pick, Nlms.Step, Rls.Step, SampleOf, RecordCompletion;
    }
  }

  /**
    Main result: a worker's pending counter never exceeds the work outstanding on it, is never
    negative, and is exact unless a re-registration forgot work that is still outstanding.
   */
  lemma {:induction false} PendingConserved(cfg: Config, events: seq<Event>, w: string)
    requires IsRun(cfg, events) && AnswersPicks(cfg, events, w)
    ensures 0 <= Pending(After(cfg, events), w) <= Outstanding(cfg, events, w)
    ensures Pending(After(cfg, events), w) == Outstanding(cfg, events, w) <==> !Forgotten(cfg, events, w)
  {
    if events != [] {
      var before, ev := Front(events), Last(events);
      PendingConserved(cfg, before, w);
      var s := After(cfg, before);
      assert Usable(cfg, s, ev);
      StepPending(cfg, s, ev, w);
      hide Apply, Pending;
    }
  }
}
