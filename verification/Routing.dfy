/** What a pick guarantees: the admission rule, independence of map order, placement safety and prefix affinity. */
module Routing {
  import opened Constants
  import opened RealArith
  import opened Cost
  import opened SchedulerModel
  import opened SchedulerRuns
  import opened Windows
  import opened Wrappers
  import Nlms
  import Rls
  import RetryAfter

  lemma PossibleIsUsable(cfg: Config, s: State, ev: Event)
    requires WellFormed(s) && Possible(cfg, s, ev)
    ensures Usable(cfg, s, ev)
  {
  }

  // ----- Admission -----

  /** Some worker can serve the request within the SLO. */
  ghost predicate Feasible(cfg: Config, s: State, req: Request)
    requires WellFormed(s)
  {
    exists id :: Candidate(cfg, s, req, id) && ScoreOf(cfg, s, req, id).total <= cfg.sloMs
  }

  /** A worker registered under the empty id is among the cheapest candidates and within the SLO. */
  ghost predicate EmptyIdWins(cfg: Config, s: State, req: Request)
    requires WellFormed(s)
  {
    && Candidate(cfg, s, req, "") && ScoreOf(cfg, s, req, "").total <= cfg.sloMs
    && forall id :: Candidate(cfg, s, req, id) ==> ScoreOf(cfg, s, req, "").total <= ScoreOf(cfg, s, req, id).total
  }

  lemma ChoiceIsCheapest(cfg: Config, s: State, req: Request, choice: Option<string>)
    requires WellFormed(s) && ValidChoice(cfg, s, req, choice) && Predictive(cfg.strategy)
    ensures choice.None? ==> forall id :: !Candidate(cfg, s, req, id)
    ensures choice.Some? ==>
              && Candidate(cfg, s, req, choice.value)
              && forall id :: Candidate(cfg, s, req, id)
                   ==> ScoreOf(cfg, s, req, choice.value).total <= ScoreOf(cfg, s, req, id).total
  {
    hide ScoreOf;
    forall id | Candidate(cfg, s, req, id)
      ensures choice.Some? && ScoreOf(cfg, s, req, choice.value).total <= ScoreOf(cfg, s, req, id).total
    {
      assert Eligible(cfg, s, req, id);
      assert choice.Some? ==> AtLeastAsGood(cfg, s, req, choice.value, id);
    }
  }

  /**
    A gated pick admits exactly when some candidate meets the SLO and the choice is not the
    worker registered under the empty id.
   */
  lemma AdmitsIffFeasible(cfg: Config, s: State, req: Request, choice: Option<string>)
    requires WellFormed(s) && ValidChoice(cfg, s, req, choice) && SloGated(cfg)
    ensures Pick(cfg, s, req, choice).1.Picked? <==> choice != Some("") && Feasible(cfg, s, req)
  {
    ChoiceIsCheapest(cfg, s, req, choice);
    hide ScoreOf, RecordDecision, ValidChoice, Eligible;
  }

  /** The admission rule holds for every map order exactly when no worker under the empty id wins. */
  lemma AdmissionRuleIff(cfg: Config, s: State, req: Request)
    requires WellFormed(s) && SloGated(cfg)
    ensures (forall choice :: ValidChoice(cfg, s, req, choice) ==>
               (Pick(cfg, s, req, choice).1.Picked? <==> Feasible(cfg, s, req)))
            <==> !EmptyIdWins(cfg, s, req)
  {
    forall choice | ValidChoice(cfg, s, req, choice)
      ensures Pick(cfg, s, req, choice).1.Picked? <==> choice != Some("") && Feasible(cfg, s, req)
      ensures choice == Some("") && Feasible(cfg, s, req) ==> EmptyIdWins(cfg, s, req)
    {
      AdmitsIffFeasible(cfg, s, req, choice);
      ChoiceIsCheapest(cfg, s, req, choice);
    }
    hide Pick, ScoreOf;
    if EmptyIdWins(cfg, s, req) {
      assert ValidChoice(cfg, s, req, Some(""));
    }
  }

  /** The empty id also stands for no worker, so a choice of it is never admitted. */
  lemma EmptyIdNeverAdmitted(cfg: Config, s: State, req: Request)
    requires WellFormed(s) && Eligible(cfg, s, req, "")
    ensures !Pick(cfg, s, req, Some("")).1.Picked?
  {
    hide ScoreOf;
  }

  /** The cost a refusal quotes: the choice's, or a fixed one when the empty id's is beyond the sentinel. */
  function Quoted(cfg: Config, s: State, req: Request, id: string): real
    requires WellFormed(s) && Candidate(cfg, s, req, id)
  {
    var min := ScoreOf(cfg, s, req, id).total;
    if id == "" && min >= UNUSABLE_MS then VRAM_RETRY_MS else min
  }

  /** Every refusal, whatever the strategy, quotes the minimum score over all candidates. */
  lemma RefusalQuotesMinimum(cfg: Config, s: State, req: Request, choice: Option<string>)
    requires WellFormed(s) && ValidChoice(cfg, s, req, choice)
    requires Pick(cfg, s, req, choice).1.Refused?
    ensures choice.Some? && Candidate(cfg, s, req, choice.value)
    ensures var min := ScoreOf(cfg, s, req, choice.value).total;
            && (cfg.sloMs < min || (choice.value == "" && UNUSABLE_MS <= min))
            && (forall id :: Candidate(cfg, s, req, id) ==> min <= ScoreOf(cfg, s, req, id).total)
            && Pick(cfg, s, req, choice).1
               == Refuse(cfg, Quoted(cfg, s, req, choice.value),
                    if choice.value == "" then OverloadedEverywhere else SloExceeded)
  {
    if Predictive(cfg.strategy) {
      ChoiceIsCheapest(cfg, s, req, choice);
    }
    hide ScoreOf, RecordDecision, ValidChoice, ReasonText, RetryAfter.NewAdmissionError;
  }

  /** End to end: a refused client reads max(1, whole seconds) of the best cost any worker could offer. */
  lemma RefusedClientIsTold(cfg: Config, s: State, req: Request, choice: Option<string>)
    requires WellFormed(s) && ValidChoice(cfg, s, req, choice)
    requires Pick(cfg, s, req, choice).1.Refused?
    ensures choice.Some? && Candidate(cfg, s, req, choice.value)
    ensures var told := RetryAfter.Told(Pick(cfg, s, req, choice).1.err);
            var sec := RetryAfter.ToInt64(Quoted(cfg, s, req, choice.value) / 1000.0, cfg.floatOverflow);
            told == if sec < 1 then 1 else sec
  {
    hide ScoreOf, Pick, Candidate, ValidChoice, Quoted, Refuse;
    hide RetryAfter.Told, RetryAfter.ToInt64;
    RefusalQuotesMinimum(cfg, s, req, choice);
    RefusalTold(cfg, Quoted(cfg, s, req, choice.value),
      if choice.value == "" then OverloadedEverywhere else SloExceeded);
  }

  lemma RefusalTold(cfg: Config, ms: real, reason: Reason)
    ensures Refuse(cfg, ms, reason).Refused?
    ensures var told := RetryAfter.Told(Refuse(cfg, ms, reason).err);
            var sec := RetryAfter.ToInt64(ms / 1000.0, cfg.floatOverflow);
            told == if sec < 1 then 1 else sec
  {
    hide ReasonText, RetryAfter.NewAdmissionError, RetryAfter.Told, RetryAfter.ToInt64;
    RetryAfter.RetryAfterRoundTrip(ms, ReasonText(reason), cfg.floatOverflow);
  }

  /** Two picks agree on whether the request is admitted and, if not, on the whole answer. */
  predicate SameVerdict(r1: PickResult, r2: PickResult) {
    if r1.Picked? then r2.Picked? else r1 == r2
  }

  lemma ReasonsDiffer(cfg: Config, ms1: real, ms2: real)
    ensures Refuse(cfg, ms1, OverloadedEverywhere) != Refuse(cfg, ms2, SloExceeded)
  {
    var prefix := "admission rejected: ";
    assert (prefix + ReasonText(OverloadedEverywhere))[|prefix|] == 'a';
    assert (prefix + ReasonText(SloExceeded))[|prefix|] == 'p';
  }

  /**
    Map order never changes the minimum score. It leaves the verdict alone exactly when the
    orders agree on whether the worker under the empty id is the one chosen.
   */
  lemma OrderIrrelevant(cfg: Config, s: State, req: Request, choice1: Option<string>, choice2: Option<string>)
    requires WellFormed(s) && ValidChoice(cfg, s, req, choice1) && ValidChoice(cfg, s, req, choice2)
    requires Predictive(cfg.strategy)
    ensures MinScore(cfg, s, req, choice1) == MinScore(cfg, s, req, choice2)
    ensures SameVerdict(Pick(cfg, s, req, choice1).1, Pick(cfg, s, req, choice2).1)
            <==> (choice1 == Some("") <==> choice2 == Some(""))
  {
    SameMinimum(cfg, s, req, choice1, choice2);
    VerdictIs(cfg, s, req, choice1);
    VerdictIs(cfg, s, req, choice2);
    hide ScoreOf, ValidChoice, Pick, Eligible, MinScore, Verdict, SameVerdict;
    VerdictsMatch(cfg, s, MinScore(cfg, s, req, choice1), choice1 == Some(""), choice2 == Some(""),
                  Pick(cfg, s, req, choice1).1, Pick(cfg, s, req, choice2).1);
  }

  lemma SameMinimum(cfg: Config, s: State, req: Request, choice1: Option<string>, choice2: Option<string>)
    requires WellFormed(s) && ValidChoice(cfg, s, req, choice1) && ValidChoice(cfg, s, req, choice2)
    requires Predictive(cfg.strategy)
    ensures MinScore(cfg, s, req, choice1) == MinScore(cfg, s, req, choice2)
  {
    ChoiceIsCheapest(cfg, s, req, choice1);
    ChoiceIsCheapest(cfg, s, req, choice2);
    hide ScoreOf;
  }

  /** What becomes of a pick with this minimum score, chosen under the empty id or not. */
  predicate Verdict(cfg: Config, s: State, min: Option<real>, emptyId: bool, r: PickResult) {
    if min.None? || emptyId then r == RefuseEmpty(cfg, s, min).1
    else if SloGated(cfg) && min.value > cfg.sloMs then r == Refuse(cfg, min.value, SloExceeded)
    else r.Picked?
  }

  lemma VerdictsMatch(cfg: Config, s: State, min: Option<real>, empty1: bool, empty2: bool, r1: PickResult,
                      r2: PickResult)
    requires Verdict(cfg, s, min, empty1, r1) && Verdict(cfg, s, min, empty2, r2) && (empty1 || empty2 ==> min.Some?)
    ensures SameVerdict(r1, r2) <==> (empty1 <==> empty2)
  {
    if min.Some? {
      ReasonsDiffer(cfg, VRAM_RETRY_MS, min.value);
      ReasonsDiffer(cfg, min.value, min.value);
    }
    assert forall ms, reason :: Refuse(cfg, ms, reason).Refused?;
    hide Refuse;
  }

  lemma VerdictIs(cfg: Config, s: State, req: Request, choice: Option<string>)
    requires WellFormed(s) && Predictive(cfg.strategy)
    requires choice.Some? ==> Eligible(cfg, s, req, choice.value)
    ensures MinScore(cfg, s, req, choice).Some? <==> choice.Some?
    ensures Verdict(cfg, s, MinScore(cfg, s, req, choice), choice == Some(""), Pick(cfg, s, req, choice).1)
  {
    hide ScoreOf, RecordDecision, ReasonText, RetryAfter.NewAdmissionError;
  }

  // ----- Placement -----

  /**
    Enough memory for a large request. Only RLS insists on the hard limit; the others take a
    reading of zero or less for no reading at all.
   */
  predicate MemoryAllows(cfg: Config, req: Request, vram: int) {
    Tokens(req) > LARGE_REQUEST_TOKENS ==> vram >= VRAM_HARD_LIMIT_MB || (!cfg.strategy.RLS? && vram <= 0)
  }

  /**
    No large request is scored on a worker short of memory, ablations included; none crosses
    tiers while tiers count.
   */
  lemma CandidatesAreSafe(cfg: Config, s: State, req: Request, id: string)
    requires WellFormed(s) && Candidate(cfg, s, req, id)
    ensures MemoryAllows(cfg, req, s.workers[id].vram)
    ensures !cfg.flags.noTier && req.tier == "large" ==> ForecastOf(cfg, s, req, id).tier == "large"
  {
    hide Affine, Nlms.Line, Nlms.Interference, Nlms.Contended, WaitMs, VramMs;
  }

  /**
    Main result: on every run, an admitted large request never sits on a worker reporting
    too little memory, and keeps to large workers while tiers are enabled.
   */
  lemma PlacementSafety(cfg: Config, events: seq<Event>, req: Request, choice: Option<string>)
    requires IsRun(cfg, events + [PickWorker(req, choice)]) && Predictive(cfg.strategy)
    ensures var s := After(cfg, events);
            && (choice.Some? ==> Eligible(cfg, s, req, choice.value))
            && var r := Pick(cfg, s, req, choice).1;
               r.Picked? ==>
                 && r.id in s.workers && r.id in s.nlms
                 && MemoryAllows(cfg, req, s.workers[r.id].vram)
                 && (!cfg.flags.noTier && req.tier == "large" ==> s.nlms[r.id].tier == "large")
  {
    hide MemoryAllows;
    var all, s := events + [PickWorker(req, choice)], After(cfg, events);
    assert Front(all) == events && Last(all) == PickWorker(req, choice);
    assert ValidChoice(cfg, s, req, choice);
    ReachableConsistent(cfg, events);
    PickEffect(cfg, s, req, choice);
    var r := Pick(cfg, s, req, choice).1;
    hide Pick, After, IsRun;
    if r.Picked? {
      CandidatesAreSafe(cfg, s, req, r.id);
      assert Paired(s.nlms[r.id], s.rls[r.id]);
    }
  }

  // ----- Affinity -----

  /** The chosen worker's cost without affinity is within one bonus of everyone's. */
  lemma AffinityRegret(cfg: Config, s: State, req: Request, id: string, other: string)
    requires WellFormed(s) && Predictive(cfg.strategy) && ValidChoice(cfg, s, req, Some(id))
             && Candidate(cfg, s, req, other)
    ensures Candidate(cfg, s, req, id)
    ensures Base(ScoreOf(cfg, s, req, id)) <= Base(ScoreOf(cfg, s, req, other)) + CACHE_BONUS_MS
  {
    assert Eligible(cfg, s, req, other) && AtLeastAsGood(cfg, s, req, id, other);
    ScoreBonus(cfg, s, req, id);
    ScoreBonus(cfg, s, req, other);
    hide ScoreOf;
  }

  lemma ScoreBonus(cfg: Config, s: State, req: Request, id: string)
    requires WellFormed(s) && Candidate(cfg, s, req, id)
    ensures ScoreOf(cfg, s, req, id).breakdown.cacheBonusMs
            == if !cfg.flags.noCache && Cached(s.prefixCache, PrefixHash(cfg.fnv, req.data), s.workers[id])
                 then CACHE_BONUS_MS else 0.0
    ensures ScoreOf(cfg, s, req, id).total
            == Base(ScoreOf(cfg, s, req, id)) - ScoreOf(cfg, s, req, id).breakdown.cacheBonusMs
  {
    BreakdownAddsUp(req, s.workers[id], ForecastOf(cfg, s, req, id), s.prefixCache, PrefixHash(cfg.fnv, req.data),
      cfg.flags);
    hide ComputeWorkerScore, ForecastOf;
  }

  /**
    A prefix leaves the worker that holds it, while that worker is a candidate, only for a gain
    of at least the bonus.
   */
  lemma AffinitySticks(cfg: Config, s: State, req: Request, id: string)
    requires Consistent(cfg, s) && Predictive(cfg.strategy) && !cfg.flags.noCache && ValidChoice(cfg, s, req, Some(id))
    requires var key := PrefixHash(cfg.fnv, req.data);
             key in s.prefixCache && Candidate(cfg, s, req, s.prefixCache[key])
    requires id != s.prefixCache[PrefixHash(cfg.fnv, req.data)]
    ensures Candidate(cfg, s, req, id)
    ensures Base(ScoreOf(cfg, s, req, id))
            <= Base(ScoreOf(cfg, s, req, s.prefixCache[PrefixHash(cfg.fnv, req.data)])) - CACHE_BONUS_MS
  {
    var holder := s.prefixCache[PrefixHash(cfg.fnv, req.data)];
    assert Eligible(cfg, s, req, holder) && AtLeastAsGood(cfg, s, req, id, holder);
    assert WorkerFine(id, s.workers[id]) && WorkerFine(holder, s.workers[holder]);
    ScoreBonus(cfg, s, req, id);
    ScoreBonus(cfg, s, req, holder);
    hide ScoreOf, Consistent;
  }

  predicate AdmitsPrefix(cfg: Config, s: State, ev: Event, key: Hash)
    requires WellFormed(s)
  {
    ev.PickWorker? && Usable(cfg, s, ev) && PrefixHash(cfg.fnv, ev.req.data) == key
      && Pick(cfg, s, ev.req, ev.choice).1.Picked?
  }

  /** The worker of the last admitted pick with this prefix key, if there was one. */
  function LastHolder(cfg: Config, events: seq<Event>, key: Hash): Option<string> {
    if events == [] then None
    else
      var s, ev := After(cfg, Front(events)), Last(events);
      if AdmitsPrefix(cfg, s, ev, key) then Some(Pick(cfg, s, ev.req, ev.choice).1.id)
        else LastHolder(cfg, Front(events), key)
  }

  function Lookup(cache: map<Hash, string>, key: Hash): Option<string> {
    if key in cache then Some(cache[key]) else None
  }

  lemma StepCache(cfg: Config, s: State, ev: Event, key: Hash)
    requires WellFormed(s) && Usable(cfg, s, ev)
    ensures Lookup(Apply(cfg, s, ev).prefixCache, key)
            == if AdmitsPrefix(cfg, s, ev, key) then Some(Pick(cfg, s, ev.req, ev.choice).1.id)
                 else Lookup(s.prefixCache, key)
  {
    if ev.PickWorker? {
      PickEffect(cfg, s, ev.req, ev.choice);
    }
    hide Pick, PrefixHash, Nlms.Step, Rls.Step, SampleOf, RecordCompletion;
  }

  /**
    The prefix cache of a run remembers exactly the last admission of every prefix key, through
    feedback, resets and re-registrations.
   */
  lemma {:induction false} CacheIsLastAdmission(cfg: Config, events: seq<Event>, key: Hash)
    requires IsRun(cfg, events)
    ensures Lookup(After(cfg, events).prefixCache, key) == LastHolder(cfg, events, key)
  {
    if events != [] {
      CacheIsLastAdmission(cfg, Front(events), key);
      LastStep(cfg, events);
      StepCache(cfg, After(cfg, Front(events)), Last(events), key);
      hide Apply, AdmitsPrefix, After, IsRun, Lookup;
    }
  }

  // ----- The decision log -----

  /** The decision a step records, if any: predictive picks record their choice, refused or not. */
  function Recorded(cfg: Config, s: State, ev: Event): seq<Decision>
    requires WellFormed(s)
  {
    if ev.PickWorker? && Usable(cfg, s, ev) && Predictive(cfg.strategy) && ev.choice.Some? && ev.choice.value != ""
    then [ScoreOf(cfg, s, ev.req, ev.choice.value).breakdown] else []
  }

  function AllDecisions(cfg: Config, events: seq<Event>): seq<Decision> {
    if events == [] then []
    else AllDecisions(cfg, Front(events)) + Recorded(cfg, After(cfg, Front(events)), Last(events))
  }

  lemma StepLog(cfg: Config, s: State, ev: Event)
    requires WellFormed(s) && Usable(cfg, s, ev)
    ensures var s', ds := Apply(cfg, s, ev), Recorded(cfg, s, ev);
            if ds == [] then s'.log == s.log && s'.lastDecision == s.lastDecision
            else |ds| == 1 && s'.log == LastN(s.log + [ds[0]], DECISION_LOG_CAP) && s'.lastDecision == Some(ds[0])
  {
    hide ScoreOf, Nlms.Step, Rls.Step, SampleOf, RecordCompletion, LastN;
  }

  /** The decision log is the last 200 decisions of the whole run, and the last decision is its newest entry. */
  lemma {:induction false} LogIsLastDecisions(cfg: Config, events: seq<Event>)
    requires IsRun(cfg, events)
    ensures var s, all := After(cfg, events), AllDecisions(cfg, events);
            && s.log == LastN(all, DECISION_LOG_CAP)
            && s.lastDecision == if all == [] then None else Some(all[|all| - 1])
  {
    if events == [] {
      hide Apply, Recorded, IsRun;
    } else {
      hide Apply, Recorded, LastN, After, IsRun, Usable;
      LastStep(cfg, events);
      var s, ev := After(cfg, Front(events)), Last(events);
      LogIsLastDecisions(cfg, Front(events));
      StepLog(cfg, s, ev);
      var all, ds := AllDecisions(cfg, Front(events)), Recorded(cfg, s, ev);
      if ds == [] {
        assert all + ds == all;
      } else {
        assert ds == [ds[0]];
        LastNAppend(all, ds[0], DECISION_LOG_CAP);
      }
    }
  }

  // ----- Counters -----

  predicate Answered(cfg: Config, ev: Event) {
    ev.PickWorker? && !(cfg.strategy.RoundRobin? && ev.choice.None?)
  }

  /** Picks answered since the counters were last reset. */
  function PicksSinceReset(cfg: Config, events: seq<Event>): nat {
    if events == [] || Last(events).ResetStatistics? then 0
    else PicksSinceReset(cfg, Front(events)) + if Answered(cfg, Last(events)) then 1 else 0
  }

  function CompletionsSinceReset(events: seq<Event>): nat {
    if events == [] || Last(events).ResetStatistics? then 0
    else CompletionsSinceReset(Front(events)) + if Last(events).FeedbackFor? && Last(events).e2eMs > 0.0 then 1 else 0
  }

  function Decided(st: Stats): nat {
    st.admitted + st.rejectedSlo + st.rejectedVram + st.rejectedNoWorker
  }

  /** Completions judged against the SLO. */
  function Judged(st: Stats): nat {
    st.completedUnder + st.completedOver
  }

  predicate Counted(st: Stats, picks: nat, completions: nat) {
    Decided(st) == picks && Judged(st) == st.completedTotal == completions
  }

  lemma CountedStep(a: Stats, b: Stats, picks: nat, completions: nat, dp: nat, dc: nat)
    requires Counted(a, picks, completions)
    requires Decided(b) == Decided(a) + dp && Judged(b) == Judged(a) + dc && b.completedTotal == a.completedTotal + dc
    ensures Counted(b, picks + dp, completions + dc)
  {
  }

  lemma CountedNone()
    ensures Counted(NO_STATS, 0, 0)
  {
  }

  lemma SettleCounters(cfg: Config, s: State, req: Request, best: string, min: Option<real>,
                       breakdown: Option<Decision>)
    requires best == "" || best in s.workers
    ensures var a, b := s.stats, Settle(cfg, s, req, best, min, breakdown).0.stats;
            Decided(b) == Decided(a) + 1 && Judged(b) == Judged(a) && b.completedTotal == a.completedTotal
  {
    hide Refuse, LastN, PrefixHash;
  }

  lemma PickCounters(cfg: Config, s: State, req: Request, choice: Option<string>)
    requires WellFormed(s) && (choice.Some? ==> Eligible(cfg, s, req, choice.value))
    ensures var a, b := s.stats, Pick(cfg, s, req, choice).0.stats;
            && Decided(b) == Decided(a) + (if cfg.strategy.RoundRobin? && choice.None? then 0 else 1)
            && Judged(b) == Judged(a) && b.completedTotal == a.completedTotal
  {
    assert choice.Some? ==> choice.value in s.workers;
    hide Eligible, MinScore, BreakdownOf, Settle, Decided, Judged;
    SettleCounters(cfg, s, req, if choice.Some? then choice.value else "", MinScore(cfg, s, req, choice),
      BreakdownOf(cfg, s, req, choice));
  }

  lemma FeedbackCounters(cfg: Config, s: State, id: string, e2eMs: real, tokens: int)
    requires WellFormed(s)
    ensures var a, b := s.stats, Feedback(cfg, s, id, e2eMs, tokens).stats;
            && Decided(b) == Decided(a)
            && b.completedTotal == a.completedTotal + (if e2eMs > 0.0 then 1 else 0)
            && Judged(b) == Judged(a) + (if e2eMs > 0.0 then 1 else 0)
  {
    hide Nlms.Step, Rls.Step, SampleOf, PriorPrediction, WorkerVram;
  }

  lemma StepCounters(cfg: Config, s: State, ev: Event)
    requires WellFormed(s) && Usable(cfg, s, ev)
    ensures var a, b := s.stats, Apply(cfg, s, ev).stats;
            if ev.ResetStatistics? then b == NO_STATS
            else
              var done := if ev.FeedbackFor? && ev.e2eMs > 0.0 then 1 else 0;
              && Decided(b) == Decided(a) + (if Answered(cfg, ev) then 1 else 0)
              && Judged(b) == Judged(a) + done
              && b.completedTotal == a.completedTotal + done
  {
    hide Pick, Feedback, Decided, Judged;
    if ev.PickWorker? {
      PickCounters(cfg, s, ev.req, ev.choice);
    } else if ev.FeedbackFor? {
      FeedbackCounters(cfg, s, ev.id, ev.e2eMs, ev.tokens);
    } else {
      assert !ev.ResetStatistics? ==> Apply(cfg, s, ev).stats == s.stats;
    }
  }

  /**
    Goodput accounting: every answered pick is admitted or refused once, and every completion is
    under or over the SLO.
   */
  lemma {:induction false} GoodputAccounts(cfg: Config, events: seq<Event>)
    requires IsRun(cfg, events)
    ensures Counted(After(cfg, events).stats, PicksSinceReset(cfg, events), CompletionsSinceReset(events))
  {
    hide Apply, Decided, Judged, Counted, Answered, ValidChoice;
    CountedNone();
    if events != [] {
      var s, ev := After(cfg, Front(events)), Last(events);
      GoodputAccounts(cfg, Front(events));
      PossibleIsUsable(cfg, s, ev);
      hide Usable, Possible;
      StepCounters(cfg, s, ev);
      if !ev.ResetStatistics? {
        CountedStep(s.stats, Apply(cfg, s, ev).stats, PicksSinceReset(cfg, Front(events)),
          CompletionsSinceReset(Front(events)),
                    if Answered(cfg, ev) then 1 else 0, if ev.FeedbackFor? && ev.e2eMs > 0.0 then 1 else 0);
      }
    }
  }
}
