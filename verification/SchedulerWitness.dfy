/** Concrete runs on which the scheduler does something its callers may not expect. */
module SchedulerWitness {
  import opened Constants
  import opened Cost
  import opened SchedulerModel
  import opened SchedulerRuns
  import opened Wrappers
  import Nlms
  import Routing

  /** A request of one token that asks for no particular tier. */
  const TINY := Request([], "any")

  const ROOMY_MB: int := 24000

  /** A freshly registered, idle worker costs its initial line: 2 ms per token and 150 ms. */
  lemma FreshScore(cfg: Config, s: State, id: string)
    requires WellFormed(s) && cfg.strategy.NLMS? && s.prefixCache == map[]
    requires id in s.workers && id in s.nlms
    requires s.workers[id] == Worker(id, true, ROOMY_MB, 0)
             && s.nlms[id] == NlmsEntry("small", ROOMY_MB, FreshNlms(cfg))
    ensures Candidate(cfg, s, TINY, id) && ScoreOf(cfg, s, TINY, id).total == 152.0
  {
    var p := s.nlms[id].model;
    assert Nlms.Interference(p) == 1.0;
    assert Nlms.Line(p, 1) == 152.0;
    assert Nlms.EstimateOf(p, 1, ROOMY_MB) == Ms(152.0);
    hide Nlms.Line, Nlms.Interference, Nlms.EstimateOf, PrefixHash;
  }

  lemma OneWorker(cfg: Config, id: string)
    requires cfg.strategy.NLMS?
    ensures var events := [RegisterWorker(id, "small", ROOMY_MB)]; var s := After(cfg, events);
            && IsRun(cfg, events) && s == Register(cfg, EMPTY, id, "small", ROOMY_MB)
            && Candidate(cfg, s, TINY, id) && ScoreOf(cfg, s, TINY, id).total == 152.0
            && ValidChoice(cfg, s, TINY, Some(id))
  {
    var ev := RegisterWorker(id, "small", ROOMY_MB);
    assert [] + [ev] == [ev];
    RunExtends(cfg, [], ev);
    var s := After(cfg, [ev]);
    hide After, IsRun, FreshNlms, ScoreOf;
    FreshScore(cfg, s, id);
  }

  /** A feasible request is refused: the only worker is idle, cheap enough, and registered under the empty id. */
  lemma EmptyIdRefusesFeasible(cfg: Config)
    requires cfg.strategy.NLMS? && !cfg.admissionOff && cfg.sloMs >= 152.0
    ensures var events := [RegisterWorker("", "small", ROOMY_MB), PickWorker(TINY, Some(""))];
            var s := After(cfg, [events[0]]);
            && IsRun(cfg, events)
            && Routing.Feasible(cfg, s, TINY) && Routing.EmptyIdWins(cfg, s, TINY)
            && Pick(cfg, s, TINY, Some("")).1 == NoWorker
  {
    var register, pick := RegisterWorker("", "small", ROOMY_MB), PickWorker(TINY, Some(""));
    OneWorker(cfg, "");
    assert [register] + [pick] == [register, pick];
    hide After, IsRun, ScoreOf;
    RunExtends(cfg, [register], pick);
  }

  /**
    A heartbeat forgets outstanding work: after a pick of w, re-registering w leaves the counter
    at 0 with one request outstanding.
   */
  lemma ReRegistrationForgets(cfg: Config, w: string)
    requires cfg.strategy.NLMS? && (cfg.admissionOff || cfg.sloMs >= 152.0) && w != ""
    ensures var register := RegisterWorker(w, "small", ROOMY_MB);
            var events := [register, PickWorker(TINY, Some(w)), register];
            && IsRun(cfg, events) && AnswersPicks(cfg, events, w) && Forgotten(cfg, events, w)
            && Pending(After(cfg, events), w) == 0 && Outstanding(cfg, events, w) == 1
  {
    var register, pick := RegisterWorker(w, "small", ROOMY_MB), PickWorker(TINY, Some(w));
    OneWorker(cfg, w);
    var s := After(cfg, [register]);
    assert Pick(cfg, s, TINY, Some(w)).1 == Picked(w) by { hide ScoreOf; }
    hide Pick, ScoreOf, Eligible, ValidChoice;
    assert [register] + [pick] == [register, pick];
    RunExtends(cfg, [register], pick);
    assert [register, pick] + [register] == [register, pick, register];
    RunExtends(cfg, [register, pick], register);
    CountsOf(cfg, register, pick, w);
  }

  /** The same at any point of any run: a heartbeat of w while work is outstanding on it forgets all of that work. */
  lemma AnyHeartbeatForgets(cfg: Config, events: seq<Event>, w: string, tier: string, vramMb: int)
    requires IsRun(cfg, events) && AnswersPicks(cfg, events, w) && Outstanding(cfg, events, w) > 0
    ensures var after := events + [RegisterWorker(w, tier, vramMb)];
            && IsRun(cfg, after) && AnswersPicks(cfg, after, w) && Forgotten(cfg, after, w)
            && Pending(After(cfg, after), w) == 0 && Outstanding(cfg, after, w) == Outstanding(cfg, events, w)
  {
    var register := RegisterWorker(w, tier, vramMb);
    var after := events + [register];
    assert Front(after) == events && Last(after) == register;
    RunExtends(cfg, events, register);
    hide After, IsRun, FreshNlms;
    assert Outstanding(cfg, after, w) == Outstanding(cfg, events, w);
  }

  lemma CountsOf(cfg: Config, register: Event, pick: Event, w: string)
    requires register.RegisterWorker? && register.id == w && PicksWorker(cfg, After(cfg, [register]), pick, w)
    ensures var events := [register, pick, register];
            Outstanding(cfg, events, w) == 1 && AnswersPicks(cfg, events, w) && Forgotten(cfg, events, w)
  {
    var one, two, three := [register], [register, pick], [register, pick, register];
    assert Front(one) == [] && Front(two) == one && Front(three) == two;
    hide After;
    assert Outstanding(cfg, [], w) == 0 && AnswersPicks(cfg, [], w);
    assert Outstanding(cfg, one, w) == 0 && AnswersPicks(cfg, one, w);
    assert Outstanding(cfg, two, w) == 1 && AnswersPicks(cfg, two, w);
    assert Outstanding(cfg, three, w) == 1 && AnswersPicks(cfg, three, w);
  }
}
