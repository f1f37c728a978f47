/** LeastLoaded spreads a burst evenly, and the global queue depth follows picks and completions. */
module Balance {
  import opened RealArith
  import opened Cost
  import opened MapSums
  import opened SchedulerModel
  import opened SchedulerRuns
  import opened Wrappers

  function PendingMap(s: State): map<string, real> {
    map id | id in s.workers :: s.workers[id].pending as real
  }

  /** The queue depth over all workers. */
  ghost function QueueDepth(s: State): real {
    SumOver(PendingMap(s))
  }

  /** An admitted pick deepens the global queue by one, a refused one leaves it. */
  lemma PickDepth(cfg: Config, s: State, req: Request, choice: Option<string>)
    requires WellFormed(s) && (choice.Some? ==> Eligible(cfg, s, req, choice.value))
    ensures var (s', r) := Pick(cfg, s, req, choice);
            QueueDepth(s') == QueueDepth(s) + if r.Picked? then 1.0 else 0.0
  {
    PickEffect(cfg, s, req, choice);
    var (s', r) := Pick(cfg, s, req, choice);
    hide Pick, Eligible;
    if r.Picked? {
      assert PendingMap(s') == PendingMap(s)[r.id := s.workers[r.id].pending as real + 1.0];
      SumUpdate(PendingMap(s), r.id, s.workers[r.id].pending as real + 1.0);
    }
  }

  /** No two workers differ by more than one, and k units are pending in all. */
  ghost predicate Balanced(s: State, k: nat) {
    && (forall a, b :: a in s.workers && b in s.workers ==> s.workers[a].pending <= s.workers[b].pending + 1)
    && QueueDepth(s) == k as real
  }

  /** LeastLoaded over a non-empty pool always settles on a worker nobody undercuts. */
  lemma ChoosesLeast(cfg: Config, s: State, req: Request, choice: Option<string>)
    requires Consistent(cfg, s) && cfg.strategy.LeastLoaded? && s.workers != map[]
    requires ValidChoice(cfg, s, req, choice)
    ensures choice.Some? && choice.value in s.workers
    ensures forall other <- s.workers :: s.workers[choice.value].pending <= s.workers[other].pending
  {
    forall other | other in s.workers ensures Eligible(cfg, s, req, other) {
      assert WorkerFine(other, s.workers[other]);
    }
    hide Consistent;
    var id :| id in s.workers;
    assert Eligible(cfg, s, req, id);
    forall other | other in s.workers ensures s.workers[choice.value].pending <= s.workers[other].pending {
      assert AtLeastAsGood(cfg, s, req, choice.value, other);
    }
  }

  lemma ChoiceAdmitted(cfg: Config, s: State, req: Request, id: string)
    requires WellFormed(s) && cfg.strategy.LeastLoaded? && id in s.workers && Eligible(cfg, s, req, id)
    ensures Pick(cfg, s, req, Some(id)).1 == if id == "" then NoWorker else Picked(id)
  {
    hide Eligible, PrefixHash;
  }

  lemma BalancedStep(cfg: Config, s: State, req: Request, choice: Option<string>, k: nat)
    requires Consistent(cfg, s) && cfg.strategy.LeastLoaded? && s.workers != map[]
    requires ValidChoice(cfg, s, req, choice) && Balanced(s, k)
    ensures var (s', r) := Pick(cfg, s, req, choice);
            && (r.Picked? <==> choice != Some(""))
            && Balanced(s', k + if r.Picked? then 1 else 0)
            && s'.workers.Keys == s.workers.Keys
            && ("" in s.workers ==> s'.workers[""] == s.workers[""])
  {
    hide Balanced, Pick, QueueDepth, AtLeastAsGood;
    ChoosesLeast(cfg, s, req, choice);
    assert Eligible(cfg, s, req, choice.value);
    hide Consistent, Eligible, ValidChoice;
    PickDepth(cfg, s, req, choice);
    PickEffect(cfg, s, req, choice);
    ChoiceAdmitted(cfg, s, req, choice.value);
    var (s', r) := Pick(cfg, s, req, choice);
    if r.Picked? {
      RaiseLeast(s, s', choice.value, k);
    } else {
      SameLoads(s, s', k);
    }
  }

  lemma SameLoads(s: State, s': State, k: nat)
    requires Balanced(s, k) && s'.workers == s.workers
    ensures Balanced(s', k)
  {
    hide SumOver;
  }

  lemma RaiseLeast(s: State, s': State, id: string, k: nat)
    requires Balanced(s, k) && id in s.workers
    requires forall other <- s.workers :: s.workers[id].pending <= s.workers[other].pending
    requires s'.workers == s.workers[id := s.workers[id].(pending := s.workers[id].pending + 1)]
    requires QueueDepth(s') == QueueDepth(s) + 1.0
    ensures Balanced(s', k + 1) && s'.workers.Keys == s.workers.Keys
  {
    hide QueueDepth;
  }

  predicate AllPicks(picks: seq<Event>) {
    forall i :: 0 <= i < |picks| ==> picks[i].PickWorker?
  }

  /** How many of the picks after `before` are admitted. */
  function Admissions(cfg: Config, before: seq<Event>, picks: seq<Event>): nat {
    if picks == [] then 0
    else
      var rest, ev := Front(picks), Last(picks);
      Admissions(cfg, before, rest) + if Admitted(cfg, After(cfg, before + rest), ev) then 1 else 0
  }

  predicate Admitted(cfg: Config, s: State, ev: Event)
    requires WellFormed(s)
  {
    ev.PickWorker? && Usable(cfg, s, ev) && Pick(cfg, s, ev.req, ev.choice).1.Picked?
  }

  /** From s to s', a of n picks were admitted: the loads stay balanced, and a worker under the empty id takes none. */
  ghost predicate Spread(s: State, s': State, a: nat, n: nat) {
    && Balanced(s', a)
    && s'.workers.Keys == s.workers.Keys
    && if "" in s.workers then s'.workers[""] == s.workers[""] else a == n
  }

  /**
    Throughout a burst no two workers differ by more than one, every admitted unit is pending,
    and the empty id takes none.
   */
  lemma {:induction false} BurstBalanced(cfg: Config, before: seq<Event>, picks: seq<Event>)
    requires cfg.strategy.LeastLoaded? && IsRun(cfg, before + picks) && AllPicks(picks)
    requires var s := After(cfg, before); s.workers != map[] && Balanced(s, 0)
    ensures Spread(After(cfg, before), After(cfg, before + picks), Admissions(cfg, before, picks), |picks|)
    decreases |picks|
  {
    hide Balanced, Consistent, Pick, ValidChoice, After, Usable, Admitted, IsRun;
    if picks == [] {
      assert before + picks == before;
    } else {
      hide Spread;
      var rest := Front(picks);
      assert Front(before + picks) == before + rest && Last(before + picks) == Last(picks);
      assert IsRun(cfg, before + rest) by { LastStep(cfg, before + picks); }
      BurstBalanced(cfg, before, rest);
      SpreadStep(cfg, After(cfg, before), before + picks, Admissions(cfg, before, rest), |rest|);
    }
  }

  lemma SpreadStep(cfg: Config, s: State, events: seq<Event>, a: nat, n: nat)
    requires cfg.strategy.LeastLoaded? && events != [] && IsRun(cfg, events) && Last(events).PickWorker?
    requires s.workers != map[] && Spread(s, After(cfg, Front(events)), a, n)
    ensures var admitted := Admitted(cfg, After(cfg, Front(events)), Last(events));
            Spread(s, After(cfg, events), a + if admitted then 1 else 0, n + 1)
  {
    hide Balanced, IsRun, After, Admitted;
    SameKeysNonEmpty(s, After(cfg, Front(events)));
    BurstStep(cfg, events, a);
  }

  lemma BurstStep(cfg: Config, events: seq<Event>, k: nat)
    requires cfg.strategy.LeastLoaded? && events != [] && IsRun(cfg, events) && Last(events).PickWorker?
    requires var s := After(cfg, Front(events)); s.workers != map[] && Balanced(s, k)
    ensures var s, s' := After(cfg, Front(events)), After(cfg, events);
            var admitted := Admitted(cfg, s, Last(events));
            && Balanced(s', k + if admitted then 1 else 0)
            && s'.workers.Keys == s.workers.Keys
            && if "" in s.workers then s'.workers[""] == s.workers[""] else admitted
  {
    hide Balanced, Consistent, Pick, ValidChoice, IsRun, After;
    var s, ev := After(cfg, Front(events)), Last(events);
    RunFront(cfg, events);
    UsableChoice(cfg, s, ev);
    hide Usable;
    AfterPick(cfg, events);
    ReachableConsistent(cfg, Front(events));
    BalancedStep(cfg, s, ev.req, ev.choice, k);
    ChoiceRegistered(cfg, s, ev.req, ev.choice);
  }

  lemma ChoiceRegistered(cfg: Config, s: State, req: Request, choice: Option<string>)
    requires WellFormed(s) && cfg.strategy.LeastLoaded? && ValidChoice(cfg, s, req, choice)
    ensures choice.Some? ==> choice.value in s.workers
  {
    hide AtLeastAsGood;
  }

  lemma RunFront(cfg: Config, events: seq<Event>)
    requires events != [] && IsRun(cfg, events)
    ensures IsRun(cfg, Front(events)) && Possible(cfg, After(cfg, Front(events)), Last(events))
  {
  }

  lemma UsableChoice(cfg: Config, s: State, ev: Event)
    requires WellFormed(s) && ev.PickWorker? && ValidChoice(cfg, s, ev.req, ev.choice)
    ensures Usable(cfg, s, ev)
  {
  }

  lemma AfterPick(cfg: Config, events: seq<Event>)
    requires events != [] && Last(events).PickWorker? && Usable(cfg, After(cfg, Front(events)), Last(events))
    ensures After(cfg, events) == Pick(cfg, After(cfg, Front(events)), Last(events).req, Last(events).choice).0
  {
  }

  lemma SameKeysNonEmpty(s: State, s': State)
    requires s.workers.Keys == s'.workers.Keys && s.workers != map[]
    ensures s'.workers != map[]
  {
    var id :| id in s.workers;
    assert id in s'.workers;
  }

  /** All values within [floor, floor + 1] and one of them at the floor pin the sum down. */
  lemma SumNear(m: map<string, real>, floor: real, low: string)
    requires low in m && m[low] == floor && forall id <- m :: floor <= m[id] <= floor + 1.0
    ensures Times(|m| as real, floor) <= SumOver(m) <= Times(|m| as real, floor) + |m| as real - 1.0
  {
    hide Times, SumOver;
    SumRemove(m, low);
    var rest := m - {low};
    assert |rest.Keys| == |m.Keys - {low}| == |m| - 1;
    assert forall j <- rest :: j in m && rest[j] == m[j];
    SumBounds(rest, floor, floor + 1.0);
    TimesAdd(|rest| as real, floor, 1.0, floor + 1.0);
    TimesOne(|rest| as real);
    TimesSucc(|rest| as real, floor);
    assert |m| as real == |rest| as real + 1.0;
  }

  lemma TimesOne(x: real)
    ensures Times(x, 1.0) == x
  {
  }

  /** A single value above the floor lifts the sum above n times the floor. */
  lemma SumAbove(m: map<string, real>, floor: real, w: string)
    requires w in m && m[w] == floor + 1.0 && forall id <- m :: floor <= m[id] <= floor + 1.0
    ensures SumOver(m) >= Times(|m| as real, floor) + 1.0
  {
    hide Times, SumOver;
    SumRemove(m, w);
    var rest := m - {w};
    assert |rest.Keys| == |m.Keys - {w}| == |m| - 1;
    assert forall j <- rest :: j in m && rest[j] == m[j];
    SumBounds(rest, floor, floor + 1.0);
    TimesSucc(|rest| as real, floor);
    assert |m| as real == |rest| as real + 1.0;
  }

  lemma TimesInt(n: nat, floor: int)
    ensures Times(n as real, floor as real) == (n * floor) as real
  {
  }

  /** Between the least and the greatest load, everything is within one of the average. */
  lemma NearAverage(s: State, k: nat, w: string)
    requires Balanced(s, k) && w in s.workers
    ensures var n := |s.workers|;
            n > 0 && (s.workers[w].pending == k / n || (s.workers[w].pending == k / n + 1 && k % n != 0))
  {
    var m, n := PendingMap(s), |s.workers|;
    assert m.Keys == s.workers.Keys;
    assert |m| == |m.Keys| == |s.workers.Keys| == n;
    var low := LeastPending(s, s.workers.Keys);
    var floor := s.workers[low].pending;
    forall id | id in m ensures floor as real <= m[id] <= floor as real + 1.0 {
      assert s.workers[id].pending <= s.workers[low].pending + 1;
    }
    SumNear(m, floor as real, low);
    TimesInt(n, floor);
    assert w in m && n > 0;
    if s.workers[w].pending != floor {
      assert m[w] == floor as real + 1.0;
      SumAbove(m, floor as real, w);
    }
    hide SumOver, Times;
    DivisionIs(n, k, floor);
    if s.workers[w].pending != floor {
      AboveAverage(n, floor, k);
    }
  }

  lemma DivisionIs(n: nat, k: nat, q: int)
    requires n > 0 && n * q <= k <= n * q + n - 1
    ensures k / n == q
  {
    assert k == n * (k / n) + k % n;
    SmallMultiple(n, k / n - q);
  }

  lemma SmallMultiple(n: nat, d: int)
    requires n > 0
    ensures d > 0 ==> n * d >= n
    ensures d < 0 ==> n * d + n <= 0
  {
    if d > 0 {
      assert n * (d - 1) >= 0;
    } else if d < 0 {
      assert n * (-d - 1) >= 0;
    }
  }

  lemma AboveAverage(n: nat, floor: int, k: nat)
    requires n > 0 && k / n == floor && n * floor + 1 <= k
    ensures k % n != 0
  {
    assert k == n * (k / n) + k % n;
  }

  lemma LeastPending(s: State, ids: set<string>) returns (low: string)
    requires ids <= s.workers.Keys && ids != {}
    ensures low in ids && forall id <- ids :: s.workers[low].pending <= s.workers[id].pending
    decreases |ids|
  {
    low :| low in ids;
    if ids != {low} {
      var rest := ids - {low};
      var other := LeastPending(s, rest);
      forall id | id in ids && id != low ensures s.workers[other].pending <= s.workers[id].pending {
        assert id in rest;
      }
      if s.workers[other].pending < s.workers[low].pending {
        low := other;
      }
    }
  }

  ghost predicate AllIdle(s: State) {
    forall id <- s.workers :: s.workers[id].pending == 0
  }

  lemma {:induction false} ZeroSum(m: map<string, real>)
    requires forall k <- m :: m[k] == 0.0
    ensures SumOver(m) == 0.0
  {
    SumBounds(m, 0.0, 0.0);
  }

  /**
    Main result: from an idle pool of n workers, whatever the map order and ties, a burst of
    picks leaves every worker with the floor or the ceiling of a / n, where a picks were
    admitted. That is all of them, unless a worker holds the empty id: such a pool admits
    fewer than n and then refuses everything.
   */
  lemma LeastLoadedFair(cfg: Config, before: seq<Event>, picks: seq<Event>, w: string)
    requires cfg.strategy.LeastLoaded? && IsRun(cfg, before + picks) && AllPicks(picks)
    requires var s := After(cfg, before); AllIdle(s) && w in s.workers
    ensures var s, s', a := After(cfg, before), After(cfg, before + picks), Admissions(cfg, before, picks);
            var n := |s.workers|;
            && n > 0 && w in s'.workers
            && (s'.workers[w].pending == a / n || (s'.workers[w].pending == a / n + 1 && a % n != 0))
            && if "" in s.workers then a < n else a == |picks|
  {
    hide Balanced, AllIdle, After, IsRun, Admissions;
    IdleBalanced(After(cfg, before), w);
    BurstBalanced(cfg, before, picks);
    FairShare(After(cfg, before), After(cfg, before + picks), Admissions(cfg, before, picks), w);
  }

  lemma IdleBalanced(s: State, w: string)
    requires AllIdle(s) && w in s.workers
    ensures Balanced(s, 0) && s.workers != map[]
  {
    ZeroSum(PendingMap(s));
    hide SumOver;
  }

  lemma FairShare(s: State, s': State, a: nat, w: string)
    requires AllIdle(s) && Balanced(s', a) && s'.workers.Keys == s.workers.Keys && w in s.workers
    requires "" in s.workers ==> s'.workers[""] == s.workers[""]
    ensures var n := |s.workers|;
            && n > 0 && w in s'.workers
            && (s'.workers[w].pending == a / n || (s'.workers[w].pending == a / n + 1 && a % n != 0))
            && ("" in s.workers ==> a < n)
  {
    assert "" in s.workers ==> s.workers[""].pending == 0;
    assert |s'.workers| == |s'.workers.Keys| == |s.workers.Keys| == |s.workers|;
    hide Balanced, AllIdle;
    NearAverage(s', a, w);
    if "" in s.workers {
      NearAverage(s', a, "");
      DivisionBelow(a, |s.workers|);
    }
  }

  lemma DivisionBelow(a: nat, n: nat)
    requires n > 0 && a / n == 0
    ensures a < n
  {
    assert a == n * (a / n) + a % n;
  }
}
