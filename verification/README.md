# The DIO control plane, modelled and proved

DIO routes inference requests to GPU workers. Its Go control plane learns a latency model
per worker, turns it into one scalar cost, sends each request to the cheapest worker and
refuses requests that would miss the SLO. This project models that control plane, the mock
vLLM engine used against it, and the routines that judge and publish its experiments.
Floating-point numbers are modelled as reals.

The proofs follow the parts of the system:

- **Latency learners.** `Rls` and `RlsBatch` prove that recursive least squares with
  forgetting is batch weighted least squares after every sample exactly as long as no floor
  fires, and that updates without floors neither lose nor regain optimality. `Nlms` proves that the dual-timescale filter stays bounded on
  bounded latencies, and that on noise-free data an energy pays for every squared error.
  `RlsPredictor` and `NlmsPredictor` are the mutable objects; each method is proved equal
  to the step function the theorems are about.
- **Cost and scheduler.** `Cost` is the joint cost. `SchedulerModel` is the scheduler as a
  state machine on values, with the iteration order of the worker map left open, and
  `SchedulerRuns` its runs. `Routing`, `Balance`, `MemoryPressure` and `PredictionAccounts`
  hold the theorems about runs, `SchedulerWitness` and `MemoryWitness` concrete runs with
  surprising ends. `Scheduler` and `SchedulerObjects` are the source's own form: maps to mutable
  records, and loops over a map in arbitrary order. Every public call leaves the object in
  the state the model reaches on the calls made so far (`Reached`), so all run theorems
  apply to the object.
- **Engine slots.** `EngineState` is the lock-protected object, `EngineProtocol` its atomic
  steps interleaved over any number of threads.
- **Bookkeeping and text.** `PredictionHistory` (bounded window), `Ols` (least-squares line),
  `Wilcoxon`, `WilcoxonOrder`, `WilcoxonTies` and `SubsetSums` (exact signed-rank
  enumeration), `TableRewrite` and `TableRerun` (LaTeX table filling), `JsonEscape`,
  `RetryAfter`.
- `RealArith`, `MapSums`, `Windows`, `Wrappers` and `Constants` are shared support.

Where the code does not do what its comments or callers suggest, the model follows the code
and the exact condition is proved:

- The engine can deadlock for good. A thread counts as waiting or running when it arrives,
  but `start_service` lets any thread take any waiter's turn. Once every counted slot
  belongs to a thread that still waits to start, nobody ever starts again. This happens for
  every concurrency limit (`StuckReachable`), also when an arrival slips in between a finish
  and the next start (`LateArrivalJams`). Everything else drains (`DrainsIffNotStuck`).
- The admission rule fails for one worker id. The empty id also stands for "no worker", so a
  worker registered under it is never admitted. The rule holds for every map order exactly
  when no such worker is among the cheapest candidates within the SLO (`AdmissionRuleIff`);
  `EmptyIdRefusesFeasible` is a run on which a feasible request is refused. This concerns the
  scheduler's own interface: the manager saves a worker before registering it
  (`DIO/cmd/manager/main.go:158`), and the key-value store behind it refuses a blank key.
- Losing memory can make a worker cheaper. A reading above the memory the worker registered
  with turns the memory penalty into a discount. Under RLS a lower reading pays exactly when
  it crosses the soft limit while still above the registered memory
  (`RlsWhenLessMemoryPays`). Under NLMS the estimate stays put down to a third of the soft
  limit and rises below it, so there the discount must also outweigh that rise. A negative
  static line falls instead of rising, and pays exactly when the fall outweighs the change of
  the penalty (`NlmsWhenLessMemoryPays`, for every line and every lower reading).
  `LosingMemoryPays`, `RiseOutweighsDiscount` and `PenaltyOutweighsFall` are runs.
- Losing all memory can let a worker in. Outside RLS the hard limit looks only at readings
  above zero, so a lower reading admits a barred worker exactly when it falls to zero or
  below, for requests of more than 1000 tokens (`NlmsWhenLessMemoryAdmits`). On the run
  `NoMemoryIsLetIn` a worker barred at 1500 MB takes such a request at 0 MB. RLS has no such
  gap (`PlacementSafety`).
- A heartbeat that re-registers a busy worker forgets its outstanding work; the pending
  counter is exact if and only if that has not happened (`PendingConserved`;
  `ReRegistrationForgets` is a run on which it is wrong).
- Rewriting a table again equals rewriting it once exactly when the first rows hold no end
  rule of their own (`PutPut`, `PutGet`); with such rows, free of the two labels as well,
  re-running the whole filler is safe as its header promises (`RerunIsSafe`).
- `escapeJSON` produces text a JSON parser accepts if and only if the prompt has no control
  character other than newline (`PromptRoundTrip`).
- The first floor of the RLS predictor that fires costs optimality (`OptimalIffFloorsIdle`),
  and no number of later updates without floors brings it back (`FloorsLeaveATrace`).
- The signed-rank audit depends on the order of its input through ties of opposite sign. W⁺
  is the same for every order exactly when there are none (`OrderFreeIff`). The statistic and
  the p-value are the same exactly when there are none, or there is one and the least W⁺ is
  half a step below n(n+1)/4 (`StatisticFreeIff`, `CountFreeIff`).

## Model
| member | source | states |
|---|---|---|
| RlsBatch.RlsIsBatchLeastSquares | DIO/internal/scheduler/rls_predictor.go:36-79 | On any run without a floor, the held slope and intercept are the unique minimiser of the exponentially weighted squared error plus the prior term around (2, 150) |
| RlsBatch.AlwaysOptimalIffNoFloor | DIO/internal/scheduler/rls_predictor.go:36-79 | On every run, the held parameters minimise the batch cost after each prefix if and only if no floor ever fires |
| RlsBatch.OptimalIffFloorsIdle | DIO/internal/scheduler/rls_predictor.go:60-79 | From optimal parameters, the next update stays optimal if and only if neither floor fires |
| RlsBatch.IdleFloorsKeepStatus | DIO/internal/scheduler/rls_predictor.go:46-72 | An update whose floors are idle neither loses nor regains optimality |
| RlsBatch.FloorsLeaveATrace | DIO/internal/scheduler/rls_predictor.go:46-79 | The same over any number of updates: what a floor spoilt stays spoilt |
| RlsBatch.FirstFloorIsNeverForgotten | DIO/internal/scheduler/rls_predictor.go:74-79 | A concrete first sample after which the parameters are never optimal again while floors stay idle |
| RlsBatch.IdealIsBatchLeastSquares | DIO/internal/scheduler/rls_predictor.go:46-72 | The recursion without floors is the unique minimiser of the batch cost, whatever the samples |
| RlsBatch.DisplacementSurvives | DIO/internal/scheduler/rls_predictor.go:57-61 | Two parameter vectors under one covariance coincide after an unfloored update only if they did before |
| RlsBatch.BatchSplit | DIO/internal/scheduler/rls_predictor.go:36-79 | On every run the batch cost is its minimum plus the quadratic form of P⁻¹ around the parameters of the recursion without floors |
| RlsBatch.NextCost | DIO/internal/scheduler/rls_predictor.go:46-72 | One more sample grows the minimum by err²·λ/denom and recentres the bowl, on every run |
| RlsBatch.FloorCosts | DIO/internal/scheduler/rls_predictor.go:74-79 | From optimal parameters, a floor that fires leaves strictly higher batch cost than the unfloored update |
| RlsBatch.FirstSampleCanHitFloor | DIO/internal/scheduler/rls_predictor.go:74-79 | A concrete first sample on which a floor fires |
| Rls.ReachableModels | DIO/internal/scheduler/rls_predictor.go:36-87 | In every state reached by updates and resets P is symmetric positive definite and both parameters respect their floors |
| Rls.StepKeepsPosDef | DIO/internal/scheduler/rls_predictor.go:49-72 | An update keeps P symmetric positive definite and det P' · λ · denom = det P |
| Rls.InverseUpdate | DIO/internal/scheduler/rls_predictor.go:63-72 | The covariance update is the information update P'⁻¹ = λP⁻¹ + xxᵀ |
| Rls.DenomExceedsLambda | DIO/internal/scheduler/rls_predictor.go:53-56 | The guard against tiny denominators never fires: the denominator exceeds λ |
| Rls.PosteriorResidual | DIO/internal/scheduler/rls_predictor.go:46-61 | Before floors, the error left on the sample just absorbed is err·λ/denom, strictly smaller in size |
| RlsPredictor.PerWorkerRLSPredictor.constructor | DIO/internal/scheduler/rls_predictor.go:22-34 | A new predictor is the initial model |
| RlsPredictor.PerWorkerRLSPredictor.Update | DIO/internal/scheduler/rls_predictor.go:36-87 | The in-place update of all fields is the model step the theorems are about |
| RlsPredictor.PerWorkerRLSPredictor.Predict | DIO/internal/scheduler/rls_predictor.go:89-99 | A large request on a worker short of memory is barred; otherwise the line is returned |
| RlsPredictor.PerWorkerRLSPredictor.ResetState | DIO/internal/scheduler/loadbalancer.go:642-648 | A reset restores parameters and P, and keeps counts and average latency |
| Nlms.BoundedInputBoundedState | DIO/internal/scheduler/loadbalancer.go:61-128 | Latencies in (0, A] keep both slopes and the intercept of a learning predictor in fixed ranges on every run, whatever the token counts, memory readings and resets |
| Nlms.StepBounded | DIO/internal/scheduler/loadbalancer.go:97-117 | One update keeps those ranges: slopes at most max(2, 1.25A) and max(2, 5A), intercept at most max(150, A); in single mode both slopes are equal |
| Nlms.EnergyFalls | DIO/internal/scheduler/loadbalancer.go:70-117 | On noise-free data at a fixed token count the weighted squared parameter error falls by at least 1.913·err² per dual update (1.895 in single mode), floors included |
| Nlms.TotalSquaredError | DIO/internal/scheduler/loadbalancer.go:73-79 | The squared-error total of any noise-free run is at most the initial energy divided by that rate |
| Nlms.FiniteMisses | DIO/internal/scheduler/loadbalancer.go:70-117 | On noise-free data, predictions off by eps or more happen a bounded number of times |
| Nlms.EstimateAboveLine | DIO/internal/scheduler/loadbalancer.go:130-160 | Only memory bars a request, and a usable estimate never undercuts the line or the floors |
| NlmsPredictor.PerWorkerPredictor.constructor | DIO/internal/scheduler/loadbalancer.go:307-319 | A new predictor starts with both slopes and the intercept it was given and empty accounts |
| NlmsPredictor.PerWorkerPredictor.Update | DIO/internal/scheduler/loadbalancer.go:61-128 | The in-place update of slopes, intercept, accounts and interference ring is the model step |
| NlmsPredictor.PerWorkerPredictor.Slope | DIO/internal/scheduler/loadbalancer.go:43-49 | The effective slope: the 0.8/0.2 blend in dual mode, the fast slope otherwise |
| NlmsPredictor.PerWorkerPredictor.Predict | DIO/internal/scheduler/loadbalancer.go:130-160 | The estimate is barred, or the contended and interference-scaled line |
| NlmsPredictor.PerWorkerPredictor.ResetState | DIO/internal/scheduler/loadbalancer.go:635-641 | A reset restores slopes and intercept and keeps the accounts |
| EngineProtocol.SlotSafety | dio-serve/scripts/mock_vllm_server.py:46-78 | In every interleaving those in service never exceed running, running never exceeds the limit, and running + waiting counts the requests in flight |
| EngineProtocol.ReleaseNeverClamps | dio-serve/scripts/mock_vllm_server.py:76-78 | A finishing thread always gives back a counted slot, so max(0, …) never acts |
| EngineProtocol.DrainsIffNotStuck | dio-serve/scripts/mock_vllm_server.py:63-78 | Once arrivals stop, a reachable engine can empty itself if and only if it is not in the stuck state |
| EngineProtocol.DrainLength | dio-serve/scripts/mock_vllm_server.py:63-78 | Every arrival-free run spends exactly one unit of (in service) + 2·(not yet started) per step and never enters the stuck state |
| EngineProtocol.MaximalRunDrains | dio-serve/scripts/mock_vllm_server.py:63-78 | An arrival-free run that cannot go on has served everyone, in exactly that many steps |
| EngineProtocol.Progress | dio-serve/scripts/mock_vllm_server.py:67-73 | Some thread can start or finish unless the engine is idle or stuck |
| EngineProtocol.StuckForever | dio-serve/scripts/mock_vllm_server.py:63-74 | A stuck engine never starts or finishes anyone again, further arrivals included |
| EngineProtocol.StuckReachable | dio-serve/scripts/mock_vllm_server.py:55-73 | For every limit, one arrival more than there are slots before anyone starts leads there |
| EngineProtocol.WhatGetsStuck | dio-serve/scripts/mock_vllm_server.py:46-78 | A step enters the stuck state if and only if it is an arrival, while nobody is in service, that finds no free slot or takes the last one from under a waiter |
| EngineProtocol.LateArrivalJams | dio-serve/scripts/mock_vllm_server.py:139-165 | With one slot, an arrival between a finish and the waiter's start jams the engine |
| EngineState.SharedEngine.AdmitRequest | dio-serve/scripts/mock_vllm_server.py:46-61 | The in-place arrival is the model step and reports whether the prefix had been seen |
| EngineState.SharedEngine.TryStart | dio-serve/scripts/mock_vllm_server.py:63-74 | One pass of the start loop either starts the thread or changes nothing |
| EngineState.SharedEngine.ReleaseSlot | dio-serve/scripts/mock_vllm_server.py:76-78 | The in-place release is the model step |
| EngineState.SharedEngine.ResetCounters | dio-serve/scripts/mock_vllm_server.py:123-131 | The debug reset clears statistics and leaves running and waiting alone |
| Scheduler.Scheduler.constructor | DIO/internal/scheduler/loadbalancer.go:248-259 | A new scheduler is the empty model state |
| Scheduler.Scheduler.RegisterWorkerWithEngine | DIO/internal/scheduler/loadbalancer.go:266-324 | (Re-)registration replaces the worker, with its address and engine name, and both predictors by fresh ones, and touches nothing else |
| Scheduler.Scheduler.PickBestWorker | DIO/internal/scheduler/loadbalancer.go:344-470 | For some map order, the choice is one the strategy allows, and result and new state are the model's pick of it |
| Scheduler.Scheduler.PickPredictive | DIO/internal/scheduler/loadbalancer.go:472-522 | The loop returns a candidate of least cost over all healthy unblocked workers, with its cost and breakdown, or nothing if there is no candidate |
| Scheduler.Scheduler.PickLeastLoaded | DIO/internal/scheduler/loadbalancer.go:379-389 | The loop returns a healthy worker with the fewest pending tasks |
| Scheduler.Scheduler.PickLatencyBased | DIO/internal/scheduler/loadbalancer.go:391-407 | The loop returns a healthy worker with the least average latency, unknown averages counting as 0.1 |
| Scheduler.Scheduler.HealthyWorkerIds | DIO/internal/scheduler/loadbalancer.go:524-532 | Exactly the healthy workers, each once |
| Scheduler.Scheduler.Conclude | DIO/internal/scheduler/loadbalancer.go:432-469 | Logging, the admission rule and taking on the work are the model's settlement |
| Scheduler.Scheduler.FeedbackLoop | DIO/internal/scheduler/loadbalancer.go:534-585 | A completion teaches both predictors, the history, the counters and the worker's list of measurements, and releases one unit of work; a failure only releases |
| Scheduler.Scheduler.CancelRequest | DIO/internal/scheduler/loadbalancer.go:623-630 | A cancellation releases one unit of work, if there is any |
| Scheduler.Scheduler.ResetWorkerState | DIO/internal/scheduler/loadbalancer.go:632-649 | A reset restores both models of one worker and nothing else |
| Scheduler.Scheduler.SetWorkerVram | DIO/internal/scheduler/loadbalancer.go:715-721 | A reading replaces the free memory of a known worker and nothing else |
| Scheduler.Scheduler.ResetAdmissionStats | DIO/internal/scheduler/loadbalancer.go:617-621 | Counters and prediction history are emptied and nothing else changes |
| Scheduler.Scheduler.GetGlobalQueueDepth | DIO/internal/scheduler/loadbalancer.go:334-342 | The sum over the map, taken in any order, is the total pending work |
| SchedulerObjects.AdmissionStats.RecordCompletion | DIO/internal/scheduler/metrics.go:78-91 | The counters of one completion, judged against the SLO |
| Scheduler.Scheduler.ReachedInvariants | DIO/internal/scheduler/loadbalancer.go:266-324 | On every scheduler object reached through its methods each worker has both predictors, pending counts are never negative, every covariance is positive definite, cached prefixes point at workers and the log is capped |
| SchedulerRuns.PendingConserved | DIO/internal/scheduler/loadbalancer.go:277-283 | On every run whose completions answer earlier picks, 0 ≤ pending ≤ picks − completions, with equality if and only if no re-registration forgot work that is still outstanding |
| SchedulerWitness.ReRegistrationForgets | DIO/internal/scheduler/loadbalancer.go:277-283 | A run of registration, admitted pick and re-registration that leaves the counter at 0 with one request outstanding |
| SchedulerWitness.AnyHeartbeatForgets | DIO/internal/scheduler/loadbalancer.go:277-283 | The same after any run with work outstanding on a worker |
| SchedulerRuns.ReachableConsistent | DIO/internal/scheduler/loadbalancer.go:266-324 | In every reachable state each worker has one predictor of each kind, every cached prefix points at a registered worker, and learned models respect their floors |
| SchedulerRuns.PickEffect | DIO/internal/scheduler/loadbalancer.go:432-469 | A pick changes one pending counter and one cache entry if it admits, and neither if it refuses |
| Routing.AdmitsIffFeasible | DIO/internal/scheduler/loadbalancer.go:434-459 | NLMS, RLS and STATIC with admission on admit if and only if some candidate's cost is within the SLO and the choice is not the empty id |
| Routing.AdmissionRuleIff | DIO/internal/scheduler/loadbalancer.go:434-459 | For a state and a request, "admitted if and only if feasible" holds for every map order exactly when no worker under the empty id is a cheapest candidate within the SLO |
| SchedulerWitness.EmptyIdRefusesFeasible | DIO/internal/scheduler/loadbalancer.go:436-451 | A run of one registration and one pick that refuses a feasible request |
| Routing.EmptyIdNeverAdmitted | DIO/internal/scheduler/loadbalancer.go:436-451 | Under every strategy, a choice of the worker registered under the empty id is not admitted |
| Routing.OrderIrrelevant | DIO/internal/scheduler/loadbalancer.go:436-522 | Map order never changes the minimum cost, and two orders give the same verdict, admission or refusal with its text, exactly when they agree on whether the empty id is chosen |
| Routing.RefusalQuotesMinimum | DIO/internal/scheduler/loadbalancer.go:436-459 | Every refusal quotes the true minimum cost over all candidates, which exceeds the SLO; only for the empty id beyond the sentinel is it a fixed 5 s |
| Routing.RefusedClientIsTold | DIO/cmd/manager/main.go:33-57 | From the pick to the HTTP header: every refused client reads max(1, whole seconds) of the quoted cost |
| Routing.PlacementSafety | DIO/internal/scheduler/cost.go:68-100 | On every run, ablations included, an admitted request of more than 1000 tokens sits on a worker reporting at least 2400 MB, or outside RLS on one whose reading is zero or less; large requests stay on large workers while tiers count |
| Routing.AffinityRegret | DIO/internal/scheduler/cost.go:113-121 | The chosen worker's cost without affinity is within 200 ms of every candidate's |
| Routing.AffinitySticks | DIO/internal/scheduler/cost.go:113-121 | A prefix leaves the feasible worker that holds it only for a gain of at least 200 ms |
| Routing.CacheIsLastAdmission | DIO/internal/scheduler/loadbalancer.go:461-466 | On every run the prefix cache maps a key to the worker of the last admitted pick with that key, and holds nothing for keys never admitted |
| Routing.LogIsLastDecisions | DIO/internal/scheduler/loadbalancer.go:361-368 | The decision log is the last 200 decisions of the whole run, refused ones included, and the last decision is its newest entry |
| Routing.GoodputAccounts | DIO/internal/scheduler/metrics.go:62-91 | Since the last reset every answered pick is counted once as admitted or refused, and every completion once as under or over the SLO |
| Cost.CacheOnlyDiscounts | DIO/internal/scheduler/cost.go:113-121 | The cache never decides who may serve and never changes the rest of the cost |
| Cost.PendingTaskPrice | DIO/internal/scheduler/cost.go:85-93 | One more pending task bars nobody and costs an eighth of the average completion time |
| Cost.TierPrice | DIO/internal/scheduler/cost.go:95-103 | A small request pays exactly 500 ms for a large worker, a large one is barred elsewhere, others are indifferent |
| MemoryPressure.RlsWhenLessMemoryPays | DIO/internal/scheduler/cost.go:68-121 | Under RLS a lower reading never lets a barred worker in, and makes one cheaper if and only if it crosses the soft limit while above the registered memory |
| MemoryPressure.NlmsWhenLessMemoryPays | DIO/internal/scheduler/cost.go:68-121 | Under the NLMS predictors, for every line and every lower reading: for a non-negative line it pays if and only if it crosses the soft limit above the registered memory and the discount (vram/total − 1)·1000 outweighs the load-weighted rise of the estimate; for a negative one, if and only if the load-weighted fall outweighs the change of the penalty; learned lines are never negative |
| MemoryPressure.NlmsWhenLessMemoryAdmits | DIO/internal/scheduler/cost.go:74-84 | Outside RLS a lower reading makes a candidate of a barred worker if and only if it falls to zero or less from the range the hard limit looks at, for more than 1000 tokens |
| MemoryPressure.EstimateSplits | DIO/internal/scheduler/loadbalancer.go:139-157 | Every usable estimate is the one with ample memory plus a closed-form change: 0 while 3·vram ≥ 4096 for a non-negative line, scale·max(base, 1.5·base·shortfall) below 4096 for a negative one |
| MemoryPressure.RiseMoves | DIO/internal/scheduler/loadbalancer.go:142-157 | Lower readings move the estimate of a non-negative line up and that of a negative one down, strictly below the soft limit |
| MemoryPressure.ReadingPrice | DIO/internal/scheduler/cost.go:74-121 | Between any two readings the cost of a worker moves, under every predictive strategy and whatever its predictor holds, by the load-weighted change of the estimate plus the change of the penalty |
| MemoryPressure.NlmsPrice | DIO/internal/scheduler/cost.go:74-121 | The same with the change of the estimate in closed form |
| MemoryPressure.NegativeLinePays | DIO/internal/scheduler/loadbalancer.go:139-157 | With the memory penalty switched off, a static profile with a negative line gets cheaper on any worker whose reading falls below the soft limit |
| MemoryWitness.LosingMemoryPays | DIO/internal/scheduler/loadbalancer.go:715-721 | A run of one registration and two readings after which the second reading made the worker cheaper |
| MemoryWitness.RiseOutweighsDiscount | DIO/internal/scheduler/loadbalancer.go:142-157 | A run on which the reading is above the registered memory and the cost still does not fall |
| MemoryWitness.PenaltyOutweighsFall | DIO/internal/scheduler/cost.go:105-121 | A run on which a negative static line gets dearer with less memory, the penalty being on |
| MemoryWitness.NoMemoryIsLetIn | DIO/internal/scheduler/cost.go:79-84 | A run on which a worker barred at 1500 MB takes a request of 2000 tokens once it reports 0 MB |
| Balance.LeastLoadedFair | DIO/internal/scheduler/loadbalancer.go:379-389 | From an idle pool of n workers, a burst of picks leaves every worker with the floor or ceiling of a/n, where a picks were admitted: all of them, or fewer than n if a worker holds the empty id, for every map order and tie-break |
| Balance.BurstBalanced | DIO/internal/scheduler/loadbalancer.go:379-389 | Throughout such a burst no two workers differ by more than one, every admitted task is pending, and the empty id takes none |
| Balance.PickDepth | DIO/internal/scheduler/loadbalancer.go:334-342 | An admitted pick deepens the global queue by one, a refused one leaves it |
| PredictionAccounts.HistoryMatchesPredictors | DIO/internal/scheduler/loadbalancer.go:543-578 | Without eviction, re-registration or reset, and with ample memory and recordable predictions, the history's error sums equal the totals the predictors keep on their own |
| PredictionAccounts.SameError | DIO/internal/scheduler/loadbalancer.go:70-79 | With ample memory the error a predictor books is the error recorded by the feedback loop |
| PredictionAccounts.LearnersAlwaysRecordable | DIO/internal/scheduler/loadbalancer.go:563-564 | A learning predictor's prediction is always positive, so that half of the recording guard always holds |
| PredictionHistory.PredHistory.Add | DIO/internal/scheduler/metrics.go:124-139 | The window stays the last max samples ever added, with the count and both running sums exact |
| PredictionHistory.PredHistory.Snapshot | DIO/internal/scheduler/metrics.go:141-163 | Reported means are the means over that window, and the samples its newest ones |
| Ols.FitIsOptimal | dio-serve/scripts/run_regime_d_hetero.py:100-116 | Whenever a line is returned, every other line has a strictly larger sum of squared residuals over the filtered points |
| Ols.FitIsNormal | dio-serve/scripts/run_regime_d_hetero.py:108-116 | The residuals are orthogonal to 1 and to x |
| Ols.R2InRange | dio-serve/scripts/run_regime_d_hetero.py:117-119 | A reported r² lies in [0, 1] |
| Ols.ExactLineRecovered | dio-serve/scripts/run_regime_d_hetero.py:100-119 | Points on a line give back exactly that line |
| Wilcoxon.ExactWilcoxon | dio-serve/scripts/audit_g1_confound.py:158-176 | W⁺ + W⁻ = n(n+1)/2 for a ranking by magnitude, and the enumeration counts the sign patterns at least as extreme as W for ranks 1..n in any placement |
| Wilcoxon.CountIsPValue | dio-serve/scripts/audit_g1_confound.py:171-176 | The count is min(2ⁿ, twice the lower tail), lies in [1, 2ⁿ], and for n ≥ 1 is even and at least 2 |
| WilcoxonTies.CountFreeIff | dio-serve/scripts/audit_g1_confound.py:160-176 | The count behind the p-value is the same for every order of the differences if and only if there is no opposite-signed tie, or exactly one and 2·(least W⁺) + 1 = n(n+1)/2 |
| WilcoxonTies.StatisticFreeIff | dio-serve/scripts/audit_g1_confound.py:160-168 | So is the statistic W, under the same condition |
| WilcoxonTies.OrderFreeIff | dio-serve/scripts/audit_g1_confound.py:160-166 | W⁺ is the same for every order if and only if no magnitude occurs with both signs |
| WilcoxonTies.WPlusRange | dio-serve/scripts/audit_g1_confound.py:160-166 | Over all orders W⁺ stays between its least value and that plus the number of opposite-signed ties |
| WilcoxonTies.WPlusAttained | dio-serve/scripts/audit_g1_confound.py:160-166 | It takes every value in between |
| WilcoxonTies.StatisticIs | dio-serve/scripts/audit_g1_confound.py:166-168 | Any ranking the audit may use gives this W⁺, W⁻ and W |
| WilcoxonTies.CountGrows | dio-serve/scripts/audit_g1_confound.py:171-176 | A larger statistic has a strictly larger count, because every number up to n(n+1)/2 is a sum of ranks |
| WilcoxonTies.HarmlessExample | dio-serve/scripts/audit_g1_confound.py:160-168 | The differences 1 and −1 give W⁺ = 1 or 2, but one W and one count |
| WilcoxonTies.AuditIsOrderFree | dio-serve/scripts/audit_g1_confound.py:160-169 | Without opposite-signed ties n, W⁺ and W⁻, and with them W and the count, are the same for every order |
| WilcoxonOrder.RankSumIs | dio-serve/scripts/audit_g1_confound.py:162-166 | Every ranking by magnitude with ties in input order has the rank sum that counting smaller and earlier differences gives |
| WilcoxonOrder.SwapNeighbours | dio-serve/scripts/audit_g1_confound.py:162-166 | Swapping two neighbours changes that sum by one if they tie with opposite signs, and not at all otherwise |
| WilcoxonOrder.MixedTieExample | dio-serve/scripts/audit_g1_confound.py:162-166 | The differences 1, 1, −1 have W⁺ = 3 in this order and 5 with −1 first |
| Wilcoxon.RankByMagnitude | dio-serve/scripts/audit_g1_confound.py:162-165 | Filling ranks through the sorted order gives 1..n once each, increasing with magnitude, ties in input order |
| Wilcoxon.CountExtreme | dio-serve/scripts/audit_g1_confound.py:171-175 | The loop over all sign vectors counts both tails of the subset-sum distribution |
| SubsetSums.TailsMirror | dio-serve/scripts/audit_g1_confound.py:172-175 | Complementing a sign pattern mirrors its sum, so both tails are equally heavy |
| SubsetSums.TwoTails | dio-serve/scripts/audit_g1_confound.py:172-175 | Both tails together are min(2ⁿ, twice the lower tail) |
| SubsetSums.OrderIrrelevant | dio-serve/scripts/audit_g1_confound.py:172-175 | Permuting the ranks among positions changes neither count nor total |
| SubsetSums.ProductRank | dio-serve/scripts/audit_g1_confound.py:172-172 | The enumeration contains every sign vector, at its binary number |
| SubsetSums.RankProduct | dio-serve/scripts/audit_g1_confound.py:172-172 | The enumeration contains nothing else and nothing twice |
| TableRerun.RerunIsSafe | dio-serve/scripts/fill_regime_d_tables.py:11-13 | Filling both tables again equals filling them once with the latest rows |
| TableRerun.FillReadsBack | dio-serve/scripts/fill_regime_d_tables.py:220-222 | After a fill both tables read back as the rows given |
| TableRerun.OtherBodyUnchanged | dio-serve/scripts/fill_regime_d_tables.py:177-186 | Rewriting one of two separate tables leaves the other's body as it was, whichever comes first |
| TableRerun.PutsCommute | dio-serve/scripts/fill_regime_d_tables.py:220-222 | The order in which two separate tables are rewritten does not matter |
| TableRewrite.PutPut | dio-serve/scripts/fill_regime_d_tables.py:177-186 | Rewriting twice equals rewriting once with the last body, if and only if the first body has no end rule |
| TableRewrite.PutGet | dio-serve/scripts/fill_regime_d_tables.py:177-186 | Reading back gives the body written if and only if it has no end rule |
| TableRewrite.LocateAfterPut | dio-serve/scripts/fill_regime_d_tables.py:179-186 | After a rewrite the finds land on the same table, whose end rule follows the new body |
| TableRewrite.LocateCutShort | dio-serve/scripts/fill_regime_d_tables.py:179-186 | A body with its own end rule is found cut short |
| JsonEscape.PromptRoundTrip | DIO/demonstration/internal/orchestrator.go:762-763 | The payload parses back to the prompt, with the field after it intact, if and only if the prompt has no control character other than newline; otherwise it is malformed |
| JsonEscape.PassesAreOneMap | DIO/demonstration/internal/orchestrator.go:932-937 | The three sequential replacements equal one escape per character |
| JsonEscape.ParseEscaped | DIO/demonstration/internal/orchestrator.go:932-937 | A JSON string parser (section 7 of RFC 8259) stops at the closing quote with the original text |
| RetryAfter.RetryAfterRoundTrip | DIO/internal/scheduler/admission.go:15-24 | For every delay the gateway recovers exactly max(1, converted seconds) as a valid delay-seconds value (section 10.2.3 of RFC 9110), whatever the reason text |
| RetryAfter.ParseAdmission | DIO/cmd/manager/main.go:33-49 | The seconds survive the status message even when the text after them has colons |
| RetryAfter.WriteHTTPError | DIO/cmd/manager/main.go:40-57 | Refusals become 503 with the parsed delay, or 5 seconds if it cannot be parsed; everything else becomes 500 without the header |
| RetryAfter.RetryAfterHonest | DIO/internal/scheduler/admission.go:15-24 | The delay told is not above the true one and less than a second below it if and only if the true one is at least a second and its seconds fit 64 bits |
| RetryAfter.AtoiItoa | DIO/cmd/manager/main.go:46-50 | Parsing a printed 64-bit integer gives it back |

## Left out
- Floating-point rounding, NaN and infinities: arithmetic is over reals, and the largest float used as a sentinel is the case `Unusable` of an estimate or `None` of a minimum.
- The value Go gives when it converts a float outside 64 bits to an integer: it depends on the platform and is a parameter of the model.
- Wrap-around of unsigned counters and of pending counts: they are unbounded here, apart from the 64-bit round-robin index.
- PredictionAccounts.HistoryMatchesPredictors: assumes no re-registration and no statistics reset, because each of them empties one side of the comparison and not the other.
- Nlms.EnergyFalls: for one fixed token count, because the energy that falls depends on it.
- EngineProtocol.DrainsIffNotStuck: the sleeping start loop is modelled as retried steps, so it says that draining is possible and bounded, not that the operating system schedules it.
- Peak counters across a debug reset.
- RlsPredictor.PerWorkerRLSPredictor.Update: the covariance, a 2×2 array stored by value inside the Go struct, is kept as four fields of the object.
- NlmsPredictor.PerWorkerPredictor.Update: the interference ring, an array stored by value inside the Go struct, is a sequence field that is reassigned; the periodic telemetry line is not modelled.
- RoundRobin fairness and Session stickiness: both index a list in unspecified map order, so neither holds.
- The FNV hash: a parameter of the model; nothing depends on its values.
- Reading the environment and parsing strategy and ablation names: strategy, mode, flags, SLO, static line and admission switch are a configuration value.
- Scheduler.Scheduler.FeedbackLoop: does not keep the time stamps of prediction samples, which are only exported.
- Health changes of workers, the last prediction, and logging.
- The snapshots of counters and predictors for dashboards, and the debug prediction: copies of fields and quotients of them.
- Locks: every scheduler call is one atomic step, as the scheduler's mutex makes it. `ResetAdmissionStats` takes no lock in the source (`DIO/internal/scheduler/loadbalancer.go:618-621`); a reset that overlaps another call is not modelled.
- The division of the exact count by 2ⁿ and the report text of the Wilcoxon audit.
- The token spread reported beside the fitted line.
- Building table rows from a summary, refusing mock summaries, and backing up the file.
- Surrogates: the JSON parser of the model reads the two-character escapes and `\uXXXX`, and refuses only escapes that name half of a surrogate pair, which `escapeJSON` never produces.
- gRPC, HTTP, storage, containers, experiment drivers, plots and worker processes.
