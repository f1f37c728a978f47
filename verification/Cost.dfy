/** One scalar cost per worker: predicted execution, queueing, tier, memory pressure and prefix affinity. */
module Cost {
  import opened Constants
  import opened RealArith

  type Byte = b: int | 0 <= b < 256

  /** An unsigned 32-bit hash. */
  type Hash = h: int | 0 <= h < 0x1_0000_0000

  datatype Request = Request(data: seq<Byte>, tier: string)

  datatype Worker = Worker(id: string, healthy: bool, vram: int, pending: int)

  /** Which cost terms an ablation switches off. */
  datatype Flags = Flags(noQueue: bool, noVramSoft: bool, noVramHard: bool, noTier: bool, noCache: bool)

  datatype Decision = Decision(
    workerId: string,
    execMs: real,
    waitMs: real,
    tierCostMs: real,
    vramCostMs: real,
    cacheBonusMs: real,
    totalMs: real,
    tokens: int)

  datatype Score = Blocked | Scored(total: real, breakdown: Decision)

  /** What a predictor says about one worker, with the tier and memory it was registered with. */
  datatype Forecast = Forecast(exec: Estimate, avg: real, tier: string, totalVram: int)

  function Tokens(req: Request): (t: int)
    ensures t >= 1
  {
    if |req.data| / 4 < 1 then 1 else |req.data| / 4
  }

  const PREFIX_BYTES: nat := 100

  /** The affinity key: a hash of at most the first 100 bytes, 0 for empty data. */
  function PrefixHash(fnv: seq<Byte> -> Hash, data: seq<Byte>): Hash {
    if data == [] then 0 else if |data| < PREFIX_BYTES then fnv(data) else fnv(data[..PREFIX_BYTES])
  }

  predicate MemoryBars(w: Worker, tokens: int) {
    0 < w.vram < VRAM_HARD_LIMIT_MB && tokens > LARGE_REQUEST_TOKENS
  }

  predicate EstimateBars(e: Estimate) {
    e.Unusable? || e.value >= UNUSABLE_MS
  }

  function WaitMs(w: Worker, f: Forecast): real
    requires f.exec.Ms?
  {
    var avgTask := if f.avg == 0.0 then f.exec.value else f.avg;
    Times(w.pending as real / BATCH_SIZE, avgTask)
  }

  function VramMs(w: Worker, f: Forecast): real {
    if f.totalVram > 0 && w.vram < VRAM_SOFT_LIMIT_MB
    then (1.0 - w.vram as real / f.totalVram as real) * 1000.0
    else 0.0
  }

  predicate Cached(cache: map<Hash, string>, key: Hash, w: Worker) {
    key in cache && cache[key] == w.id
  }

  function ComputeWorkerScore(req: Request, w: Worker, f: Forecast, cache: map<Hash, string>, key: Hash,
                              flags: Flags): Score {
    var tokens := Tokens(req);
    if EstimateBars(f.exec) then Blocked
    else if !flags.noVramHard && MemoryBars(w, tokens) then Blocked
    else if !flags.noTier && req.tier == "large" && f.tier != "large" then Blocked
    else
      var wait := if flags.noQueue then 0.0 else WaitMs(w, f);
      var tierCost := if !flags.noTier && req.tier == "small" && f.tier == "large" then TIER_MISMATCH_MS else 0.0;
      var vramCost := if flags.noVramSoft then 0.0 else VramMs(w, f);
      var bonus := if !flags.noCache && Cached(cache, key, w) then CACHE_BONUS_MS else 0.0;
      var total := wait + f.exec.value + tierCost + vramCost - bonus;
      Scored(total, Decision(w.id, f.exec.value, wait, tierCost, vramCost, bonus, total, tokens))
  }

  /** The breakdown explains the score, and affinity is its only negative term: 200 ms or nothing. */
  lemma BreakdownAddsUp(req: Request, w: Worker, f: Forecast, cache: map<Hash, string>, key: Hash, flags: Flags)
    ensures var s := ComputeWorkerScore(req, w, f, cache, key, flags);
            s.Scored? ==>
              var d := s.breakdown;
              && d.totalMs == s.total == d.execMs + d.waitMs + d.tierCostMs + d.vramCostMs - d.cacheBonusMs
              && d.workerId == w.id && d.tokens == Tokens(req)
              && d.cacheBonusMs == if !flags.noCache && Cached(cache, key, w) then CACHE_BONUS_MS else 0.0
  {
  }

  /** The score before affinity. */
  function Base(s: Score): real
    requires s.Scored?
  {
    s.total + s.breakdown.cacheBonusMs
  }

  /** Affinity never decides who may serve, and never touches the rest of the cost. */
  lemma CacheOnlyDiscounts(req: Request, w: Worker, f: Forecast, cache1: map<Hash, string>, cache2: map<Hash, string>,
                           key: Hash, flags: Flags)
    ensures var s1, s2 := ComputeWorkerScore(req, w, f, cache1, key, flags),
                          ComputeWorkerScore(req, w, f, cache2, key, flags);
            && (s1.Blocked? <==> s2.Blocked?)
            && (s1.Scored? ==> Base(s1) == Base(s2) && Base(s1) - CACHE_BONUS_MS <= s1.total <= Base(s1))
  {
  }

  /** One more pending task never bars a worker, and costs an eighth of its average task. */
  lemma PendingTaskPrice(req: Request, w: Worker, f: Forecast, cache: map<Hash, string>, key: Hash, flags: Flags)
    ensures var s, t := ComputeWorkerScore(req, w, f, cache, key, flags),
                        ComputeWorkerScore(req, w.(pending := w.pending + 1), f, cache, key, flags);
            && (s.Blocked? <==> t.Blocked?)
            && (s.Scored? ==>
                  var avgTask := if f.avg == 0.0 then f.exec.value else f.avg;
                  t.total == s.total + if flags.noQueue then 0.0 else avgTask / BATCH_SIZE)
  {
    if f.exec.Ms? {
      var avgTask := if f.avg == 0.0 then f.exec.value else f.avg;
      OneMoreTask(w.pending, avgTask);
      assert WaitMs(w.(pending := w.pending + 1), f) == WaitMs(w, f) + avgTask / BATCH_SIZE;
      hide WaitMs, VramMs, Tokens;
    }
  }

  lemma Distributes(x: real, y: real, a: real)
    ensures Times(x + y, a) == Times(x, a) + Times(y, a)
  {
  }

  lemma OneMoreTask(pending: int, avgTask: real)
    ensures Times((pending + 1) as real / BATCH_SIZE, avgTask)
            == Times(pending as real / BATCH_SIZE, avgTask) + avgTask / BATCH_SIZE
  {
    assert (pending + 1) as real / BATCH_SIZE == pending as real / BATCH_SIZE + 0.125;
    Distributes(pending as real / BATCH_SIZE, 0.125, avgTask);
  }

  lemma MoreMemorySmallerShare(low: int, high: int, total: int)
    requires total > 0 && low <= high
    ensures low as real / total as real <= high as real / total as real
  {
    DivNonNeg(high as real - low as real, total as real);
  }

  lemma ShareAboveOne(v: int, total: int)
    requires total > 0
    ensures v as real / total as real > 1.0 <==> v > total
  {
  }

  /**
    While the forecast stays the same, a lower reading makes a worker cheaper in one case
    only: it crosses the soft limit while still above the memory the worker registered with,
    which turns the memory penalty into a discount. It lets a barred worker in only when it
    falls to zero or below, where the hard limit no longer looks.
   */
  lemma WhenLessMemoryPays(req: Request, w: Worker, vram: int, f: Forecast, cache: map<Hash, string>, key: Hash,
                           flags: Flags)
    requires vram <= w.vram
    ensures var s, t := ComputeWorkerScore(req, w, f, cache, key, flags),
                        ComputeWorkerScore(req, w.(vram := vram), f, cache, key, flags);
            t.Scored? ==>
              && (s.Blocked? <==> !flags.noVramHard && vram <= 0 && MemoryBars(w, Tokens(req)))
              && (s.Scored? ==>
                    (t.total < s.total
                     <==> !flags.noVramSoft && 0 < f.totalVram < vram < VRAM_SOFT_LIMIT_MB <= w.vram))
  {
    if f.totalVram > 0 {
      MoreMemorySmallerShare(vram, w.vram, f.totalVram);
      ShareAboveOne(vram, f.totalVram);
    }
    hide Times, Tokens;
  }

  /**
    Tiers only separate sizes: a small request pays 500 ms for a large worker, a large one goes
    nowhere else, others pay nothing.
   */
  lemma TierPrice(req: Request, w: Worker, f: Forecast, tier: string, cache: map<Hash, string>, key: Hash, flags: Flags)
    requires f.tier == "large" != tier && !flags.noTier
    ensures var onLarge, onOther := ComputeWorkerScore(req, w, f, cache, key, flags),
                                    ComputeWorkerScore(req, w, f.(tier := tier), cache, key, flags);
            if req.tier == "large" then onOther.Blocked?
            else
              && (onLarge.Blocked? <==> onOther.Blocked?)
              && (onLarge.Scored? ==>
                    onLarge.total == onOther.total + if req.tier == "small" then TIER_MISMATCH_MS else 0.0)
  {
    hide Times, Tokens;
  }
}
