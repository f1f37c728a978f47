/** Hyperparameters of the scheduler and its predictors. */
module Constants {
  const MU_FAST := 0.1
  const MU_SLOW := 0.01
  const MU_BIAS := 0.005
  const FAST_SLOW_BLEND := 0.8
  const TIER_MISMATCH_MS := 500.0
  const CACHE_BONUS_MS := 200.0
  const VRAM_SOFT_LIMIT_MB: int := 4096
  const VRAM_HARD_LIMIT_MB: int := 2400
  const LARGE_REQUEST_TOKENS: int := 1000
  const BATCH_SIZE := 8.0
  const INITIAL_SLOPE := 2.0
  const INITIAL_INTERCEPT := 150.0
  const MIN_INTERCEPT := 0.1
  const PRED_HISTORY_CAP: nat := 5000
  const DECISION_LOG_CAP: nat := 200
  const DEFAULT_VRAM_MB: int := 24576
  const UNKNOWN_WORKER_VRAM_MB: int := 24000
  const UNUSABLE_MS := 1e300

  /** An execution-time estimate; Unusable stands for the largest float, which bars a worker. */
  datatype Estimate = Unusable | Ms(value: real)

  /** Exponentially weighted average that starts at the first observation. */
  function Average(avg: real, actual: real): real {
    if avg == 0.0 then actual else 0.9 * avg + 0.1 * actual
  }
}
