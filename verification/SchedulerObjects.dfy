/** The records the scheduler mutates: one per worker, and the admission counters. */
module SchedulerObjects {
  import opened Cost
  import opened SchedulerModel

  /** What a completed request measured. */
  datatype DetailedMetrics = DetailedMetrics(
    ttftMs: real,
    tpotMs: real,
    e2eMs: real,
    inputThroughput: real,
    outputThroughput: real)

  class WorkerRecord {
    const id: string
    const address: string
    const engineType: string
    var healthy: bool
    var lastKnownVram: int
    var pendingTasks: int

    function View(): Worker
      reads this
    {
      Worker(id, healthy, lastKnownVram, pendingTasks)
    }

    constructor (id: string, address: string, vramMb: int, engineType: string)
      ensures View() == Worker(id, true, vramMb, 0)
      ensures this.address == address && this.engineType == engineType
    {
      this.address, this.engineType := address, engineType;
      this.id, healthy, lastKnownVram, pendingTasks := id, true, vramMb, 0;
    }
  }

  class AdmissionStats {
    var admitted: nat
    var rejectedSlo: nat
    var rejectedVram: nat
    var rejectedNoWorker: nat
    var completedUnderSlo: nat
    var completedOverSlo: nat
    var completedTotal: nat
    var sumE2eMs: int
    var sumPredictedMs: int

    function View(): Stats
      reads this
    {
      Stats(admitted, rejectedSlo, rejectedVram, rejectedNoWorker,
            completedUnderSlo, completedOverSlo, completedTotal, sumE2eMs, sumPredictedMs)
    }

    constructor ()
      ensures View() == NO_STATS
    {
      admitted, rejectedSlo, rejectedVram, rejectedNoWorker := 0, 0, 0, 0;
      completedUnderSlo, completedOverSlo, completedTotal := 0, 0, 0;
      sumE2eMs, sumPredictedMs := 0, 0;
    }

    method RecordAdmit()
      modifies `admitted
      ensures admitted == old(admitted) + 1
    {
      admitted := admitted + 1;
    }

    method RecordRejectSlo()
      modifies `rejectedSlo
      ensures rejectedSlo == old(rejectedSlo) + 1
    {
      rejectedSlo := rejectedSlo + 1;
    }

    method RecordRejectVram()
      modifies `rejectedVram
      ensures rejectedVram == old(rejectedVram) + 1
    {
      rejectedVram := rejectedVram + 1;
    }

    method RecordRejectNoWorker()
      modifies `rejectedNoWorker
      ensures rejectedNoWorker == old(rejectedNoWorker) + 1
    {
      rejectedNoWorker := rejectedNoWorker + 1;
    }

    method RecordCompletion(cfg: Config, e2eMs: real, predictedMs: real)
      modifies this
      ensures View() == SchedulerModel.RecordCompletion(cfg, old(View()), e2eMs, predictedMs)
    {
      completedTotal := completedTotal + 1;
      if e2eMs > 0.0 {
        sumE2eMs := sumE2eMs + e2eMs.Floor;
      }
      if predictedMs > 0.0 {
        sumPredictedMs := sumPredictedMs + predictedMs.Floor;
      }
      if 0.0 < e2eMs <= cfg.sloMs {
        completedUnderSlo := completedUnderSlo + 1;
      } else if e2eMs > 0.0 {
        completedOverSlo := completedOverSlo + 1;
      }
    }
  }
}
