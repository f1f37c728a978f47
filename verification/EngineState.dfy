/** The mock engine's shared counters; each method is one critical section under its lock. */
module EngineState {
  datatype Engine = Engine(
    maxConcurrency: int,
    running: int,
    waiting: int,
    hits: nat,
    queries: nat,
    seen: set<string>,
    peakRunning: int,
    peakWaiting: int)

  function Fresh(maxConcurrency: int): Engine {
    Engine(maxConcurrency, 0, 0, 0, 0, {}, 0, 0)
  }

  function Larger(x: int, y: int): int {
    if x < y then y else x
  }

  function Run(e: Engine): Engine {
    e.(running := e.running + 1, peakRunning := Larger(e.peakRunning, e.running + 1))
  }

  function Admit(e: Engine, key: string): Engine {
    var counted := e.(queries := e.queries + 1,
                      hits := if key in e.seen then e.hits + 1 else e.hits,
                      seen := e.seen + {key});
    if e.running >= e.maxConcurrency then
      counted.(waiting := e.waiting + 1, peakWaiting := Larger(e.peakWaiting, e.waiting + 1))
    else Run(counted)
  }

  predicate ClaimsSlot(e: Engine) {
    e.running < e.maxConcurrency && e.waiting > 0
  }

  predicate CanStart(e: Engine) {
    ClaimsSlot(e) || (e.running <= e.maxConcurrency && e.waiting == 0)
  }

  /** A successful pass through the start loop. */
  function Start(e: Engine): Engine
    requires CanStart(e)
  {
    if ClaimsSlot(e) then Run(e.(waiting := e.waiting - 1)) else e
  }

  function Release(e: Engine): Engine {
    e.(running := Larger(0, e.running - 1))
  }

  function DebugReset(e: Engine): Engine {
    e.(hits := 0, queries := 0, seen := {}, peakRunning := 0, peakWaiting := 0)
  }

  class SharedEngine {
    const maxConcurrency: int
    var running: int
    var waiting: int
    var prefixHits: nat
    var prefixQueries: nat
    var seenPrefixes: set<string>
    var peakRunning: int
    var peakWaiting: int

    function View(): Engine
      reads this
    {
      Engine(maxConcurrency, running, waiting, prefixHits, prefixQueries, seenPrefixes, peakRunning, peakWaiting)
    }

    constructor (maxConcurrency: int)
      ensures View() == Fresh(maxConcurrency)
    {
      this.maxConcurrency := maxConcurrency;
      running, waiting, prefixHits, prefixQueries, seenPrefixes := 0, 0, 0, 0, {};
      peakRunning, peakWaiting := 0, 0;
    }

    /** Register an arrival; reports whether its prompt prefix was seen before. */
    method AdmitRequest(key: string) returns (hit: bool)
      modifies this
      ensures hit == (key in old(seenPrefixes)) && View() == Admit(old(View()), key)
    {
      prefixQueries := prefixQueries + 1;
      hit := key in seenPrefixes;
      if hit {
        prefixHits := prefixHits + 1;
        assert seenPrefixes == seenPrefixes + {key};
      } else {
        seenPrefixes := seenPrefixes + {key};
      }
      if running >= maxConcurrency {
        waiting := waiting + 1;
        peakWaiting := Larger(peakWaiting, waiting);
      } else {
        running := running + 1;
        peakRunning := Larger(peakRunning, running);
      }
    }

    /** One pass of the start loop: either the thread may serve, or nothing changed and it sleeps. */
    method TryStart() returns (started: bool)
      modifies this
      ensures started == CanStart(old(View()))
      ensures View() == if started then Start(old(View())) else old(View())
    {
      if running < maxConcurrency && waiting > 0 {
        waiting := waiting - 1;
        running := running + 1;
        peakRunning := Larger(peakRunning, running);
        return true;
      }
      if running <= maxConcurrency && waiting == 0 {
        return true;
      }
      return false;
    }

    method ReleaseSlot()
      modifies this
      ensures View() == Release(old(View()))
    {
      running := Larger(0, running - 1);
    }

    method ResetCounters()
      modifies this
      ensures View() == DebugReset(old(View()))
    {
      prefixHits, prefixQueries, seenPrefixes := 0, 0, {};
      peakRunning, peakWaiting := 0, 0;
    }
  }
}
