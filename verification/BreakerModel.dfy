// The circuit breaker as a value, and histories of overlapping calls through it.
module BreakerModel {
  import opened Basics

  datatype Config = Config(threshold: int, timeout: real)

  datatype Circuit = Closed | Open | HalfOpen

  datatype Breaker = Breaker(
    circuit: Circuit,
    failures: nat,
    lastFailure: Option<real>,
    requests: nat,
    totalFailures: nat,
    totalSuccesses: nat)
  {
    predicate ShouldAttemptReset(cfg: Config, now: real) {
      circuit.Open? && (lastFailure.None? || now - lastFailure.value >= cfg.timeout)
    }

    predicate Admits(cfg: Config, now: real) {
      circuit.Closed? || ShouldAttemptReset(cfg, now)
    }

    function Entered(cfg: Config, now: real): Breaker {
      if ShouldAttemptReset(cfg, now) then this.(circuit := HalfOpen) else this
    }

    function Requested(): Breaker {
      this.(requests := requests + 1)
    }

    function Succeeded(): Breaker {
      this.(circuit := Closed, failures := 0, totalSuccesses := totalSuccesses + 1)
    }

    function Failed(cfg: Config, now: real): Breaker {
      this.(circuit := if failures + 1 >= cfg.threshold || circuit.HalfOpen? then Open else circuit,
            failures := failures + 1,
            lastFailure := Some(now),
            totalFailures := totalFailures + 1)
    }

    function AfterReset(): Breaker {
      this.(circuit := Closed, failures := 0, lastFailure := None)
    }
  }

  const FRESH := Breaker(Closed, 0, None, 0, 0, 0)

  /** What can happen to the breaker.  Calls overlap, so an outcome may arrive long
      after the circuit changed.  An abandoned call ends without an outcome: it was
      cancelled, or raised an exception that the breaker does not count. */
  datatype Event =
    | Enter(id: nat, now: real)
    | Success(id: nat)
    | Failure(id: nat, now: real)
    | Abandon(id: nat)
    | Reset

  datatype World = World(breaker: Breaker, active: set<nat>)

  predicate Enabled(w: World, e: Event) {
    match e
    case Enter(id, _) => id !in w.active
    case Success(id) => id in w.active
    case Failure(id, _) => id in w.active
    case Abandon(id) => id in w.active
    case Reset => true
  }

  function Next(cfg: Config, w: World, e: Event): World {
    match e
    case Enter(id, now) =>
      if w.breaker.Admits(cfg, now) then World(w.breaker.Requested().Entered(cfg, now), w.active + {id})
      else World(w.breaker.Requested(), w.active)
    case Success(id) => World(w.breaker.Succeeded(), w.active - {id})
    case Failure(id, now) => World(w.breaker.Failed(cfg, now), w.active - {id})
    case Abandon(id) => World(w.breaker, w.active - {id})
    case Reset => World(w.breaker.AfterReset(), w.active)
  }

  function Run(cfg: Config, h: seq<Event>): World {
    if h == [] then World(FRESH, {}) else Next(cfg, Run(cfg, h[..|h| - 1]), h[|h| - 1])
  }

  /** Every event could happen when it did. */
  predicate Possible(cfg: Config, h: seq<Event>) {
    h != [] ==> var n := |h| - 1; Possible(cfg, h[..n]) && Enabled(Run(cfg, h[..n]), h[n])
  }

  /** The last event admitted a call. */
  predicate AdmitsLast(cfg: Config, h: seq<Event>)
    requires h != []
  {
    var n := |h| - 1;
    h[n].Enter? && Run(cfg, h[..n]).breaker.Admits(cfg, h[n].now)
  }
}
