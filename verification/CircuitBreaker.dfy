// The breaker object.  The reading of the clock is a parameter.
module CircuitBreaker {
  import opened Basics
  import opened BreakerModel

  /** How the protected operation ends: with a value, with an exception the breaker
      expects, with another exception, or cancelled. */
  datatype Outcome = Returned | Expected | Unexpected | Cancelled

  /** What the caller of the breaker gets. */
  datatype Result = Answered | Rejected | Raised | Aborted

  function EndOf(id: nat, outcome: Outcome, now: real): Event {
    match outcome
    case Returned => Success(id)
    case Expected => Failure(id, now)
    case Unexpected => Abandon(id)
    case Cancelled => Abandon(id)
  }

  function ResultOf(outcome: Outcome): Result {
    match outcome
    case Returned => Answered
    case Expected => Raised
    case Unexpected => Raised
    case Cancelled => Aborted
  }

  /** One call with nothing in between. */
  function ProtectedCall(cfg: Config, b: Breaker, start: real, outcome: Outcome, end: real): (Breaker, Result) {
    var r := b.Requested();
    if !r.Admits(cfg, start) then (r, Rejected)
    else
      var e := r.Entered(cfg, start);
      match outcome
      case Returned => (e.Succeeded(), Answered)
      case Expected => (e.Failed(cfg, end), Raised)
      case Unexpected => (e, Raised)
      case Cancelled => (e, Aborted)
  }

  /** A call is a history of two events, or of one if it is rejected. */
  function CallEvents(cfg: Config, b: Breaker, id: nat, start: real, outcome: Outcome, end: real): seq<Event> {
    [Enter(id, start)] + if b.Admits(cfg, start) then [EndOf(id, outcome, end)] else []
  }

  lemma CallIsHistory(cfg: Config, h: seq<Event>, id: nat, start: real, outcome: Outcome, end: real)
    requires id !in Run(cfg, h).active
    ensures var w := Run(cfg, h);
      Run(cfg, h + CallEvents(cfg, w.breaker, id, start, outcome, end)) ==
        World(ProtectedCall(cfg, w.breaker, start, outcome, end).0, w.active)
  {
    var w := Run(cfg, h);
    var es := CallEvents(cfg, w.breaker, id, start, outcome, end);
    assert (h + [es[0]])[..|h|] == h;
    assert w.active + {id} - {id} == w.active;
    if |es| == 2 {
      assert h + es == h + [es[0]] + [es[1]];
      assert (h + [es[0]] + [es[1]])[..|h| + 1] == h + [es[0]];
    } else {
      assert h + es == h + [es[0]];
    }
  }

  class CircuitBreaker {
    const cfg: Config
    var circuit: Circuit
    var failureCount: nat
    var lastFailureTime: Option<real>
    var totalRequests: nat
    var totalFailures: nat
    var totalSuccesses: nat
    ghost var active: set<nat>   // calls in flight

    ghost function State(): World
      reads this
    {
      World(View(), active)
    }

    function View(): Breaker
      reads this
    {
      Breaker(circuit, failureCount, lastFailureTime, totalRequests, totalFailures, totalSuccesses)
    }

    constructor (threshold: int, timeout: real)
      ensures cfg == Config(threshold, timeout) && State() == World(FRESH, {})
    {
      cfg := Config(threshold, timeout);
      circuit, failureCount, lastFailureTime := Closed, 0, None;
      totalRequests, totalFailures, totalSuccesses, active := 0, 0, 0, {};
    }

    predicate ShouldAttemptReset(now: real)
      reads this
    {
      circuit.Open? && (lastFailureTime.None? || now - lastFailureTime.value >= cfg.timeout)
    }

    method TryEnter(now: real) returns (admitted: bool)
      modifies `circuit
      ensures admitted == old(View()).Admits(cfg, now)
      ensures View() == old(View()).Entered(cfg, now)
    {
      if circuit.Open? {
        if ShouldAttemptReset(now) {
          circuit := HalfOpen;
          return true;
        }
        return false;
      }
      return !circuit.HalfOpen?;
    }

    method OnSuccess()
      modifies `failureCount, `totalSuccesses, `circuit
      ensures View() == old(View()).Succeeded()
    {
      failureCount := 0;
      totalSuccesses := totalSuccesses + 1;
      circuit := Closed;
    }

    method OnFailure(now: real)
      modifies `failureCount, `totalFailures, `lastFailureTime, `circuit
      ensures View() == old(View()).Failed(cfg, now)
    {
      failureCount := failureCount + 1;
      totalFailures := totalFailures + 1;
      lastFailureTime := Some(now);
      if failureCount >= cfg.threshold {
        circuit := Open;
      } else if circuit.HalfOpen? {
        circuit := Open;
      }
    }

    method Reset()
      modifies `failureCount, `lastFailureTime, `circuit
      ensures State() == Next(cfg, old(State()), Event.Reset)
    {
      circuit, failureCount, lastFailureTime := Closed, 0, None;
    }

    /** call_async up to the await of the operation.  Other calls may begin and end
        before this one ends. */
    method BeginCall(id: nat, now: real) returns (admitted: bool)
      requires id !in active
      modifies this
      ensures State() == Next(cfg, old(State()), Enter(id, now))
      ensures admitted <==> id in active
    {
      totalRequests := totalRequests + 1;
      admitted := TryEnter(now);
      if admitted {
        active := active + {id};
      }
    }

    /** The rest of call_async, whatever has happened to the circuit since. */
    method EndCall(id: nat, outcome: Outcome, now: real) returns (r: Result)
      requires id in active
      modifies this
      ensures State() == Next(cfg, old(State()), EndOf(id, outcome, now))
      ensures r == ResultOf(outcome)
    {
      active := active - {id};
      match outcome {
        case Returned => OnSuccess();
        case Expected => OnFailure(now);
        case Unexpected =>
        case Cancelled =>
      }
      r := ResultOf(outcome);
    }

    /** call_sync: nothing in between. */
    method Call(start: real, outcome: Outcome, end: real) returns (r: Result)
      modifies this
      ensures (View(), r) == ProtectedCall(cfg, old(View()), start, outcome, end)
      ensures active == old(active)
    {
      totalRequests := totalRequests + 1;
      var admitted := TryEnter(start);
      if !admitted {
        return Rejected;
      }
      match outcome {
        case Returned => OnSuccess();
        case Expected => OnFailure(end);
        case Unexpected =>
        case Cancelled =>
      }
      r := ResultOf(outcome);
    }
  }
}
