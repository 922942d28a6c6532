// RetryWithBackoff around the breaker, as _execute_with_resilience combines them.
module Retry {
  import opened Basics
  import opened BreakerModel
  import opened CircuitBreaker

  /** The k-th jitter is what random() returns before the k-th sleep, or 0 without
      jitter. */
  datatype Plan = Plan(maxRetries: nat, baseDelay: real, maxDelay: real, expBase: real, jitter: nat -> real)
  {
    ghost predicate Valid() {
      baseDelay >= 0.0 && maxDelay >= 0.0 && forall a :: 0.0 <= jitter(a) <= 1.0
    }

    function Backoff(attempt: nat): real {
      Min(Scaled(baseDelay, expBase, attempt), maxDelay)
    }

    function Delay(attempt: nat): real {
      Jittered(Backoff(attempt), jitter(attempt))
    }

    function SleepBefore(attempt: nat): real {
      if attempt == 0 then 0.0 else SleepBefore(attempt - 1) + Delay(attempt - 1)
    }
  }

  function Jittered(d: real, j: real): real {
    d + d * 0.1 * j
  }

  function Min(a: real, b: real): real {
    if a <= b then a else b
  }

  function Pow(b: real, n: nat): real {
    if n == 0 then 1.0 else Pow(b, n - 1) * b
  }

  function Scaled(base: real, b: real, n: nat): real {
    base * Pow(b, n)
  }

  function Times(n: nat, x: real): real {
    n as real * x
  }

  /** An operation: how and how long after its start each attempt ends. */
  datatype Operation = Operation(outcome: nat -> Outcome, duration: nat -> real)

  /** How far the retry loop has come; a result ends it.  There may be no breaker. */
  datatype Progress = Progress(breaker: Option<Breaker>, now: real, runs: nat, slept: real, result: Option<Result>)

  predicate Admitted(cfg: Config, q: Progress) {
    q.breaker.None? || q.breaker.value.Admits(cfg, q.now)
  }

  function Guarded(cfg: Config, b: Option<Breaker>, start: real, outcome: Outcome, end: real): (Option<Breaker>, Result) {
    if b.None? then (None, ResultOf(outcome))
    else
      var (r, result) := ProtectedCall(cfg, b.value, start, outcome, end);
      (Some(r), result)
  }

  function Attempt(cfg: Config, p: Plan, op: Operation, q: Progress, attempt: nat): Progress {
    var admitted := Admitted(cfg, q);
    var end := if admitted then q.now + op.duration(attempt) else q.now;
    var (b, r) := Guarded(cfg, q.breaker, q.now, op.outcome(attempt), end);
    var runs := if admitted then q.runs + 1 else q.runs;
    if r.Answered? || r.Aborted? || attempt == p.maxRetries then Progress(b, end, runs, q.slept, Some(r))
    else Progress(b, end + p.Delay(attempt), runs, q.slept + p.Delay(attempt), None)
  }

  function After(cfg: Config, p: Plan, op: Operation, q: Progress, attempts: nat): Progress {
    if attempts == 0 then q
    else
      var r := After(cfg, p, op, q, attempts - 1);
      if r.result.Some? then r else Attempt(cfg, p, op, r, attempts - 1)
  }

  lemma {:induction false} FinishedStays(cfg: Config, p: Plan, op: Operation, q: Progress, n: nat, m: nat)
    requires n <= m && After(cfg, p, op, q, n).result.Some?
    ensures After(cfg, p, op, q, m) == After(cfg, p, op, q, n)
  {
    if n < m {
      FinishedStays(cfg, p, op, q, n, m - 1);
    }
  }

  /** One attempt of the loop, through the breaker if there is one. */
  method Try(cfg: Config, breaker: CircuitBreaker?, op: Operation, attempt: nat, now: real) returns (r: Result, admitted: bool, end: real)
    requires breaker != null ==> breaker.cfg == cfg
    modifies if breaker != null then {breaker} else {}
    ensures admitted == Admitted(cfg, Progress(old(ViewOf(breaker)), now, 0, 0.0, None))
    ensures end == if admitted then now + op.duration(attempt) else now
    ensures (ViewOf(breaker), r) == Guarded(cfg, old(ViewOf(breaker)), now, op.outcome(attempt), end)
  {
    if breaker == null {
      return ResultOf(op.outcome(attempt)), true, now + op.duration(attempt);
    }
    admitted := breaker.View().Admits(cfg, now);
    end := if admitted then now + op.duration(attempt) else now;
    r := breaker.Call(now, op.outcome(attempt), end);
  }

  function ViewOf(breaker: CircuitBreaker?): Option<Breaker>
    reads if breaker != null then {breaker} else {}
  {
    if breaker == null then None else Some(breaker.View())
  }

  /** One round of the loop, its variables kept together: try, then give up or sleep. */
  method Round(cfg: Config, breaker: CircuitBreaker?, p: Plan, op: Operation, q: Progress, attempt: nat) returns (r: Progress)
    requires (breaker != null ==> breaker.cfg == cfg) && q.breaker == ViewOf(breaker)
    modifies if breaker != null then {breaker} else {}
    ensures r == Attempt(cfg, p, op, q, attempt) && r.breaker == ViewOf(breaker)
  {
    var result, admitted, end := Try(cfg, breaker, op, attempt, q.now);
    var runs := if admitted then q.runs + 1 else q.runs;
    if result.Answered? || result.Aborted? || attempt == p.maxRetries {
      return Progress(ViewOf(breaker), end, runs, q.slept, Some(result));
    }
    return Progress(ViewOf(breaker), end + p.Delay(attempt), runs, q.slept + p.Delay(attempt), None);
  }

  lemma LastRoundFinishes(cfg: Config, p: Plan, op: Operation, q: Progress)
    ensures Attempt(cfg, p, op, q, p.maxRetries).result.Some?
  {
  }

  /** execute_async: a loop that stops at the first value. */
  method ExecuteWithRetry(cfg: Config, breaker: CircuitBreaker?, p: Plan, op: Operation, start: real) returns (q: Progress)
    requires breaker != null ==> breaker.cfg == cfg
    modifies if breaker != null then {breaker} else {}
    ensures q == After(cfg, p, op, Progress(old(ViewOf(breaker)), start, 0, 0.0, None), p.maxRetries + 1)
    ensures q.result.Some? && q.breaker == ViewOf(breaker)
  {
    q := Progress(ViewOf(breaker), start, 0, 0.0, None);
    ghost var q0 := q;
    for attempt := 0 to p.maxRetries + 1
      invariant q == After(cfg, p, op, q0, attempt) && q.breaker == ViewOf(breaker)
      invariant q.result.Some? <==> attempt == p.maxRetries + 1
    {
      LastRoundFinishes(cfg, p, op, q);
      q := Round(cfg, breaker, p, op, q, attempt);
      if q.result.Some? {
        FinishedStays(cfg, p, op, q0, attempt + 1, p.maxRetries + 1);
        return;
      }
    }
  }

  /** The result of _execute_with_resilience: without retries a single call. */
  method ExecuteWithResilience(cfg: Config, breaker: CircuitBreaker?, p: Plan, op: Operation, start: real, fallback: bool)
    returns (value: Option<Result>, ghost q: Progress)
    requires breaker != null ==> breaker.cfg == cfg
    modifies if breaker != null then {breaker} else {}
    ensures q == After(cfg, p, op, Progress(old(ViewOf(breaker)), start, 0, 0.0, None), p.maxRetries + 1)
    ensures ViewOf(breaker) == q.breaker && q.result.Some?
    ensures value == if fallback && (q.result.value.Rejected? || q.result.value.Raised?) then None else q.result
  {
    var r: Result;
    if p.maxRetries > 0 {
      var done := ExecuteWithRetry(cfg, breaker, p, op, start);
      r := done.result.value;
      q := done;
    } else {
      ghost var q0 := Progress(ViewOf(breaker), start, 0, 0.0, None);
      var done := Round(cfg, breaker, p, op, Progress(ViewOf(breaker), start, 0, 0.0, None), 0);
      r := done.result.value;
      q := done;
      assert After(cfg, p, op, q0, 1) == Attempt(cfg, p, op, After(cfg, p, op, q0, 0), 0);
    }
    value := if fallback && (r.Rejected? || r.Raised?) then None else Some(r);
  }

  ghost predicate AlwaysFails(op: Operation) {
    forall a :: op.outcome(a) == Expected && op.duration(a) >= 0.0
  }

  function MinNat(a: int, b: int): int {
    if a <= b then a else b
  }

  lemma {:induction false} PowIsNonNegative(b: real, n: nat)
    requires b >= 0.0
    ensures Pow(b, n) >= 0.0
  {
    if n > 0 {
      PowIsNonNegative(b, n - 1);
    }
  }

  lemma ProductIsNonNegative(x: real, y: real)
    requires x >= 0.0 && y >= 0.0
    ensures x * y >= 0.0
  {
  }

  lemma WithJitter(d: real, j: real)
    requires d >= 0.0 && 0.0 <= j <= 1.0
    ensures d <= Jittered(d, j) <= 1.1 * d
  {
  }

  lemma DelayBounds(p: Plan, a: nat)
    requires p.Valid() && p.expBase >= 0.0
    ensures 0.0 <= p.Backoff(a) <= p.Delay(a) <= 1.1 * p.Backoff(a)
  {
    PowIsNonNegative(p.expBase, a);
    ProductIsNonNegative(p.baseDelay, Pow(p.expBase, a));
    WithJitter(p.Backoff(a), p.jitter(a));
  }

  function PowerOfTwo(n: nat): nat {
    if n == 0 then 1 else PowerOfTwo(n - 1) + PowerOfTwo(n - 1)
  }

  function Multiple(x: real, n: nat): real {
    x * n as real
  }

  lemma {:induction false} ScaledByTwo(base: real, n: nat)
    ensures Scaled(base, 2.0, n) == Multiple(base, PowerOfTwo(n))
  {
    if n > 0 {
      ScaledByTwo(base, n - 1);
      Doubling(base, n - 1);
      TwiceMultiple(base, PowerOfTwo(n - 1));
    } else {
      assert Pow(2.0, 0) == 1.0;
    }
  }

  lemma TwiceMultiple(x: real, n: nat)
    ensures Multiple(x, n + n) == 2.0 * Multiple(x, n)
  {
  }

  /** A delay doubles with each attempt up to the limit, and jitter adds a tenth of it
      at most. */
  lemma DelayDoubles(p: Plan, a: nat)
    requires p.Valid() && p.expBase == 2.0
    ensures var d := Min(Multiple(p.baseDelay, PowerOfTwo(a)), p.maxDelay); d <= p.Delay(a) <= 1.1 * d
    ensures p.jitter(a) == 0.0 ==> p.Delay(a) == Min(Multiple(p.baseDelay, PowerOfTwo(a)), p.maxDelay)
  {
    DelayBounds(p, a);
    ScaledByTwo(p.baseDelay, a);
  }

  lemma Doubling(base: real, n: nat)
    ensures Scaled(base, 2.0, n + 1) == 2.0 * Scaled(base, 2.0, n)
  {
  }

  lemma OneMore(n: nat, x: real)
    ensures Times(n + 1, x) == Times(n, x) + x
  {
  }

  lemma SumOfBounds(s: real, d: real, a: real, b: real, a': real, b': real)
    requires s <= 1.1 * Min(a, b) && d <= 1.1 * Min(b', a')
    ensures s + d <= 1.1 * Min(a + a', b + b')
  {
  }

  /** The sleeps of a whole call: at most 1.1 times the lesser of max_retries times
      max_delay and base_delay times 2^max_retries - 1. */
  lemma {:induction false} TotalSleepIsBounded(p: Plan, n: nat)
    requires p.Valid() && p.expBase == 2.0
    ensures 0.0 <= p.SleepBefore(n) <= 1.1 * Min(Times(n, p.maxDelay), Scaled(p.baseDelay, 2.0, n) - p.baseDelay)
  {
    if n > 0 {
      TotalSleepIsBounded(p, n - 1);
      DelayBounds(p, n - 1);
      OneMore(n - 1, p.maxDelay);
      Doubling(p.baseDelay, n - 1);
      var y := Scaled(p.baseDelay, 2.0, n - 1);
      SumOfBounds(p.SleepBefore(n - 1), p.Delay(n - 1), Times(n - 1, p.maxDelay), y - p.baseDelay, p.maxDelay, y);
    } else {
      assert Times(0, p.maxDelay) == 0.0 && Scaled(p.baseDelay, 2.0, 0) == p.baseDelay;
    }
  }

  lemma {:induction false} SleepGrows(p: Plan, n: nat, m: nat)
    requires p.Valid() && p.expBase >= 0.0 && n <= m
    ensures p.SleepBefore(n) <= p.SleepBefore(m)
  {
    if n < m {
      SleepGrows(p, n, m - 1);
      DelayBounds(p, m - 1);
    }
  }

  /** After n failing attempts from c failures. */
  ghost predicate Failing(cfg: Config, p: Plan, c: nat, n: nat, q: Progress)
    requires c < cfg.threshold
  {
    && q.result.Some? == (n == p.maxRetries + 1)
    && q.slept == p.SleepBefore(MinNat(n, p.maxRetries))
    && q.runs == MinNat(n, cfg.threshold - c)
    && q.breaker.Some? && q.breaker.value.failures == c + q.runs
    && (if n < cfg.threshold - c then q.breaker.value.circuit.Closed?
        else q.breaker.value.circuit.Open? && q.breaker.value.lastFailure.Some?
             && q.now - q.breaker.value.lastFailure.value <= q.slept)
  }

  lemma FailingStep(cfg: Config, p: Plan, op: Operation, c: nat, n: nat, q: Progress)
    requires p.Valid() && p.expBase >= 0.0 && AlwaysFails(op) && c < cfg.threshold && n <= p.maxRetries
    requires Failing(cfg, p, c, n, q) && p.SleepBefore(p.maxRetries) < cfg.timeout
    ensures Failing(cfg, p, c, n + 1, Attempt(cfg, p, op, q, n))
  {
    SleepGrows(p, n, p.maxRetries);
    SleepGrows(p, 0, n);
    DelayBounds(p, n);
    assert op.outcome(n) == Expected;
  }

  lemma {:induction false} FailingRun(cfg: Config, p: Plan, op: Operation, b: Breaker, start: real, n: nat)
    requires p.Valid() && p.expBase >= 0.0 && AlwaysFails(op) && n <= p.maxRetries + 1
    requires b.circuit.Closed? && b.failures < cfg.threshold
    requires p.SleepBefore(p.maxRetries) < cfg.timeout
    ensures Failing(cfg, p, b.failures, n, After(cfg, p, op, Progress(Some(b), start, 0, 0.0, None), n))
  {
    if n > 0 {
      FailingRun(cfg, p, op, b, start, n - 1);
      FailingStep(cfg, p, op, b.failures, n - 1, After(cfg, p, op, Progress(Some(b), start, 0, 0.0, None), n - 1));
    }
  }

  /** An operation that always fails, retried under a closed breaker, runs exactly
      min(max_retries + 1, threshold - failures) times if the sleeps stay below the
      timeout. */
  lemma {:induction false} RunsUntilBreakerOpens(cfg: Config, p: Plan, op: Operation, b: Breaker, start: real)
    requires p.Valid() && p.expBase >= 0.0 && AlwaysFails(op)
    requires b.circuit.Closed? && b.failures < cfg.threshold
    requires p.SleepBefore(p.maxRetries) < cfg.timeout
    ensures var q := After(cfg, p, op, Progress(Some(b), start, 0, 0.0, None), p.maxRetries + 1);
      && q.runs == MinNat(p.maxRetries + 1, cfg.threshold - b.failures)
      && q.slept == p.SleepBefore(p.maxRetries)
      && q.result == Some(if p.maxRetries < cfg.threshold - b.failures then Raised else Rejected)
  {
    FailingRun(cfg, p, op, b, start, p.maxRetries + 1);
    FailingRun(cfg, p, op, b, start, p.maxRetries);
    SleepGrows(p, 0, p.maxRetries);
    assert op.outcome(p.maxRetries) == Expected;
  }

  /** Without a breaker it runs max_retries + 1 times and its own error is raised. */
  lemma {:induction false} FailingAlone(cfg: Config, p: Plan, op: Operation, start: real, n: nat)
    requires AlwaysFails(op) && n <= p.maxRetries + 1
    ensures var q := After(cfg, p, op, Progress(None, start, 0, 0.0, None), n);
      && q.breaker.None? && q.runs == n && q.slept == p.SleepBefore(MinNat(n, p.maxRetries))
      && q.result == if n <= p.maxRetries then None else Some(Raised)
  {
    if n > 0 {
      FailingAlone(cfg, p, op, start, n - 1);
      assert op.outcome(n - 1) == Expected;
    }
  }

  /** The failures among the first n attempts that the breaker counts. */
  function Counted(op: Operation, n: nat): nat {
    if n == 0 then 0 else Counted(op, n - 1) + if op.outcome(n - 1).Expected? then 1 else 0
  }

  /** The first n attempts all fail, and the breaker, if there is one, stays closed. */
  ghost predicate KeepsFailing(cfg: Config, op: Operation, b: Option<Breaker>, n: nat) {
    && (forall a :: 0 <= a < n ==> op.outcome(a).Expected? || op.outcome(a).Unexpected?)
    && (b.Some? ==> b.value.circuit.Closed? && b.value.failures + Counted(op, n) < cfg.threshold)
  }

  /** How long the first n attempts take. */
  function Spent(op: Operation, n: nat): real {
    if n == 0 then 0.0 else Spent(op, n - 1) + op.duration(n - 1)
  }

  lemma {:induction false} StillFailing(cfg: Config, p: Plan, op: Operation, b: Option<Breaker>, start: real, n: nat)
    requires KeepsFailing(cfg, op, b, n) && n <= p.maxRetries
    ensures var q := After(cfg, p, op, Progress(b, start, 0, 0.0, None), n);
      && q.result.None? && q.runs == n && q.slept == p.SleepBefore(n)
      && q.now == start + Spent(op, n) + p.SleepBefore(n)
      && (b.None? <==> q.breaker.None?)
      && (b.Some? ==> q.breaker.value.circuit.Closed? && q.breaker.value.failures == b.value.failures + Counted(op, n))
  {
    if n > 0 {
      StillFailing(cfg, p, op, b, start, n - 1);
      assert op.outcome(n - 1).Expected? || op.outcome(n - 1).Unexpected?;
    }
  }

  lemma LastAttempt(cfg: Config, p: Plan, op: Operation, q: Progress, n: nat)
    requires q.breaker.None? || q.breaker.value.circuit.Closed?
    requires op.outcome(n).Returned? || op.outcome(n).Cancelled? || n == p.maxRetries
    ensures var r := Attempt(cfg, p, op, q, n);
      r.result == Some(ResultOf(op.outcome(n))) && r.runs == q.runs + 1 && r.slept == q.slept && r.now == q.now + op.duration(n)
  {
  }

  /** The first answer or cancellation ends the loop, or else the last attempt does,
      as long as the breaker stays closed that far; what that attempt ends in is the
      result. */
  lemma FirstAnswerEnds(cfg: Config, p: Plan, op: Operation, b: Option<Breaker>, start: real, n: nat)
    requires KeepsFailing(cfg, op, b, n) && n <= p.maxRetries
    requires op.outcome(n).Returned? || op.outcome(n).Cancelled? || n == p.maxRetries
    ensures var q := After(cfg, p, op, Progress(b, start, 0, 0.0, None), p.maxRetries + 1);
      && q.result == Some(ResultOf(op.outcome(n))) && q.runs == n + 1 && q.slept == p.SleepBefore(n)
      && q.now == start + Spent(op, n + 1) + p.SleepBefore(n)
  {
    var q0 := Progress(b, start, 0, 0.0, None);
    StillFailing(cfg, p, op, b, start, n);
    LastAttempt(cfg, p, op, After(cfg, p, op, q0, n), n);
    FinishedStays(cfg, p, op, q0, n + 1, p.maxRetries + 1);
  }
}
