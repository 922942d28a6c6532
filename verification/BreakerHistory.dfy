// The state of the breaker as a function of what happened to it.
module BreakerHistory {
  import opened Basics
  import opened BreakerModel

  /** Failures recorded since the last success or reset. */
  function FailuresSince(h: seq<Event>): nat {
    if h == [] then 0
    else
      var n := |h| - 1;
      match h[n]
      case Failure(_, _) => FailuresSince(h[..n]) + 1
      case Success(_) => 0
      case Reset => 0
      case Enter(_, _) => FailuresSince(h[..n])
      case Abandon(_) => FailuresSince(h[..n])
  }

  /** Some call was admitted since the last failure. */
  predicate AdmittedSinceFailure(cfg: Config, h: seq<Event>) {
    h != [] &&
    var n := |h| - 1;
    AdmitsLast(cfg, h) || (!h[n].Failure? && AdmittedSinceFailure(cfg, h[..n]))
  }

  /** CLOSED iff fewer failures than the threshold, HALF_OPEN iff not CLOSED and a
      call was admitted since the last failure. */
  ghost predicate Explained(cfg: Config, h: seq<Event>) {
    var b := Run(cfg, h).breaker;
    && b.failures == FailuresSince(h)
    && (b.circuit.Closed? <==> FailuresSince(h) < cfg.threshold)
    && (b.circuit.HalfOpen? <==> !b.circuit.Closed? && AdmittedSinceFailure(cfg, h))
  }

  lemma {:induction false} StateIsHistory(cfg: Config, h: seq<Event>)
    requires cfg.threshold >= 1
    ensures Explained(cfg, h)
  {
    if h != [] {
      StateIsHistory(cfg, h[..|h| - 1]);
    }
  }

  /** A trial fails with the count already at the threshold: the branch that reopens
      a half-open circuit below the threshold is never taken. */
  lemma ReopeningBelowThresholdIsDead(cfg: Config, h: seq<Event>)
    requires cfg.threshold >= 1 && Run(cfg, h).breaker.circuit.HalfOpen?
    ensures Run(cfg, h).breaker.failures + 1 >= cfg.threshold
  {
    StateIsHistory(cfg, h);
  }

  /** The last event put a call in flight. */
  predicate Starts(cfg: Config, h: seq<Event>)
    requires h != []
  {
    var n := |h| - 1;
    h[n].Enter? && h[n].id !in Run(cfg, h[..n]).active && h[n].id in Run(cfg, h).active
  }

  /** No call was put in flight since the last failure. */
  predicate QuietSinceFailure(cfg: Config, h: seq<Event>) {
    h != [] ==>
      var n := |h| - 1;
      h[n].Failure? || (!Starts(cfg, h) && QuietSinceFailure(cfg, h[..n]))
  }

  function LastFailureTime(h: seq<Event>): Option<real> {
    if h == [] then None
    else if h[|h| - 1].Failure? then Some(h[|h| - 1].now)
    else LastFailureTime(h[..|h| - 1])
  }

  lemma {:induction false} StartsIsAdmission(cfg: Config, h: seq<Event>)
    requires Possible(cfg, h)
    ensures QuietSinceFailure(cfg, h) <==> !AdmittedSinceFailure(cfg, h)
  {
    if h != [] {
      StartsIsAdmission(cfg, h[..|h| - 1]);
    }
  }

  lemma {:induction false} FailureTimeIsKept(cfg: Config, h: seq<Event>)
    requires FailuresSince(h) > 0
    ensures LastFailureTime(h).Some? && Run(cfg, h).breaker.lastFailure == LastFailureTime(h)
  {
    if FailuresSince(h[..|h| - 1]) > 0 {
      FailureTimeIsKept(cfg, h[..|h| - 1]);
    }
  }

  /** A call gets through iff there were too few failures since the last success or
      reset, or the timeout has passed since the last failure and nobody has tried
      since. */
  lemma AdmissionIsHistory(cfg: Config, h: seq<Event>, id: nat, now: real)
    requires cfg.threshold >= 1 && Possible(cfg, h) && id !in Run(cfg, h).active
    ensures id in Run(cfg, h + [Enter(id, now)]).active <==>
      || FailuresSince(h) < cfg.threshold
      || (QuietSinceFailure(cfg, h) && LastFailureTime(h).Some? && now - LastFailureTime(h).value >= cfg.timeout)
  {
    StateIsHistory(cfg, h);
    StartsIsAdmission(cfg, h);
    RunSnoc(cfg, h, Enter(id, now));
    if FailuresSince(h) >= cfg.threshold {
      FailureTimeIsKept(cfg, h);
    }
  }

  function EventsLike(h: seq<Event>, like: Event -> bool): nat {
    if h == [] then 0 else EventsLike(h[..|h| - 1], like) + if like(h[|h| - 1]) then 1 else 0
  }

  /** The totals count the calls, rejected ones included, and their outcomes. */
  lemma {:induction false} TotalsCountEvents(cfg: Config, h: seq<Event>)
    ensures var b := Run(cfg, h).breaker;
      && b.requests == EventsLike(h, (e: Event) => e.Enter?)
      && b.totalFailures == EventsLike(h, (e: Event) => e.Failure?)
      && b.totalSuccesses == EventsLike(h, (e: Event) => e.Success?)
  {
    if h != [] {
      TotalsCountEvents(cfg, h[..|h| - 1]);
    }
  }

  /** Readings of the clock never decrease. */
  predicate ClockNeverGoesBack(h: seq<Event>, start: real) {
    h != [] ==>
      var n := |h| - 1;
      && ClockNeverGoesBack(h[..n], start)
      && (h[n].Enter? || h[n].Failure? ==> Latest(h[..n], start) <= h[n].now)
  }

  function Latest(h: seq<Event>, start: real): real {
    if h == [] then start
    else
      var n := |h| - 1;
      if h[n].Enter? || h[n].Failure? then h[n].now else Latest(h[..n], start)
  }

  /** The times at which trial calls were admitted since the last success or reset. */
  function TrialTimes(cfg: Config, h: seq<Event>): seq<real> {
    if h == [] then []
    else
      var n := |h| - 1;
      if h[n].Success? || h[n].Reset? then []
      else if AdmitsLast(cfg, h) && Run(cfg, h[..n]).breaker.circuit.Open? then TrialTimes(cfg, h[..n]) + [h[n].now]
      else TrialTimes(cfg, h[..n])
  }

  ghost predicate Paced(s: seq<real>, gap: real) {
    forall i :: 0 < i < |s| ==> Gap(s, i) >= gap
  }

  function Gap(s: seq<real>, i: int): real
    requires 0 < i < |s|
  {
    s[i] - s[i - 1]
  }

  ghost predicate Timed(cfg: Config, h: seq<Event>, start: real) {
    var (b, s) := (Run(cfg, h).breaker, TrialTimes(cfg, h));
    && Paced(s, cfg.timeout)
    && (b.circuit.Closed? ==> s == [])
    && (b.circuit.HalfOpen? ==> s != [])
    && (s != [] ==> s[|s| - 1] <= Latest(h, start))
    && (b.circuit.Open? ==> b.lastFailure.Some? && (s != [] ==> s[|s| - 1] <= b.lastFailure.value))
  }

  /** Trial calls are admitted at least the timeout apart. */
  lemma {:induction false} TrialsArePaced(cfg: Config, h: seq<Event>, start: real)
    requires cfg.threshold >= 1 && ClockNeverGoesBack(h, start)
    ensures Timed(cfg, h, start)
  {
    if h != [] {
      var n := |h| - 1;
      TrialsArePaced(cfg, h[..n], start);
      StateIsHistory(cfg, h[..n]);
      StateIsHistory(cfg, h);
      var s := TrialTimes(cfg, h[..n]);
      forall i | 0 < i < |TrialTimes(cfg, h)| ensures Gap(TrialTimes(cfg, h), i) >= cfg.timeout {
        if i < |s| {
          assert Gap(s, i) >= cfg.timeout;
        }
      }
    }
  }

  lemma {:induction false} PacedSpan(s: seq<real>, gap: real)
    requires s != [] && Paced(s, gap)
    ensures s[|s| - 1] - s[0] >= (|s| - 1) as real * gap
  {
    var n := |s| - 1;
    if n > 0 {
      forall i | 0 < i < n ensures Gap(s[..n], i) >= gap {
        assert Gap(s, i) >= gap;
      }
      PacedSpan(s[..n], gap);
      assert Gap(s, n) >= gap;
      assert n as real * gap == (n - 1) as real * gap + gap;
    }
  }

  /** n trials in a phase without success or reset span at least (n-1) timeouts. */
  lemma TrialsSpan(cfg: Config, h: seq<Event>, start: real)
    requires cfg.threshold >= 1 && ClockNeverGoesBack(h, start) && TrialTimes(cfg, h) != []
    ensures var s := TrialTimes(cfg, h); s[|s| - 1] - s[0] >= (|s| - 1) as real * cfg.timeout
  {
    TrialsArePaced(cfg, h, start);
    PacedSpan(TrialTimes(cfg, h), cfg.timeout);
  }

  /** The call admitted last, and whether it was abandoned since. */
  function LastAdmitted(cfg: Config, h: seq<Event>): Option<nat> {
    if h == [] then None
    else if AdmitsLast(cfg, h) then Some(h[|h| - 1].id)
    else LastAdmitted(cfg, h[..|h| - 1])
  }

  predicate LastAbandoned(cfg: Config, h: seq<Event>) {
    h != [] &&
    var n := |h| - 1;
    !AdmitsLast(cfg, h)
    && (LastAbandoned(cfg, h[..n]) || (h[n].Abandon? && LastAdmitted(cfg, h[..n]) == Some(h[n].id)))
  }

  /** In HALF_OPEN the call admitted last is the trial, and it is still in flight
      unless it was abandoned. */
  ghost predicate TrialInFlight(cfg: Config, h: seq<Event>) {
    var w := Run(cfg, h);
    w.breaker.circuit.HalfOpen? ==>
      var trial := LastAdmitted(cfg, h);
      trial.Some? && (trial.value in w.active <==> !LastAbandoned(cfg, h))
  }

  lemma {:induction false} TrialIsInFlight(cfg: Config, h: seq<Event>)
    requires Possible(cfg, h)
    ensures TrialInFlight(cfg, h)
  {
    if h != [] {
      TrialIsInFlight(cfg, h[..|h| - 1]);
    }
  }

  lemma {:induction false} NothingAbandoned(cfg: Config, h: seq<Event>)
    requires forall e :: e in h ==> !e.Abandon?
    ensures !LastAbandoned(cfg, h)
  {
    if h != [] {
      assert forall e :: e in h[..|h| - 1] ==> e in h;
      NothingAbandoned(cfg, h[..|h| - 1]);
    }
  }

  /** If every admitted call ends in a recorded outcome, HALF_OPEN has its trial. */
  lemma {:induction false} RecordedOutcomesNeverWedge(cfg: Config, h: seq<Event>)
    requires Possible(cfg, h) && forall e :: e in h ==> !e.Abandon?
    requires Run(cfg, h).breaker.circuit.HalfOpen?
    ensures LastAdmitted(cfg, h).Some? && LastAdmitted(cfg, h).value in Run(cfg, h).active
  {
    TrialIsInFlight(cfg, h);
    NothingAbandoned(cfg, h);
  }

  function RunFrom(cfg: Config, w: World, more: seq<Event>): World {
    if more == [] then w else Next(cfg, RunFrom(cfg, w, more[..|more| - 1]), more[|more| - 1])
  }

  predicate PossibleFrom(cfg: Config, w: World, more: seq<Event>) {
    more != [] ==>
      var n := |more| - 1;
      PossibleFrom(cfg, w, more[..n]) && Enabled(RunFrom(cfg, w, more[..n]), more[n])
  }

  /** Half open with no call in flight. */
  predicate Wedged(w: World) {
    w.breaker.circuit.HalfOpen? && w.active == {}
  }

  /** Then nothing but a manual reset helps: every later call is rejected. */
  lemma {:induction false} WedgedForever(cfg: Config, w: World, more: seq<Event>)
    requires Wedged(w) && PossibleFrom(cfg, w, more) && Reset !in more
    ensures Wedged(RunFrom(cfg, w, more))
    ensures forall now :: !RunFrom(cfg, w, more).breaker.Admits(cfg, now)
  {
    if more != [] {
      var n := |more| - 1;
      assert Reset !in more[..n] by {
        assert more == more[..n] + [more[n]];
      }
      WedgedForever(cfg, w, more[..n]);
      assert more[n] in more;
    }
  }

  predicate Leaves(cfg: Config, w: World, e: Event) {
    Enabled(w, e) && !e.Reset? && !Next(cfg, w, e).breaker.circuit.HalfOpen?
  }

  /** A half-open breaker can leave that state by itself iff a call is in flight. */
  lemma LeavesIffInFlight(cfg: Config, w: World)
    requires w.breaker.circuit.HalfOpen?
    ensures (exists e :: Leaves(cfg, w, e)) <==> !Wedged(w)
  {
    if w.active != {} {
      var id :| id in w.active;
      assert Leaves(cfg, w, Success(id));
    }
  }

  /** One cancelled trial wedges the breaker. */
  lemma CancelledTrialWedges(cfg: Config, now: real)
    requires cfg.threshold == 1
    ensures var h := [Enter(0, now), Failure(0, now), Enter(1, now + cfg.timeout), Abandon(1)];
      Possible(cfg, h) && Wedged(Run(cfg, h))
  {
    var (a, b, c, d) := (Enter(0, now), Failure(0, now), Enter(1, now + cfg.timeout), Abandon(1));
    RunSnoc(cfg, [], a);
    RunSnoc(cfg, [a], b);
    RunSnoc(cfg, [a, b], c);
    RunSnoc(cfg, [a, b, c], d);
    assert [] + [a] == [a] && [a] + [b] == [a, b] && [a, b] + [c] == [a, b, c] && [a, b, c] + [d] == [a, b, c, d];
  }

  lemma RunSnoc(cfg: Config, h: seq<Event>, e: Event)
    ensures Run(cfg, h + [e]) == Next(cfg, Run(cfg, h), e)
    ensures Possible(cfg, h + [e]) <==> Possible(cfg, h) && Enabled(Run(cfg, h), e)
  {
  }
}
