// Expiry sweeps cannot be observed through get, set, exists and expire.
module MemorySweeps {
  import opened Basics
  import opened OrderedDict
  import opened MemoryModel
  import opened MemoryLru

  datatype Slot = Slot(value: Value, deadline: Time)

  type Plain = map<Key, Slot>

  predicate Observer(op: Op) {
    op.Get? || op.Set? || op.Exists? || op.Expire? || op.Sweep?
  }

  predicate Live(p: Plain, k: Key, now: Time) {
    k in p && now <= p[k].deadline
  }

  /** The same calls on a plain map that forgets nothing and ignores sweeps. */
  function PlainApply(p: Plain, op: Op): (Plain, Reply) {
    match op
    case Get(k, now, _) => (p, if Live(p, k, now) then Found(p[k].value) else Absent)
    case Set(k, v, _, _, _, _, _) => (p[k := Slot(v, Deadline(op))], Flag(true))
    case Exists(k, now) => (p, Flag(Live(p, k, now)))
    case Expire(k, ttl, now) =>
      if Live(p, k, now) then (p[k := p[k].(deadline := now + ttl as real)], Flag(true)) else (p, Flag(false))
    case _ => (p, Flag(true))
  }

  /** Both hold the same unexpired keys from time t on. */
  ghost predicate Agree(m: Memory, p: Plain, t: Time) {
    && (forall k :: Live(p, k, t) ==>
          k in m.storage && k in m.expiry && p[k] == Slot(m.storage[k], m.expiry[k]))
    && (forall k :: k in m.storage && k in m.expiry && t <= m.expiry[k] ==>
          k in p && p[k] == Slot(m.storage[k], m.expiry[k]))
    && (forall k :: k in m.storage <==> k in m.expiry)
  }

  lemma TimedStep(m: Memory, p: Plain, t: Time, op: Op)
    requires Agree(m, p, t) && (op.Get? || op.Exists? || op.Expire?) && t <= op.now
    ensures Agree(Apply(m, op, 0).0, PlainApply(p, op).0, op.now)
    ensures Apply(m, op, 0).1 == PlainApply(p, op).1
  {
  }

  lemma SweepStep(m: Memory, p: Plain, t: Time, op: Op)
    requires Agree(m, p, t) && op.Sweep? && t <= op.now
    ensures Agree(Apply(m, op, 0).0, PlainApply(p, op).0, op.now)
  {
  }

  lemma StoreFields(m: Memory, k: Key, v: Value, deadline: Time, stamp: Time, ts: set<Tag>)
    ensures m.Store(k, v, deadline, stamp, ts).storage == m.storage[k := v]
    ensures k in m.storage || k !in m.expiry ==> m.Store(k, v, deadline, stamp, ts).expiry == m.expiry[k := deadline]
  {
    assert (m.storage - {k})[k := v] == m.storage[k := v];
    assert (m.expiry - {k})[k := deadline] == m.expiry[k := deadline];
  }

  lemma NothingEvicted(m: Memory)
    ensures m.Evict(0).storage == m.storage && m.Evict(0).expiry == m.expiry
  {
  }

  lemma SetStep(m: Memory, p: Plain, t: Time, op: Op)
    requires Agree(m, p, t) && op.Set? && t <= op.now
    ensures Agree(Apply(m, op, 0).0, PlainApply(p, op).0, op.now)
  {
    StoreFields(m, op.key, op.value, Deadline(op), op.stamp, op.tags);
    NothingEvicted(Stored(m, op));
  }

  ghost predicate ClockNeverGoesBack(ops: seq<Op>) {
    forall i, j :: 0 <= i < j < |ops| && Observer(ops[i]) && Observer(ops[j]) ==> ops[i].now <= ops[j].now
  }

  ghost predicate AllObservers(ops: seq<Op>) {
    forall i :: 0 <= i < |ops| ==> Observer(ops[i])
  }

  function PlainRun(ops: seq<Op>): (Plain, seq<Reply>) {
    if ops == [] then (map[], [])
    else
      var n := |ops| - 1;
      var (p, rs) := PlainRun(ops[..n]);
      var (p', r) := PlainApply(p, ops[n]);
      (p', rs + [r])
  }

  lemma {:induction false} RunsAgree(ops: seq<Op>)
    requires AllObservers(ops) && ClockNeverGoesBack(ops)
    ensures Run(ops, 0).1 == PlainRun(ops).1
    ensures ops != [] ==> Agree(Run(ops, 0).0, PlainRun(ops).0, ops[|ops| - 1].now)
  {
    if ops != [] {
      var n := |ops| - 1;
      var op := ops[n];
      RunsAgree(ops[..n]);
      var (m, p) := (Run(ops[..n], 0).0, PlainRun(ops[..n]).0);
      var t := if n == 0 then op.now else ops[n - 1].now;
      assert Agree(m, p, t);
      if op.Set? {
        SetStep(m, p, t, op);
      } else if op.Sweep? {
        SweepStep(m, p, t, op);
      } else {
        TimedStep(m, p, t, op);
      }
    }
  }

  function WithoutSweeps(ops: seq<Op>): seq<Op> {
    if ops == [] then []
    else
      var n := |ops| - 1;
      WithoutSweeps(ops[..n]) + (if ops[n].Sweep? then [] else [ops[n]])
  }

  /** The replies to the calls that are not sweeps. */
  function Visible(ops: seq<Op>, replies: seq<Reply>): seq<Reply>
    requires |ops| == |replies|
  {
    if ops == [] then []
    else
      var n := |ops| - 1;
      Visible(ops[..n], replies[..n]) + (if ops[n].Sweep? then [] else [replies[n]])
  }

  lemma PlainRunSnoc(ops: seq<Op>, op: Op)
    ensures PlainRun(ops + [op]).0 == PlainApply(PlainRun(ops).0, op).0
    ensures PlainRun(ops + [op]).1 == PlainRun(ops).1 + [PlainApply(PlainRun(ops).0, op).1]
  {
  }

  lemma {:induction false} PlainIgnoresSweeps(ops: seq<Op>)
    ensures |PlainRun(ops).1| == |ops|
    ensures PlainRun(WithoutSweeps(ops)).0 == PlainRun(ops).0
    ensures PlainRun(WithoutSweeps(ops)).1 == Visible(ops, PlainRun(ops).1)
  {
    if ops != [] {
      var n := |ops| - 1;
      PlainIgnoresSweeps(ops[..n]);
      assert ops == ops[..n] + [ops[n]];
      PlainRunSnoc(ops[..n], ops[n]);
      PlainRunSnoc(WithoutSweeps(ops[..n]), ops[n]);
      assert PlainRun(ops).1[..n] == PlainRun(ops[..n]).1;
      assert WithoutSweeps(ops[..n]) + [] == WithoutSweeps(ops[..n]);
    }
  }

  lemma {:induction false} WithoutSweepsIsSubsequence(ops: seq<Op>)
    requires AllObservers(ops) && ClockNeverGoesBack(ops)
    ensures AllObservers(WithoutSweeps(ops)) && ClockNeverGoesBack(WithoutSweeps(ops))
    ensures forall op :: op in WithoutSweeps(ops) ==> op in ops
  {
    if ops != [] {
      var n := |ops| - 1;
      WithoutSweepsIsSubsequence(ops[..n]);
      var w := WithoutSweeps(ops[..n]);
      forall i | 0 <= i < |w| ensures w[i].now <= ops[n].now {
        assert w[i] in ops[..n];
        var j :| 0 <= j < n && ops[..n][j] == w[i];
        assert ops[j] == w[i];
      }
    }
  }

  /** With no size limit and a clock that never goes back, every call gets the
      reply it would have got with all expiry sweeps left out. */
  lemma SweepsAreInvisible(ops: seq<Op>)
    requires AllObservers(ops) && ClockNeverGoesBack(ops)
    ensures |Run(ops, 0).1| == |ops|
    ensures Visible(ops, Run(ops, 0).1) == Run(WithoutSweeps(ops), 0).1
  {
    RunsAgree(ops);
    PlainIgnoresSweeps(ops);
    WithoutSweepsIsSubsequence(ops);
    RunsAgree(WithoutSweeps(ops));
  }

  /** delete, in contrast, reports a key as deleted exactly if it is stored, so it
      tells an expired key that was swept from one that was not. */
  lemma DeleteSeesSweeps(m: Memory, k: Key, now: Time)
    requires m.Valid()
    ensures (Apply(m, Delete(k), 0).1 == Flag(k in m.storage && !m.Expired(k, now))) <==>
      !(k in m.storage && m.Expired(k, now))
    ensures k in m.storage && m.Expired(k, now) ==>
      Apply(Apply(m, Sweep(now), 0).0, Delete(k), 0).1 != Apply(m, Delete(k), 0).1
  {
  }
}
