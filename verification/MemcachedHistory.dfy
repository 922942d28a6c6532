// What the servers and the tag sets hold, as functions of the calls made.
module MemcachedHistory {
  import opened Basics
  import opened Memcached

  /** The value of the last successful set that built k, unless k was deleted,
      invalidated or lost since. */
  function Content(cfg: Config, ops: seq<Op>, k: Key): Option<Value>
    decreases |ops|, 0
  {
    if ops == [] then None
    else
      var (past, op) := (ops[..|ops| - 1], ops[|ops| - 1]);
      if op.Set? && op.ok && cfg.Build(op.key) == k then Some(op.value)
      else if op.Delete? && cfg.Build(op.key) == k then None
      else if op.InvalidateTags? && ListedUnder(cfg, past, op.order, k) then None
      else if op.Vanish? && op.key == k then None
      else Content(cfg, past, k)
  }

  /** k is in the set of t: a set put it there, and neither a delete that found it nor
      an invalidation of the tag took it out. */
  predicate Lists(cfg: Config, ops: seq<Op>, t: Tag, k: Key)
    decreases |ops|, 1
  {
    ops != [] &&
    var (past, op) := (ops[..|ops| - 1], ops[|ops| - 1]);
    if op.Set? && op.ok && cfg.Build(op.key) == k && t in op.tags then true
    else if op.Delete? && cfg.Build(op.key) == k && Content(cfg, past, k).Some? then false
    else if op.InvalidateTags? && (t in op.order || (Content(cfg, past, k).Some? && ListedUnder(cfg, past, op.order, k))) then false
    else Lists(cfg, past, t, k)
  }

  predicate ListedUnder(cfg: Config, ops: seq<Op>, order: seq<Tag>, k: Key)
    decreases |ops|, 2
  {
    exists t :: t in order && Lists(cfg, ops, t, k)
  }

  function Held(s: State, k: Key): Option<Value> {
    if k in s.data then Some(s.data[k]) else None
  }

  ghost predicate Told(cfg: Config, ops: seq<Op>, s: State) {
    && (forall k :: Held(s, k) == Content(cfg, ops, k))
    && (forall t, k :: k in s.Members(t) <==> Lists(cfg, ops, t, k))
  }

  lemma OneTagMembers(cfg: Config, s: State, t: Tag, u: Tag)
    requires Built(cfg, s.Members(t)) == s.Members(t)
    ensures OneTag(cfg, s, t).0.Members(u) == if u == t then {} else s.Members(u) - s.Members(t) * s.data.Keys
  {
  }

  /** Which listings an invalidation leaves. */
  ghost predicate Leaves(s: State, order: seq<Tag>, d: State, u: Tag) {
    d.Members(u) == if u in order then {} else s.Members(u) - s.Listed(ToSet(order)) * s.data.Keys
  }

  lemma LeavesMore(s: State, order: seq<Tag>, d: State, r: State, t: Tag, u: Tag)
    requires Leaves(s, order, d, t) && Leaves(s, order, d, u)
    requires d.data.Keys == s.data.Keys - s.Listed(ToSet(order))
    requires r.Members(u) == if u == t then {} else d.Members(u) - d.Members(t) * d.data.Keys
    requires s.Listed(ToSet(order + [t])) == s.Listed(ToSet(order)) + s.Members(t)
    ensures Leaves(s, order + [t], r, u)
  {
    if u !in order && u != t {
      if t in order {
        assert t in ToSet(order) && s.Members(t) <= s.Listed(ToSet(order));
      }
      assert r.Members(u) == s.Members(u) - (s.Listed(ToSet(order)) + s.Members(t)) * s.data.Keys;
    }
  }

  lemma {:induction false} EachLeaves(cfg: Config, s: State, order: seq<Tag>, u: Tag)
    requires AllBuilt(cfg, s)
    ensures Leaves(s, order, Each(cfg, s, order).0, u)
  {
    if order == [] {
      assert s.Listed(ToSet([])) == {};
    } else {
      var (p, t) := (order[..|order| - 1], order[|order| - 1]);
      var d := Each(cfg, s, p).0;
      EachLeaves(cfg, s, p, u);
      EachLeaves(cfg, s, p, t);
      EachIsBuilt(cfg, s, p);
      BuiltMembers(cfg, d, t);
      OneTagMembers(cfg, d, t, u);
      InvalidationRemovesListed(cfg, s, p);
      ListedMore(s, order, t);
      assert order == p + [t];
      LeavesMore(s, p, d, Each(cfg, s, order).0, t, u);
    }
  }

  lemma ListedIsTold(cfg: Config, ops: seq<Op>, s: State, order: seq<Tag>, k: Key)
    requires Told(cfg, ops, s)
    ensures k in s.Listed(ToSet(order)) <==> ListedUnder(cfg, ops, order, k)
  {
    if k in s.Listed(ToSet(order)) {
      var t :| t in ToSet(order) && k in s.Members(t);
      assert t in order && Lists(cfg, ops, t, k);
    }
    if ListedUnder(cfg, ops, order, k) {
      var t :| t in order && Lists(cfg, ops, t, k);
      assert t in ToSet(order) && k in s.Members(t);
    }
  }

  lemma InvalidationStep(cfg: Config, past: seq<Op>, s: State, op: Op, t: Tag, k: Key)
    requires op.InvalidateTags? && Told(cfg, past, s) && AllBuilt(cfg, s)
    ensures Held(Apply(cfg, s, op), k) == Content(cfg, past + [op], k)
    ensures k in Apply(cfg, s, op).Members(t) <==> Lists(cfg, past + [op], t, k)
  {
    assert (past + [op])[..|past|] == past;
    InvalidationRemovesListed(cfg, s, op.order);
    EachLeaves(cfg, s, op.order, t);
    ListedIsTold(cfg, past, s, op.order, k);
    assert Held(s, k) == Content(cfg, past, k);
  }

  lemma OtherStep(cfg: Config, past: seq<Op>, s: State, op: Op, t: Tag, k: Key)
    requires !op.InvalidateTags? && Told(cfg, past, s)
    ensures Held(Apply(cfg, s, op), k) == Content(cfg, past + [op], k)
    ensures k in Apply(cfg, s, op).Members(t) <==> Lists(cfg, past + [op], t, k)
  {
    assert (past + [op])[..|past|] == past;
    assert Held(s, k) == Content(cfg, past, k);
    if op.Delete? {
      assert Built(cfg, {op.key}) == {cfg.Build(op.key)};
    }
  }

  lemma Step(cfg: Config, past: seq<Op>, s: State, op: Op, t: Tag, k: Key)
    requires Told(cfg, past, s) && AllBuilt(cfg, s)
    ensures Held(Apply(cfg, s, op), k) == Content(cfg, past + [op], k)
    ensures k in Apply(cfg, s, op).Members(t) <==> Lists(cfg, past + [op], t, k)
  {
    if op.InvalidateTags? {
      InvalidationStep(cfg, past, s, op, t, k);
    } else {
      OtherStep(cfg, past, s, op, t, k);
    }
  }

  /** Every run, if building a built key changes nothing. */
  lemma {:induction false} RunIsTold(cfg: Config, ops: seq<Op>)
    requires cfg.Stable()
    ensures Told(cfg, ops, Run(cfg, ops))
  {
    if ops != [] {
      var (past, op) := (ops[..|ops| - 1], ops[|ops| - 1]);
      var s := Run(cfg, past);
      RunIsTold(cfg, past);
      RunsAreBuilt(cfg, past);
      assert ops == past + [op];
      forall k ensures Held(Run(cfg, ops), k) == Content(cfg, ops, k) {
        Step(cfg, past, s, op, Tag(""), k);
      }
      forall t, k ensures k in Run(cfg, ops).Members(t) <==> Lists(cfg, ops, t, k) {
        Step(cfg, past, s, op, t, k);
      }
    }
  }

  /** A get answers the value of the last successful set, in every run. */
  lemma ReadsAnswerContent(cfg: Config, ops: seq<Op>, key: Key)
    requires cfg.Stable()
    ensures Read(cfg, Run(cfg, ops), key) == Content(cfg, ops, cfg.Build(key))
  {
    RunIsTold(cfg, ops);
    assert Held(Run(cfg, ops), cfg.Build(key)) == Content(cfg, ops, cfg.Build(key));
  }
}
