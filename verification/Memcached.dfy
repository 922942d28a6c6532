// MemcachedBackend: the tags are kept in the process, the values on the servers.
// A built key always goes to the same server, so the servers are one map here.
module Memcached {
  import opened Basics
  import opened Keys

  datatype Config = Config(build: Key -> Key)
  {
    function Build(k: Key): Key {
      build(k)
    }

    /** Building a built key changes nothing. */
    ghost predicate Stable() {
      forall k :: Build(Build(k)) == Build(k)
    }
  }

  /** Keys built as the code builds them, from this digest and key prefix. */
  function Prefixed(digest: string -> string, prefix: string): Config {
    Config((k: Key) => Key(BuildKey(digest, prefix, k.name)))
  }

  datatype State = State(data: map<Key, Value>, tags: map<Tag, set<Key>>)
  {
    function Members(t: Tag): set<Key> {
      if t in tags then tags[t] else {}
    }

    function Listed(ts: set<Tag>): set<Key> {
      set t, k | t in ts && k in Members(t) :: k
    }
  }

  const INITIAL := State(map[], map[])

  function Built(cfg: Config, keys: set<Key>): set<Key> {
    set k | k in keys :: cfg.Build(k)
  }

  /** key added to the sets of these tags */
  function Joined(tags: map<Tag, set<Key>>, ts: set<Tag>, k: Key): (r: map<Tag, set<Key>>)
    ensures forall t :: t in r <==> t in tags || t in ts
    ensures forall t :: t in r ==> r[t] == (if t in tags then tags[t] else {}) + (if t in ts then {k} else {})
  {
    map t | t in tags.Keys + ts :: (if t in tags then tags[t] else {}) + (if t in ts then {k} else {})
  }

  /** keys discarded from every set; the sets stay, even if empty */
  function Discarded(tags: map<Tag, set<Key>>, gone: set<Key>): (r: map<Tag, set<Key>>)
    ensures r.Keys == tags.Keys
    ensures forall t :: t in r ==> r[t] == tags[t] - gone
  {
    map t | t in tags :: tags[t] - gone
  }

  /** delete of several keys one after the other */
  function Deleted(cfg: Config, s: State, keys: set<Key>): State {
    State(s.data - Built(cfg, keys), Discarded(s.tags, Built(cfg, keys) * s.data.Keys))
  }

  /** One round of invalidate_tags: delete the keys listed now, then drop the set. */
  function OneTag(cfg: Config, s: State, t: Tag): (State, nat) {
    if t !in s.tags then (s, 0)
    else
      var d := Deleted(cfg, s, s.tags[t]);
      (d.(tags := d.tags - {t}), |Built(cfg, s.tags[t]) * s.data.Keys|)
  }

  function Each(cfg: Config, s: State, order: seq<Tag>): (State, nat) {
    if order == [] then (s, 0)
    else
      var n := |order| - 1;
      var (d, c) := Each(cfg, s, order[..n]);
      var (r, m) := OneTag(cfg, d, order[n]);
      (r, c + m)
  }

  function ToSet(order: seq<Tag>): set<Tag> {
    set t | t in order
  }

  datatype Op =
    | Set(key: Key, value: Value, tags: set<Tag>, ok: bool)
    | Delete(key: Key)
    | Expire(key: Key, ok: bool)     // get, then set without tags
    | InvalidateTags(order: seq<Tag>)   // in the order the loop takes them
    | Vanish(key: Key)               // expiry or eviction on the server

  function Apply(cfg: Config, s: State, op: Op): State {
    match op
    case Set(key, v, ts, ok) =>
      if ok then State(s.data[cfg.Build(key) := v], Joined(s.tags, ts, cfg.Build(key))) else s
    case Delete(key) => Deleted(cfg, s, {key})
    case Expire(key, ok) => s
    case InvalidateTags(order) => Each(cfg, s, order).0
    case Vanish(k) => s.(data := s.data - {k})
  }

  /** get */
  function Read(cfg: Config, s: State, key: Key): Option<Value> {
    var k := cfg.Build(key);
    if k in s.data then Some(s.data[k]) else None
  }

  function Run(cfg: Config, ops: seq<Op>): State {
    if ops == [] then INITIAL else Apply(cfg, Run(cfg, ops[..|ops| - 1]), ops[|ops| - 1])
  }

  /** The tags of the latest successful set that built this key. */
  function LatestTags(cfg: Config, ops: seq<Op>, k: Key): set<Tag> {
    if ops == [] then {}
    else
      var n := |ops| - 1;
      if ops[n].Set? && ops[n].ok && cfg.Build(ops[n].key) == k then ops[n].tags else LatestTags(cfg, ops[..n], k)
  }

  /** Everything stored or listed is a built key. */
  ghost predicate AllBuilt(cfg: Config, s: State) {
    && (forall k :: k in s.data ==> cfg.Build(k) == k)
    && (forall t, k :: k in s.Members(t) ==> cfg.Build(k) == k)
  }

  /** A stored key is listed under the tags of its latest set. */
  ghost predicate Covered(s: State, k: Key, ts: set<Tag>) {
    k in s.data ==> forall t :: t in ts ==> k in s.Members(t)
  }

  lemma StableIff(digest: string -> string, prefix: string)
    ensures Prefixed(digest, prefix).Stable() <==> forall key :: Idempotent(digest, prefix, key)
  {
    var cfg := Prefixed(digest, prefix);
    forall key ensures cfg.Build(cfg.Build(Key(key))) == cfg.Build(Key(key)) <==> Idempotent(digest, prefix, key) {
    }
    forall k: Key ensures k == Key(k.name) {
    }
  }

  lemma OneTagShrinks(cfg: Config, s: State, t: Tag, u: Tag)
    ensures OneTag(cfg, s, t).0.Members(u) <= s.Members(u)
    ensures OneTag(cfg, s, t).0.data.Keys <= s.data.Keys
    ensures forall k :: k in OneTag(cfg, s, t).0.data ==> OneTag(cfg, s, t).0.data[k] == s.data[k]
  {
  }

  lemma {:induction false} EachShrinks(cfg: Config, s: State, order: seq<Tag>, u: Tag)
    ensures Each(cfg, s, order).0.Members(u) <= s.Members(u)
    ensures Each(cfg, s, order).0.data.Keys <= s.data.Keys
  {
    if order != [] {
      var n := |order| - 1;
      EachShrinks(cfg, s, order[..n], u);
      OneTagShrinks(cfg, Each(cfg, s, order[..n]).0, order[n], u);
    }
  }

  lemma StepKeepsBuilt(cfg: Config, s: State, op: Op)
    requires cfg.Stable() && AllBuilt(cfg, s)
    ensures AllBuilt(cfg, Apply(cfg, s, op))
  {
    var r := Apply(cfg, s, op);
    if op.Set? {
      assert cfg.Build(cfg.Build(op.key)) == cfg.Build(op.key);
    }
    forall t, k | k in r.Members(t) ensures cfg.Build(k) == k {
      if op.InvalidateTags? {
        EachShrinks(cfg, s, op.order, t);
      }
      assert k in s.Members(t) || (op.Set? && k == cfg.Build(op.key));
    }
    forall k | k in r.data ensures cfg.Build(k) == k {
      if op.InvalidateTags? {
        EachShrinks(cfg, s, op.order, Tag(""));
      }
      assert k in s.data || (op.Set? && k == cfg.Build(op.key));
    }
  }

  lemma {:induction false} RunsAreBuilt(cfg: Config, ops: seq<Op>)
    requires cfg.Stable()
    ensures AllBuilt(cfg, Run(cfg, ops))
  {
    if ops != [] {
      RunsAreBuilt(cfg, ops[..|ops| - 1]);
      StepKeepsBuilt(cfg, Run(cfg, ops[..|ops| - 1]), ops[|ops| - 1]);
    }
  }

  lemma BuiltMembers(cfg: Config, s: State, t: Tag)
    requires AllBuilt(cfg, s)
    ensures Built(cfg, s.Members(t)) == s.Members(t)
  {
  }

  lemma OneTagData(cfg: Config, s: State, t: Tag)
    requires Built(cfg, s.Members(t)) == s.Members(t)
    ensures OneTag(cfg, s, t).0.data == s.data - s.Members(t)
  {
  }

  lemma OneTagCount(cfg: Config, s: State, t: Tag)
    requires Built(cfg, s.Members(t)) == s.Members(t)
    ensures OneTag(cfg, s, t).1 == |s.Members(t) * s.data.Keys|
  {
  }

  lemma StaysBuilt(cfg: Config, s: State, r: State)
    requires AllBuilt(cfg, s) && r.data.Keys <= s.data.Keys && forall u :: r.Members(u) <= s.Members(u)
    ensures AllBuilt(cfg, r)
  {
  }

  lemma OneTagRemovesMembers(cfg: Config, s: State, t: Tag)
    requires AllBuilt(cfg, s)
    ensures OneTag(cfg, s, t).0.data == s.data - s.Members(t)
    ensures OneTag(cfg, s, t).1 == |s.Members(t) * s.data.Keys|
    ensures AllBuilt(cfg, OneTag(cfg, s, t).0)
  {
    BuiltMembers(cfg, s, t);
    OneTagData(cfg, s, t);
    OneTagCount(cfg, s, t);
    forall u ensures OneTag(cfg, s, t).0.Members(u) <= s.Members(u) {
      OneTagShrinks(cfg, s, t, u);
    }
    StaysBuilt(cfg, s, OneTag(cfg, s, t).0);
  }

  /** A key that is still stored is still listed where it was, except under t. */
  lemma OneTagKeepsListing(cfg: Config, s: State, t: Tag, u: Tag, k: Key)
    requires AllBuilt(cfg, s) && k in s.Members(u) && k in OneTag(cfg, s, t).0.data
    ensures u != t && k in OneTag(cfg, s, t).0.Members(u)
  {
  }

  lemma {:induction false} EachKeepsListing(cfg: Config, s: State, order: seq<Tag>, u: Tag, k: Key)
    requires AllBuilt(cfg, s) && k in s.Members(u) && k in Each(cfg, s, order).0.data
    ensures u !in order && k in Each(cfg, s, order).0.Members(u)
  {
    if order != [] {
      var n := |order| - 1;
      var d := Each(cfg, s, order[..n]).0;
      EachIsBuilt(cfg, s, order[..n]);
      OneTagShrinks(cfg, d, order[n], u);
      EachKeepsListing(cfg, s, order[..n], u, k);
      OneTagKeepsListing(cfg, d, order[n], u, k);
      assert order == order[..n] + [order[n]];
    }
  }

  lemma {:induction false} EachIsBuilt(cfg: Config, s: State, order: seq<Tag>)
    requires AllBuilt(cfg, s)
    ensures AllBuilt(cfg, Each(cfg, s, order).0)
  {
    if order != [] {
      var n := |order| - 1;
      EachIsBuilt(cfg, s, order[..n]);
      OneTagRemovesMembers(cfg, Each(cfg, s, order[..n]).0, order[n]);
    }
  }

  lemma StillListed(cfg: Config, s: State, order: seq<Tag>, t: Tag)
    requires AllBuilt(cfg, s)
    ensures var d := Each(cfg, s, order).0;
      d.Members(t) <= s.Members(t) && forall k :: k in s.Members(t) && k in d.data ==> k in d.Members(t)
  {
    EachShrinks(cfg, s, order, t);
    forall k | k in s.Members(t) && k in Each(cfg, s, order).0.data ensures k in Each(cfg, s, order).0.Members(t) {
      EachKeepsListing(cfg, s, order, t, k);
    }
  }

  lemma TwoRemovals(data: map<Key, Value>, was: set<Key>, rest: map<Key, Value>, all: set<Key>, more: set<Key>)
    requires rest == data - was && more <= all && forall k :: k in all && k in rest ==> k in more
    ensures rest - more == data - (was + all)
    ensures |was * data.Keys| + |more * rest.Keys| == |(was + all) * data.Keys|
  {
    assert (was + all) * data.Keys == was * data.Keys + more * rest.Keys;
  }

  lemma EachMore(cfg: Config, s: State, order: seq<Tag>, d: State, t: Tag)
    requires AllBuilt(cfg, s) && order != [] && d == Each(cfg, s, order[..|order| - 1]).0 && t == order[|order| - 1]
    ensures Each(cfg, s, order).0.data == d.data - d.Members(t)
    ensures Each(cfg, s, order).1 == Each(cfg, s, order[..|order| - 1]).1 + |d.Members(t) * d.data.Keys|
    ensures d.Members(t) <= s.Members(t) && forall k :: k in s.Members(t) && k in d.data ==> k in d.Members(t)
    ensures s.Listed(ToSet(order)) == s.Listed(ToSet(order[..|order| - 1])) + s.Members(t)
  {
    EachIsBuilt(cfg, s, order[..|order| - 1]);
    OneTagRemovesMembers(cfg, d, t);
    StillListed(cfg, s, order[..|order| - 1], t);
    ListedMore(s, order, t);
  }

  /** The keys listed under these tags, and no others, are gone and counted. */
  ghost predicate RemovesListed(s: State, ts: set<Tag>, r: State, count: nat) {
    r.data == s.data - s.Listed(ts) && count == |s.Listed(ts) * s.data.Keys|
  }

  /** If built keys are built the same way again, the keys listed under the tags and
      no others go, and their number is returned, whatever the order of the tags. */
  lemma {:induction false} InvalidationRemovesListed(cfg: Config, s: State, order: seq<Tag>)
    requires AllBuilt(cfg, s)
    ensures RemovesListed(s, ToSet(order), Each(cfg, s, order).0, Each(cfg, s, order).1)
  {
    if order == [] {
      NothingRemoved(s);
    } else {
      var n := |order| - 1;
      InvalidationRemovesListed(cfg, s, order[..n]);
      OneMoreRemoved(cfg, s, order);
    }
  }

  lemma NothingRemoved(s: State)
    ensures RemovesListed(s, ToSet([]), s, 0)
  {
  }

  lemma OneMoreRemoved(cfg: Config, s: State, order: seq<Tag>)
    requires AllBuilt(cfg, s) && order != []
    requires var e := Each(cfg, s, order[..|order| - 1]); RemovesListed(s, ToSet(order[..|order| - 1]), e.0, e.1)
    ensures RemovesListed(s, ToSet(order), Each(cfg, s, order).0, Each(cfg, s, order).1)
  {
    var n := |order| - 1;
    var (d, t) := (Each(cfg, s, order[..n]).0, order[n]);
    EachMore(cfg, s, order, d, t);
    TwoRemovals(s.data, s.Listed(ToSet(order[..n])), d.data, s.Members(t), d.Members(t));
  }

  lemma ListedMore(s: State, order: seq<Tag>, t: Tag)
    requires order != [] && order[|order| - 1] == t
    ensures s.Listed(ToSet(order)) == s.Listed(ToSet(order[..|order| - 1])) + s.Members(t)
  {
  }

  lemma InvalidationKeepsCover(cfg: Config, s: State, order: seq<Tag>, k: Key, ts: set<Tag>)
    requires AllBuilt(cfg, s) && Covered(s, k, ts)
    ensures Covered(Each(cfg, s, order).0, k, ts)
    ensures k in Each(cfg, s, order).0.data ==> ts !! ToSet(order)
  {
    EachShrinks(cfg, s, order, Tag(""));
    if k in Each(cfg, s, order).0.data {
      forall t | t in ts ensures t !in order && k in Each(cfg, s, order).0.Members(t) {
        EachKeepsListing(cfg, s, order, t, k);
      }
    }
  }

  lemma DeleteKeepsCover(cfg: Config, s: State, key: Key, k: Key, ts: set<Tag>)
    requires Covered(s, k, ts)
    ensures Covered(Deleted(cfg, s, {key}), k, ts)
  {
  }

  lemma SetKeepsCover(cfg: Config, s: State, op: Op, k: Key, ts: set<Tag>)
    requires op.Set? && op.ok && Covered(s, k, ts)
    ensures Covered(Apply(cfg, s, op), k, if cfg.Build(op.key) == k then op.tags else ts)
  {
  }

  lemma {:induction false} RunsAreCovered(cfg: Config, ops: seq<Op>, k: Key)
    requires cfg.Stable()
    ensures Covered(Run(cfg, ops), k, LatestTags(cfg, ops, k))
  {
    if ops != [] {
      var n := |ops| - 1;
      var (s, op, ts) := (Run(cfg, ops[..n]), ops[n], LatestTags(cfg, ops[..n], k));
      RunsAreCovered(cfg, ops[..n], k);
      RunsAreBuilt(cfg, ops[..n]);
      if op.InvalidateTags? {
        InvalidationKeepsCover(cfg, s, op.order, k, ts);
      } else if op.Delete? {
        DeleteKeepsCover(cfg, s, op.key, k, ts);
      } else if op.Set? && op.ok {
        SetKeepsCover(cfg, s, op, k, ts);
      }
    }
  }

  /** No key whose latest set carried one of the tags is left by the invalidation. */
  ghost predicate Complete(cfg: Config, ops: seq<Op>, order: seq<Tag>, k: Key) {
    k in Each(cfg, Run(cfg, ops), order).0.data ==> LatestTags(cfg, ops, k) !! ToSet(order)
  }

  lemma InvalidationIsComplete(cfg: Config, ops: seq<Op>, order: seq<Tag>, k: Key)
    requires cfg.Stable()
    ensures Complete(cfg, ops, order, k)
  {
    RunsAreCovered(cfg, ops, k);
    RunsAreBuilt(cfg, ops);
    InvalidationKeepsCover(cfg, Run(cfg, ops), order, k, LatestTags(cfg, ops, k));
  }

  lemma OneSet(cfg: Config, key: Key, v: Value, t: Tag)
    ensures var (k, s) := (cfg.Build(key), Run(cfg, [Set(key, v, {t}, true)]));
      && s.data == map[k := v] && t in s.tags && s.tags[t] == {k}
      && LatestTags(cfg, [Set(key, v, {t}, true)], k) == {t}
  {
    var op := Set(key, v, {t}, true);
    assert [op][..|[op]| - 1] == [];
    assert Run(cfg, [op]) == Apply(cfg, INITIAL, op);
    assert {} + {cfg.Build(key)} == {cfg.Build(key)};
    var m: map<Key, Value> := map[];
    assert m[cfg.Build(key) := v] == map[cfg.Build(key) := v];
  }

  lemma OneTagAlone(cfg: Config, s: State, t: Tag)
    ensures Each(cfg, s, [t]).0 == OneTag(cfg, s, t).0
  {
    assert [t][..|[t]| - 1] == [];
    assert Each(cfg, s, []) == (s, 0);
  }

  /** A key that is built differently again escapes the invalidation of its tag. */
  lemma UnstableKeyEscapes(cfg: Config, key: Key, v: Value, t: Tag)
    requires cfg.Build(cfg.Build(key)) != cfg.Build(key)
    ensures !Complete(cfg, [Set(key, v, {t}, true)], [t], cfg.Build(key))
  {
    var k := cfg.Build(key);
    var s := Run(cfg, [Set(key, v, {t}, true)]);
    OneSet(cfg, key, v, t);
    OneTagAlone(cfg, s, t);
    assert Built(cfg, {k}) == {cfg.Build(k)};
    assert k in OneTag(cfg, s, t).0.data;
    assert t in ToSet([t]);
  }

  ghost predicate AlwaysComplete(cfg: Config) {
    forall ops, order, k :: Complete(cfg, ops, order, k)
  }

  /** Invalidation by tags is complete, after every run and in every order, exactly if
      building a built key changes nothing. */
  lemma CompleteIffStable(cfg: Config)
    ensures AlwaysComplete(cfg) <==> cfg.Stable()
  {
    if cfg.Stable() {
      forall ops, order, k ensures Complete(cfg, ops, order, k) {
        InvalidationIsComplete(cfg, ops, order, k);
      }
    } else {
      var key :| cfg.Build(cfg.Build(key)) != cfg.Build(key);
      UnstableKeyEscapes(cfg, key, Value(""), Tag(""));
    }
  }

  ghost predicate CompleteForAllDigests(prefix: string) {
    forall digest :: IsDigest(digest) ==> AlwaysComplete(Prefixed(digest, prefix))
  }

  /** ... which a key prefix guarantees, whatever the digest, exactly if it is sanitised
      already and has at most 99 characters. */
  lemma CompleteIffGoodPrefix(prefix: string)
    ensures CompleteForAllDigests(prefix) <==> GoodPrefix(prefix)
  {
    IdempotentIff(prefix);
    forall digest | IsDigest(digest)
      ensures AlwaysComplete(Prefixed(digest, prefix)) <==> forall key :: Idempotent(digest, prefix, key)
    {
      CompleteIffStable(Prefixed(digest, prefix));
      StableIff(digest, prefix);
    }
    if !GoodPrefix(prefix) {
      var digest, key :| IsDigest(digest) && !Idempotent(digest, prefix, key);
      assert !AlwaysComplete(Prefixed(digest, prefix));
    }
  }
}
