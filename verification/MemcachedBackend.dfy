// MemcachedBackend as it runs: the loops over tags, sets and keys.
module MemcachedBackend {
  import opened Basics
  import opened Memcached

  lemma JoinedOneMore(tags: map<Tag, set<Key>>, done: set<Tag>, t: Tag, k: Key)
    requires t !in done
    ensures var was := Joined(tags, done, k);
      Joined(tags, done + {t}, k) == was[t := (if t in was then was[t] else {}) + {k}]
  {
    var (was, now) := (Joined(tags, done, k), Joined(tags, done + {t}, k));
    assert now[t] == (if t in was then was[t] else {}) + {k};
    forall u | u in now && u != t ensures u in was && now[u] == was[u] {
    }
  }

  lemma JoinedNone(tags: map<Tag, set<Key>>, k: Key)
    ensures Joined(tags, {}, k) == tags
  {
    assert forall t :: t in tags ==> tags[t] + {} == tags[t];
  }

  lemma DiscardedOneMore(tags: map<Tag, set<Key>>, done: set<Tag>, t: Tag, k: Key)
    requires t in tags && t !in done
    ensures DiscardedIn(tags, done + {t}, k) == DiscardedIn(tags, done, k)[t := tags[t] - {k}]
  {
  }

  /** The sets of the tags in done have lost k. */
  function DiscardedIn(tags: map<Tag, set<Key>>, done: set<Tag>, k: Key): (r: map<Tag, set<Key>>)
    ensures r.Keys == tags.Keys
    ensures forall t :: t in r ==> r[t] == tags[t] - (if t in done then {k} else {})
  {
    map t | t in tags :: tags[t] - (if t in done then {k} else {})
  }

  lemma DeletedOneMore(cfg: Config, s: State, keys: set<Key>, k: Key)
    ensures Deleted(cfg, Deleted(cfg, s, keys), {k}) == Deleted(cfg, s, keys + {k})
  {
    assert Built(cfg, keys + {k}) == Built(cfg, keys) + {cfg.Build(k)};
    assert Built(cfg, {k}) == {cfg.Build(k)};
    MinusTwice(s.data, Built(cfg, keys), {cfg.Build(k)});
    DiscardedTwice(s.tags, Built(cfg, keys) * s.data.Keys, {cfg.Build(k)} * (s.data - Built(cfg, keys)).Keys);
    SameDiscards(s.tags, Built(cfg, keys), {cfg.Build(k)}, s.data.Keys);
  }

  lemma MinusTwice(data: map<Key, Value>, a: set<Key>, b: set<Key>)
    ensures (data - a) - b == data - (a + b)
  {
  }

  lemma DiscardedTwice(tags: map<Tag, set<Key>>, a: set<Key>, b: set<Key>)
    ensures Discarded(Discarded(tags, a), b) == Discarded(tags, a + b)
  {
    assert forall t :: t in tags ==> tags[t] - a - b == tags[t] - (a + b);
  }

  lemma SameDiscards(tags: map<Tag, set<Key>>, a: set<Key>, b: set<Key>, keys: set<Key>)
    ensures a * keys + b * (keys - a) == (a + b) * keys
  {
  }

  lemma DeletedNone(cfg: Config, s: State)
    ensures Deleted(cfg, s, {}) == s
  {
    var none := Built(cfg, {}) * s.data.Keys;
    assert none == {};
    assert s.data - {} == s.data;
    assert forall t :: t in s.tags ==> s.tags[t] - none == s.tags[t];
    assert Discarded(s.tags, none) == s.tags;
  }

  lemma SizeOneMore(a: set<Key>, k: Key, keys: set<Key>)
    ensures |(a + {k}) * keys| == |a * keys| + if k in keys - a then 1 else 0
  {
    if k in keys - a {
      assert (a + {k}) * keys == a * keys + {k};
    } else {
      assert (a + {k}) * keys == a * keys;
    }
  }

  /** How many keys go when these are deleted. */
  function Counted(cfg: Config, s: State, keys: set<Key>): nat {
    |Built(cfg, keys) * s.data.Keys|
  }

  lemma BuiltMore(cfg: Config, keys: set<Key>, k: Key)
    ensures Built(cfg, keys + {k}) == Built(cfg, keys) + {cfg.Build(k)}
  {
  }

  lemma CountedMore(cfg: Config, s: State, keys: set<Key>, k: Key)
    ensures Counted(cfg, s, keys + {k}) == Counted(cfg, s, keys) + if cfg.Build(k) in s.data.Keys - Built(cfg, keys) then 1 else 0
  {
    BuiltMore(cfg, keys, k);
    SizeOneMore(Built(cfg, keys), cfg.Build(k), s.data.Keys);
  }

  lemma CountedNone(cfg: Config, s: State)
    ensures Counted(cfg, s, {}) == 0
  {
  }

  class MemcachedBackend {
    const cfg: Config
    var data: map<Key, Value>            // on the servers
    var tagStorage: map<Tag, set<Key>>

    function View(): State
      reads this
    {
      State(data, tagStorage)
    }

    constructor (cfg: Config)
      ensures this.cfg == cfg && View() == INITIAL
    {
      this.cfg := cfg;
      data, tagStorage := map[], map[];
    }

    /** get; client: there is one for the key, readable: its answer arrives and can be
        decoded. */
    method Get(key: Key, client: bool, readable: bool) returns (r: Option<Value>)
      ensures r == if client && readable then Read(cfg, View(), key) else None
    {
      var k := cfg.Build(key);
      if !client || k !in data || !readable {
        return None;
      }
      return Some(data[k]);
    }

    /** set; client: there is one for the key, ok: its answer. */
    method Set(key: Key, value: Value, tags: set<Tag>, client: bool, ok: bool) returns (success: bool)
      modifies this
      ensures View() == Apply(cfg, old(View()), Op.Set(key, value, tags, client && ok))
      ensures success == (client && ok)
    {
      if !client || !ok {
        return false;
      }
      success := true;
      var k := cfg.Build(key);
      data := data[k := value];
      var rest := tags;
      JoinedNone(tagStorage, k);
      assert tags - tags == {};
      while rest != {}
        invariant rest <= tags
        invariant data == old(data)[k := value]
        invariant tagStorage == Joined(old(tagStorage), tags - rest, k)
        decreases rest
      {
        var t :| t in rest;
        JoinedOneMore(old(tagStorage), tags - rest, t, k);
        assert tags - rest + {t} == tags - (rest - {t});
        tagStorage := tagStorage[t := (if t in tagStorage then tagStorage[t] else {}) + {k}];
        rest := rest - {t};
      }
      assert tags - {} == tags;
    }

    /** Discards a built key from every tag set. */
    method DiscardKey(k: Key)
      modifies `tagStorage
      ensures tagStorage == Discarded(old(tagStorage), {k})
    {
      ghost var was := tagStorage;
      var rest := tagStorage.Keys;
      assert DiscardedIn(was, was.Keys - rest, k) == was by {
        assert forall t :: t in was ==> was[t] - {} == was[t];
      }
      while rest != {}
        invariant rest <= was.Keys
        invariant tagStorage == DiscardedIn(was, was.Keys - rest, k)
        decreases rest
      {
        var t :| t in rest;
        DiscardedOneMore(was, was.Keys - rest, t, k);
        assert was.Keys - rest + {t} == was.Keys - (rest - {t});
        tagStorage := tagStorage[t := tagStorage[t] - {k}];
        rest := rest - {t};
      }
    }

    method Delete(key: Key) returns (success: bool)
      modifies this
      ensures View() == Apply(cfg, old(View()), Op.Delete(key))
      ensures success == (cfg.Build(key) in old(data))
    {
      var k := cfg.Build(key);
      assert Built(cfg, {key}) == {k};
      success := k in data;
      if success {
        DiscardKey(k);
        data := data - {k};
        assert {k} * old(data).Keys == {k};
      } else {
        assert {k} * old(data).Keys == {} && data - {k} == data;
        assert forall t :: t in tagStorage ==> tagStorage[t] - {} == tagStorage[t];
      }
    }

    /** One round of the loop of invalidate_tags: it goes over a copy of the set. */
    method InvalidateTag(t: Tag) returns (count: nat)
      modifies this
      ensures (View(), count) == OneTag(cfg, old(View()), t)
    {
      count := 0;
      if t in tagStorage {
        count := DeleteKeys(tagStorage[t]);
        tagStorage := tagStorage - {t};
      }
    }

    method DeleteKeys(keys: set<Key>) returns (count: nat)
      modifies this
      ensures View() == Deleted(cfg, old(View()), keys)
      ensures count == Counted(cfg, old(View()), keys)
    {
      count := 0;
      var rest := keys;
      ghost var (s, done) := (View(), {});
      DeletedNone(cfg, s);
      CountedNone(cfg, s);
      while rest != {}
        invariant done + rest == keys
        invariant View() == Deleted(cfg, s, done)
        invariant count == Counted(cfg, s, done)
        decreases rest
      {
        var k :| k in rest;
        var success := DeleteOneOf(s, done, k);
        count := if success then count + 1 else count;
        rest := rest - {k};
        done := done + {k};
      }
    }

    method DeleteOneOf(ghost s: State, ghost done: set<Key>, k: Key) returns (success: bool)
      requires View() == Deleted(cfg, s, done)
      modifies this
      ensures View() == Deleted(cfg, s, done + {k})
      ensures Counted(cfg, s, done + {k}) == Counted(cfg, s, done) + if success then 1 else 0
    {
      DeletedOneMore(cfg, s, done, k);
      CountedMore(cfg, s, done, k);
      success := Delete(k);
    }

    method InvalidateTags(order: seq<Tag>) returns (total: nat)
      modifies this
      ensures (View(), total) == Each(cfg, old(View()), order)
    {
      total := 0;
      for i := 0 to |order|
        invariant (View(), total) == Each(cfg, old(View()), order[..i])
      {
        assert order[..i + 1][..i] == order[..i];
        var count := InvalidateTag(order[i]);
        total := total + count;
      }
      assert order[..|order|] == order;
    }
  }
}
