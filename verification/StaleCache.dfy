// The cache object with its stale store; the backend is a field.
module StaleCache {
  import opened Basics
  import opened OrderedDict
  import opened StaleModel

  lemma PoppedOneMore(d: Store, keys: seq<Key>, i: nat)
    requires i < |keys|
    ensures Popped(d, ToSet(keys[..i])).Del(keys[i]) == Popped(d, ToSet(keys[..i + 1]))
  {
    assert ToSet(keys[..i + 1]) == ToSet(keys[..i]) + {keys[i]};
    PoppedTwice(d, ToSet(keys[..i]), {keys[i]});
  }

  lemma PoppedTwice(d: Store, a: set<Key>, b: set<Key>)
    ensures Popped(Popped(d, a), b) == Popped(d, a + b)
  {
    WithoutTwice(d.order, a, b);
    assert (d.vals - a) - b == d.vals - (a + b);
  }

  lemma PoppedNone(d: Store)
    ensures Popped(d, {}) == d
  {
  }

  class YokedCache {
    const cfg: Config
    var staleStore: Store
    var redis: map<Key, Value>

    ghost predicate Valid()
      reads this
    {
      cfg.maxEntries >= 1
    }

    function View(): State
      reads this
    {
      State(staleStore, redis)
    }

    constructor (cfg: Config)
      requires cfg.maxEntries >= 1
      ensures Valid() && this.cfg == cfg && View() == INITIAL
    {
      this.cfg := cfg;
      staleStore, redis := Dict([], map[]), map[];
    }

    method Get(key: Key, trouble: Trouble, now: Time) returns (r: Reply)
      requires Valid()
      modifies `staleStore
      ensures (View(), r) == Apply(cfg, old(View()), Event.Get(key, trouble, now))
    {
      var k := cfg.build(key);
      if !Fails(trouble) {
        if k !in redis {
          staleStore := staleStore.Del(k);
          return Default;
        }
        return if trouble.BadPayload? then Default else Fresh(redis[k]);
      }
      if cfg.staleIfError && k in staleStore.vals {
        if cfg.staleTtl <= 0.0 || now - staleStore.vals[k].storedAt <= cfg.staleTtl {
          return Stale(staleStore.vals[k].value);
        }
      }
      if trouble.ConnectionLost? {
        return Raised;
      }
      return if cfg.fallback && trouble.MentionsConnect? then Default else Raised;
    }

    /** Makes room, oldest set first. */
    method MakeRoom()
      requires Valid()
      modifies `staleStore
      ensures staleStore == Shrunk(old(staleStore), cfg.maxEntries)
    {
      while |staleStore.order| >= cfg.maxEntries
        invariant Shrunk(staleStore, cfg.maxEntries) == Shrunk(old(staleStore), cfg.maxEntries)
        decreases |staleStore.order|
      {
        staleStore := PopFront(staleStore);
      }
    }

    method Set(key: Key, value: Value, ok: bool, applied: bool, degraded: bool, now: Time) returns (r: Reply)
      requires Valid()
      modifies this
      ensures (View(), r) == Apply(cfg, old(View()), Event.Set(key, value, ok, applied, degraded, now))
    {
      var k := cfg.build(key);
      if applied || ok {
        redis := redis[k := value];
      }
      if ok && (cfg.staleWhileRevalidate || cfg.staleIfError) {
        if k in staleStore.vals {
          staleStore := staleStore.MoveToEnd(k);
        } else {
          MakeRoom();
        }
        staleStore := staleStore.Put(k, Entry(value, now));
      }
      r := Flag(ok && !degraded);
    }

    method Delete(key: Key, ok: bool, applied: bool) returns (r: Reply)
      requires Valid()
      modifies this
      ensures (View(), r) == Apply(cfg, old(View()), Event.Delete(key, ok, applied))
    {
      var k := cfg.build(key);
      var found := k in redis || key in redis;
      if ok || applied {
        redis := redis - (if k in redis then {k} else {key});
      }
      if !ok || !found {
        if ok {
          assert redis == old(redis);
        }
        return Flag(false);
      }
      PoppedTwice(staleStore, {k}, {key});
      assert {k} + {key} == {k, key};
      staleStore := staleStore.Del(k).Del(key);
      return Flag(true);
    }

    method Expire(key: Key, ttl: int, ok: bool) returns (r: Reply)
      requires Valid()
      modifies this
      ensures (View(), r) == Apply(cfg, old(View()), Event.Expire(key, ttl, ok))
    {
      var k := cfg.build(key);
      if !ok || k !in redis {
        return Flag(false);
      }
      if ttl <= 0 {
        redis := redis - {k};
      }
      if ttl < 10 {
        staleStore := staleStore.Del(k);
      }
      return Flag(true);
    }

    /** Pops the keys of one scan or one tag set. */
    method PopKeys(keys: seq<Key>)
      modifies `staleStore
      ensures staleStore == Popped(old(staleStore), ToSet(keys))
    {
      PoppedNone(staleStore);
      assert ToSet([]) == {};
      for i := 0 to |keys|
        invariant staleStore == Popped(old(staleStore), ToSet(keys[..i]))
      {
        PoppedOneMore(old(staleStore), keys, i);
        staleStore := staleStore.Del(keys[i]);
      }
      assert keys[..|keys|] == keys;
    }

    /** invalidate_pattern and flush_all (one group) and invalidate_tags (one group
        a tag): each group is deleted, then popped; a failure may come after some of
        the next group is deleted. */
    method Invalidate(groups: seq<seq<Key>>, partial: seq<Key>)
      requires Valid()
      modifies this
      ensures View() == Apply(cfg, old(View()), Event.Invalidate(groups, partial)).0
    {
      PoppedNone(staleStore);
      assert redis - {} == redis;
      for i := 0 to |groups|
        invariant staleStore == Popped(old(staleStore), Union(groups[..i]))
        invariant redis == old(redis) - Union(groups[..i])
      {
        assert groups[..i + 1][..i] == groups[..i];
        PoppedTwice(old(staleStore), Union(groups[..i]), ToSet(groups[i]));
        assert (old(redis) - Union(groups[..i])) - ToSet(groups[i]) == old(redis) - Union(groups[..i + 1]);
        redis := redis - ToSet(groups[i]);
        PopKeys(groups[i]);
      }
      assert groups[..|groups|] == groups;
      redis := redis - ToSet(partial);
    }
  }
}
