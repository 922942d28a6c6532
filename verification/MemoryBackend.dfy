// The in-memory backend as the program runs it: dictionaries updated in place,
// one key and one tag at a time.  Every method is tied to MemoryModel.
module MemoryBackend {
  import opened Basics
  import opened OrderedDict
  import opened MemoryModel

  /** The tag sets after k was discarded from the sets of the tags in `done`. */
  function DiscardedFrom(tags: map<Tag, set<Key>>, k: Key, done: set<Tag>): (r: map<Tag, set<Key>>)
    ensures forall t :: t in r <==> t in tags && !(t in done && tags[t] <= {k})
    ensures forall t :: t in r ==> r[t] == if t in done then tags[t] - {k} else tags[t]
  {
    map t | t in tags && !(t in done && tags[t] <= {k}) :: if t in done then tags[t] - {k} else tags[t]
  }

  lemma DiscardOne(tags: map<Tag, set<Key>>, k: Key, done: set<Tag>, t: Tag)
    requires t !in done
    ensures var d := DiscardedFrom(tags, k, done);
      var s := (if t in d then d[t] else {}) - {k};
      DiscardedFrom(tags, k, done + {t}) == if s == {} then d - {t} else d[t := s]
  {
  }

  lemma DiscardNone(tags: map<Tag, set<Key>>, k: Key)
    ensures DiscardedFrom(tags, k, {}) == tags
  {
  }

  lemma RemoveOneMore(m: Memory, done: set<Key>, k: Key)
    ensures m.Remove(done).Remove({k}) == m.Remove(done + {k})
  {
    RemoveTwice(m, done, {k});
  }

  lemma DiscardAll(keyTags: map<Key, set<Tag>>, k: Key)
    ensures DiscardedFrom(Inverted(keyTags), k, if k in keyTags then keyTags[k] else {}) == Pruned(Inverted(keyTags), {k})
  {
    var tags := Inverted(keyTags);
    var done := if k in keyTags then keyTags[k] else {};
    forall t | t in tags && t !in done ensures tags[t] - {k} == tags[t] && !(tags[t] <= {k}) {
      var x :| x in keyTags && t in keyTags[x];
      assert x in tags[t] && x != k;
    }
  }

  lemma NothingToEvict(m: Memory, maxSize: int)
    requires m.Valid() && (maxSize == 0 || |m.storage| <= maxSize)
    ensures m.Evict(maxSize) == m
  {
    RemoveNone(m, m.VictimSet(maxSize));
  }

  lemma OldestAreVictims(m: Memory, maxSize: int)
    requires maxSize != 0 && |m.storage| > maxSize
    ensures var byAge := SortedByTime(m.access.order, m.access.vals);
      m.VictimSet(maxSize) == ToSet(byAge[..if |m.storage| - maxSize <= |byAge| then |m.storage| - maxSize else |byAge|])
  {
  }

  lemma EvictIsRemove(m: Memory, maxSize: int, gone: set<Key>)
    requires gone == m.VictimSet(maxSize)
    ensures m.Remove(gone) == m.Evict(maxSize)
  {
  }

  lemma MatchingIsRemove(m: Memory, matches: Key -> bool, maxSize: int, gone: set<Key>)
    requires gone == set k | k in m.storage && matches(k)
    ensures Apply(m, InvalidateMatching(matches), maxSize) == (m.Remove(gone), Count(|gone|))
  {
    assert gone == m.Matching(matches);
  }

  class MemoryBackend {
    const maxSize: int
    var storage: map<Key, Value>
    var expiry: map<Key, Time>
    var access: Dict<Key, Time>
    var tags: map<Tag, set<Key>>
    var keyTags: map<Key, set<Tag>>
    var hits: nat
    var misses: nat
    var totalSets: nat
    var totalDeletes: nat
    var totalInvalidations: nat

    function View(): Memory
      reads this`storage, this`expiry, this`access, this`tags, this`keyTags
    {
      Memory(storage, expiry, access, tags, keyTags)
    }

    ghost predicate Valid()
      reads this`storage, this`expiry, this`access, this`tags, this`keyTags
    {
      View().Valid()
    }

    constructor (maxSize: Option<int>)
      ensures Valid() && View() == EMPTY
      ensures this.maxSize == if maxSize.Some? then maxSize.value else 0
      ensures hits == misses == totalSets == totalDeletes == totalInvalidations == 0
    {
      this.maxSize := if maxSize.Some? then maxSize.value else 0;
      storage, expiry, access, tags, keyTags := map[], map[], Dict([], map[]), map[], map[];
      hits, misses, totalSets, totalDeletes, totalInvalidations := 0, 0, 0, 0, 0;
    }

    /** Removing k from the sets of its tags; an empty set is deleted. */
    method DiscardFromTags(k: Key, mine: set<Tag>)
      modifies this`tags
      ensures tags == DiscardedFrom(old(tags), k, mine)
    {
      DiscardNone(tags, k);
      var todo := mine;
      while todo != {}
        invariant todo <= mine
        invariant tags == DiscardedFrom(old(tags), k, mine - todo)
      {
        var t :| t in todo;
        DiscardOne(old(tags), k, mine - todo, t);
        var left := (if t in tags then tags[t] else {}) - {k};
        tags := if left == {} then tags - {t} else tags[t := left];
        assert mine - (todo - {t}) == (mine - todo) + {t};
        todo := todo - {t};
      }
      assert mine - todo == mine;
    }

    /** _remove_key_internal */
    method RemoveKeyInternal(k: Key)
      requires Valid()
      modifies this`storage, this`expiry, this`access, this`tags, this`keyTags
      ensures Valid() && View() == old(View()).Remove({k})
    {
      ValidAfterRemove(View(), {k});
      DiscardAll(keyTags, k);
      storage := storage - {k};
      expiry := expiry - {k};
      access := access.Del(k);
      var mine := if k in keyTags then keyTags[k] else {};
      keyTags := keyTags - {k};
      DiscardFromTags(k, mine);
    }

    /** One round of a removal loop that began with the dictionaries as in `start`. */
    method RemoveNext(k: Key, ghost done: set<Key>, ghost start: Memory)
      requires Valid() && View() == start.Remove(done)
      modifies this`storage, this`expiry, this`access, this`tags, this`keyTags
      ensures Valid() && View() == start.Remove(done + {k})
    {
      RemoveOneMore(start, done, k);
      RemoveKeyInternal(k);
    }

    /** The loops over `await self._remove_key_internal(key)`; the order in which
        the keys are taken does not matter. */
    method RemoveEach(keys: set<Key>) returns (n: nat)
      requires Valid()
      modifies this`storage, this`expiry, this`access, this`tags, this`keyTags
      ensures Valid() && View() == old(View()).Remove(keys)
      ensures n == |keys|
    {
      ghost var start := View();
      RemoveNone(start, {});
      ghost var done: set<Key> := {};
      var todo := keys;
      n := 0;
      while todo != {}
        invariant done == keys - todo && todo <= keys
        invariant n + |todo| == |keys|
        invariant Valid() && View() == start.Remove(done)
      {
        var k :| k in todo;
        RemoveNext(k, done, start);
        todo, done, n := todo - {k}, done + {k}, n + 1;
      }
      assert done == keys;
    }

    /** _evict_if_needed, on dictionaries as in m */
    method EvictIfNeeded(ghost m: Memory)
      requires Valid() && View() == m
      modifies this`storage, this`expiry, this`access, this`tags, this`keyTags
      ensures Valid() && View() == m.Evict(maxSize)
    {
      if maxSize == 0 || |storage| <= maxSize {
        NothingToEvict(m, maxSize);
        return;
      }
      OldestAreVictims(m, maxSize);
      var byAge := SortedByTime(access.order, access.vals);
      var victims := ToSet(byAge[..if |storage| - maxSize <= |byAge| then |storage| - maxSize else |byAge|]);
      EvictIsRemove(m, maxSize, victims);
      var _ := RemoveEach(victims);
    }

    method Get(k: Key, now: Time, stamp: Time) returns (r: Reply)
      requires Valid()
      modifies this`storage, this`expiry, this`access, this`tags, this`keyTags, this`hits, this`misses
      ensures Valid() && (View(), r) == Apply(old(View()), Op.Get(k, now, stamp), maxSize)
      ensures hits == old(hits) + (if r.Found? then 1 else 0)
      ensures misses == old(misses) + (if r.Found? then 0 else 1)
    {
      ValidAfterApply(View(), Op.Get(k, now, stamp), maxSize);
      if k !in storage {
        misses := misses + 1;
        return Absent;
      }
      if k in expiry && now > expiry[k] {
        RemoveKeyInternal(k);
        misses := misses + 1;
        return Absent;
      }
      access := access.Put(k, stamp);
      hits := hits + 1;
      return Found(storage[k]);
    }

    method Set(k: Key, v: Value, ttl: Option<int>, jitter: int, ts: set<Tag>, now: Time, stamp: Time) returns (r: Reply)
      requires Valid()
      modifies this`storage, this`expiry, this`access, this`tags, this`keyTags, this`totalSets
      ensures Valid() && (View(), r) ==
        Apply(old(View()), Op.Set(k, v, if ttl.Some? then ttl.value else 0, jitter, ts, now, stamp), maxSize)
      ensures totalSets == old(totalSets) + 1
    {
      StoreAndEvict(Op.Set(k, v, if ttl.Some? then ttl.value else 0, jitter, ts, now, stamp));
      totalSets := totalSets + 1;
      r := Flag(true);
    }

    method StoreAndEvict(op: Op)
      requires Valid() && op.Set?
      modifies this`storage, this`expiry, this`access, this`tags, this`keyTags
      ensures Valid() && (View(), Flag(true)) == Apply(old(View()), op, maxSize)
    {
      StoreValue(op);
      EvictIfNeeded(Stored(old(View()), op));
    }

    method StoreValue(op: Op)
      requires Valid() && op.Set?
      modifies this`storage, this`expiry, this`access, this`tags, this`keyTags
      ensures Valid() && View() == Stored(old(View()), op)
    {
      ValidAfterSet(View(), op, maxSize);
      StoreFields(op.key, op.value, Deadline(op), op.stamp, op.tags);
    }

    method StoreFields(k: Key, v: Value, deadline: Time, stamp: Time, ts: set<Tag>)
      requires Valid()
      modifies this`storage, this`expiry, this`access, this`tags, this`keyTags
      ensures View() == old(View()).Store(k, v, deadline, stamp, ts)
    {
      if k in storage {
        RemoveKeyInternal(k);
      }
      storage := storage[k := v];
      expiry := expiry[k := deadline];
      access := access.Put(k, stamp);
      if ts != {} {
        keyTags := keyTags[k := ts];
      }
      AddToTags(k, ts);
    }

    /** `for tag in normalized_tags: self._tags[tag].add(key)` */
    method AddToTags(k: Key, ts: set<Tag>)
      modifies this`tags
      ensures tags == Tagged(old(tags), k, ts)
    {
      TaggedNothing(tags, k);
      var todo := ts;
      while todo != {}
        invariant todo <= ts
        invariant tags == Tagged(old(tags), k, ts - todo)
      {
        var t :| t in todo;
        tags := tags[t := (if t in tags then tags[t] else {}) + {k}];
        assert ts - (todo - {t}) == (ts - todo) + {t};
        todo := todo - {t};
      }
      assert ts - todo == ts;
    }

    method Delete(k: Key) returns (r: Reply)
      requires Valid()
      modifies this`storage, this`expiry, this`access, this`tags, this`keyTags, this`totalDeletes
      ensures Valid() && (View(), r) == Apply(old(View()), Op.Delete(k), maxSize)
      ensures totalDeletes == old(totalDeletes) + (if r.b then 1 else 0)
    {
      if k in storage {
        RemoveKeyInternal(k);
        totalDeletes := totalDeletes + 1;
        return Flag(true);
      }
      return Flag(false);
    }

    method Exists(k: Key, now: Time) returns (r: Reply)
      requires Valid()
      modifies this`storage, this`expiry, this`access, this`tags, this`keyTags
      ensures Valid() && (View(), r) == Apply(old(View()), Op.Exists(k, now), maxSize)
    {
      if k !in storage {
        return Flag(false);
      }
      if k in expiry && now > expiry[k] {
        RemoveKeyInternal(k);
        return Flag(false);
      }
      return Flag(true);
    }

    method Expire(k: Key, ttl: int, now: Time) returns (r: Reply)
      requires Valid()
      modifies this`storage, this`expiry, this`access, this`tags, this`keyTags
      ensures Valid() && (View(), r) == Apply(old(View()), Op.Expire(k, ttl, now), maxSize)
    {
      ValidAfterApply(View(), Op.Expire(k, ttl, now), maxSize);
      if k in storage && !(k in expiry && now > expiry[k]) {
        expiry := expiry[k := now + ttl as real];
        return Flag(true);
      }
      return Flag(false);
    }

    method InvalidateTags(ts: set<Tag>) returns (r: Reply)
      requires Valid()
      modifies this`storage, this`expiry, this`access, this`tags, this`keyTags, this`totalInvalidations
      ensures Valid() && (View(), r) == Apply(old(View()), Op.InvalidateTags(ts), maxSize)
      ensures totalInvalidations == old(totalInvalidations) + r.n
    {
      var keys: set<Key> := {};
      var todo := ts;
      while todo != {}
        invariant todo <= ts
        invariant keys == View().TaggedWith(ts - todo)
      {
        var t :| t in todo;
        if t in tags {
          keys := keys + tags[t];
        }
        todo := todo - {t};
      }
      assert ts - todo == ts;
      var n := RemoveEach(keys);
      totalInvalidations := totalInvalidations + n;
      r := Count(n);
    }

    /** invalidate_pattern, and flush_all with the pattern of its own prefix. */
    method InvalidateMatching(matches: Key -> bool) returns (r: Reply)
      requires Valid()
      modifies this`storage, this`expiry, this`access, this`tags, this`keyTags, this`totalInvalidations
      ensures Valid() && (View(), r) == Apply(old(View()), Op.InvalidateMatching(matches), maxSize)
      ensures totalInvalidations == old(totalInvalidations) + r.n
    {
      var keys := set k | k in storage && matches(k);
      MatchingIsRemove(View(), matches, maxSize, keys);
      var n := RemoveEach(keys);
      totalInvalidations := totalInvalidations + n;
      r := Count(n);
    }

    /** One round of _cleanup_expired_keys. */
    method Sweep(now: Time)
      requires Valid()
      modifies this`storage, this`expiry, this`access, this`tags, this`keyTags
      ensures Valid() && View() == Apply(old(View()), Op.Sweep(now), maxSize).0
    {
      var _ := RemoveEach(set k | k in expiry && now > expiry[k]);
    }
  }
}
