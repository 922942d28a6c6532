// RedisBackend as it runs: pipelines, the loop over tags and deletes in chunks.
module RedisBackend {
  import opened Basics
  import opened RedisModel

  function ToSet(keys: seq<Key>): set<Key> {
    set k | k in keys
  }

  lemma DelTwice(db: Db, a: set<Key>, b: set<Key>)
    ensures db.Del(a).Del(b) == db.Del(a + b)
  {
  }

  /** Keys counted by the first delete are not counted by the second. */
  lemma DeletedInTwo(db: Db, a: set<Key>, b: set<Key>)
    ensures |db.LiveAmong(a)| + |db.Del(a).LiveAmong(b)| == |db.LiveAmong(a + b)|
  {
    assert db.LiveAmong(a + b) == db.LiveAmong(a) + db.Del(a).LiveAmong(b);
  }

  lemma ToSetMore(keys: seq<Key>, i: nat, j: nat)
    requires i <= j <= |keys|
    ensures ToSet(keys[..i]) + ToSet(keys[i..j]) == ToSet(keys[..j])
  {
  }

  lemma ListedMore(keys: seq<Key>, k: Key)
    ensures ToSet(keys + [k]) == ToSet(keys) + {k}
  {
  }

  lemma ListedInMore(db: Db, tags: set<Tag>, t: Tag)
    ensures ListedIn(db, tags + {t}) == ListedIn(db, tags) + db.Members(t)
    ensures Dropped(db, tags + {t}) == Dropped(db, tags) + (if db.Members(t) != {} then {t} else {})
  {
  }

  lemma DropTwice<V>(sets: map<Tag, V>, a: set<Tag>, b: set<Tag>)
    ensures (sets - a) - b == sets - (a + b)
  {
  }

  lemma JoinedNone(db: Db, k: Key, ttl: int)
    ensures JoinedSets(db, {}, k, ttl) == db.sets
  {
  }

  /** What is queued for one tag. */
  function QueuedFor(db: Db, t: Tag, k: Key, desired: int): seq<Command> {
    if db.Ttl(t) != -1 && db.Ttl(t) <= desired then [SAdd(t, k), ExpireSet(t, desired)] else [SAdd(t, k)]
  }

  lemma QueuedForRuns(db: Db, d: Db, t: Tag, k: Key, desired: int)
    ensures ExecAll(d, QueuedFor(db, t, k, desired)) ==
      if db.Ttl(t) != -1 && db.Ttl(t) <= desired then Exec(Exec(d, SAdd(t, k)), ExpireSet(t, desired))
      else Exec(d, SAdd(t, k))
  {
    var s, e := SAdd(t, k), ExpireSet(t, desired);
    ExecSnoc(d, [], s);
    ExecSnoc(d, [s], e);
    assert [] + [s] == [s] && [s] + [e] == [s, e];
  }

  lemma AddedSet(d: Db, t: Tag, k: Key)
    ensures Exec(d, SAdd(t, k)).HasSet(t)
    ensures Exec(d, SAdd(t, k)) ==
      d.(sets := d.sets[t := TagSet(d.Members(t) + {k}, if d.HasSet(t) then d.sets[t].deadline else None)])
  {
    assert {} + {k} == {k};
  }

  lemma JoinedFromTtl(db: Db, t: Tag, k: Key, ttl: int)
    requires ttl >= 1
    ensures Joined(db, t, k, ttl) == TagSet(db.Members(t) + {k},
      if db.Ttl(t) != -1 && db.Ttl(t) <= ttl + TAG_GRACE then Some(db.now + ttl + TAG_GRACE)
      else if db.HasSet(t) then db.sets[t].deadline else None)
  {
  }

  lemma QueuedForJoins(db: Db, d: Db, t: Tag, k: Key, ttl: int)
    requires ttl >= 1 && d.now == db.now && d.HasSet(t) == db.HasSet(t) && (d.HasSet(t) ==> d.sets[t] == db.sets[t])
    ensures ExecAll(d, QueuedFor(db, t, k, ttl + TAG_GRACE)) == d.(sets := d.sets[t := Joined(db, t, k, ttl)])
  {
    QueuedForRuns(db, d, t, k, ttl + TAG_GRACE);
    AddedSet(d, t, k);
    JoinedFromTtl(db, t, k, ttl);
  }

  lemma {:induction false} ExecAppend(db: Db, a: seq<Command>, b: seq<Command>)
    ensures ExecAll(db, a + b) == ExecAll(ExecAll(db, a), b)
    decreases |b|
  {
    if b == [] {
      assert a + b == a;
    } else {
      var n := |b| - 1;
      assert a + b == (a + b[..n]) + [b[n]];
      ExecAppend(db, a, b[..n]);
      ExecSnoc(db, a + b[..n], b[n]);
    }
  }

  lemma JoinedMore(db: Db, done: set<Tag>, t: Tag, k: Key, ttl: int)
    ensures JoinedSets(db, done + {t}, k, ttl) == JoinedSets(db, done, k, ttl)[t := Joined(db, t, k, ttl)]
  {
  }

  class RedisBackend {
    var db: Db
    var hits: nat
    var misses: nat
    var totalSets: nat
    var totalDeletes: nat
    var totalInvalidations: nat

    constructor ()
      ensures db == EMPTY && hits == misses == totalSets == totalDeletes == totalInvalidations == 0
    {
      db, hits, misses, totalSets, totalDeletes, totalInvalidations := EMPTY, 0, 0, 0, 0, 0;
    }

    /** redis.delete(*keys) */
    method DeleteChunk(keys: seq<Key>) returns (n: nat)
      modifies `db
      ensures db == old(db).Del(ToSet(keys))
      ensures n == |old(db).LiveAmong(ToSet(keys))|
    {
      n := |db.LiveAmong(ToSet(keys))|;
      db := db.Del(ToSet(keys));
    }

    /** redis_delete_keys: any chunk size leaves the store and the total of one
        single delete, keys listed twice included. */
    method DeleteKeys(keys: seq<Key>, chunkSize: nat) returns (total: nat)
      requires chunkSize >= 1
      modifies `db
      ensures db == old(db).Del(ToSet(keys))
      ensures total == |old(db).LiveAmong(ToSet(keys))|
    {
      total := 0;
      var i := 0;
      assert old(db.data) - {} == old(db.data);
      while i < |keys|
        invariant i <= |keys|
        invariant db == old(db).Del(ToSet(keys[..i]))
        invariant total == |old(db).LiveAmong(ToSet(keys[..i]))|
      {
        var j := if i + chunkSize <= |keys| then i + chunkSize else |keys|;
        ghost var chunk := ToSet(keys[i..j]);
        DelTwice(old(db), ToSet(keys[..i]), chunk);
        DeletedInTwo(old(db), ToSet(keys[..i]), chunk);
        ToSetMore(keys, i, j);
        var n := DeleteChunk(keys[i..j]);
        total := total + n;
        i := j;
      }
      assert keys[..|keys|] == keys;
    }

    /** list(members) in some order */
    static method ListOf(members: set<Key>) returns (keys: seq<Key>)
      ensures ToSet(keys) == members
    {
      keys := [];
      var rest := members;
      while rest != {}
        invariant rest <= members && ToSet(keys) == members - rest
        decreases rest
      {
        var k :| k in rest;
        rest := rest - {k};
        ListedMore(keys, k);
        keys := keys + [k];
      }
    }

    /** Queues an SADD for each tag, and an EXPIRE unless the set's own expiry
        already reaches further. */
    method AddTagsToKey(pipe: seq<Command>, key: Key, tags: set<Tag>, ttl: int) returns (queued: seq<Command>)
      requires ttl >= 1
      requires ExecAll(db, pipe).sets == db.sets && ExecAll(db, pipe).now == db.now
      ensures ExecAll(db, queued) == ExecAll(db, pipe).(sets := JoinedSets(db, tags, key, ttl))
    {
      var desired := ttl + TAG_GRACE;
      queued := pipe;
      var rest := tags;
      JoinedNone(db, key, ttl);
      while rest != {}
        invariant rest <= tags
        invariant ExecAll(db, queued) == ExecAll(db, pipe).(sets := JoinedSets(db, tags - rest, key, ttl))
        decreases rest
      {
        var t :| t in rest;
        var current := db.Ttl(t);
        ghost var was, done := queued, tags - rest;
        queued := queued + [SAdd(t, key)];
        if current != -1 && current <= desired {
          queued := queued + [ExpireSet(t, desired)];
        }
        assert queued == was + QueuedFor(db, t, key, desired);
        ExecAppend(db, was, QueuedFor(db, t, key, desired));
        QueuedForJoins(db, ExecAll(db, was), t, key, ttl);
        JoinedMore(db, done, t, key, ttl);
        rest := rest - {t};
        assert tags - rest == done + {t};
      }
      assert tags - {} == tags;
    }

    method Execute(pipe: seq<Command>)
      modifies `db
      ensures db == ExecAll(old(db), pipe)
    {
      for i := 0 to |pipe|
        invariant db == ExecAll(old(db), pipe[..i])
      {
        ExecSnoc(old(db), pipe[..i], pipe[i]);
        assert pipe[..i + 1] == pipe[..i] + [pipe[i]];
        db := Exec(db, pipe[i]);
      }
      assert pipe[..|pipe|] == pipe;
    }

    /** set: one transaction, the TTLs of the tag sets having been read before it. */
    method Set(key: Key, value: Value, ttl: int, jitter: int, tags: set<Tag>, fate: Fate) returns (r: Reply)
      modifies `db, `totalSets
      ensures (db, r) == Apply(old(db), Op.Set(key, value, ttl, jitter, tags, fate))
      ensures totalSets == old(totalSets) + if r.b then 1 else 0
    {
      var seconds := EffectiveTtl(ttl, jitter);
      var pipe := [SetEx(key, value, seconds)];
      ExecSnoc(db, [], SetEx(key, value, seconds));
      assert pipe == [] + [SetEx(key, value, seconds)];
      if tags != {} {
        pipe := AddTagsToKey(pipe, key, tags, seconds);
      } else {
        JoinedNone(db, key, seconds);
      }
      if !fate.Refused? {
        Execute(pipe);
      }
      if !fate.Done? {
        return Flag(false);
      }
      totalSets := totalSets + 1;
      r := Flag(true);
    }

    /** get; a payload that cannot be decoded counts as neither hit nor miss. */
    method Get(key: Key, fate: Fate, readable: bool) returns (r: Reply)
      modifies `hits, `misses
      ensures (db, r) == Apply(old(db), Op.Get(key, fate, readable))
      ensures hits == old(hits) + if r.Found? then 1 else 0
      ensures misses == old(misses) + if fate.Done? && !old(db).Live(key) then 1 else 0
    {
      if !fate.Done? {
        return Absent;
      }
      if !db.Live(key) {
        misses := misses + 1;
        return Absent;
      }
      if !readable {
        return Absent;
      }
      hits := hits + 1;
      r := Found(db.data[key].value);
    }

    method Delete(key: Key, fate: Fate) returns (r: Reply)
      modifies `db, `totalDeletes
      ensures (db, r) == Apply(old(db), Op.Delete(key, fate))
      ensures totalDeletes == old(totalDeletes) + if r.b then 1 else 0
    {
      assert ToSet([key]) == {key};
      assert db.LiveAmong({key}) == if db.Live(key) then {key} else {};
      var n := 0;
      if !fate.Refused? {
        n := DeleteChunk([key]);
      }
      if fate.Done? && n > 0 {
        totalDeletes := totalDeletes + 1;
        return Flag(true);
      }
      r := Flag(false);
    }

    method Expire(key: Key, seconds: int, fate: Fate) returns (r: Reply)
      modifies `db
      ensures (db, r) == Apply(old(db), Op.Expire(key, seconds, fate))
    {
      var live := db.Live(key);
      if live && !fate.Refused? {
        if seconds <= 0 {
          db := db.Del({key});
        } else {
          db := db.(data := db.data[key := db.data[key].(deadline := db.now + seconds)]);
        }
      }
      return Flag(fate.Done? && live);
    }

    /** invalidate_pattern: what the scan found, deleted in chunks; the connection may
        break after some of them are gone, and the error is raised. */
    method InvalidatePattern(matches: Key -> bool, broken: Option<seq<Key>>) returns (r: Reply)
      modifies `db, `totalInvalidations
      ensures broken.None? ==> (db, r) == Apply(old(db), Op.InvalidateMatching(matches))
      ensures broken.Some? ==> db == Apply(old(db), DeletePart(ToSet(broken.value))).0 && r == Raised
      ensures totalInvalidations == old(totalInvalidations) + if r.Count? then r.n else 0
    {
      if broken.Some? {
        var _ := DeleteKeys(broken.value, 500);
        return Raised;
      }
      var keys := ListOf(Matching(db, matches));
      assert db.LiveAmong(Matching(db, matches)) == Matching(db, matches);
      var deleted := DeleteKeys(keys, 500);
      totalInvalidations := totalInvalidations + deleted;
      r := Count(deleted);
    }

    /** One tag of invalidate_tags: the members of its set, then the set itself. */
    method InvalidateTag(t: Tag) returns (deleted: nat)
      modifies `db
      ensures db == AfterTag(old(db), t)
      ensures deleted == |old(db).LiveAmong(old(db).Members(t))|
    {
      var members := db.Members(t);
      deleted := 0;
      if members != {} {
        var keys := ListOf(members);
        deleted := DeleteKeys(keys, 500);
        db := db.(sets := db.sets - {t});
      } else {
        assert db.data - {} == db.data && db.LiveAmong({}) == {};
      }
    }

    /** The rounds of invalidate_tags, in whatever order the tags come. */
    method InvalidateEach(tags: set<Tag>) returns (total: nat)
      modifies `db
      ensures (db, Count(total)) == Apply(old(db), Op.InvalidateTags(tags))
    {
      total := 0;
      var rest := tags;
      NoneInvalidated(db);
      while rest != {}
        invariant rest <= tags
        invariant (db, Count(total)) == Apply(old(db), Op.InvalidateTags(tags - rest))
        decreases rest
      {
        var t :| t in rest;
        OneMoreTag(old(db), tags - rest, t);
        var deleted := InvalidateTag(t);
        total := total + deleted;
        assert tags - rest + {t} == tags - (rest - {t});
        rest := rest - {t};
      }
      assert tags - {} == tags;
    }

    /** invalidate_tags; the connection may break in the round after these tags, when
        some keys of that round are gone, and the error is raised. */
    method InvalidateTags(tags: set<Tag>, broken: Option<seq<Key>>) returns (r: Reply)
      modifies `db, `totalInvalidations
      ensures var (d, n) := Apply(old(db), Op.InvalidateTags(tags));
        if broken.None? then (db, r) == (d, n) else db == Apply(d, DeletePart(ToSet(broken.value))).0 && r == Raised
      ensures totalInvalidations == old(totalInvalidations) + if r.Count? then r.n else 0
    {
      var total := InvalidateEach(tags);
      if broken.Some? {
        var _ := DeleteKeys(broken.value, 500);
        return Raised;
      }
      totalInvalidations := totalInvalidations + total;
      r := Count(total);
    }
  }

  function AfterTag(db: Db, t: Tag): Db {
    Db(db.data - db.Members(t), if db.Members(t) != {} then db.sets - {t} else db.sets, db.now)
  }

  lemma NoneInvalidated(db: Db)
    ensures Apply(db, Op.InvalidateTags({})) == (db, Count(0))
    ensures forall tags: set<Tag> :: tags - tags == {}
  {
    assert ListedIn(db, {}) == {} && Dropped(db, {}) == {} && db.LiveAmong({}) == {};
    assert db.data - {} == db.data && db.sets - {} == db.sets;
  }

  /** The sets of other tags are still there when their turn comes. */
  lemma SameMembers(db: Db, done: set<Tag>, t: Tag)
    requires t !in done
    ensures Apply(db, Op.InvalidateTags(done)).0.Members(t) == db.Members(t)
  {
  }

  lemma AfterOneMore(db: Db, done: set<Tag>, t: Tag)
    requires t !in done
    ensures Apply(db, Op.InvalidateTags(done + {t})).0 == AfterTag(Apply(db, Op.InvalidateTags(done)).0, t)
  {
    SameMembers(db, done, t);
    ListedInMore(db, done, t);
    DelTwice(db, ListedIn(db, done), db.Members(t));
    DroppedOneMore(db, done, t);
  }

  lemma DroppedOneMore(db: Db, done: set<Tag>, t: Tag)
    ensures db.sets - Dropped(db, done + {t}) ==
      if db.Members(t) != {} then db.sets - Dropped(db, done) - {t} else db.sets - Dropped(db, done)
  {
    ListedInMore(db, done, t);
    DropTwice(db.sets, Dropped(db, done), {t});
    assert Dropped(db, done) + {} == Dropped(db, done);
  }

  lemma CountOneMore(db: Db, done: set<Tag>, t: Tag)
    requires t !in done
    ensures var d := Apply(db, Op.InvalidateTags(done)).0;
      |db.LiveAmong(ListedIn(db, done + {t}))| == |db.LiveAmong(ListedIn(db, done))| + |d.LiveAmong(d.Members(t))|
  {
    var d := Apply(db, Op.InvalidateTags(done)).0;
    SameMembers(db, done, t);
    ListedInMore(db, done, t);
    DeletedInTwo(db, ListedIn(db, done), db.Members(t));
    assert db.Del(ListedIn(db, done)).LiveAmong(db.Members(t)) == d.LiveAmong(d.Members(t));
  }

  lemma OneMoreTag(db: Db, done: set<Tag>, t: Tag)
    requires t !in done
    ensures var (d, r) := Apply(db, Op.InvalidateTags(done));
      Apply(db, Op.InvalidateTags(done + {t})) == (AfterTag(d, t), Count(r.n + |d.LiveAmong(d.Members(t))|))
  {
    AfterOneMore(db, done, t);
    CountOneMore(db, done, t);
  }
}
