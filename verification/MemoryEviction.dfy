// Who is evicted and what a tag invalidation removes, whatever the clock does.
module MemoryEviction {
  import opened Basics
  import opened OrderedDict
  import opened MemoryModel
  import opened MemoryOrder
  import opened MemoryLru

  ghost predicate NotOlderThanAny(m: Memory, stamp: Time) {
    forall k :: k in m.access.vals ==> m.access.vals[k] <= stamp
  }

  lemma KeysByAge(m: Memory)
    requires m.Valid()
    ensures |ByAge(m)| == |m.storage| && Distinct(ByAge(m))
    ensures forall k :: k in ByAge(m) <==> k in m.storage
  {
    SizeIsKeys(m.access);
    assert m.access.vals.Keys == m.storage.Keys;
  }

  lemma StoredKeyIsNewest(m: Memory, op: Op)
    requires m.Valid() && op.Set? && NotOlderThanAny(m, op.stamp)
    ensures var s := ByAge(Stored(m, op)); s != [] && s[|s| - 1] == op.key
  {
    var r := Stored(m, op);
    var s := Without(m.access.order, {op.key});
    assert r.access.order == s + [op.key];
    NewestIsLast(s, op.key, r.access.vals);
  }

  /** The last key by age is a victim only under a negative limit. */
  lemma LastIsNoVictim(m: Memory, maxSize: int, k: Key)
    requires |ByAge(m)| == |m.storage| > 0 && Distinct(ByAge(m))
    requires k == ByAge(m)[|m.storage| - 1]
    ensures k in m.VictimSet(maxSize) <==> maxSize < 0
  {
  }

  lemma StoredFields(m: Memory, op: Op)
    requires m.Valid() && op.Set?
    ensures var r := Stored(m, op);
      op.key in r.storage && r.storage[op.key] == op.value && op.key in r.expiry && r.expiry[op.key] == Deadline(op)
  {
  }

  ghost predicate Holds(m: Memory, op: Op)
    requires op.Set?
  {
    && op.key in m.storage && m.storage[op.key] == op.value
    && op.key in m.expiry && m.expiry[op.key] == Deadline(op)
  }

  lemma HeldAfterRemove(m: Memory, op: Op, gone: set<Key>)
    requires op.Set? && Holds(m, op)
    ensures if op.key in gone then op.key !in m.Remove(gone).storage else Holds(m.Remove(gone), op)
  {
  }

  /** The key just written is evicted only under a negative limit, ties included. */
  lemma WrittenKeySurvives(m: Memory, op: Op, maxSize: int)
    requires m.Valid() && op.Set? && NotOlderThanAny(m, op.stamp)
    ensures var r := Apply(m, op, maxSize).0;
      if maxSize < 0 then op.key !in r.storage else Holds(r, op)
  {
    var m1 := Stored(m, op);
    ValidAfterSet(m, op, maxSize);
    KeysByAge(m1);
    StoredKeyIsNewest(m, op);
    StoredFields(m, op);
    LastIsNoVictim(m1, maxSize, op.key);
    HeldAfterRemove(m1, op, m1.VictimSet(maxSize));
  }

  lemma AscendingSplit(s: seq<Key>, times: map<Key, Time>, n: nat, v: Key, k: Key)
    requires Ascending(s, times) && n <= |s| && v in s[..n] && k in s[n..]
    ensures TimeOf(times, v) <= TimeOf(times, k)
  {
  }

  lemma VictimsAreAPrefix(m: Memory, maxSize: int, v: Key, k: Key)
    requires |ByAge(m)| == |m.storage|
    requires k in ByAge(m) && v in m.VictimSet(maxSize) && k !in m.VictimSet(maxSize)
    ensures exists n: nat :: n <= |ByAge(m)| && v in ByAge(m)[..n] && k in ByAge(m)[n..]
  {
  }

  lemma EvictedAreVictims(m: Memory, maxSize: int, v: Key, k: Key)
    requires v in m.storage && v !in m.Evict(maxSize).storage && k in m.Evict(maxSize).storage
    ensures v in m.VictimSet(maxSize) && k !in m.VictimSet(maxSize) && k in m.storage
  {
  }

  /** Nobody who stays was used before somebody who is evicted. */
  lemma VictimsAreOldest(m: Memory, maxSize: int, v: Key, k: Key)
    requires m.Valid() && v in m.storage && v !in m.Evict(maxSize).storage && k in m.Evict(maxSize).storage
    ensures m.access.vals[v] <= m.access.vals[k]
  {
    var s := ByAge(m);
    KeysByAge(m);
    EvictedAreVictims(m, maxSize, v, k);
    VictimsAreAPrefix(m, maxSize, v, k);
    SortAscends(m.access.order, m.access.vals);
    var n: nat :| n <= |s| && v in s[..n] && k in s[n..];
    AscendingSplit(s, m.access.vals, n, v, k);
  }

  ghost predicate StampsNeverDecrease(ops: seq<Op>) {
    forall i, j :: 0 <= i < j < |ops| && Stamped(ops[i]) && Stamped(ops[j]) ==> ops[i].stamp <= ops[j].stamp
  }

  /** In every run under a clock that never goes back, a set is not undone by its
      own eviction. */
  lemma SetIsNotUndone(ops: seq<Op>, maxSize: int)
    requires ops != [] && StampsNeverDecrease(ops) && ops[|ops| - 1].Set? && maxSize >= 0
    ensures var op := ops[|ops| - 1]; var r := Run(ops, maxSize).0;
      op.key in r.storage && r.storage[op.key] == op.value
  {
    var n := |ops| - 1;
    var m := Run(ops[..n], maxSize).0;
    AccessTimesAreStamps(ops[..n], maxSize);
    forall k | k in m.access.vals ensures m.access.vals[k] <= ops[n].stamp {
      assert StampOf(ops[..n], m.access.vals[k]);
      var i :| 0 <= i < n && Stamped(ops[..n][i]) && ops[..n][i].stamp == m.access.vals[k];
      assert Stamped(ops[i]);
    }
    WrittenKeySurvives(m, ops[n], maxSize);
  }

  /** The tags given to k by the latest set of the run. */
  function LatestTags(ops: seq<Op>, k: Key): set<Tag> {
    if ops == [] then {}
    else
      var n := |ops| - 1;
      if ops[n].Set? && ops[n].key == k then ops[n].tags else LatestTags(ops[..n], k)
  }

  lemma TagsAfterRemove(m: Memory, gone: set<Key>, k: Key)
    requires k in m.Remove(gone).storage
    ensures k in m.storage && m.Remove(gone).TagsOf(k) == m.TagsOf(k)
  {
  }

  lemma TagsAfterStore(m: Memory, op: Op, k: Key)
    requires op.Set? && (forall x :: x in m.keyTags ==> x in m.storage) && k in Stored(m, op).storage
    ensures k == op.key ==> Stored(m, op).TagsOf(k) == op.tags
    ensures k != op.key ==> k in m.storage && Stored(m, op).TagsOf(k) == m.TagsOf(k)
  {
  }

  lemma TagsAfterSet(m: Memory, op: Op, maxSize: int, k: Key)
    requires m.Valid() && op.Set? && k in Apply(m, op, maxSize).0.storage
    ensures k == op.key ==> Apply(m, op, maxSize).0.TagsOf(k) == op.tags
    ensures k != op.key ==> k in m.storage && Apply(m, op, maxSize).0.TagsOf(k) == m.TagsOf(k)
  {
    var m1 := Stored(m, op);
    TagsAfterRemove(m1, m1.VictimSet(maxSize), k);
    TagsAfterStore(m, op, k);
  }

  lemma TagsAfterOther(m: Memory, op: Op, maxSize: int, k: Key)
    requires !op.Set? && k in Apply(m, op, maxSize).0.storage
    ensures k in m.storage && Apply(m, op, maxSize).0.TagsOf(k) == m.TagsOf(k)
  {
  }

  lemma TagsAfterApply(m: Memory, op: Op, maxSize: int, k: Key)
    requires m.Valid() && k in Apply(m, op, maxSize).0.storage
    ensures op.Set? && op.key == k ==> Apply(m, op, maxSize).0.TagsOf(k) == op.tags
    ensures !(op.Set? && op.key == k) ==> k in m.storage && Apply(m, op, maxSize).0.TagsOf(k) == m.TagsOf(k)
  {
    if op.Set? {
      TagsAfterSet(m, op, maxSize, k);
    } else {
      TagsAfterOther(m, op, maxSize, k);
    }
  }

  lemma {:induction false} StoredTagsAreLatest(ops: seq<Op>, maxSize: int, k: Key)
    requires k in Run(ops, maxSize).0.storage
    ensures Run(ops, maxSize).0.TagsOf(k) == LatestTags(ops, k)
  {
    if ops != [] {
      var n := |ops| - 1;
      AccessTimesAreStamps(ops[..n], maxSize);
      TagsAfterApply(Run(ops[..n], maxSize).0, ops[n], maxSize, k);
      if !(ops[n].Set? && ops[n].key == k) {
        StoredTagsAreLatest(ops[..n], maxSize, k);
      }
    }
  }

  function LatestTagged(ops: seq<Op>, m: Memory, ts: set<Tag>): set<Key> {
    set k | k in m.storage && LatestTags(ops, k) * ts != {}
  }

  lemma TaggedIsLatest(ops: seq<Op>, m: Memory, op: Op)
    requires m.Valid() && op.InvalidateTags? && forall k :: k in m.storage ==> m.TagsOf(k) == LatestTags(ops, k)
    ensures m.TaggedWith(op.tags) == LatestTagged(ops, m, op.tags)
  {
    SameTagged(m, op);
    assert forall k :: k in m.storage ==> Row(m, k).tags == m.TagsOf(k);
  }

  /** invalidate_tags removes exactly the stored keys whose latest set carried one
      of the tags, and returns their number. */
  lemma InvalidationIsExact(ops: seq<Op>, maxSize: int, ts: set<Tag>)
    ensures var m := Run(ops, maxSize).0; var (r, reply) := Apply(m, InvalidateTags(ts), maxSize);
      && r == m.Remove(LatestTagged(ops, m, ts)) && r.Valid()
      && reply == Count(|LatestTagged(ops, m, ts)|)
  {
    var m := Run(ops, maxSize).0;
    AccessTimesAreStamps(ops, maxSize);
    forall k | k in m.storage ensures m.TagsOf(k) == LatestTags(ops, k) {
      StoredTagsAreLatest(ops, maxSize, k);
    }
    TaggedIsLatest(ops, m, InvalidateTags(ts));
    ValidAfterRemove(m, LatestTagged(ops, m, ts));
  }
}
