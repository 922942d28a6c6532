// MemoryBackend as a value: its five dictionaries and what each operation does
// to them.  Keys are already built (see Keys), times are readings of the clock.
module MemoryModel {
  import opened Basics
  import opened OrderedDict

  type Time = real

  function TimeOf(times: map<Key, Time>, k: Key): Time {
    if k in times then times[k] else 0.0
  }

  /** sorted(d.items(), key=time): stable, so equal times keep their order. */
  function SortedByTime(s: seq<Key>, times: map<Key, Time>): (r: seq<Key>)
    ensures forall k :: k in r <==> k in s
    ensures |r| == |s|
    ensures Distinct(s) ==> Distinct(r)
  {
    if s == [] then []
    else
      var n := |s| - 1;
      InsertByTime(SortedByTime(s[..n], times), s[n], times)
  }

  function InsertByTime(s: seq<Key>, k: Key, times: map<Key, Time>): (r: seq<Key>)
    ensures forall x :: x in r <==> x in s || x == k
    ensures |r| == |s| + 1
    ensures Distinct(s) && k !in s ==> Distinct(r)
  {
    DistinctSnoc(s, k);
    if s == [] then [k]
    else
      var n := |s| - 1;
      if TimeOf(times, s[n]) <= TimeOf(times, k) then s + [k]
      else
        var r := InsertByTime(s[..n], k, times);
        DistinctSnoc(r, s[n]);
        r + [s[n]]
  }

  function UsedTags(keyTags: map<Key, set<Tag>>): set<Tag> {
    set k, t | k in keyTags && t in keyTags[k] :: t
  }

  function KeysWith(keyTags: map<Key, set<Tag>>, t: Tag): set<Key> {
    set k | k in keyTags && t in keyTags[k]
  }

  /** The tag index that belongs to the tags of the keys. */
  function Inverted(keyTags: map<Key, set<Tag>>): map<Tag, set<Key>> {
    map t | t in UsedTags(keyTags) :: KeysWith(keyTags, t)
  }

  lemma PrunedIsInverted(keyTags: map<Key, set<Tag>>, gone: set<Key>)
    ensures Pruned(Inverted(keyTags), gone) == Inverted(keyTags - gone)
  {
    var l, r := Pruned(Inverted(keyTags), gone), Inverted(keyTags - gone);
    forall t ensures t in l <==> t in r {
      if t in l {
        var k :| k in KeysWith(keyTags, t) && k !in gone;
        assert k in keyTags - gone && t in (keyTags - gone)[k];
      }
      if t in r {
        var k :| k in keyTags - gone && t in (keyTags - gone)[k];
        assert k in KeysWith(keyTags, t);
      }
    }
    forall t | t in l ensures l[t] == r[t] {
      assert KeysWith(keyTags, t) - gone == KeysWith(keyTags - gone, t);
    }
  }

  lemma UsedTagsGrow(keyTags: map<Key, set<Tag>>, k: Key, ts: set<Tag>)
    requires k !in keyTags
    ensures UsedTags(keyTags[k := ts]) == UsedTags(keyTags) + ts
  {
    var kt := keyTags[k := ts];
    forall t | t in UsedTags(keyTags) ensures t in UsedTags(kt) {
      var x :| x in keyTags && t in keyTags[x];
      assert x in kt && t in kt[x];
    }
    forall t | t in ts ensures t in UsedTags(kt) {
      assert t in kt[k];
    }
  }

  lemma TaggedIsInverted(keyTags: map<Key, set<Tag>>, k: Key, ts: set<Tag>)
    requires k !in keyTags && ts != {}
    ensures Tagged(Inverted(keyTags), k, ts) == Inverted(keyTags[k := ts])
  {
    UsedTagsGrow(keyTags, k, ts);
    forall t ensures KeysWith(keyTags[k := ts], t) == KeysWith(keyTags, t) + (if t in ts then {k} else {}) {}
    forall t | t !in UsedTags(keyTags) ensures KeysWith(keyTags, t) == {} {}
  }

  /** The tag sets without the keys in `gone`; a set left empty is dropped. */
  function Pruned(tags: map<Tag, set<Key>>, gone: set<Key>): (r: map<Tag, set<Key>>)
    ensures forall t :: t in r <==> t in tags && !(tags[t] <= gone)
    ensures forall t :: t in r ==> r[t] == tags[t] - gone
  {
    map t | t in tags && !(tags[t] <= gone) :: tags[t] - gone
  }

  /** Key k added to the set of each tag in ts. */
  function Tagged(tags: map<Tag, set<Key>>, k: Key, ts: set<Tag>): (r: map<Tag, set<Key>>)
    ensures forall t :: t in r <==> t in tags || t in ts
    ensures forall t :: t in r ==>
      r[t] == (if t in tags then tags[t] else {}) + (if t in ts then {k} else {})
  {
    map t | t in tags.Keys + ts :: (if t in tags then tags[t] else {}) + (if t in ts then {k} else {})
  }

  function ToSet(s: seq<Key>): set<Key> {
    set k | k in s
  }

  datatype Memory = Memory(
    storage: map<Key, Value>,
    expiry: map<Key, Time>,
    access: Dict<Key, Time>,
    tags: map<Tag, set<Key>>,
    keyTags: map<Key, set<Tag>>)
  {
    function TagsOf(k: Key): set<Tag> {
      if k in keyTags then keyTags[k] else {}
    }

    ghost predicate KeysAgree() {
      && access.Valid()
      && (forall k :: k in storage <==> k in expiry)
      && (forall k :: k in storage <==> k in access.vals)
      && (forall k :: k in keyTags ==> k in storage)
    }

    /** The five dictionaries agree: a key is in a tag's set exactly if the tag is
        among the key's tags, and no tag has an empty set. */
    ghost predicate Valid() {
      KeysAgree() && tags == Inverted(keyTags)
    }

    predicate Expired(k: Key, now: Time) {
      k in expiry && now > expiry[k]
    }

    function ExpiredKeys(now: Time): set<Key> {
      set k | k in expiry && now > expiry[k]
    }

    function Remove(gone: set<Key>): Memory {
      Memory(storage - gone, expiry - gone,
             Dict(Without(access.order, gone), access.vals - gone),
             Pruned(tags, gone),
             keyTags - gone)
    }

    function Victims(maxSize: int): seq<Key>
    {
      if maxSize == 0 || |storage| <= maxSize then []
      else
        var byAge := SortedByTime(access.order, access.vals);
        byAge[..if |storage| - maxSize <= |byAge| then |storage| - maxSize else |byAge|]
    }

    /** maxSize 0 stands for None or 0, both of which mean unbounded. */
    function Evict(maxSize: int): Memory
    {
      Remove(VictimSet(maxSize))
    }

    function VictimSet(maxSize: int): set<Key> {
      ToSet(Victims(maxSize))
    }

    function Store(k: Key, v: Value, deadline: Time, stamp: Time, ts: set<Tag>): Memory {
      var m := if k in storage then Remove({k}) else this;
      m.(storage := m.storage[k := v],
         expiry := m.expiry[k := deadline],
         access := m.access.Put(k, stamp),
         keyTags := if ts == {} then m.keyTags else m.keyTags[k := ts],
         tags := Tagged(m.tags, k, ts))
    }

    function Matching(matches: Key -> bool): set<Key> {
      set k | k in storage && matches(k)
    }

    function TaggedWith(ts: set<Tag>): set<Key> {
      set t, k | t in ts && t in tags && k in tags[t] :: k
    }
  }

  const EMPTY := Memory(map[], map[], Dict([], map[]), map[], map[])

  datatype Op =
    | Get(key: Key, now: Time, stamp: Time)
    | Set(key: Key, value: Value, ttl: int, jitter: int, tags: set<Tag>, now: Time, stamp: Time)
    | Delete(key: Key)
    | Exists(key: Key, now: Time)
    | Expire(key: Key, ttl: int, now: Time)
    | InvalidateTags(tags: set<Tag>)
    | InvalidateMatching(matches: Key -> bool)   // invalidate_pattern and flush_all
    | Sweep(now: Time)                              // one round of _cleanup_expired_keys

  datatype Reply = Found(value: Value) | Absent | Flag(b: bool) | Count(n: nat)

  /** An operation on the dictionaries: the new state and what the caller gets. */
  function Apply(m: Memory, op: Op, maxSize: int): (Memory, Reply) {
    match op
    case Get(k, now, stamp) =>
      if k !in m.storage then (m, Absent)
      else if m.Expired(k, now) then (m.Remove({k}), Absent)
      else (m.(access := m.access.Put(k, stamp)), Found(m.storage[k]))
    case Set(_, _, _, _, _, _, _) => (Stored(m, op).Evict(maxSize), Flag(true))
    case Delete(k) =>
      if k in m.storage then (m.Remove({k}), Flag(true)) else (m, Flag(false))
    case Exists(k, now) =>
      if k !in m.storage then (m, Flag(false))
      else if m.Expired(k, now) then (m.Remove({k}), Flag(false))
      else (m, Flag(true))
    case Expire(k, ttl, now) =>
      if k in m.storage && !m.Expired(k, now) then
        (m.(expiry := m.expiry[k := now + ttl as real]), Flag(true))
      else (m, Flag(false))
    case InvalidateTags(ts) => (m.Remove(m.TaggedWith(ts)), Count(|m.TaggedWith(ts)|))
    case InvalidateMatching(p) => (m.Remove(m.Matching(p)), Count(|m.Matching(p)|))
    case Sweep(now) => (m.Remove(m.ExpiredKeys(now)), Flag(true))
  }

  lemma TaggedNothing(tags: map<Tag, set<Key>>, k: Key)
    ensures Tagged(tags, k, {}) == tags
  {
    assert forall t :: t in tags ==> tags[t] + {} == tags[t];
  }

  lemma KeysAgreeAfterRemove(m: Memory, gone: set<Key>)
    requires m.KeysAgree()
    ensures m.Remove(gone).KeysAgree()
  {
  }

  lemma ValidAfterRemove(m: Memory, gone: set<Key>)
    requires m.Valid()
    ensures m.Remove(gone).Valid()
  {
    KeysAgreeAfterRemove(m, gone);
    PrunedIsInverted(m.keyTags, gone);
  }

  lemma KeysAgreeAfterStore(m: Memory, k: Key, v: Value, deadline: Time, stamp: Time, ts: set<Tag>)
    requires m.KeysAgree()
    ensures m.Store(k, v, deadline, stamp, ts).KeysAgree()
  {
  }

  lemma ValidAfterStore(m: Memory, k: Key, v: Value, deadline: Time, stamp: Time, ts: set<Tag>)
    requires m.Valid()
    ensures m.Store(k, v, deadline, stamp, ts).Valid()
  {
    KeysAgreeAfterStore(m, k, v, deadline, stamp, ts);
    var kt := if k in m.storage then m.keyTags - {k} else m.keyTags;
    PrunedIsInverted(m.keyTags, {k});
    assert k !in kt;
    if ts != {} {
      TaggedIsInverted(kt, k, ts);
    } else {
      TaggedNothing(Inverted(kt), k);
    }
  }

  lemma PrunedTwice(tags: map<Tag, set<Key>>, a: set<Key>, b: set<Key>)
    ensures Pruned(Pruned(tags, a), b) == Pruned(tags, a + b)
  {
    forall t | t in tags ensures (tags[t] - a) - b == tags[t] - (a + b) {}
  }

  lemma MinusTwice<V>(d: map<Key, V>, a: set<Key>, b: set<Key>)
    ensures (d - a) - b == d - (a + b)
  {
  }

  /** Removing keys one after the other, as the code does, is removing the set. */
  lemma RemoveTwice(m: Memory, a: set<Key>, b: set<Key>)
    ensures m.Remove(a).Remove(b) == m.Remove(a + b)
  {
    WithoutTwice(m.access.order, a, b);
    PrunedTwice(m.tags, a, b);
    MinusTwice(m.storage, a, b);
    MinusTwice(m.expiry, a, b);
    MinusTwice(m.access.vals, a, b);
    MinusTwice(m.keyTags, a, b);
  }

  lemma RemoveNone(m: Memory, gone: set<Key>)
    requires m.Valid() && gone !! m.storage.Keys
    ensures m.Remove(gone) == m
  {
    PrunedIsInverted(m.keyTags, gone);
    assert m.storage - gone == m.storage;
    assert m.expiry - gone == m.expiry;
    assert m.keyTags - gone == m.keyTags;
    assert m.access.vals - gone == m.access.vals;
  }

  lemma ValidAfterTouch(m: Memory, k: Key, stamp: Time, deadline: Time)
    requires m.Valid() && k in m.storage
    ensures m.(access := m.access.Put(k, stamp)).Valid()
    ensures m.(expiry := m.expiry[k := deadline]).Valid()
  {
  }

  function Deadline(op: Op): Time
    requires op.Set?
  {
    op.now + EffectiveTtl(op.ttl, op.jitter) as real
  }

  function Stored(m: Memory, op: Op): Memory
    requires op.Set?
  {
    m.Store(op.key, op.value, Deadline(op), op.stamp, op.tags)
  }

  lemma ValidAfterSet(m: Memory, op: Op, maxSize: int)
    requires m.Valid() && op.Set?
    ensures Stored(m, op).Valid() && Stored(m, op).Evict(maxSize).Valid()
  {
    ValidAfterStore(m, op.key, op.value, Deadline(op), op.stamp, op.tags);
    ValidAfterRemove(Stored(m, op), Stored(m, op).VictimSet(maxSize));
  }

  lemma ValidAfterTimed(m: Memory, op: Op, maxSize: int)
    requires m.Valid() && (op.Get? || op.Exists? || op.Expire?)
    ensures Apply(m, op, maxSize).0.Valid()
  {
    ValidAfterRemove(m, {op.key});
    if op.key in m.storage {
      ValidAfterTouch(m, op.key, if op.Get? then op.stamp else op.now, if op.Expire? then op.now + op.ttl as real else op.now);
    }
  }

  /** Index agreement survives every operation. */
  lemma ValidAfterApply(m: Memory, op: Op, maxSize: int)
    requires m.Valid()
    ensures Apply(m, op, maxSize).0.Valid()
  {
    if op.Set? {
      ValidAfterSet(m, op, maxSize);
    } else if op.Get? || op.Exists? || op.Expire? {
      ValidAfterTimed(m, op, maxSize);
    } else {
      ValidAfterRemove(m, match op
        case Delete(k) => {k}
        case InvalidateTags(ts) => m.TaggedWith(ts)
        case InvalidateMatching(p) => m.Matching(p)
        case Sweep(now) => m.ExpiredKeys(now));
    }
  }
}
