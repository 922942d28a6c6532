// The five dictionaries with their timestamps behave like one plain LRU list.
module MemoryLru {
  import opened Basics
  import opened OrderedDict
  import opened MemoryModel
  import opened MemoryOrder

  datatype Entry = Entry(key: Key, value: Value, deadline: Time, tags: set<Tag>)

  /** The specification: entries from least to most recently used. */
  type Lru = seq<Entry>

  function Position(l: Lru, k: Key): (i: nat)
    ensures i <= |l|
    ensures i < |l| ==> l[i].key == k
  {
    if l == [] then 0
    else
      var n := |l| - 1;
      var i := Position(l[..n], k);
      if i < n then i else if l[n].key == k then n else n + 1
  }

  function Keep(l: Lru, gone: set<Key>): Lru {
    if l == [] then []
    else
      var n := |l| - 1;
      Keep(l[..n], gone) + (if l[n].key in gone then [] else [l[n]])
  }

  function Retime(l: Lru, k: Key, deadline: Time): Lru {
    if l == [] then []
    else
      var n := |l| - 1;
      Retime(l[..n], k, deadline) + [if l[n].key == k then l[n].(deadline := deadline) else l[n]]
  }

  function Newest(l: Lru, max: nat): Lru {
    if |l| <= max then l else l[|l| - max..]
  }

  /** The keys an invalidation or a sweep takes out. */
  function GoneFrom(l: Lru, op: Op): set<Key> {
    set e | e in l && Goes(e, op) :: e.key
  }

  predicate Goes(e: Entry, op: Op) {
    match op
    case InvalidateTags(ts) => e.tags * ts != {}
    case InvalidateMatching(p) => p(e.key)
    case Sweep(now) => now > e.deadline
    case _ => false
  }

  function ListApply(l: Lru, op: Op, max: nat): (Lru, Reply) {
    match op
    case Get(k, now, _) =>
      var i := Position(l, k);
      if i == |l| then (l, Absent)
      else if now > l[i].deadline then (Keep(l, {k}), Absent)
      else (Keep(l, {k}) + [l[i]], Found(l[i].value))
    case Set(k, v, _, _, ts, _, _) =>
      (Newest(Keep(l, {k}) + [Entry(k, v, Deadline(op), ts)], max), Flag(true))
    case Delete(k) => (Keep(l, {k}), Flag(Position(l, k) < |l|))
    case Exists(k, now) =>
      var i := Position(l, k);
      if i == |l| then (l, Flag(false))
      else if now > l[i].deadline then (Keep(l, {k}), Flag(false))
      else (l, Flag(true))
    case Expire(k, ttl, now) =>
      var i := Position(l, k);
      if i < |l| && now <= l[i].deadline then (Retime(l, k, now + ttl as real), Flag(true))
      else (l, Flag(false))
    case InvalidateTags(_) => (Keep(l, GoneFrom(l, op)), Count(|GoneFrom(l, op)|))
    case InvalidateMatching(_) => (Keep(l, GoneFrom(l, op)), Count(|GoneFrom(l, op)|))
    case Sweep(now) => (Keep(l, GoneFrom(l, op)), Flag(true))
  }

  function Row(m: Memory, k: Key): Entry {
    if k in m.storage && k in m.expiry then Entry(k, m.storage[k], m.expiry[k], m.TagsOf(k))
    else Entry(k, Value(""), 0.0, {})
  }

  function Rows(m: Memory, s: seq<Key>): (l: Lru)
    ensures |l| == |s|
  {
    if s == [] then [] else Rows(m, s[..|s| - 1]) + [Row(m, s[|s| - 1])]
  }

  lemma RowsSnoc(m: Memory, s: seq<Key>, k: Key)
    ensures Rows(m, s + [k]) == Rows(m, s) + [Row(m, k)]
  {
  }

  lemma KeepSnoc(l: Lru, e: Entry, gone: set<Key>)
    ensures Keep(l + [e], gone) == Keep(l, gone) + (if e.key in gone then [] else [e])
  {
  }

  lemma PositionSnoc(l: Lru, e: Entry, k: Key)
    ensures Position(l + [e], k) ==
      if Position(l, k) < |l| then Position(l, k) else if e.key == k then |l| else |l| + 1
  {
  }

  lemma RetimeSnoc(l: Lru, e: Entry, k: Key, deadline: Time)
    ensures Retime(l + [e], k, deadline) ==
      Retime(l, k, deadline) + [if e.key == k then e.(deadline := deadline) else e]
  {
  }

  function ByAge(m: Memory): seq<Key> {
    SortedByTime(m.access.order, m.access.vals)
  }

  /** The list that the dictionaries stand for. */
  function Abs(m: Memory): Lru {
    Rows(m, ByAge(m))
  }

  lemma {:induction false} KeepRows(m: Memory, r: Memory, s: seq<Key>, gone: set<Key>)
    requires forall k :: k in s && k !in gone ==> Row(r, k) == Row(m, k)
    ensures Rows(r, Without(s, gone)) == Keep(Rows(m, s), gone)
  {
    if s != [] {
      var n := |s| - 1;
      var p, k := s[..n], s[n];
      assert forall x :: x in p ==> x in s;
      KeepRows(m, r, p, gone);
      KeepSnoc(Rows(m, p), Row(m, k), gone);
      RowsSnoc(r, Without(p, gone), k);
    }
  }

  lemma {:induction false} PositionOfRow(m: Memory, s: seq<Key>, k: Key)
    ensures Position(Rows(m, s), k) < |s| <==> k in s
    ensures k in s ==> Rows(m, s)[Position(Rows(m, s), k)] == Row(m, k)
  {
    if s != [] {
      var n := |s| - 1;
      PositionOfRow(m, s[..n], k);
      PositionSnoc(Rows(m, s[..n]), Row(m, s[n]), k);
      assert s == s[..n] + [s[n]];
    }
  }

  lemma {:induction false} RetimeRows(m: Memory, s: seq<Key>, k: Key, deadline: Time)
    requires k in m.storage && k in m.expiry
    ensures Rows(m.(expiry := m.expiry[k := deadline]), s) == Retime(Rows(m, s), k, deadline)
  {
    if s != [] {
      var n := |s| - 1;
      RetimeRows(m, s[..n], k, deadline);
      RetimeSnoc(Rows(m, s[..n]), Row(m, s[n]), k, deadline);
    }
  }

  /** Removing keys from the dictionaries removes their entries from the list. */
  lemma AbsRemove(m: Memory, gone: set<Key>)
    ensures Abs(m.Remove(gone)) == Keep(Abs(m), gone)
  {
    var r := m.Remove(gone);
    SortWithout(m.access.order, m.access.vals, gone);
    SortSame(r.access.order, r.access.vals, m.access.vals);
    assert ByAge(r) == Without(ByAge(m), gone);
    KeepRows(m, r, ByAge(m), gone);
  }

  ghost predicate NewerThanAll(m: Memory, stamp: Time) {
    forall k :: k in m.access.vals ==> m.access.vals[k] < stamp
  }

  lemma ByAgeTouched(m: Memory, k: Key, stamp: Time)
    requires m.access.Valid() && k in m.access.vals && NewerThanAll(m, stamp)
    ensures ByAge(m.(access := m.access.Put(k, stamp))) == Without(ByAge(m), {k}) + [k]
  {
    TouchedIsLast(m.access.order, k, m.access.vals, stamp);
  }

  /** A hit moves the entry to the end. */
  lemma AbsTouch(m: Memory, k: Key, stamp: Time)
    requires m.Valid() && k in m.storage && NewerThanAll(m, stamp)
    ensures Abs(m.(access := m.access.Put(k, stamp))) == Keep(Abs(m), {k}) + [Row(m, k)]
  {
    var r := m.(access := m.access.Put(k, stamp));
    ByAgeTouched(m, k, stamp);
    SameRows(m, r, k, ByAge(m));
  }

  lemma SameRows(m: Memory, r: Memory, k: Key, s: seq<Key>)
    requires r.storage == m.storage && r.expiry == m.expiry && r.keyTags == m.keyTags
    ensures Rows(r, Without(s, {k}) + [k]) == Keep(Rows(m, s), {k}) + [Row(m, k)]
  {
    RowsSnoc(r, Without(s, {k}), k);
    KeepRows(m, r, s, {k});
  }

  /** set puts the new entry at the end, in place of an older one. */
  lemma AbsStore(m: Memory, op: Op)
    requires m.Valid() && op.Set?
    requires forall k :: k in m.access.vals ==> m.access.vals[k] <= op.stamp
    ensures Abs(Stored(m, op)) == Keep(Abs(m), {op.key}) + [Entry(op.key, op.value, Deadline(op), op.tags)]
  {
    var k := op.key;
    var r := Stored(m, op);
    var w := Without(ByAge(m), {k});
    var s := Without(m.access.order, {k});
    SortWithout(m.access.order, m.access.vals, {k});
    assert r.access.order == s + [k];
    SortSame(s, m.access.vals, r.access.vals);
    NewestIsLast(s, k, r.access.vals);
    assert ByAge(r) == w + [k];
    RowsSnoc(r, w, k);
    StoredRows(m, op);
    KeepRows(m, r, ByAge(m), {k});
  }

  lemma StoredRow(m: Memory, op: Op)
    requires m.KeysAgree() && op.Set?
    ensures Row(Stored(m, op), op.key) == Entry(op.key, op.value, Deadline(op), op.tags)
  {
  }

  lemma OtherRow(m: Memory, op: Op, k: Key)
    requires m.KeysAgree() && op.Set? && k != op.key
    ensures Row(Stored(m, op), k) == Row(m, k)
  {
  }

  lemma StoredRows(m: Memory, op: Op)
    requires m.Valid() && op.Set?
    ensures Row(Stored(m, op), op.key) == Entry(op.key, op.value, Deadline(op), op.tags)
    ensures forall k :: k != op.key ==> Row(Stored(m, op), k) == Row(m, k)
  {
    StoredRow(m, op);
    forall k | k != op.key ensures Row(Stored(m, op), k) == Row(m, k) {
      OtherRow(m, op, k);
    }
  }

  lemma AbsLength(m: Memory)
    requires m.Valid()
    ensures |Abs(m)| == |ByAge(m)| == |m.storage| && Distinct(ByAge(m))
  {
    SizeIsKeys(m.access);
    assert m.access.vals.Keys == m.storage.Keys;
  }

  lemma AbsWithoutOldest(m: Memory, n: nat, gone: set<Key>)
    requires n <= |ByAge(m)| && Distinct(ByAge(m)) && gone == ToSet(ByAge(m)[..n])
    ensures Abs(m.Remove(gone)) == Abs(m)[n..]
  {
    AbsRemove(m, gone);
    WithoutPrefix(ByAge(m), n);
    KeepRows(m, m, ByAge(m), gone);
    RowsFrom(m, ByAge(m), n);
  }

  lemma AbsKeepsNewest(m: Memory, n: nat, max: nat, gone: set<Key>)
    requires |ByAge(m)| == n + max && Distinct(ByAge(m)) && gone == ToSet(ByAge(m)[..n])
    ensures Abs(m.Remove(gone)) == Newest(Abs(m), max)
  {
    AbsWithoutOldest(m, n, gone);
  }

  lemma EvictNothing(m: Memory, max: nat)
    requires m.Valid() && |m.storage| <= max
    ensures m.Evict(max) == m
  {
    RemoveNone(m, m.VictimSet(max));
  }

  lemma VictimsAreOldestKeys(m: Memory, max: nat)
    requires 1 <= max < |m.storage| == |ByAge(m)|
    ensures m.VictimSet(max) == ToSet(ByAge(m)[..|m.storage| - max])
  {
  }

  lemma AbsEvictNone(m: Memory, max: nat)
    requires m.Evict(max) == m && |Abs(m)| <= max
    ensures Abs(m.Evict(max)) == Newest(Abs(m), max)
  {
  }

  lemma AbsEvictSome(m: Memory, max: nat)
    requires 1 <= max < |m.storage| == |ByAge(m)| && Distinct(ByAge(m))
    ensures Abs(m.Evict(max)) == Newest(Abs(m), max)
  {
    VictimsAreOldestKeys(m, max);
    AbsKeepsNewest(m, |m.storage| - max, max, m.VictimSet(max));
  }

  /** Overflow drops the front of the list. */
  lemma AbsEvict(m: Memory, max: nat)
    requires m.Valid() && max >= 1
    ensures Abs(m.Evict(max)) == Newest(Abs(m), max)
    ensures |Abs(m)| == |m.storage|
  {
    AbsLength(m);
    if |m.storage| <= max {
      EvictNothing(m, max);
      AbsEvictNone(m, max);
    } else {
      AbsEvictSome(m, max);
    }
  }

  lemma {:induction false} RowsFrom(m: Memory, s: seq<Key>, n: nat)
    requires n <= |s|
    ensures Rows(m, s[n..]) == Rows(m, s)[n..]
    decreases |s|
  {
    if n < |s| {
      var p, k := s[..|s| - 1], s[|s| - 1];
      RowsFrom(m, p, n);
      assert s[n..] == p[n..] + [k];
      RowsSnoc(m, p[n..], k);
    }
  }

  lemma {:induction false} RowsMembers(m: Memory, s: seq<Key>)
    ensures forall k :: k in s ==> Row(m, k) in Rows(m, s)
    ensures forall e :: e in Rows(m, s) ==> e.key in s && e == Row(m, e.key)
  {
    if s != [] {
      var n := |s| - 1;
      RowsMembers(m, s[..n]);
      assert s == s[..n] + [s[n]];
    }
  }

  function Going(m: Memory, op: Op): set<Key> {
    set k | k in m.storage && Goes(Row(m, k), op)
  }

  /** The list and the dictionaries select the same keys. */
  lemma SameSelection(m: Memory, op: Op)
    requires forall k :: k in ByAge(m) <==> k in m.storage
    ensures GoneFrom(Abs(m), op) == Going(m, op)
  {
    RowsMembers(m, ByAge(m));
    forall k | k in Going(m, op) ensures k in GoneFrom(Abs(m), op) {
      assert k in ByAge(m) && Row(m, k) in Abs(m);
      assert Row(m, k).key == k;
    }
  }

  lemma SameTagged(m: Memory, op: Op)
    requires m.Valid() && op.InvalidateTags?
    ensures m.TaggedWith(op.tags) == Going(m, op)
  {
    forall k | k in m.TaggedWith(op.tags) ensures k in Going(m, op) {
      var t :| t in op.tags && t in m.tags && k in m.tags[t];
      assert k in KeysWith(m.keyTags, t);
      assert t in Row(m, k).tags * op.tags;
    }
    forall k | k in Going(m, op) ensures k in m.TaggedWith(op.tags) {
      var t :| t in Row(m, k).tags * op.tags;
      assert k in m.keyTags && t in m.keyTags[k];
      assert t in UsedTags(m.keyTags) && k in m.tags[t];
    }
  }

  lemma SameMatching(m: Memory, op: Op)
    requires op.InvalidateMatching?
    ensures m.Matching(op.matches) == Going(m, op)
  {
  }

  lemma SameExpired(m: Memory, op: Op)
    requires op.Sweep? && forall k :: k in m.storage <==> k in m.expiry
    ensures m.ExpiredKeys(op.now) == Going(m, op)
  {
  }

  /** The operation does to the dictionaries what it does to the list. */
  ghost predicate Refines(m: Memory, op: Op, max: nat) {
    && Abs(Apply(m, op, max).0) == ListApply(Abs(m), op, max).0
    && Apply(m, op, max).1 == ListApply(Abs(m), op, max).1
  }

  /** Looking a key up in the list gives what the dictionaries say about it. */
  ghost predicate Looked(m: Memory, k: Key) {
    var i := Position(Abs(m), k);
    if k in m.storage then
      k in m.expiry && i < |Abs(m)| && Abs(m)[i] == Entry(k, m.storage[k], m.expiry[k], m.TagsOf(k))
    else
      i == |Abs(m)|
  }

  lemma LookedUp(m: Memory, k: Key)
    requires m.Valid()
    ensures Looked(m, k)
  {
    PositionOfRow(m, ByAge(m), k);
  }

  lemma DeleteCase(m: Memory, op: Op, max: nat)
    requires op.Delete? && Looked(m, op.key)
    requires Abs(m.Remove({op.key})) == Keep(Abs(m), {op.key})
    requires op.key !in m.storage ==> m.Remove({op.key}) == m
    ensures Refines(m, op, max)
  {
  }

  lemma ExistsCase(m: Memory, op: Op, max: nat)
    requires op.Exists? && Looked(m, op.key)
    requires Abs(m.Remove({op.key})) == Keep(Abs(m), {op.key})
    ensures Refines(m, op, max)
  {
  }

  lemma ExpireMissCase(m: Memory, op: Op, max: nat)
    requires op.Expire? && Looked(m, op.key) && (op.key !in m.storage || m.Expired(op.key, op.now))
    ensures Refines(m, op, max)
  {
  }

  lemma ExpireHitCase(m: Memory, op: Op, max: nat)
    requires op.Expire? && Looked(m, op.key) && op.key in m.storage && !m.Expired(op.key, op.now)
    requires Rows(m.(expiry := m.expiry[op.key := op.now + op.ttl as real]), ByAge(m)) ==
      Retime(Abs(m), op.key, op.now + op.ttl as real)
    ensures Refines(m, op, max)
  {
  }

  lemma GetMissCase(m: Memory, op: Op, max: nat)
    requires op.Get? && Looked(m, op.key) && (op.key !in m.storage || m.Expired(op.key, op.now))
    requires Abs(m.Remove({op.key})) == Keep(Abs(m), {op.key})
    ensures Refines(m, op, max)
  {
  }

  lemma GetHitCase(m: Memory, op: Op, max: nat)
    requires op.Get? && Looked(m, op.key) && op.key in m.storage && !m.Expired(op.key, op.now)
    requires Abs(m.(access := m.access.Put(op.key, op.stamp))) == Keep(Abs(m), {op.key}) + [Row(m, op.key)]
    ensures Refines(m, op, max)
  {
  }

  lemma DeleteRefines(m: Memory, op: Op, max: nat)
    requires m.Valid() && op.Delete?
    ensures Refines(m, op, max)
  {
    LookedUp(m, op.key);
    AbsRemove(m, {op.key});
    if op.key !in m.storage {
      RemoveNone(m, {op.key});
    }
    DeleteCase(m, op, max);
  }

  lemma ExistsRefines(m: Memory, op: Op, max: nat)
    requires m.Valid() && op.Exists?
    ensures Refines(m, op, max)
  {
    LookedUp(m, op.key);
    AbsRemove(m, {op.key});
    ExistsCase(m, op, max);
  }

  lemma RetimedRows(m: Memory, op: Op)
    requires op.Expire? && op.key in m.storage && op.key in m.expiry
    ensures Rows(m.(expiry := m.expiry[op.key := op.now + op.ttl as real]), ByAge(m)) ==
      Retime(Abs(m), op.key, op.now + op.ttl as real)
  {
    RetimeRows(m, ByAge(m), op.key, op.now + op.ttl as real);
  }

  lemma ExpireRefines(m: Memory, op: Op, max: nat)
    requires m.Valid() && op.Expire?
    ensures Refines(m, op, max)
  {
    LookedUp(m, op.key);
    if op.key in m.storage && !m.Expired(op.key, op.now) {
      RetimedRows(m, op);
      ExpireHitCase(m, op, max);
    } else {
      ExpireMissCase(m, op, max);
    }
  }

  lemma GetRefines(m: Memory, op: Op, max: nat)
    requires m.Valid() && op.Get? && NewerThanAll(m, op.stamp)
    ensures Refines(m, op, max)
  {
    LookedUp(m, op.key);
    AbsRemove(m, {op.key});
    if op.key in m.storage && !m.Expired(op.key, op.now) {
      AbsTouch(m, op.key, op.stamp);
      GetHitCase(m, op, max);
    } else {
      GetMissCase(m, op, max);
    }
  }

  lemma SetCase(m: Memory, op: Op, max: nat)
    requires op.Set? && Abs(Stored(m, op).Evict(max)) == Newest(Abs(Stored(m, op)), max)
    requires Abs(Stored(m, op)) == Keep(Abs(m), {op.key}) + [Entry(op.key, op.value, Deadline(op), op.tags)]
    ensures Refines(m, op, max)
  {
  }

  lemma SetRefines(m: Memory, op: Op, max: nat)
    requires m.Valid() && op.Set? && NewerThanAll(m, op.stamp) && max >= 1
    ensures Refines(m, op, max)
  {
    ValidAfterSet(m, op, max);
    AbsStore(m, op);
    AbsEvict(Stored(m, op), max);
    SetCase(m, op, max);
  }

  function GoneFromMemory(m: Memory, op: Op): set<Key> {
    match op
    case InvalidateTags(ts) => m.TaggedWith(ts)
    case InvalidateMatching(p) => m.Matching(p)
    case Sweep(now) => m.ExpiredKeys(now)
    case _ => {}
  }

  lemma BulkCase(m: Memory, op: Op, max: nat)
    requires op.InvalidateTags? || op.InvalidateMatching? || op.Sweep?
    requires GoneFrom(Abs(m), op) == GoneFromMemory(m, op)
    requires Abs(m.Remove(GoneFromMemory(m, op))) == Keep(Abs(m), GoneFromMemory(m, op))
    ensures Refines(m, op, max)
  {
  }

  lemma BulkRefines(m: Memory, op: Op, max: nat)
    requires m.Valid() && (op.InvalidateTags? || op.InvalidateMatching? || op.Sweep?)
    ensures Refines(m, op, max)
  {
    if op.InvalidateTags? {
      SameTagged(m, op);
    } else if op.InvalidateMatching? {
      SameMatching(m, op);
    } else {
      SameExpired(m, op);
    }
    SameSelection(m, op);
    AbsRemove(m, GoneFromMemory(m, op));
    BulkCase(m, op, max);
  }

  predicate Stamped(op: Op) {
    op.Get? || op.Set?
  }

  /** So it is for every operation. */
  lemma ApplyRefines(m: Memory, op: Op, max: nat)
    requires m.Valid() && max >= 1
    requires Stamped(op) ==> NewerThanAll(m, op.stamp)
    ensures Refines(m, op, max)
  {
    if op.Set? {
      SetRefines(m, op, max);
    } else if op.InvalidateTags? || op.InvalidateMatching? || op.Sweep? {
      BulkRefines(m, op, max);
    } else if op.Get? {
      GetRefines(m, op, max);
    } else if op.Exists? {
      ExistsRefines(m, op, max);
    } else if op.Expire? {
      ExpireRefines(m, op, max);
    } else {
      DeleteRefines(m, op, max);
    }
  }

  function Run(ops: seq<Op>, maxSize: int): (Memory, seq<Reply>) {
    if ops == [] then (EMPTY, [])
    else
      var n := |ops| - 1;
      var (m, rs) := Run(ops[..n], maxSize);
      var (m', r) := Apply(m, ops[n], maxSize);
      (m', rs + [r])
  }

  function ListRun(ops: seq<Op>, max: nat): (Lru, seq<Reply>) {
    if ops == [] then ([], [])
    else
      var n := |ops| - 1;
      var (l, rs) := ListRun(ops[..n], max);
      var (l', r) := ListApply(l, ops[n], max);
      (l', rs + [r])
  }

  /** The access clock strictly increases from call to call. */
  ghost predicate StampsIncrease(ops: seq<Op>) {
    forall i, j :: 0 <= i < j < |ops| && Stamped(ops[i]) && Stamped(ops[j]) ==> ops[i].stamp < ops[j].stamp
  }

  ghost predicate StampOf(ops: seq<Op>, t: Time) {
    exists i :: 0 <= i < |ops| && Stamped(ops[i]) && ops[i].stamp == t
  }

  lemma StampOfMore(ops: seq<Op>, t: Time)
    requires ops != [] && StampOf(ops[..|ops| - 1], t)
    ensures StampOf(ops, t)
  {
  }

  lemma AccessAfterApply(m: Memory, op: Op, maxSize: int, k: Key)
    requires k in Apply(m, op, maxSize).0.access.vals
    ensures var t := Apply(m, op, maxSize).0.access.vals[k];
      (k in m.access.vals && t == m.access.vals[k]) || (Stamped(op) && t == op.stamp)
  {
  }

  /** Access times come from the operations of the run. */
  lemma {:induction false} AccessTimesAreStamps(ops: seq<Op>, maxSize: int)
    ensures Run(ops, maxSize).0.Valid()
    ensures forall k :: k in Run(ops, maxSize).0.access.vals ==> StampOf(ops, Run(ops, maxSize).0.access.vals[k])
  {
    if ops != [] {
      var n := |ops| - 1;
      AccessTimesAreStamps(ops[..n], maxSize);
      var m := Run(ops[..n], maxSize).0;
      ValidAfterApply(m, ops[n], maxSize);
      var m' := Run(ops, maxSize).0;
      forall k | k in m'.access.vals ensures StampOf(ops, m'.access.vals[k]) {
        AccessAfterApply(m, ops[n], maxSize, k);
        if k in m.access.vals && StampOf(ops[..n], m.access.vals[k]) {
          StampOfMore(ops, m.access.vals[k]);
        }
      }
    }
  }

  lemma NextStampIsNewest(ops: seq<Op>, maxSize: int)
    requires ops != [] && StampsIncrease(ops) && Stamped(ops[|ops| - 1])
    ensures NewerThanAll(Run(ops[..|ops| - 1], maxSize).0, ops[|ops| - 1].stamp)
  {
    var n := |ops| - 1;
    var m := Run(ops[..n], maxSize).0;
    AccessTimesAreStamps(ops[..n], maxSize);
    forall k | k in m.access.vals ensures m.access.vals[k] < ops[n].stamp {
      assert StampOf(ops[..n], m.access.vals[k]);
      var i :| 0 <= i < n && Stamped(ops[..n][i]) && ops[..n][i].stamp == m.access.vals[k];
      assert Stamped(ops[i]);
    }
  }

  ghost predicate SameAsList(ops: seq<Op>, max: nat) {
    Abs(Run(ops, max).0) == ListRun(ops, max).0 && Run(ops, max).1 == ListRun(ops, max).1
  }

  lemma RunStep(ops: seq<Op>, max: nat)
    requires ops != [] && SameAsList(ops[..|ops| - 1], max)
    requires Refines(Run(ops[..|ops| - 1], max).0, ops[|ops| - 1], max)
    ensures SameAsList(ops, max)
  {
  }

  /** Timestamp eviction refines an LRU list: the same replies, the same entries
      in the same order. */
  lemma {:induction false} RunRefinesList(ops: seq<Op>, max: nat)
    requires max >= 1 && StampsIncrease(ops)
    ensures SameAsList(ops, max)
  {
    if ops != [] {
      var n := |ops| - 1;
      RunRefinesList(ops[..n], max);
      AccessTimesAreStamps(ops[..n], max);
      if Stamped(ops[n]) {
        NextStampIsNewest(ops, max);
      }
      ApplyRefines(Run(ops[..n], max).0, ops[n], max);
      RunStep(ops, max);
    }
  }

  /** The size limit holds after every run, whatever the clock does. */
  lemma {:induction false} SizeIsBounded(ops: seq<Op>, max: nat)
    requires max >= 1
    ensures |Run(ops, max).0.storage| <= max
  {
    if ops != [] {
      var n := |ops| - 1;
      var m := Run(ops[..n], max).0;
      SizeIsBounded(ops[..n], max);
      AccessTimesAreStamps(ops[..n], max);
      StorageBound(m, ops[n], max);
    }
  }

  lemma StorageBound(m: Memory, op: Op, max: nat)
    requires m.Valid() && max >= 1 && |m.storage| <= max
    ensures |Apply(m, op, max).0.storage| <= max
  {
    if op.Set? {
      ValidAfterSet(m, op, max);
      EvictedSize(Stored(m, op), max);
    } else {
      NoNewKeys(m, op, max);
      SubsetSize(Apply(m, op, max).0.storage.Keys, m.storage.Keys);
    }
  }

  lemma EvictedSize(m: Memory, max: nat)
    requires m.Valid() && m.Evict(max).Valid() && max >= 1
    ensures |m.Evict(max).storage| <= max
  {
    AbsEvict(m, max);
    AbsEvict(m.Evict(max), max);
  }

  lemma NoNewKeys(m: Memory, op: Op, max: nat)
    requires !op.Set?
    ensures Apply(m, op, max).0.storage.Keys <= m.storage.Keys
  {
  }
}
