// What the in-memory backend holds and answers, as a function of the calls made, and
// how long a value lives.
module MemoryHistory {
  import opened Basics
  import opened OrderedDict
  import opened MemoryModel
  import opened MemoryLru
  import opened MemoryEviction
  import opened MemorySweeps

  /** What an unbounded backend holds for k: the value of its last set, with the
      deadline that the set or a later expire gave it, unless something removed it. */
  function Content(ops: seq<Op>, k: Key): Option<Slot> {
    if ops == [] then None
    else
      var (past, op) := (ops[..|ops| - 1], ops[|ops| - 1]);
      After(past, op, k, Content(past, k))
  }

  function After(past: seq<Op>, op: Op, k: Key, was: Option<Slot>): Option<Slot> {
    if op.Set? && op.key == k then Some(Slot(op.value, Deadline(op)))
    else if was.None? || Removes(past, op, k, was.value) then None
    else if op.Expire? && op.key == k && op.now <= was.value.deadline then
      Some(was.value.(deadline := op.now + op.ttl as real))
    else was
  }

  /** A call that removes k, when it is held like this. */
  predicate Removes(past: seq<Op>, op: Op, k: Key, slot: Slot) {
    || (op.Delete? && op.key == k)
    || ((op.Get? || op.Exists?) && op.key == k && op.now > slot.deadline)
    || (op.Sweep? && op.now > slot.deadline)
    || (op.InvalidateTags? && !(op.tags !! LatestTags(past, k)))
    || (op.InvalidateMatching? && op.matches(k))
  }

  function Held(m: Memory, k: Key): Option<Slot> {
    if k in m.storage && k in m.expiry then Some(Slot(m.storage[k], m.expiry[k])) else None
  }

  /** k is held as in an unbounded backend, or was evicted. */
  ghost predicate HeldAs(m: Memory, k: Key, slot: Option<Slot>, maxSize: int) {
    if maxSize == 0 then Held(m, k) == slot else Held(m, k).Some? ==> Held(m, k) == slot
  }

  lemma HeldAfterRemove(m: Memory, gone: set<Key>, k: Key)
    ensures Held(m.Remove(gone), k) == if k in gone then None else Held(m, k)
  {
  }

  lemma HeldAfterStore(m: Memory, k: Key, v: Value, deadline: Time, stamp: Time, ts: set<Tag>, x: Key)
    requires forall y :: y in m.storage <==> y in m.expiry
    ensures Held(m.Store(k, v, deadline, stamp, ts), x) == if x == k then Some(Slot(v, deadline)) else Held(m, x)
  {
    MemorySweeps.StoreFields(m, k, v, deadline, stamp, ts);
  }

  lemma HeldAfterSet(m: Memory, past: seq<Op>, op: Op, maxSize: int, k: Key)
    requires op.Set? && forall y :: y in m.storage <==> y in m.expiry
    ensures HeldAs(Apply(m, op, maxSize).0, k, After(past, op, k, Held(m, k)), maxSize)
  {
    var s := Stored(m, op);
    HeldAfterStore(m, op.key, op.value, Deadline(op), op.stamp, op.tags, k);
    HeldAfterRemove(s, s.VictimSet(maxSize), k);
  }

  lemma HeldAfterGet(m: Memory, past: seq<Op>, op: Op, maxSize: int, k: Key)
    requires (op.Get? || op.Exists?) && (op.key in m.storage <==> op.key in m.expiry)
    ensures Held(Apply(m, op, maxSize).0, k) == After(past, op, k, Held(m, k))
  {
    LookingRemovesExpired(m, op, maxSize);
    if m.Expired(op.key, op.now) {
      HeldAfterRemove(m, {op.key}, k);
    }
  }

  lemma LookingRemovesExpired(m: Memory, op: Op, maxSize: int)
    requires (op.Get? || op.Exists?) && (op.key in m.storage <==> op.key in m.expiry)
    ensures var r := Apply(m, op, maxSize).0;
      if m.Expired(op.key, op.now) then r == m.Remove({op.key}) else r.storage == m.storage && r.expiry == m.expiry
  {
  }

  lemma HeldAfterExpire(m: Memory, past: seq<Op>, op: Op, maxSize: int, k: Key)
    requires op.Expire? && (op.key in m.storage <==> op.key in m.expiry)
    ensures Held(Apply(m, op, maxSize).0, k) == After(past, op, k, Held(m, k))
  {
    if Held(m, op.key).Some? && op.now <= m.expiry[op.key] {
      assert Apply(m, op, maxSize).0 == m.(expiry := m.expiry[op.key := op.now + op.ttl as real]);
    } else {
      assert Apply(m, op, maxSize).0 == m;
    }
  }

  lemma HeldAfterDelete(m: Memory, past: seq<Op>, op: Op, maxSize: int, k: Key)
    requires op.Delete? && (op.key in m.storage <==> op.key in m.expiry)
    ensures Held(Apply(m, op, maxSize).0, k) == After(past, op, k, Held(m, k))
  {
    HeldAfterRemove(m, {op.key}, k);
  }

  lemma HeldAfterBulk(m: Memory, past: seq<Op>, op: Op, maxSize: int, k: Key)
    requires op.InvalidateTags? || op.InvalidateMatching? || op.Sweep?
    requires k in m.storage <==> k in m.expiry
    requires k in m.storage ==> (k in GoneFromMemory(m, op) <==> Removes(past, op, k, Held(m, k).value))
    ensures Held(Apply(m, op, maxSize).0, k) == After(past, op, k, Held(m, k))
  {
    HeldAfterRemove(m, GoneFromMemory(m, op), k);
  }

  lemma TaggedBy(m: Memory, ts: set<Tag>, k: Key)
    requires m.tags == Inverted(m.keyTags)
    ensures k in m.TaggedWith(ts) <==> !(m.TagsOf(k) !! ts)
  {
    if k in m.TaggedWith(ts) {
      var t :| t in ts && t in m.tags && k in m.tags[t];
      assert k in KeysWith(m.keyTags, t);
      assert t in m.TagsOf(k) * ts;
    }
    if !(m.TagsOf(k) !! ts) {
      var t :| t in ts && t in m.TagsOf(k);
      assert k in m.keyTags && t in m.keyTags[k];
      assert t in m.tags && k in KeysWith(m.keyTags, t);
    }
  }

  lemma GoneIsRemoved(m: Memory, past: seq<Op>, op: Op, k: Key)
    requires op.InvalidateTags? || op.InvalidateMatching? || op.Sweep?
    requires m.tags == Inverted(m.keyTags) && k in m.storage && k in m.expiry && m.TagsOf(k) == LatestTags(past, k)
    ensures k in GoneFromMemory(m, op) <==> Removes(past, op, k, Held(m, k).value)
  {
    if op.InvalidateTags? {
      TaggedBy(m, op.tags, k);
    }
  }

  lemma HeldAfterApply(m: Memory, past: seq<Op>, op: Op, maxSize: int, k: Key)
    requires m.Valid() && (k in m.storage ==> m.TagsOf(k) == LatestTags(past, k))
    ensures HeldAs(Apply(m, op, maxSize).0, k, After(past, op, k, Held(m, k)), maxSize)
  {
    if op.Set? {
      HeldAfterSet(m, past, op, maxSize, k);
    } else if op.Get? || op.Exists? {
      HeldAfterGet(m, past, op, maxSize, k);
    } else if op.Expire? {
      HeldAfterExpire(m, past, op, maxSize, k);
    } else if op.Delete? {
      HeldAfterDelete(m, past, op, maxSize, k);
    } else {
      if k in m.storage {
        GoneIsRemoved(m, past, op, k);
      }
      HeldAfterBulk(m, past, op, maxSize, k);
    }
  }

  lemma HeldStep(r: Memory, past: seq<Op>, op: Op, maxSize: int, k: Key, held: Option<Slot>, slot: Option<Slot>)
    requires HeldAs(r, k, After(past, op, k, held), maxSize)
    requires if maxSize == 0 then held == slot else held.Some? ==> held == slot
    ensures HeldAs(r, k, After(past, op, k, slot), maxSize)
  {
  }

  /** Under any limit what is held is the content, and without one all of it is. */
  lemma {:induction false} ContentIsHeld(ops: seq<Op>, maxSize: int, k: Key)
    ensures HeldAs(Run(ops, maxSize).0, k, Content(ops, k), maxSize)
  {
    if ops != [] {
      var (past, op) := (ops[..|ops| - 1], ops[|ops| - 1]);
      var m := Run(past, maxSize).0;
      AccessTimesAreStamps(past, maxSize);
      ContentIsHeld(past, maxSize, k);
      if k in m.storage {
        StoredTagsAreLatest(past, maxSize, k);
      }
      HeldAfterApply(m, past, op, maxSize, k);
      HeldStep(Run(ops, maxSize).0, past, op, maxSize, k, Held(m, k), Content(past, k));
    }
  }

  /** The keys that were ever set. */
  function KeysSet(ops: seq<Op>): set<Key> {
    set i | 0 <= i < |ops| && ops[i].Set? :: ops[i].key
  }

  /** What an invalidation or a sweep has to remove. */
  function Affected(ops: seq<Op>, op: Op): set<Key> {
    set k | k in KeysSet(ops) && Content(ops, k).Some? && Removes(ops, op, k, Content(ops, k).value)
  }

  /** The reply of an unbounded backend. */
  function ReplyTo(ops: seq<Op>, op: Op): Reply {
    match op
    case Get(k, now, _) => if Unexpired(ops, k, now) then Found(Content(ops, k).value.value) else Absent
    case Set(_, _, _, _, _, _, _) => Flag(true)
    case Delete(k) => Flag(Content(ops, k).Some?)
    case Exists(k, now) => Flag(Unexpired(ops, k, now))
    case Expire(k, _, now) => Flag(Unexpired(ops, k, now))
    case InvalidateTags(_) => Count(|Affected(ops, op)|)
    case InvalidateMatching(_) => Count(|Affected(ops, op)|)
    case Sweep(_) => Flag(true)
  }

  predicate Unexpired(ops: seq<Op>, k: Key, now: Time) {
    Content(ops, k).Some? && now <= Content(ops, k).value.deadline
  }

  lemma {:induction false} ContentWasSet(ops: seq<Op>, k: Key)
    requires Content(ops, k).Some?
    ensures k in KeysSet(ops)
  {
    var n := |ops| - 1;
    if !(ops[n].Set? && ops[n].key == k) {
      ContentWasSet(ops[..n], k);
      var i :| 0 <= i < n && ops[..n][i].Set? && ops[..n][i].key == k;
      assert ops[i].Set? && ops[i].key == k;
    }
  }

  lemma AffectedIsRemoved(ops: seq<Op>, op: Op, k: Key)
    requires op.InvalidateTags? || op.InvalidateMatching?
    ensures k in Affected(ops, op) <==> k in GoneFromMemory(Run(ops, 0).0, op)
  {
    var m := Run(ops, 0).0;
    AccessTimesAreStamps(ops, 0);
    ContentIsHeld(ops, 0, k);
    if k in m.storage {
      ContentWasSet(ops, k);
      StoredTagsAreLatest(ops, 0, k);
      GoneIsRemoved(m, ops, op, k);
    } else if op.InvalidateTags? {
      TaggedBy(m, op.tags, k);
    }
  }

  lemma AffectedAreRemoved(ops: seq<Op>, op: Op)
    requires op.InvalidateTags? || op.InvalidateMatching?
    ensures Affected(ops, op) == GoneFromMemory(Run(ops, 0).0, op)
  {
    forall k ensures k in Affected(ops, op) <==> k in GoneFromMemory(Run(ops, 0).0, op) {
      AffectedIsRemoved(ops, op, k);
    }
  }

  /** Without a size limit every reply follows from the calls before it. */
  lemma RepliesAreHistory(ops: seq<Op>, op: Op)
    ensures Apply(Run(ops, 0).0, op, 0).1 == ReplyTo(ops, op)
  {
    if op.InvalidateTags? || op.InvalidateMatching? {
      AffectedAreRemoved(ops, op);
    } else if op.Get? || op.Delete? || op.Exists? || op.Expire? {
      AccessTimesAreStamps(ops, 0);
      ContentIsHeld(ops, 0, op.key);
    }
  }

  /** None of these calls sets, expires or removes k, set with these tags, and none
      reads a later time than now. */
  predicate LeavesAlone(ops: seq<Op>, k: Key, tags: set<Tag>, now: Time) {
    forall i :: 0 <= i < |ops| ==> LeavesKeyAlone(ops[i], k, tags, now)
  }

  predicate LeavesKeyAlone(op: Op, k: Key, tags: set<Tag>, now: Time) {
    match op
    case Get(_, t, _) => t <= now
    case Set(key, _, _, _, _, _, _) => key != k
    case Delete(key) => key != k
    case Exists(_, t) => t <= now
    case Expire(key, _, _) => key != k
    case InvalidateTags(ts) => ts !! tags
    case InvalidateMatching(p) => !p(k)
    case Sweep(t) => t <= now
  }

  lemma {:induction false} ContentStays(ops: seq<Op>, write: Op, more: seq<Op>, now: Time)
    requires write.Set? && LeavesAlone(more, write.key, write.tags, now)
    ensures var all := ops + [write] + more;
      && LatestTags(all, write.key) == write.tags
      && (Content(all, write.key) == Some(Slot(write.value, Deadline(write)))
          || (Content(all, write.key) == None && now > Deadline(write)))
    decreases |more|
  {
    var all := ops + [write] + more;
    if more == [] {
      assert all == ops + [write] && all[|all| - 1] == write;
    } else {
      var n := |more| - 1;
      var past := ops + [write] + more[..n];
      assert all[..|all| - 1] == past && all[|all| - 1] == more[n];
      ContentStays(ops, write, more[..n], now);
      assert LeavesKeyAlone(more[n], write.key, write.tags, now);
    }
  }

  lemma GetReply(m: Memory, k: Key, now: Time, stamp: Time, maxSize: int)
    requires k in m.storage <==> k in m.expiry
    ensures Apply(m, Get(k, now, stamp), maxSize).1 ==
      if Held(m, k).Some? && now <= Held(m, k).value.deadline then Found(Held(m, k).value.value) else Absent
  {
  }

  /** A value set with this ttl, 300 if none is given, and this jitter is found for
      ttl + jitter seconds, one at least, and not after that: whatever happened
      before, and as long as nothing sets, expires, removes or evicts the key. */
  lemma SetLives(ops: seq<Op>, write: Op, more: seq<Op>, maxSize: int, now: Time, stamp: Time, base: int, life: int)
    requires write.Set? && LeavesAlone(more, write.key, write.tags, now)
    requires base == (if write.ttl == 0 then 300 else write.ttl)
    requires life == (if base + write.jitter < 1 then 1 else base + write.jitter)
    ensures var m := Run(ops + [write] + more, maxSize).0; var r := Apply(m, Get(write.key, now, stamp), maxSize).1;
      && (now > write.now + life as real ==> r == Absent)
      && (now <= write.now + life as real && (maxSize == 0 || write.key in m.storage) ==> r == Found(write.value))
  {
    var all := ops + [write] + more;
    ContentStays(ops, write, more, now);
    ContentIsHeld(all, maxSize, write.key);
    AccessTimesAreStamps(all, maxSize);
    GetReply(Run(all, maxSize).0, write.key, now, stamp, maxSize);
  }
}
