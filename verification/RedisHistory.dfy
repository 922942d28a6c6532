// What Redis holds and what the backend answers, as functions of the calls made, key
// by key and tag by tag.
module RedisHistory {
  import opened Basics
  import opened RedisModel

  function Now(ops: seq<Op>): int {
    if ops == [] then 0 else Now(ops[..|ops| - 1]) + if ops[|ops| - 1].Tick? then ops[|ops| - 1].elapsed else 0
  }

  /** The call stores a value under k. */
  predicate Writes(op: Op, k: Key) {
    ((op.Set? && !op.fate.Refused?) || op.ResettingSet?) && op.key == k
  }

  /** For how many seconds. */
  function Seconds(op: Op): int
    requires op.Set? || op.ResettingSet?
  {
    if op.Set? then EffectiveTtl(op.ttl, op.jitter) else op.seconds
  }

  /** The value and the deadline of the last write of k, or the deadline of a later
      expire, unless something removed it. */
  function Content(ops: seq<Op>, k: Key): Option<Item>
    decreases |ops|, 0
  {
    if ops == [] then None
    else
      var (past, op) := (ops[..|ops| - 1], ops[|ops| - 1]);
      if Writes(op, k) then Some(Item(op.value, Now(past) + Seconds(op)))
      else if Removes(past, op, k) then None
      else if op.Expire? && op.key == k && !op.fate.Refused? && Live(past, k) then
        Some(Content(past, k).value.(deadline := Now(past) + op.seconds))
      else Content(past, k)
  }

  predicate Live(ops: seq<Op>, k: Key)
    decreases |ops|, 1
  {
    Content(ops, k).Some? && Now(ops) < Content(ops, k).value.deadline
  }

  predicate Removes(past: seq<Op>, op: Op, k: Key)
    decreases |past|, 3
  {
    || (op.Delete? && op.key == k && !op.fate.Refused?)
    || (op.Expire? && op.key == k && !op.fate.Refused? && Live(past, k) && op.seconds <= 0)
    || (op.InvalidateTags? && ListedUnder(past, op.tags, k))
    || (op.InvalidateMatching? && Live(past, k) && op.matches(k))
    || (op.DeletePart? && k in op.keys)
  }

  predicate ListedUnder(ops: seq<Op>, tags: set<Tag>, k: Key)
    decreases |ops|, 2
  {
    exists t :: t in tags && k in Listed(ops, t)
  }

  /** The set of tag t, from the writes that carried the tag: the life that a write
      asks for is a minute more than its own, and only YokedCache.set shortens one. */
  function TagSetOf(ops: seq<Op>, t: Tag): Option<TagSet>
    decreases |ops|, 0
  {
    if ops == [] then None
    else
      var (past, op) := (ops[..|ops| - 1], ops[|ops| - 1]);
      if (op.Set? || op.ResettingSet?) && Writes(op, op.key) && t in op.tags then
        var asked := Now(past) + Seconds(op) + 60;
        Some(TagSet(Listed(past, t) + {op.key}, if op.Set? && Lives(past, t) then Longer(TagSetOf(past, t).value.deadline, asked) else Some(asked)))
      else if (op.InvalidateTags? && t in op.tags && Listed(past, t) != {}) || (op.DropSet? && op.tag == t) then None
      else TagSetOf(past, t)
  }

  function Longer(deadline: Option<int>, asked: int): Option<int> {
    if deadline.None? || deadline.value >= asked then deadline else Some(asked)
  }

  predicate Lives(ops: seq<Op>, t: Tag)
    decreases |ops|, 1
  {
    var s := TagSetOf(ops, t);
    s.Some? && (s.value.deadline.None? || Now(ops) < s.value.deadline.value)
  }

  /** The keys under t. */
  function Listed(ops: seq<Op>, t: Tag): set<Key>
    decreases |ops|, 2
  {
    if Lives(ops, t) then TagSetOf(ops, t).value.members else {}
  }

  function ItemOf(db: Db, k: Key): Option<Item> {
    if k in db.data then Some(db.data[k]) else None
  }

  function SetOf(db: Db, t: Tag): Option<TagSet> {
    if t in db.sets then Some(db.sets[t]) else None
  }

  /** The database holds what the calls say. */
  ghost predicate Told(db: Db, ops: seq<Op>) {
    && db.now == Now(ops)
    && (forall k :: ItemOf(db, k) == Content(ops, k))
    && (forall t :: SetOf(db, t) == TagSetOf(ops, t))
  }

  lemma SameReadings(db: Db, ops: seq<Op>, k: Key, t: Tag)
    requires Told(db, ops)
    ensures db.Live(k) <==> Live(ops, k)
    ensures db.HasSet(t) <==> Lives(ops, t)
    ensures db.Members(t) == Listed(ops, t)
  {
    assert ItemOf(db, k) == Content(ops, k);
    assert SetOf(db, t) == TagSetOf(ops, t);
  }

  lemma SameListing(db: Db, ops: seq<Op>, tags: set<Tag>, k: Key)
    requires Told(db, ops)
    ensures k in ListedIn(db, tags) <==> ListedUnder(ops, tags, k)
  {
    forall t ensures db.Members(t) == Listed(ops, t) {
      SameReadings(db, ops, k, t);
    }
  }

  lemma ItemStep(db: Db, past: seq<Op>, op: Op, k: Key)
    requires Told(db, past)
    ensures ItemOf(Apply(db, op).0, k) == Content(past + [op], k)
  {
    assert (past + [op])[..|past|] == past;
    assert ItemOf(db, k) == Content(past, k);
    SameReadings(db, past, k, Tag(""));
    if op.InvalidateTags? {
      SameListing(db, past, op.tags, k);
    }
  }

  lemma JoinStep(db: Db, past: seq<Op>, op: Op, t: Tag)
    requires Told(db, past) && (op.Set? || op.ResettingSet?)
    ensures SetOf(Apply(db, op).0, t) == TagSetOf(past + [op], t)
  {
    assert (past + [op])[..|past|] == past;
    assert SetOf(db, t) == TagSetOf(past, t);
    SameReadings(db, past, op.key, t);
  }

  lemma SetStep(db: Db, past: seq<Op>, op: Op, t: Tag)
    requires Told(db, past)
    ensures SetOf(Apply(db, op).0, t) == TagSetOf(past + [op], t)
  {
    if op.Set? || op.ResettingSet? {
      JoinStep(db, past, op, t);
    } else {
      assert (past + [op])[..|past|] == past;
      assert SetOf(db, t) == TagSetOf(past, t);
      SameReadings(db, past, Key(""), t);
    }
  }

  lemma NowStep(db: Db, past: seq<Op>, op: Op)
    requires db.now == Now(past)
    ensures Apply(db, op).0.now == Now(past + [op])
  {
    assert (past + [op])[..|past|] == past;
  }

  lemma {:induction false} DbIsHistory(ops: seq<Op>)
    ensures Told(Run(EMPTY, ops), ops)
  {
    if ops != [] {
      var (past, op) := (ops[..|ops| - 1], ops[|ops| - 1]);
      var db := Run(EMPTY, past);
      DbIsHistory(past);
      assert ops == past + [op];
      NowStep(db, past, op);
      forall k ensures ItemOf(Apply(db, op).0, k) == Content(ops, k) {
        ItemStep(db, past, op, k);
      }
      forall t ensures SetOf(Apply(db, op).0, t) == TagSetOf(ops, t) {
        SetStep(db, past, op, t);
      }
    }
  }

  /** The keys that were ever set. */
  function KeysSet(ops: seq<Op>): set<Key> {
    set i | 0 <= i < |ops| && (ops[i].Set? || ops[i].ResettingSet?) :: ops[i].key
  }

  lemma {:induction false} ContentWasSet(ops: seq<Op>, k: Key)
    requires Content(ops, k).Some?
    ensures k in KeysSet(ops)
  {
    var n := |ops| - 1;
    if !Writes(ops[n], k) {
      ContentWasSet(ops[..n], k);
      var i :| 0 <= i < n && (ops[..n][i].Set? || ops[..n][i].ResettingSet?) && ops[..n][i].key == k;
      assert (ops[i].Set? || ops[i].ResettingSet?) && ops[i].key == k;
    }
  }

  /** The live keys that the invalidation takes. */
  function Affected(ops: seq<Op>, op: Op): set<Key> {
    set k | k in KeysSet(ops) && Live(ops, k) && Removes(ops, op, k)
  }

  /** The reply that follows from the calls before. */
  function ReplyTo(ops: seq<Op>, op: Op): Reply {
    match op
    case Set(_, _, _, _, _, fate) => Flag(fate.Done?)
    case ResettingSet(_, _, _, _) => Flag(true)
    case Get(k, fate, readable) =>
      if fate.Done? && readable && Live(ops, k) then Found(Content(ops, k).value.value) else Absent
    case Delete(k, fate) => Flag(fate.Done? && Live(ops, k))
    case Expire(k, _, fate) => Flag(fate.Done? && Live(ops, k))
    case InvalidateTags(_) => Count(|Affected(ops, op)|)
    case InvalidateMatching(_) => Count(|Affected(ops, op)|)
    case DeletePart(_) => Nothing
    case DropSet(_) => Nothing
    case Tick(_) => Nothing
  }

  lemma AffectedAreListed(db: Db, ops: seq<Op>, op: Op)
    requires Told(db, ops) && (op.InvalidateTags? || op.InvalidateMatching?)
    ensures Affected(ops, op) == if op.InvalidateTags? then db.LiveAmong(ListedIn(db, op.tags)) else Matching(db, op.matches)
  {
    forall k ensures k in Affected(ops, op) <==>
      k in if op.InvalidateTags? then db.LiveAmong(ListedIn(db, op.tags)) else Matching(db, op.matches)
    {
      SameReadings(db, ops, k, Tag(""));
      if op.InvalidateTags? {
        SameListing(db, ops, op.tags, k);
      }
      if Live(ops, k) {
        ContentWasSet(ops, k);
      }
    }
  }

  lemma RepliesAreHistory(ops: seq<Op>, op: Op)
    ensures Apply(Run(EMPTY, ops), op).1 == ReplyTo(ops, op)
  {
    var db := Run(EMPTY, ops);
    DbIsHistory(ops);
    if op.InvalidateTags? || op.InvalidateMatching? {
      AffectedAreListed(db, ops, op);
    } else if op.Get? || op.Delete? || op.Expire? {
      SameReadings(db, ops, op.key, Tag(""));
      assert ItemOf(db, op.key) == Content(ops, op.key);
    }
  }

  /** None of these calls writes, expires or removes k. */
  ghost predicate LeavesAlone(ops: seq<Op>, more: seq<Op>, k: Key) {
    forall i :: 0 <= i < |more| ==>
      !Writes(more[i], k) && !Removes(ops + more[..i], more[i], k) && !(more[i].Expire? && more[i].key == k)
  }

  lemma {:induction false} ContentStays(ops: seq<Op>, more: seq<Op>, k: Key)
    requires LeavesAlone(ops, more, k)
    ensures Content(ops + more, k) == Content(ops, k)
    decreases |more|
  {
    if more == [] {
      assert ops + more == ops;
    } else {
      var n := |more| - 1;
      assert (ops + more)[..|ops + more| - 1] == ops + more[..n];
      forall i | 0 <= i < n
        ensures !Writes(more[..n][i], k) && !Removes(ops + more[..n][..i], more[..n][i], k) && !(more[..n][i].Expire? && more[..n][i].key == k)
      {
        assert more[..n][..i] == more[..i];
      }
      ContentStays(ops, more[..n], k);
    }
  }

  /** A value set with this ttl, 300 if none is given, and this jitter is found while
      less than ttl + jitter seconds have passed, one at least, and not after that. */
  lemma SetLives(ops: seq<Op>, write: Op, more: seq<Op>, base: int, life: int)
    requires write.Set? && !write.fate.Refused? && LeavesAlone(ops + [write], more, write.key)
    requires base == (if write.ttl == 0 then 300 else write.ttl)
    requires life == (if base + write.jitter < 1 then 1 else base + write.jitter)
    ensures var all := ops + [write] + more;
      Apply(Run(EMPTY, all), Get(write.key, Done, true)).1 == if Now(all) - Now(ops) < life then Found(write.value) else Absent
  {
    assert (ops + [write])[..|ops|] == ops;
    ContentStays(ops + [write], more, write.key);
    RepliesAreHistory(ops + [write] + more, Get(write.key, Done, true));
  }
}
