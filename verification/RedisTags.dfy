// Tag invalidation is complete because a tag set outlives every key in it.
module RedisTags {
  import opened Basics
  import opened RedisModel

  /** If k is live, each of these tags lists it, for `margin` seconds longer than k
      lives. */
  ghost predicate Covered(db: Db, k: Key, tags: set<Tag>, margin: int) {
    db.Live(k) ==> forall t :: t in tags ==> CoveredBy(db, k, t, margin)
  }

  predicate CoveredBy(db: Db, k: Key, t: Tag, margin: int)
    requires k in db.data
  {
    t in db.sets && k in db.sets[t].members && Reaches(db, t, db.data[k].deadline + margin)
  }

  /** The tag set does not expire before this time. */
  predicate Reaches(db: Db, t: Tag, time: int) {
    t in db.sets && (db.sets[t].deadline.None? || time <= db.sets[t].deadline.value)
  }

  predicate SetsKey(op: Op, k: Key) {
    (op.ResettingSet? || (op.Set? && !op.fate.Refused?)) && op.key == k
  }

  /** The tags k was last set with. */
  function LatestTags(ops: seq<Op>, k: Key): set<Tag> {
    if ops == [] then {}
    else
      var n := |ops| - 1;
      TagsAfter(LatestTags(ops[..n], k), ops[n], k)
  }

  function TagsAfter(tags: set<Tag>, op: Op, k: Key): set<Tag> {
    if SetsKey(op, k) then op.tags else tags
  }

  /** No neighbour's resetting set takes a shared tag set below the life of k, no
      expire takes k beyond its tag sets, and no set is dropped that should list k. */
  predicate Keeps(db: Db, op: Op, k: Key, tags: set<Tag>, margin: int) {
    match op
    case ResettingSet(key, _, seconds, ts) =>
      key == k || !db.Live(k) || ts !! tags || db.data[k].deadline + margin <= db.now + seconds + TAG_GRACE
    case Expire(key, seconds, fate) =>
      key != k || !db.Live(k) || seconds <= 0 || fate.Refused?
      || forall t :: t in tags ==> Reaches(db, t, db.now + seconds + margin)
    case DropSet(t) => !db.Live(k) || t !in tags
    case _ => true
  }

  lemma ExpireKeepsCoverIff(db: Db, op: Op, k: Key, tags: set<Tag>, margin: int)
    requires op.Expire? && 0 <= margin <= TAG_GRACE && Covered(db, k, tags, margin)
    ensures Covered(Apply(db, op).0, k, tags, margin) <==> Keeps(db, op, k, tags, margin)
  {
    var r := Apply(db, op).0;
    if op.key == k && db.Live(k) && op.seconds > 0 && !op.fate.Refused? {
      forall t | t in tags ensures CoveredBy(r, k, t, margin) <==> Reaches(db, t, db.now + op.seconds + margin) {
        assert CoveredBy(db, k, t, margin);
      }
    }
  }

  /** Cover survives a step exactly if the step is one of those that keep it. */
  lemma StepKeepsCoverIff(db: Db, op: Op, k: Key, tags: set<Tag>, margin: int)
    requires 0 <= margin <= TAG_GRACE && Covered(db, k, tags, margin)
    ensures Covered(Apply(db, op).0, k, TagsAfter(tags, op, k), margin) <==> Keeps(db, op, k, tags, margin)
  {
    if op.Expire? {
      ExpireKeepsCoverIff(db, op, k, tags, margin);
    }
  }

  /** A set that takes effect covers its key whatever happened before. */
  lemma SetCovers(db: Db, op: Op, k: Key, margin: int)
    requires SetsKey(op, k) && margin <= TAG_GRACE
    ensures Covered(Apply(db, op).0, k, op.tags, margin)
  {
  }

  /** Since the last set of k every step kept it covered. */
  predicate KeepsAlong(ops: seq<Op>, k: Key, margin: int) {
    ops != [] ==>
      var n := |ops| - 1;
      SetsKey(ops[n], k)
      || (KeepsAlong(ops[..n], k, margin) && Keeps(Run(EMPTY, ops[..n]), ops[n], k, LatestTags(ops[..n], k), margin))
  }

  /** The timed invariant, in every run. */
  lemma {:induction false} RunsKeepCover(ops: seq<Op>, k: Key, margin: int)
    requires 0 <= margin <= TAG_GRACE && KeepsAlong(ops, k, margin)
    ensures Covered(Run(EMPTY, ops), k, LatestTags(ops, k), margin)
  {
    if ops != [] {
      var n := |ops| - 1;
      if SetsKey(ops[n], k) {
        SetCovers(Run(EMPTY, ops[..n]), ops[n], k, margin);
      } else {
        RunsKeepCover(ops[..n], k, margin);
        StepKeepsCoverIff(Run(EMPTY, ops[..n]), ops[n], k, LatestTags(ops[..n], k), margin);
      }
    }
  }

  /** The backend's own calls one after the other, an expire never lengthening a life. */
  predicate OwnCalls(ops: seq<Op>) {
    ops != [] ==>
      var n := |ops| - 1;
      OwnCalls(ops[..n]) && OwnCall(Run(EMPTY, ops[..n]), ops[n])
  }

  predicate OwnCall(db: Db, op: Op) {
    && !op.ResettingSet? && !op.DropSet?
    && (op.Expire? && db.Live(op.key) ==> db.now + op.seconds <= db.data[op.key].deadline)
  }

  lemma OwnCallKeeps(db: Db, op: Op, k: Key, tags: set<Tag>, margin: int)
    requires Covered(db, k, tags, margin) && OwnCall(db, op)
    ensures Keeps(db, op, k, tags, margin)
  {
    if op.Expire? && op.key == k && db.Live(k) {
      forall t | t in tags ensures Reaches(db, t, db.now + op.seconds + margin) {
        assert CoveredBy(db, k, t, margin);
      }
    }
  }

  /** Under them every tag set outlives each of its live keys by a minute. */
  lemma {:induction false} OwnCallsKeepCover(ops: seq<Op>, k: Key, margin: int)
    requires 0 <= margin <= TAG_GRACE && OwnCalls(ops)
    ensures KeepsAlong(ops, k, margin) && Covered(Run(EMPTY, ops), k, LatestTags(ops, k), margin)
  {
    if ops != [] {
      var n := |ops| - 1;
      OwnCallsKeepCover(ops[..n], k, margin);
      OwnCallKeeps(Run(EMPTY, ops[..n]), ops[n], k, LatestTags(ops[..n], k), margin);
      RunsKeepCover(ops, k, margin);
    }
  }

  /** k outlives the invalidation of t that comes so many seconds later. */
  predicate Escapes(db: Db, k: Key, t: Tag, elapsed: nat) {
    Apply(Apply(db, Tick(elapsed)).0, InvalidateTags({t})).0.Live(k)
  }

  lemma ListedAlone(db: Db, t: Tag)
    ensures ListedIn(db, {t}) == db.Members(t)
  {
  }

  lemma EscapesNow(db: Db, k: Key, t: Tag, elapsed: nat)
    ensures Escapes(db, k, t, elapsed) <==>
      var later := Apply(db, Tick(elapsed)).0; later.Live(k) && k !in later.Members(t)
  {
    ListedAlone(Apply(db, Tick(elapsed)).0, t);
  }

  /** A live key can escape the invalidation of a tag, now or later, exactly if the
      set of the tag does not list it or expires before it. */
  lemma EscapesIff(db: Db, k: Key, t: Tag)
    requires db.Live(k)
    ensures (exists elapsed :: Escapes(db, k, t, elapsed)) <==> !CoveredBy(db, k, t, 0)
  {
    if CoveredBy(db, k, t, 0) {
      forall elapsed: nat ensures !Escapes(db, k, t, elapsed) {
        EscapesNow(db, k, t, elapsed);
      }
    } else {
      var wait := if t in db.sets && db.sets[t].deadline.Some? && db.now <= db.sets[t].deadline.value < db.data[k].deadline
        then db.sets[t].deadline.value - db.now else 0;
      EscapesNow(db, k, t, wait);
      assert Escapes(db, k, t, wait);
    }
  }

  /** ... so no later invalidation misses k exactly if it is covered, with no margin. */
  ghost predicate NeverMissed(db: Db, k: Key, tags: set<Tag>) {
    forall t, elapsed :: t in tags ==> !Escapes(db, k, t, elapsed)
  }

  lemma NeverMissedIffCovered(db: Db, k: Key, tags: set<Tag>)
    ensures NeverMissed(db, k, tags) <==> Covered(db, k, tags, 0)
  {
    forall t | t in tags && db.Live(k) ensures (exists elapsed :: Escapes(db, k, t, elapsed)) <==> !CoveredBy(db, k, t, 0) {
      EscapesIff(db, k, t);
    }
    if !db.Live(k) {
      forall t, elapsed: nat ensures !Escapes(db, k, t, elapsed) {
        EscapesNow(db, k, t, elapsed);
      }
    }
  }

  /** A step leaves invalidation complete for k exactly if it keeps its cover. */
  lemma StepMissesIff(db: Db, op: Op, k: Key, tags: set<Tag>)
    requires NeverMissed(db, k, tags)
    ensures NeverMissed(Apply(db, op).0, k, TagsAfter(tags, op, k)) <==> Keeps(db, op, k, tags, 0)
  {
    NeverMissedIffCovered(db, k, tags);
    NeverMissedIffCovered(Apply(db, op).0, k, TagsAfter(tags, op, k));
    StepKeepsCoverIff(db, op, k, tags, 0);
  }

  lemma InvalidatedTagsAreGone(db: Db, ts: set<Tag>, k: Key, tags: set<Tag>)
    requires Covered(db, k, tags, 0) && Apply(db, InvalidateTags(ts)).0.Live(k)
    ensures db.Live(k) && k !in ListedIn(db, ts) && tags !! ts
  {
    forall t | t in tags && t in ts ensures k in db.Members(t) {
      assert CoveredBy(db, k, t, 0);
    }
  }

  /** After invalidate_tags no live key last set with one of the tags remains, if
      since the last set of the key every step kept it covered. */
  lemma InvalidationIsComplete(ops: seq<Op>, ts: set<Tag>, k: Key)
    requires KeepsAlong(ops, k, 0)
    ensures Run(EMPTY, ops + [InvalidateTags(ts)]).Live(k) ==> LatestTags(ops, k) !! ts
  {
    RunsKeepCover(ops, k, 0);
    RunSnoc(EMPTY, ops, InvalidateTags(ts));
    var db := Run(EMPTY, ops);
    if Apply(db, InvalidateTags(ts)).0.Live(k) {
      InvalidatedTagsAreGone(db, ts, k, LatestTags(ops, k));
    }
  }

  /** So it is after any run of the backend's own calls. */
  lemma OwnCallsAreComplete(ops: seq<Op>, ts: set<Tag>, k: Key)
    requires OwnCalls(ops)
    ensures Run(EMPTY, ops + [InvalidateTags(ts)]).Live(k) ==> LatestTags(ops, k) !! ts
  {
    OwnCallsKeepCover(ops, k, 0);
    InvalidationIsComplete(ops, ts, k);
  }

  predicate EverTagged(ops: seq<Op>, k: Key, t: Tag) {
    exists i :: 0 <= i < |ops| && SetsKey(ops[i], k) && t in ops[i].tags
  }

  lemma EverTaggedMore(ops: seq<Op>, k: Key, t: Tag)
    requires ops != [] && EverTagged(ops[..|ops| - 1], k, t)
    ensures EverTagged(ops, k, t)
  {
  }

  lemma MembersAfter(db: Db, op: Op, k: Key, t: Tag)
    requires k in Apply(db, op).0.Members(t)
    ensures k in db.Members(t) || (SetsKey(op, k) && t in op.tags)
  {
  }

  /** Nothing is invalidated that never carried the tag. */
  lemma {:induction false} MembersWereTagged(ops: seq<Op>, k: Key, t: Tag)
    requires k in Run(EMPTY, ops).Members(t)
    ensures EverTagged(ops, k, t)
  {
    if ops != [] {
      var n := |ops| - 1;
      MembersAfter(Run(EMPTY, ops[..n]), ops[n], k, t);
      if k in Run(EMPTY, ops[..n]).Members(t) {
        MembersWereTagged(ops[..n], k, t);
        EverTaggedMore(ops, k, t);
      }
    }
  }

  lemma RunFour(a: Op, b: Op, c: Op, d: Op)
    ensures Run(EMPTY, [a, b, c, d]) == Apply(Apply(Apply(Apply(EMPTY, a).0, b).0, c).0, d).0
  {
    RunTwo(a, b);
    RunTwoMore(a, b, c, d);
  }

  lemma RunTwo(a: Op, b: Op)
    ensures Run(EMPTY, [a, b]) == Apply(Apply(EMPTY, a).0, b).0
  {
    RunSnoc(EMPTY, [], a);
    RunSnoc(EMPTY, [a], b);
    assert [] + [a] == [a] && [a] + [b] == [a, b];
  }

  lemma RunTwoMore(a: Op, b: Op, c: Op, d: Op)
    ensures Run(EMPTY, [a, b, c, d]) == Apply(Apply(Run(EMPTY, [a, b]), c).0, d).0
  {
    RunSnoc(EMPTY, [a, b], c);
    RunSnoc(EMPTY, [a, b, c], d);
    assert [a, b] + [c] == [a, b, c] && [a, b, c] + [d] == [a, b, c, d];
  }

  lemma LatestSnoc(ops: seq<Op>, op: Op, k: Key)
    ensures LatestTags(ops + [op], k) == TagsAfter(LatestTags(ops, k), op, k)
  {
  }

  lemma LatestOfFour(a: Op, b: Op, c: Op, d: Op, k: Key)
    ensures LatestTags([a, b, c, d], k) == TagsAfter(TagsAfter(TagsAfter(TagsAfter({}, a, k), b, k), c, k), d, k)
  {
    LatestSnoc([], a, k);
    LatestSnoc([a], b, k);
    LatestSnoc([a, b], c, k);
    LatestSnoc([a, b, c], d, k);
    assert [] + [a] == [a] && [a] + [b] == [a, b] && [a, b] + [c] == [a, b, c] && [a, b, c] + [d] == [a, b, c, d];
  }

  /** Two calls after which k escapes. */
  lemma EscapeRun(a: Op, b: Op, k: Key, t: Tag, elapsed: nat)
    requires Escapes(Apply(Apply(EMPTY, a).0, b).0, k, t, elapsed)
    ensures Run(EMPTY, [a, b, Tick(elapsed), InvalidateTags({t})]).Live(k)
    ensures LatestTags([a, b, Tick(elapsed), InvalidateTags({t})], k) == TagsAfter(TagsAfter({}, a, k), b, k)
  {
    RunFour(a, b, Tick(elapsed), InvalidateTags({t}));
    LatestOfFour(a, b, Tick(elapsed), InvalidateTags({t}), k);
  }

  lemma ResetTwice(k: Key, other: Key, v: Value, t: Tag)
    requires k != other
    ensures var db := Apply(Apply(EMPTY, ResettingSet(k, v, 1000, {t})).0, ResettingSet(other, v, 10, {t})).0;
      && db.now == 0 && k in db.data && db.data[k].deadline == 1000
      && t in db.sets && db.sets[t].deadline == Some(70)
  {
  }

  lemma TruncatedEscapes(db: Db, k: Key, t: Tag, elapsed: nat)
    requires db.now == 0 && k in db.data && elapsed < db.data[k].deadline
    requires t in db.sets && db.sets[t].deadline.Some? && db.sets[t].deadline.value <= elapsed
    ensures Escapes(db, k, t, elapsed)
  {
    EscapesNow(db, k, t, elapsed);
  }

  /** YokedCache.set of a short-lived neighbour truncates the tag set: a live key
      escapes the invalidation of its tag. */
  lemma NeighbourEscapesInvalidation(k: Key, other: Key, v: Value, t: Tag)
    requires k != other
    ensures var ops := [ResettingSet(k, v, 1000, {t}), ResettingSet(other, v, 10, {t}), Tick(100), InvalidateTags({t})];
      Run(EMPTY, ops).Live(k) && LatestTags(ops, k) == {t}
  {
    var a, b := ResettingSet(k, v, 1000, {t}), ResettingSet(other, v, 10, {t});
    ResetTwice(k, other, v, t);
    TruncatedEscapes(Apply(Apply(EMPTY, a).0, b).0, k, t, 100);
    EscapeRun(a, b, k, t, 100);
  }

  lemma SetThenExpire(k: Key, v: Value, t: Tag)
    ensures var db := Apply(Apply(EMPTY, Set(k, v, 100, 0, {t}, Done)).0, Expire(k, 1000, Done)).0;
      && db.now == 0 && k in db.data && db.data[k].deadline == 1000
      && t in db.sets && db.sets[t].deadline == Some(160)
  {
  }

  /** So does a key whose life was lengthened by expire. */
  lemma LengthenedKeyEscapesInvalidation(k: Key, v: Value, t: Tag)
    ensures var ops := [Set(k, v, 100, 0, {t}, Done), Expire(k, 1000, Done), Tick(200), InvalidateTags({t})];
      Run(EMPTY, ops).Live(k) && LatestTags(ops, k) == {t}
  {
    var a, b := Set(k, v, 100, 0, {t}, Done), Expire(k, 1000, Done);
    SetThenExpire(k, v, t);
    TruncatedEscapes(Apply(Apply(EMPTY, a).0, b).0, k, t, 200);
    EscapeRun(a, b, k, t, 200);
  }

  /** Whoever is listed goes, whatever tags it has now. */
  lemma ListedKeyGoes(db: Db, k: Key, t: Tag)
    requires k in db.Members(t)
    ensures !Apply(Apply(db, Tick(0)).0, InvalidateTags({t})).0.Live(k)
  {
  }

  lemma StaysListed(db: Db, k: Key, v: Value, earlier: Tag, t: Tag)
    requires earlier != t && k in db.Members(earlier)
    ensures k in Apply(db, Set(k, v, 100, 0, {t}, Done)).0.Members(earlier)
  {
  }

  lemma GetsListed(db: Db, k: Key, v: Value, t: Tag)
    ensures k in Apply(db, Set(k, v, 100, 0, {t}, Done)).0.Members(t)
  {
  }

  /** Invalidation may take more: set does not leave the sets of earlier tags. */
  lemma EarlierTagStillInvalidates(k: Key, v: Value, earlier: Tag, t: Tag)
    requires earlier != t
    ensures var ops := [Set(k, v, 100, 0, {earlier}, Done), Set(k, v, 100, 0, {t}, Done), Tick(0), InvalidateTags({earlier})];
      !Run(EMPTY, ops).Live(k) && LatestTags(ops, k) == {t}
  {
    var a, b := Set(k, v, 100, 0, {earlier}, Done), Set(k, v, 100, 0, {t}, Done);
    RunFour(a, b, Tick(0), InvalidateTags({earlier}));
    LatestOfFour(a, b, Tick(0), InvalidateTags({earlier}), k);
    GetsListed(EMPTY, k, v, earlier);
    StaysListed(Apply(EMPTY, a).0, k, v, earlier, t);
    ListedKeyGoes(Apply(Apply(EMPTY, a).0, b).0, k, earlier);
  }

  lemma DroppedSetMisses(db: Db, k: Key, t: Tag)
    requires db.Live(k)
    ensures Escapes(Apply(db, DropSet(t)).0, k, t, 0)
  {
    EscapesNow(Apply(db, DropSet(t)).0, k, t, 0);
  }

  lemma SetIsLive(db: Db, k: Key, v: Value, t: Tag)
    ensures Apply(db, Set(k, v, 100, 0, {t}, Done)).0.Live(k)
  {
  }

  /** An invalidation that has read the members of t and deleted them, a set of k, and
      then the DEL of the tag set: the next invalidation misses k. */
  lemma SetDuringInvalidationEscapes(k: Key, other: Key, v: Value, t: Tag)
    requires k != other
    ensures var ops := [Set(other, v, 100, 0, {t}, Done), DeletePart({other}), Set(k, v, 100, 0, {t}, Done), DropSet(t)];
      Escapes(Run(EMPTY, ops), k, t, 0) && LatestTags(ops, k) == {t}
  {
    var a, b, c := Set(other, v, 100, 0, {t}, Done), DeletePart({other}), Set(k, v, 100, 0, {t}, Done);
    RunFour(a, b, c, DropSet(t));
    LatestOfFour(a, b, c, DropSet(t), k);
    SetIsLive(Apply(Apply(EMPTY, a).0, b).0, k, v, t);
    DroppedSetMisses(Apply(Apply(Apply(EMPTY, a).0, b).0, c).0, k, t);
  }
}
