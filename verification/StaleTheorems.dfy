// What may be served after a backend failure, and what is.
module StaleTheorems {
  import opened Basics
  import opened OrderedDict
  import opened StaleModel

  lemma DistinctTail(s: seq<Key>)
    requires Distinct(s) && s != []
    ensures Distinct(s[1..]) && s[0] !in s[1..]
    decreases |s|
  {
    if |s| > 1 {
      var n := |s| - 1;
      DistinctTail(s[..n]);
      assert s[1..] == s[..n][1..] + [s[n]];
      DistinctSnoc(s[..n][1..], s[n]);
      assert s[..n][0] == s[0] && s[0] in s[..n];
    }
  }

  lemma ShrunkKeepsValid(d: Store, max: nat)
    requires d.Valid() && max >= 1
    ensures Shrunk(d, max).Valid()
    decreases |d.order|
  {
    if |d.order| >= max {
      DistinctTail(d.order);
      assert d.order == [d.order[0]] + d.order[1..];
      ShrunkKeepsValid(PopFront(d), max);
    }
  }

  lemma ShrunkOnce(d: Store, max: nat)
    requires max >= 1 && |d.order| <= max
    ensures Shrunk(d, max) == if |d.order| < max then d else PopFront(d)
  {
  }

  ghost predicate Sound(cfg: Config, d: Store) {
    d.Valid() && |d.order| <= cfg.maxEntries
  }

  lemma {:induction false} WithoutIsShorter(s: seq<Key>, gone: set<Key>)
    ensures |Without(s, gone)| <= |s|
  {
    if s != [] {
      WithoutIsShorter(s[..|s| - 1], gone);
    }
  }

  lemma RecordedIsSound(cfg: Config, d: Store, k: Key, e: Entry)
    requires cfg.maxEntries >= 1 && Sound(cfg, d)
    ensures Sound(cfg, Recorded(d, k, e, cfg.maxEntries))
  {
    if k in d.vals {
      WithoutLength(d.order, k);
    } else {
      ShrunkKeepsValid(d, cfg.maxEntries);
    }
  }

  lemma PoppedIsSound(cfg: Config, d: Store, keys: set<Key>)
    requires Sound(cfg, d)
    ensures Sound(cfg, Popped(d, keys))
  {
    WithoutIsShorter(d.order, keys);
  }

  lemma StepIsSound(cfg: Config, s: State, e: Event)
    requires cfg.maxEntries >= 1 && Sound(cfg, s.stale)
    ensures Sound(cfg, Apply(cfg, s, e).0.stale)
  {
    match e
    case Set(key, v, _, _, _, now) => RecordedIsSound(cfg, s.stale, cfg.build(key), Entry(v, now));
    case Get(key, _, _) => PoppedIsSound(cfg, s.stale, {cfg.build(key)});
    case Delete(key, _, _) => PoppedIsSound(cfg, s.stale, {cfg.build(key), key});
    case Expire(key, _, _) => PoppedIsSound(cfg, s.stale, {cfg.build(key)});
    case Invalidate(groups, _) => PoppedIsSound(cfg, s.stale, Union(groups));
    case Vanish(_) =>
  }

  /** The stale store never exceeds its limit. */
  lemma {:induction false} StoreIsBounded(cfg: Config, h: seq<Event>)
    requires cfg.maxEntries >= 1
    ensures Sound(cfg, Run(cfg, h).stale)
  {
    if h != [] {
      StoreIsBounded(cfg, h[..|h| - 1]);
      StepIsSound(cfg, Run(cfg, h[..|h| - 1]), h[|h| - 1]);
    }
  }

  /** Key k is in the store, if at all, with this entry. */
  ghost predicate AtMost(d: Store, k: Key, e: Option<Entry>) {
    k in d.vals ==> e == Some(d.vals[k])
  }

  lemma ShrunkHasNoMore(d: Store, max: nat, k: Key)
    requires max >= 1
    ensures k in Shrunk(d, max).vals ==> k in d.vals && Shrunk(d, max).vals[k] == d.vals[k]
    decreases |d.order|
  {
    if |d.order| >= max {
      ShrunkHasNoMore(PopFront(d), max, k);
    }
  }

  function LastAfter(cfg: Config, s: State, e: Event, k: Key, last: Option<Entry>): Option<Entry> {
    if SetsOk(cfg, e, k) then Some(Entry(e.value, e.now))
    else if Pops(cfg, s, e, k) then None
    else last
  }

  lemma SetIsAtMost(cfg: Config, s: State, e: Event, k: Key, last: Option<Entry>)
    requires cfg.maxEntries >= 1 && AtMost(s.stale, k, last) && e.Set?
    ensures AtMost(Apply(cfg, s, e).0.stale, k, LastAfter(cfg, s, e, k, last))
  {
    ShrunkHasNoMore(s.stale, cfg.maxEntries, k);
  }

  lemma StepIsAtMost(cfg: Config, s: State, e: Event, k: Key, last: Option<Entry>)
    requires cfg.maxEntries >= 1 && AtMost(s.stale, k, last)
    ensures AtMost(Apply(cfg, s, e).0.stale, k, LastAfter(cfg, s, e, k, last))
  {
    if e.Set? {
      SetIsAtMost(cfg, s, e, k, last);
    }
  }

  lemma {:induction false} StoreIsAtMostLastSet(cfg: Config, h: seq<Event>, k: Key)
    requires cfg.maxEntries >= 1
    ensures AtMost(Run(cfg, h).stale, k, LastSet(cfg, h, k))
  {
    if h != [] {
      var n := |h| - 1;
      StoreIsAtMostLastSet(cfg, h[..n], k);
      StepIsAtMost(cfg, Run(cfg, h[..n]), h[n], k, LastSet(cfg, h[..n], k));
    }
  }

  /** The keys listed after k. */
  function Behind(s: seq<Key>, k: Key): set<Key> {
    if s == [] || s[|s| - 1] == k then {} else Behind(s[..|s| - 1], k) + {s[|s| - 1]}
  }

  lemma BehindSnoc(s: seq<Key>, x: Key, k: Key)
    ensures Behind(s + [x], k) == if x == k then {} else Behind(s, k) + {x}
  {
  }

  lemma {:induction false} BehindWithout(s: seq<Key>, gone: set<Key>, k: Key)
    requires k !in gone
    ensures Behind(Without(s, gone), k) <= Behind(s, k)
  {
    if s != [] {
      var n := |s| - 1;
      BehindWithout(s[..n], gone, k);
      BehindSnoc(Without(s[..n], gone), s[n], k);
    }
  }

  lemma {:induction false} BehindTail(s: seq<Key>, k: Key)
    requires s != []
    ensures Behind(s[1..], k) <= Behind(s, k)
    decreases |s|
  {
    if |s| > 1 {
      var n := |s| - 1;
      BehindTail(s[..n], k);
      assert s[1..] == s[..n][1..] + [s[n]];
      BehindSnoc(s[..n][1..], s[n], k);
    }
  }

  lemma {:induction false} BehindFirst(s: seq<Key>, k: Key)
    requires Distinct(s) && s != [] && s[0] == k
    ensures |Behind(s, k)| == |s| - 1
    ensures forall x :: x in Behind(s, k) ==> x in s
    decreases |s|
  {
    if |s| > 1 {
      var n := |s| - 1;
      BehindFirst(s[..n], k);
      assert s[..n][0] == k && k in s[..n];
      assert s[n] !in Behind(s[..n], k);
    }
  }

  /** Key k is in the store with this entry, and only these keys came after it. */
  ghost predicate Retained(d: Store, k: Key, e: Entry, others: set<Key>) {
    k in d.vals && d.vals[k] == e && Behind(d.order, k) <= others
  }

  /** Making room does not evict k while fewer than max keys came after it. */
  lemma ShrunkRetains(d: Store, max: nat, k: Key, e: Entry, others: set<Key>, j: Key)
    requires d.Valid() && 1 <= max && |d.order| <= max && j !in d.vals
    requires Retained(d, k, e, others) && |others + {j}| < max
    ensures Retained(Shrunk(d, max), k, e, others)
  {
    ShrunkOnce(d, max);
    if |d.order| == max {
      BehindTail(d.order, k);
      if d.order[0] == k {
        BehindFirst(d.order, k);
        assert j !in Behind(d.order, k);
        SubsetSize(Behind(d.order, k) + {j}, others + {j});
        assert false;
      }
    }
  }

  lemma OtherSetRetains(cfg: Config, d: Store, j: Key, e': Entry, k: Key, e: Entry, others: set<Key>)
    requires cfg.maxEntries >= 1 && Sound(cfg, d) && Retained(d, k, e, others)
    requires j != k && |others + {j}| < cfg.maxEntries
    ensures Retained(Recorded(d, j, e', cfg.maxEntries), k, e, others + {j})
  {
    if j in d.vals {
      BehindWithout(d.order, {j}, k);
      BehindSnoc(Without(d.order, {j}), j, k);
    } else {
      ShrunkRetains(d, cfg.maxEntries, k, e, others, j);
      ShrunkHasNoMore(d, cfg.maxEntries, j);
      BehindSnoc(Shrunk(d, cfg.maxEntries).order, j, k);
    }
  }

  lemma OwnSetRetains(cfg: Config, d: Store, k: Key, e: Entry)
    requires cfg.maxEntries >= 1 && Sound(cfg, d)
    ensures Retained(Recorded(d, k, e, cfg.maxEntries), k, e, {})
  {
    if k in d.vals {
      BehindSnoc(Without(d.order, {k}), k, k);
    } else {
      ShrunkHasNoMore(d, cfg.maxEntries, k);
      BehindSnoc(Shrunk(d, cfg.maxEntries).order, k, k);
    }
  }

  lemma PoppedRetains(d: Store, keys: set<Key>, k: Key, e: Entry, others: set<Key>)
    requires Retained(d, k, e, others) && k !in keys
    ensures Retained(Popped(d, keys), k, e, others)
  {
    BehindWithout(d.order, keys, k);
  }

  lemma OtherStepRetains(cfg: Config, s: State, e: Event, k: Key, entry: Entry, others: set<Key>)
    requires cfg.maxEntries >= 1 && Retained(s.stale, k, entry, others)
    requires !e.Set? && !Pops(cfg, s, e, k)
    ensures Retained(Apply(cfg, s, e).0.stale, k, entry, others)
  {
    var r := Apply(cfg, s, e).0.stale;
    if r != s.stale {
      PoppedRetains(s.stale, PoppedBy(cfg, e), k, entry, others);
    }
  }

  function PoppedBy(cfg: Config, e: Event): set<Key> {
    match e
    case Get(key, _, _) => {cfg.build(key)}
    case Delete(key, _, _) => {cfg.build(key), key}
    case Expire(key, _, _) => {cfg.build(key)}
    case Invalidate(groups, _) => Union(groups)
    case Set(_, _, _, _, _, _) => {}
    case Vanish(_) => {}
  }

  lemma OthersGrow(cfg: Config, h: seq<Event>, k: Key)
    requires h != [] && !SetsOk(cfg, h[|h| - 1], k)
    ensures |OthersSince(cfg, h[..|h| - 1], k)| <= |OthersSince(cfg, h, k)|
  {
    SubsetSize(OthersSince(cfg, h[..|h| - 1], k), OthersSince(cfg, h, k));
  }

  /** Eviction in order of the last set: an entry stays while fewer than maxEntries
      other keys have been set since. */
  lemma {:induction false} RecentSetIsRetained(cfg: Config, h: seq<Event>, k: Key)
    requires cfg.maxEntries >= 1 && LastSet(cfg, h, k).Some?
    requires |OthersSince(cfg, h, k)| < cfg.maxEntries
    ensures Retained(Run(cfg, h).stale, k, LastSet(cfg, h, k).value, OthersSince(cfg, h, k))
  {
    var n := |h| - 1;
    var s, e := Run(cfg, h[..n]), h[n];
    StoreIsBounded(cfg, h[..n]);
    if SetsOk(cfg, e, k) {
      OwnSetRetains(cfg, s.stale, k, Entry(e.value, e.now));
    } else {
      OthersGrow(cfg, h, k);
      RecentSetIsRetained(cfg, h[..n], k);
      var (entry, others) := (LastSet(cfg, h[..n], k).value, OthersSince(cfg, h[..n], k));
      if e.Set? && e.ok && cfg.Records() {
        OtherSetRetains(cfg, s.stale, cfg.build(e.key), Entry(e.value, e.now), k, entry, others);
      } else if !e.Set? {
        OtherStepRetains(cfg, s, e, k, entry, others);
      }
    }
  }

  predicate InTime(cfg: Config, e: Option<Entry>, now: Time) {
    e.Some? && (cfg.staleTtl <= 0.0 || now - e.value.storedAt <= cfg.staleTtl)
  }

  /** A value served after a failure is the last one set successfully, not too old,
      and the key was neither missed, deleted nor invalidated since. */
  lemma ServedIsLastSet(cfg: Config, h: seq<Event>, key: Key, trouble: Trouble, now: Time)
    requires cfg.maxEntries >= 1
    ensures var (r, last) := (Apply(cfg, Run(cfg, h), Get(key, trouble, now)).1, LastSet(cfg, h, cfg.build(key)));
      r.Stale? ==> Fails(trouble) && cfg.staleIfError && InTime(cfg, last, now) && last.value.value == r.value
  {
    StoreIsAtMostLastSet(cfg, h, cfg.build(key));
  }

  /** It is served exactly then, unless many other keys were set in between. */
  lemma ServedIff(cfg: Config, h: seq<Event>, key: Key, trouble: Trouble, now: Time)
    requires cfg.maxEntries >= 1 && |OthersSince(cfg, h, cfg.build(key))| < cfg.maxEntries
    ensures var (r, last) := (Apply(cfg, Run(cfg, h), Get(key, trouble, now)).1, LastSet(cfg, h, cfg.build(key)));
      r.Stale? <==> Fails(trouble) && cfg.staleIfError && InTime(cfg, last, now)
  {
    ServedIsLastSet(cfg, h, key, trouble, now);
    if LastSet(cfg, h, cfg.build(key)).Some? {
      RecentSetIsRetained(cfg, h, cfg.build(key));
    }
  }

  /** An invalidation that fails after deleting the key leaves the stale entry: a
      later failure of the backend serves a value that is gone. */
  lemma FailedInvalidationServesDeleted(cfg: Config, key: Key, v: Value, trouble: Trouble)
    requires cfg.maxEntries >= 1 && cfg.staleIfError && Fails(trouble)
    ensures var k := cfg.build(key); var h := [Set(key, v, true, true, false, 0.0), Invalidate([], [k])];
      k !in Run(cfg, h).data && Apply(cfg, Run(cfg, h), Get(key, trouble, 0.0)).1 == Stale(v)
  {
  }

  /** An entry that expired in the backend unobserved is served too, at whatever age
      the limit allows: the limit counts from the set, not from the expiry. */
  lemma UnobservedExpiryIsServed(cfg: Config, key: Key, v: Value, trouble: Trouble, now: Time)
    requires cfg.maxEntries >= 1 && cfg.staleIfError && Fails(trouble)
    ensures var k := cfg.build(key); var h := [Set(key, v, true, true, false, 0.0), Vanish(k)];
      && k !in Run(cfg, h).data
      && (Apply(cfg, Run(cfg, h), Get(key, trouble, now)).1 == Stale(v) <==> cfg.staleTtl <= 0.0 || now <= cfg.staleTtl)
  {
  }
}
