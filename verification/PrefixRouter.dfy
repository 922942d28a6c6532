// The router object, and runs of calls through it under fixed routes.
module PrefixRouter {
  import opened Basics
  import opened OrderedDict
  import opened Routes

  /** What the backends in `done` remove, backend by backend. */
  function Removed(r: Router, matches: (string, Key) -> bool, pattern: string, done: set<BackendId>): (s: set<(BackendId, Key)>)
    ensures forall b, k :: (b, k) in s <==> b in done && k in r.Store(b) && matches(pattern, k)
  {
    set b, k | b in done && k in r.Store(b) && matches(pattern, k) :: (b, k)
  }

  function Pairs(b: BackendId, keys: set<Key>): (s: set<(BackendId, Key)>)
    ensures forall c, k :: (c, k) in s <==> c == b && k in keys
  {
    set k | k in keys :: (b, k)
  }

  lemma {:induction false} PairsOf(b: BackendId, keys: set<Key>)
    ensures |Pairs(b, keys)| == |keys|
  {
    if keys != {} {
      var k :| k in keys;
      PairsOf(b, keys - {k});
      assert Pairs(b, keys) == Pairs(b, keys - {k}) + {(b, k)};
    }
  }

  lemma RemovedOneMore(r: Router, matches: (string, Key) -> bool, pattern: string, done: set<BackendId>, b: BackendId)
    requires b !in done
    ensures |Removed(r, matches, pattern, done + {b})| ==
      |Removed(r, matches, pattern, done)| + |Matching(r.Store(b), matches, pattern)|
  {
    var all, before, more := Removed(r, matches, pattern, done + {b}), Removed(r, matches, pattern, done),
      Pairs(b, Matching(r.Store(b), matches, pattern));
    PairsOf(b, Matching(r.Store(b), matches, pattern));
    forall c, k ensures (c, k) in all <==> (c, k) in before + more {
    }
    forall c, k | (c, k) in before ensures (c, k) !in more {
    }
    assert all == before + more;
    assert before !! more;
  }

  lemma InvalidatedOneMore(r: Router, matches: (string, Key) -> bool, pattern: string, done: set<BackendId>, b: BackendId)
    requires b !in done
    ensures Invalidated(Invalidated(r, matches, pattern, done), matches, pattern, {b}) == Invalidated(r, matches, pattern, done + {b})
    ensures Invalidated(r, matches, pattern, done).Store(b) == r.Store(b)
  {
  }

  lemma InvalidatedNone(r: Router, matches: (string, Key) -> bool, pattern: string)
    ensures Invalidated(r, matches, pattern, {}) == r
    ensures Removed(r, matches, pattern, {}) == {}
  {
  }

  lemma OneMoreDone(all: set<BackendId>, rest: set<BackendId>, raising: set<BackendId>, b: BackendId)
    requires b in rest && rest <= all
    ensures all - (rest - {b}) - raising == if b in raising then all - rest - raising else all - rest - raising + {b}
    ensures all - (rest - {b}) - {b} - raising == all - rest - raising
  {
  }

  class PrefixRouter {
    var defaultBackend: BackendId
    var prefixMap: Dict<Prefix, BackendId>
    var stores: map<BackendId, Contents>   // what the backends hold

    ghost predicate Valid()
      reads this
    {
      prefixMap.Valid()
    }

    function View(): Router
      reads this
    {
      Router(prefixMap.vals, defaultBackend, stores)
    }

    constructor (defaultBackend: BackendId)
      ensures Valid() && View() == Router(map[], defaultBackend, map[])
    {
      this.defaultBackend := defaultBackend;
      prefixMap, stores := Dict([], map[]), map[];
    }

    method AddRoute(prefix: Prefix, backend: BackendId)
      requires Valid()
      modifies `prefixMap
      ensures Valid() && View() == old(View()).(routes := old(View()).routes[prefix := backend])
    {
      prefixMap := prefixMap.Put(prefix, backend);
    }

    method RemoveRoute(prefix: Prefix) returns (removed: bool)
      requires Valid()
      modifies `prefixMap
      ensures Valid() && View() == old(View()).(routes := old(View()).routes - {prefix})
      ensures removed == (prefix in old(View()).routes)
    {
      if prefix in prefixMap.vals {
        prefixMap := prefixMap.Del(prefix);
        return true;
      }
      assert prefixMap.vals - {prefix} == prefixMap.vals;
      return false;
    }

    /** The loop of get_backend: whatever the order of the routes, it ends with the
        longest one. */
    method BestPrefix(name: string) returns (best: Prefix)
      requires Valid()
      ensures best == Longest(View().routes, name)
    {
      best := Prefix("");
      for i := 0 to |prefixMap.order|
        invariant StartsWith(name, best) && (best.text != "" ==> best in prefixMap.vals)
        invariant forall p :: p in prefixMap.order[..i] && StartsWith(name, p) ==> |p.text| <= |best.text|
      {
        var prefix := prefixMap.order[i];
        if StartsWith(name, prefix) && |prefix.text| > |best.text| {
          best := prefix;
        }
        assert prefixMap.order[..i + 1] == prefixMap.order[..i] + [prefix];
      }
      assert prefixMap.order[..|prefixMap.order|] == prefixMap.order;
      if best.text != "" {
        LongestIsUnique(View().routes, name, best);
      } else {
        var l := Longest(View().routes, name);
        assert l.text != "" ==> l in prefixMap.order;
      }
    }

    method GetBackend(key: Key) returns (b: BackendId)
      requires Valid()
      ensures b == View().Backend(key)
    {
      var best := BestPrefix(key.name);
      b := if best.text != "" then prefixMap.vals[best] else defaultBackend;
    }

    method Get(key: Key) returns (r: Option<Value>)
      requires Valid()
      ensures r == View().Lookup(key)
    {
      var b := GetBackend(key);
      r := if key in View().Store(b) then Some(View().Store(b)[key]) else None;
    }

    /** set; stored is what the backend answers. */
    method Set(key: Key, value: Value, stored: bool) returns (r: bool)
      requires Valid()
      modifies `stores
      ensures Valid() && View() == if stored then Written(old(View()), key, value) else old(View())
      ensures r == stored
    {
      var b := GetBackend(key);
      if stored {
        stores := stores[b := View().Store(b)[key := value]];
      }
      return stored;
    }

    method Delete(key: Key) returns (removed: bool)
      requires Valid()
      modifies `stores
      ensures Valid() && View() == Deleted(old(View()), key)
      ensures removed == old(View()).Lookup(key).Some?
    {
      var b := GetBackend(key);
      removed := key in View().Store(b);
      stores := stores[b := View().Store(b) - {key}];
    }

    /** backend.invalidate_pattern, on one backend */
    method InvalidateOn(b: BackendId, matches: (string, Key) -> bool, pattern: string) returns (count: nat)
      modifies `stores
      ensures View() == Invalidated(old(View()), matches, pattern, {b})
      ensures count == |Matching(old(View()).Store(b), matches, pattern)|
    {
      var gone := Matching(View().Store(b), matches, pattern);
      count := |gone|;
      if b in stores {
        stores := stores[b := stores[b] - gone];
      }
    }

    /** ... on one more backend than those in done */
    method InvalidateOneMore(ghost r: Router, ghost done: set<BackendId>, b: BackendId, matches: (string, Key) -> bool, pattern: string)
      returns (count: nat)
      requires b !in done && View() == Invalidated(r, matches, pattern, done)
      modifies `stores
      ensures View() == Invalidated(r, matches, pattern, done + {b})
      ensures |Removed(r, matches, pattern, done + {b})| == |Removed(r, matches, pattern, done)| + count
    {
      RemovedOneMore(r, matches, pattern, done, b);
      InvalidatedOneMore(r, matches, pattern, done, b);
      count := InvalidateOn(b, matches, pattern);
    }

    /** invalidate_pattern; a backend that raises is skipped. */
    method InvalidatePattern(matches: (string, Key) -> bool, pattern: string, raising: set<BackendId>) returns (total: nat)
      requires Valid()
      modifies `stores
      ensures View() == Invalidated(old(View()), matches, pattern, old(View()).Checked(pattern) - raising)
      ensures total == |Removed(old(View()), matches, pattern, old(View()).Checked(pattern) - raising)|
    {
      var best := BestPrefix(pattern);
      var backends := {defaultBackend} + prefixMap.vals.Values;
      if best.text != "" {
        backends := {prefixMap.vals[best]};
      }
      total := InvalidateAll(backends, matches, pattern, raising);
    }

    method InvalidateAll(backends: set<BackendId>, matches: (string, Key) -> bool, pattern: string, raising: set<BackendId>)
      returns (total: nat)
      modifies `stores
      ensures View() == Invalidated(old(View()), matches, pattern, backends - raising)
      ensures total == |Removed(old(View()), matches, pattern, backends - raising)|
    {
      total := 0;
      var rest := backends;
      ghost var (r, done) := (View(), {});
      InvalidatedNone(r, matches, pattern);
      while rest != {}
        invariant rest <= backends && done == backends - rest - raising
        invariant View() == Invalidated(r, matches, pattern, done)
        invariant total == |Removed(r, matches, pattern, done)|
        decreases rest
      {
        var b :| b in rest;
        OneMoreDone(backends, rest, raising, b);
        rest := rest - {b};
        if b !in raising {
          var count := InvalidateOneMore(r, done, b, matches, pattern);
          total := total + count;
          done := done + {b};
        }
      }
      assert done == backends - raising;
    }
  }

  function Written(r: Router, k: Key, v: Value): Router {
    r.With(r.Backend(k), r.Store(r.Backend(k))[k := v])
  }

  function Deleted(r: Router, k: Key): Router {
    r.With(r.Backend(k), r.Store(r.Backend(k)) - {k})
  }

  datatype Op =
    | Get(key: Key)
    | Set(key: Key, value: Value, stored: bool)
    | Delete(key: Key)
    | InvalidatePattern(pattern: string)

  datatype Reply = Answer(value: Option<Value>) | Flag(b: bool) | Count(n: nat)

  function Apply(r: Router, matches: (string, Key) -> bool, op: Op): (Router, Reply) {
    match op
    case Get(k) => (r, Answer(r.Lookup(k)))
    case Set(k, v, stored) => (if stored then Written(r, k, v) else r, Flag(stored))
    case Delete(k) => (Deleted(r, k), Flag(r.Lookup(k).Some?))
    case InvalidatePattern(p) =>
      (Invalidated(r, matches, p, r.Checked(p)), Count(|Removed(r, matches, p, r.Checked(p))|))
  }

  /** The same call on a single map. */
  function MapApply(m: Contents, matches: (string, Key) -> bool, op: Op): (Contents, Reply) {
    match op
    case Get(k) => (m, Answer(if k in m then Some(m[k]) else None))
    case Set(k, v, stored) => (if stored then m[k := v] else m, Flag(stored))
    case Delete(k) => (m - {k}, Flag(k in m))
    case InvalidatePattern(p) => (m - Matching(m, matches, p), Count(|Matching(m, matches, p)|))
  }

  /** Backends hold only keys that are routed to them, and together they are m. */
  ghost predicate OneMap(r: Router, m: Contents) {
    && (forall b, k :: k in r.Store(b) ==> r.Backend(k) == b)
    && (forall k :: k in m ==> r.Lookup(k) == Some(m[k]))
    && (forall k :: k !in m ==> r.Lookup(k) == None)
  }

  lemma StoreAfterSet(r: Router, k: Key, v: Value, b: BackendId)
    ensures Written(r, k, v).Store(b) == if b == r.Backend(k) then r.Store(b)[k := v] else r.Store(b)
    ensures forall x :: Written(r, k, v).Backend(x) == r.Backend(x)
  {
  }

  lemma SetStep(r: Router, m: Contents, k: Key, v: Value)
    requires OneMap(r, m)
    ensures OneMap(Written(r, k, v), m[k := v])
  {
    var s := Written(r, k, v);
    forall b ensures s.Store(b) == if b == r.Backend(k) then r.Store(b)[k := v] else r.Store(b) {
      StoreAfterSet(r, k, v, b);
    }
    StoreAfterSet(r, k, v, r.Backend(k));
    forall x ensures s.Lookup(x) == if x == k then Some(v) else r.Lookup(x) {
    }
  }

  lemma DeleteStep(r: Router, m: Contents, k: Key)
    requires OneMap(r, m)
    ensures OneMap(Deleted(r, k), m - {k})
  {
    var s := Deleted(r, k);
    forall b ensures s.Store(b) == if b == r.Backend(k) then r.Store(b) - {k} else r.Store(b) {
    }
    forall x ensures s.Backend(x) == r.Backend(x) {
    }
  }

  lemma {:induction false} PairedKeys(r: Router, keys: set<Key>)
    ensures |set k | k in keys :: (r.Backend(k), k)| == |keys|
  {
    if keys != {} {
      var k :| k in keys;
      PairedKeys(r, keys - {k});
      assert (set x | x in keys :: (r.Backend(x), x)) == (set x | x in keys - {k} :: (r.Backend(x), x)) + {(r.Backend(k), k)};
    }
  }

  /** The number returned is the number of matching keys. */
  lemma CountIsExact(r: Router, m: Contents, matches: (string, Key) -> bool, pattern: string)
    requires OneMap(r, m) && Reached(r, matches, pattern)
    ensures |Removed(r, matches, pattern, r.Checked(pattern))| == |Matching(m, matches, pattern)|
  {
    var keys := Matching(m, matches, pattern);
    PairedKeys(r, keys);
    var pairs := set k | k in keys :: (r.Backend(k), k);
    forall b, k ensures (b, k) in pairs <==> (b, k) in Removed(r, matches, pattern, r.Checked(pattern)) {
      if k in r.Store(b) {
        assert r.Lookup(k) == Some(r.Store(b)[k]);
      }
      if k in keys {
        assert r.Backend(k) in r.Checked(pattern);
        assert r.Lookup(k) == Some(m[k]);
      }
    }
    assert pairs == Removed(r, matches, pattern, r.Checked(pattern));
  }

  lemma InvalidationStep(r: Router, m: Contents, matches: (string, Key) -> bool, pattern: string)
    requires OneMap(r, m) && Reached(r, matches, pattern)
    ensures OneMap(Invalidated(r, matches, pattern, r.Checked(pattern)), m - Matching(m, matches, pattern))
  {
    var s := Invalidated(r, matches, pattern, r.Checked(pattern));
    forall b, k | k in s.Store(b) ensures s.Backend(k) == b {
      InvalidatedStore(r, matches, pattern, r.Checked(pattern), b);
      assert k in r.Store(b);
      assert s.Backend(k) == r.Backend(k);
    }
    forall k ensures s.Lookup(k) == if matches(pattern, k) then None else r.Lookup(k) {
      InvalidationIsComplete(r, matches, pattern, k);
    }
    var n := m - Matching(m, matches, pattern);
    forall k ensures k in n <==> k in m && !matches(pattern, k) {
    }
  }

  function Run(r: Router, matches: (string, Key) -> bool, ops: seq<Op>): (Router, seq<Reply>) {
    if ops == [] then (r, [])
    else
      var n := |ops| - 1;
      var (s, rs) := Run(r, matches, ops[..n]);
      var (s', reply) := Apply(s, matches, ops[n]);
      (s', rs + [reply])
  }

  function MapRun(matches: (string, Key) -> bool, ops: seq<Op>): (Contents, seq<Reply>) {
    if ops == [] then (map[], [])
    else
      var n := |ops| - 1;
      var (m, rs) := MapRun(matches, ops[..n]);
      var (m', reply) := MapApply(m, matches, ops[n]);
      (m', rs + [reply])
  }

  lemma SameRoutes(r: Router, matches: (string, Key) -> bool, op: Op)
    ensures Apply(r, matches, op).0.routes == r.routes && Apply(r, matches, op).0.fallback == r.fallback
  {
  }

  /** The invalidations among these calls reach every key they match. */
  ghost predicate InvalidationsReach(r: Router, matches: (string, Key) -> bool, ops: seq<Op>) {
    forall i :: 0 <= i < |ops| && ops[i].InvalidatePattern? ==> Reached(r, matches, ops[i].pattern)
  }

  lemma CallStep(r: Router, m: Contents, matches: (string, Key) -> bool, op: Op)
    requires OneMap(r, m) && (op.InvalidatePattern? ==> Reached(r, matches, op.pattern))
    ensures OneMap(Apply(r, matches, op).0, MapApply(m, matches, op).0)
    ensures Apply(r, matches, op).1 == MapApply(m, matches, op).1
  {
    if op.InvalidatePattern? {
      CountIsExact(r, m, matches, op.pattern);
      InvalidationStep(r, m, matches, op.pattern);
    } else if op.Set? {
      SetStep(r, m, op.key, op.value);
    } else if op.Delete? {
      DeleteStep(r, m, op.key);
    }
  }

  lemma SameReach(r: Router, s: Router, matches: (string, Key) -> bool, pattern: string)
    requires s.routes == r.routes && s.fallback == r.fallback && Reached(r, matches, pattern)
    ensures Reached(s, matches, pattern)
  {
    forall k | matches(pattern, k) ensures s.Backend(k) in s.Checked(pattern) {
      assert r.Backend(k) in r.Checked(pattern);
    }
  }

  /** Under fixed routes, nested ones included, the routed backends act as one map: the
      same replies to every sequence of calls whose invalidations, if any, reach every
      key they match. */
  lemma {:induction false} RoutedBackendsAreOneMap(r0: Router, matches: (string, Key) -> bool, ops: seq<Op>)
    requires r0.stores == map[] && InvalidationsReach(r0, matches, ops)
    ensures var r := Run(r0, matches, ops); var m := MapRun(matches, ops);
      r.1 == m.1 && OneMap(r.0, m.0) && r.0.routes == r0.routes && r.0.fallback == r0.fallback
  {
    if ops != [] {
      var n := |ops| - 1;
      RoutedBackendsAreOneMap(r0, matches, ops[..n]);
      var r := Run(r0, matches, ops[..n]).0;
      SameRoutes(r, matches, ops[n]);
      if ops[n].InvalidatePattern? {
        SameReach(r0, r, matches, ops[n].pattern);
      }
      CallStep(r, MapRun(matches, ops[..n]).0, matches, ops[n]);
    }
  }

  /** After such a run every key is on the backend of the longest registered prefix of
      its name, or on the default backend if it has none. */
  lemma KeysAreRouted(r0: Router, matches: (string, Key) -> bool, ops: seq<Op>, b: BackendId, k: Key, p: Prefix)
    requires r0.stores == map[] && InvalidationsReach(r0, matches, ops) && k in Run(r0, matches, ops).0.Store(b)
    ensures p.text != "" && IsLongest(r0.routes, k.name, p) ==> b == r0.routes[p]
    ensures (forall q :: q in r0.routes && StartsWith(k.name, q) ==> q.text == "") ==> b == r0.fallback
  {
    RoutedBackendsAreOneMap(r0, matches, ops);
    if p.text != "" {
      LongestIsUnique(r0.routes, k.name, p);
    }
  }

  /** All invalidations are of this pattern. */
  ghost predicate Uses(ops: seq<Op>, pattern: string) {
    forall i :: 0 <= i < |ops| && ops[i].InvalidatePattern? ==> ops[i].pattern == pattern
  }

  ghost predicate AsOneMap(r0: Router, matches: (string, Key) -> bool, ops: seq<Op>) {
    Run(r0, matches, ops).1 == MapRun(matches, ops).1
  }

  function StoreInvalidateRead(k: Key, v: Value, pattern: string): seq<Op> {
    [Set(k, v, true)] + [InvalidatePattern(pattern)] + [Get(k)]
  }

  lemma RunSnoc(r0: Router, matches: (string, Key) -> bool, ops: seq<Op>, op: Op)
    ensures Run(r0, matches, ops + [op]) ==
      var (s, rs) := Run(r0, matches, ops); (Apply(s, matches, op).0, rs + [Apply(s, matches, op).1])
    ensures MapRun(matches, ops + [op]) ==
      var (m, rs) := MapRun(matches, ops); (MapApply(m, matches, op).0, rs + [MapApply(m, matches, op).1])
  {
    assert (ops + [op])[..|ops|] == ops;
  }

  lemma LastReplies(r0: Router, matches: (string, Key) -> bool, k: Key, v: Value, pattern: string)
    ensures var ops := StoreInvalidateRead(k, v, pattern);
      && |Run(r0, matches, ops).1| == |MapRun(matches, ops).1| == 3
      && Run(r0, matches, ops).1[2] == Answer(Invalidated(Written(r0, k, v), matches, pattern, r0.Checked(pattern)).Lookup(k))
      && MapRun(matches, ops).1[2] == Answer(if matches(pattern, k) then None else Some(v))
  {
    var (a, b, c) := (Set(k, v, true), InvalidatePattern(pattern), Get(k));
    RunSnoc(r0, matches, [], a);
    assert [] + [a] == [a];
    RunSnoc(r0, matches, [a], b);
    RunSnoc(r0, matches, [a] + [b], c);
    assert Written(r0, k, v).Checked(pattern) == r0.Checked(pattern);
  }

  lemma UnreachedKeyShows(r0: Router, matches: (string, Key) -> bool, k: Key, v: Value, pattern: string)
    requires matches(pattern, k) && r0.Backend(k) !in r0.Checked(pattern)
    ensures !AsOneMap(r0, matches, StoreInvalidateRead(k, v, pattern))
  {
    var w := Written(r0, k, v);
    LastReplies(r0, matches, k, v, pattern);
    InvalidatedStore(w, matches, pattern, r0.Checked(pattern), r0.Backend(k));
    assert Invalidated(w, matches, pattern, r0.Checked(pattern)).Backend(k) == r0.Backend(k);
    assert Run(r0, matches, StoreInvalidateRead(k, v, pattern)).1[2] != MapRun(matches, StoreInvalidateRead(k, v, pattern)).1[2];
  }

  /** Exactly: all runs that invalidate by one pattern behave as one map iff every key
      it matches is routed to a backend the invalidation is sent to. */
  lemma OneMapIffReached(r0: Router, matches: (string, Key) -> bool, pattern: string)
    requires r0.stores == map[]
    ensures (forall ops :: Uses(ops, pattern) ==> AsOneMap(r0, matches, ops)) <==> Reached(r0, matches, pattern)
  {
    if Reached(r0, matches, pattern) {
      forall ops | Uses(ops, pattern) ensures AsOneMap(r0, matches, ops) {
        RoutedBackendsAreOneMap(r0, matches, ops);
      }
    } else {
      var k :| matches(pattern, k) && r0.Backend(k) !in r0.Checked(pattern);
      UnreachedKeyShows(r0, matches, k, Value(""), pattern);
      assert Uses(StoreInvalidateRead(k, Value(""), pattern), pattern);
    }
  }
}
