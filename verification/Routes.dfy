// PrefixRouter: which backend a key goes to, and what a pattern invalidation reaches.
module Routes {
  import opened Basics
  import opened OrderedDict

  datatype Prefix = Prefix(text: string)

  datatype BackendId = BackendId(id: nat)

  predicate StartsWith(name: string, p: Prefix) {
    p.text <= name
  }

  /** The longest registered prefix of the first n characters of a name, or the
      empty prefix, which never selects a route. */
  function LongestOf(routes: map<Prefix, BackendId>, name: string, n: nat): (p: Prefix)
    requires n <= |name|
    ensures StartsWith(name, p) && |p.text| <= n
    ensures p.text != "" ==> p in routes
    ensures forall m :: 0 < m <= n && Prefix(name[..m]) in routes ==> m <= |p.text|
  {
    if n == 0 then Prefix("")
    else if Prefix(name[..n]) in routes then Prefix(name[..n])
    else LongestOf(routes, name, n - 1)
  }

  function Longest(routes: map<Prefix, BackendId>, name: string): Prefix {
    LongestOf(routes, name, |name|)
  }

  lemma PrefixOfName(name: string, p: Prefix)
    requires StartsWith(name, p)
    ensures Prefix(name[..|p.text|]) == p
  {
  }

  /** Longest is the one registered, non-empty prefix of the name that no other such
      prefix exceeds. */
  lemma LongestIsUnique(routes: map<Prefix, BackendId>, name: string, p: Prefix)
    requires p.text != ""
    ensures p == Longest(routes, name) <==> IsLongest(routes, name, p)
  {
    var l := Longest(routes, name);
    forall q | q in routes && StartsWith(name, q) && q.text != "" ensures |q.text| <= |l.text| {
      PrefixOfName(name, q);
    }
    if IsLongest(routes, name, p) {
      PrefixOfName(name, p);
      PrefixOfName(name, l);
    }
  }

  ghost predicate IsLongest(routes: map<Prefix, BackendId>, name: string, p: Prefix) {
    && p in routes && StartsWith(name, p)
    && forall q :: q in routes && StartsWith(name, q) ==> |q.text| <= |p.text|
  }

  type Contents = map<Key, Value>

  /** The backends' contents; a backend not listed is empty. */
  datatype Router = Router(routes: map<Prefix, BackendId>, fallback: BackendId, stores: map<BackendId, Contents>)
  {
    function Backend(k: Key): BackendId {
      var p := Longest(routes, k.name);
      if p.text != "" then routes[p] else fallback
    }

    function Store(b: BackendId): Contents {
      if b in stores then stores[b] else map[]
    }

    /** What the router answers for a key. */
    function Lookup(k: Key): Option<Value> {
      if k in Store(Backend(k)) then Some(Store(Backend(k))[k]) else None
    }

    function With(b: BackendId, c: Contents): Router {
      this.(stores := stores[b := c])
    }

    function Backends(): set<BackendId> {
      {fallback} + routes.Values
    }

    /** The backends an invalidation of the pattern is sent to. */
    function Checked(pattern: string): set<BackendId> {
      var p := Longest(routes, pattern);
      if p.text != "" then {routes[p]} else Backends()
    }
  }

  predicate Wild(c: char) {
    c == '*' || c == '?' || c == '[' || c == '\\'
  }

  /** The part of a pattern before its first wildcard. */
  function Literal(pattern: string): (r: string)
    ensures r <= pattern
    ensures forall c :: c in r ==> !Wild(c)
    ensures |r| < |pattern| ==> Wild(pattern[|r|])
  {
    if pattern == "" || Wild(pattern[0]) then "" else [pattern[0]] + Literal(pattern[1..])
  }

  /** A matcher for glob patterns; what is before the first wildcard must match
      literally. */
  ghost predicate Honest(matches: (string, Key) -> bool) {
    forall pattern, k :: matches(pattern, k) ==> Literal(pattern) <= k.name
  }

  function Matching(c: Contents, matches: (string, Key) -> bool, pattern: string): set<Key> {
    set k | k in c && matches(pattern, k)
  }

  /** The router after the backends in `done` have removed the matching keys. */
  function Invalidated(r: Router, matches: (string, Key) -> bool, pattern: string, done: set<BackendId>): Router {
    r.(stores := map b | b in r.stores ::
      if b in done then r.stores[b] - Matching(r.stores[b], matches, pattern) else r.stores[b])
  }

  lemma InvalidatedStore(r: Router, matches: (string, Key) -> bool, pattern: string, done: set<BackendId>, b: BackendId)
    ensures Invalidated(r, matches, pattern, done).Store(b) ==
      if b in done then r.Store(b) - Matching(r.Store(b), matches, pattern) else r.Store(b)
  {
  }

  predicate NoWildcards(routes: map<Prefix, BackendId>) {
    forall p :: p in routes ==> forall c :: c in p.text ==> !Wild(c)
  }

  /** No registered prefix extends another. */
  predicate Antichain(routes: map<Prefix, BackendId>) {
    forall p, q :: p in routes && q in routes && p.text != "" && StartsWith(q.text, p) ==> p == q
  }

  /** A wildcard-free prefix of a pattern is a prefix of its literal part. */
  lemma PrefixOfLiteral(pattern: string, p: Prefix)
    requires StartsWith(pattern, p) && forall c :: c in p.text ==> !Wild(c)
    ensures StartsWith(Literal(pattern), p)
  {
  }

  lemma PrefixesAreNested(name: string, p: Prefix, q: Prefix)
    requires StartsWith(name, p) && StartsWith(name, q) && |p.text| <= |q.text|
    ensures StartsWith(q.text, p)
  {
  }

  /** Every key the pattern matches is routed to a backend the invalidation is sent to. */
  ghost predicate Reached(r: Router, matches: (string, Key) -> bool, pattern: string) {
    forall k :: matches(pattern, k) ==> r.Backend(k) in r.Checked(pattern)
  }

  /** So it is for every pattern if no registered prefix extends another. */
  lemma AntichainReaches(r: Router, matches: (string, Key) -> bool, pattern: string)
    requires NoWildcards(r.routes) && Antichain(r.routes) && Honest(matches)
    ensures Reached(r, matches, pattern)
  {
    forall k | matches(pattern, k) ensures r.Backend(k) in r.Checked(pattern) {
      MatchingKeyIsReached(r, matches, pattern, k);
    }
  }

  lemma MatchingKeyIsReached(r: Router, matches: (string, Key) -> bool, pattern: string, k: Key)
    requires NoWildcards(r.routes) && Antichain(r.routes) && Honest(matches) && matches(pattern, k)
    ensures r.Backend(k) in r.Checked(pattern)
  {
    var p, q := Longest(r.routes, pattern), Longest(r.routes, k.name);
    if p.text != "" {
      PrefixOfLiteral(pattern, p);
      assert StartsWith(k.name, p);
      PrefixOfName(k.name, p);
      PrefixesAreNested(k.name, p, q);
    }
  }

  /** invalidate_pattern leaves no matching key where the router looks for it. */
  lemma InvalidationIsComplete(r: Router, matches: (string, Key) -> bool, pattern: string, k: Key)
    requires Reached(r, matches, pattern)
    ensures Invalidated(r, matches, pattern, r.Checked(pattern)).Lookup(k) ==
      if matches(pattern, k) then None else r.Lookup(k)
  {
    InvalidatedStore(r, matches, pattern, r.Checked(pattern), r.Backend(k));
  }

  /** "literal*" matches the keys that begin with the literal part. */
  ghost predicate MatchesStar(matches: (string, Key) -> bool, literal: string) {
    forall k: Key :: matches(literal + "*", k) <==> literal <= k.name
  }

  /** All routes beyond the literal lead to the backend that is checked. */
  predicate SameBeyond(r: Router, literal: string) {
    var p := Longest(r.routes, literal);
    p.text == "" || forall q :: q in r.routes && literal <= q.text ==> r.routes[q] == r.routes[p]
  }

  lemma LongestOfStar(routes: map<Prefix, BackendId>, literal: string)
    requires NoWildcards(routes)
    ensures Longest(routes, literal + "*") == Longest(routes, literal)
  {
    var name := literal + "*";
    var p := Prefix(name[..|name|]);
    assert p.text[|literal|] == '*' && '*' in p.text;
    assert name[..|literal|] == literal;
    SameStart(routes, name, literal, |literal|);
  }

  lemma {:induction false} SameStart(routes: map<Prefix, BackendId>, name: string, start: string, n: nat)
    requires n <= |start| && start <= name
    ensures LongestOf(routes, name, n) == LongestOf(routes, start, n)
  {
    if n > 0 {
      assert name[..n] == start[..n];
      SameStart(routes, name, start, n - 1);
    }
  }

  ghost predicate Leaves(r: Router, matches: (string, Key) -> bool, literal: string, k: Key) {
    literal <= k.name && r.Backend(k) !in r.Checked(literal + "*")
  }

  lemma ExtensionIsLeft(r: Router, matches: (string, Key) -> bool, literal: string, q: Prefix)
    requires NoWildcards(r.routes) && Longest(r.routes, literal).text != ""
    requires q in r.routes && literal <= q.text && r.routes[q] != r.routes[Longest(r.routes, literal)]
    ensures Leaves(r, matches, literal, Key(q.text))
  {
    LongestOfStar(r.routes, literal);
    assert q.text[..|q.text|] == q.text;
    var p := Longest(r.routes, literal);
    assert p.text <= literal && |q.text| > 0;
    assert Longest(r.routes, q.text) == q;
  }

  lemma ReachedIfSameBeyond(r: Router, matches: (string, Key) -> bool, literal: string, k: Key)
    requires NoWildcards(r.routes) && SameBeyond(r, literal) && literal <= k.name
    ensures r.Backend(k) in r.Checked(literal + "*")
  {
    LongestOfStar(r.routes, literal);
    var p, q := Longest(r.routes, literal), Longest(r.routes, k.name);
    if p.text != "" {
      assert StartsWith(k.name, p);
      PrefixOfName(k.name, p);
      if |q.text| >= |literal| {
        PrefixesAreNested(k.name, Prefix(literal), q);
        assert literal <= q.text && q in r.routes;
      } else {
        PrefixesAreNested(k.name, q, Prefix(literal));
        PrefixOfName(literal, q);
        PrefixesAreNested(k.name, p, q);
        assert |q.text| == |p.text| && q == p;
      }
    }
  }

  /** For patterns that end in their only wildcard: every matching key is reached iff
      all routes beyond the literal lead to the backend that is checked. */
  lemma StarIsCompleteIff(r: Router, matches: (string, Key) -> bool, literal: string)
    requires NoWildcards(r.routes) && MatchesStar(matches, literal)
    ensures Reached(r, matches, literal + "*") <==> SameBeyond(r, literal)
  {
    forall k | SameBeyond(r, literal) && matches(literal + "*", k) ensures r.Backend(k) in r.Checked(literal + "*") {
      ReachedIfSameBeyond(r, matches, literal, k);
    }
    if !SameBeyond(r, literal) {
      var q :| q in r.routes && literal <= q.text && r.routes[q] != r.routes[Longest(r.routes, literal)];
      ExtensionIsLeft(r, matches, literal, q);
      assert matches(literal + "*", Key(q.text));
    }
  }

  function Nested(k: Key, v: Value): Router {
    Router(map[Prefix("a:") := BackendId(1), Prefix("a:b:") := BackendId(2)], BackendId(0),
           map[BackendId(2) := map[k := v]])
  }

  /** Two nested routes: "a:*" misses what is stored under "a:b:". */
  lemma NestedRoutesMissKeys(matches: (string, Key) -> bool, v: Value)
    requires MatchesStar(matches, "a:")
    ensures var k := Key("a:b:"); var r := Nested(k, v);
      && matches("a:*", k) && r.Lookup(k) == Some(v)
      && Invalidated(r, matches, "a:*", r.Checked("a:*")).Lookup(k) == Some(v)
  {
    var k := Key("a:b:");
    var r := Nested(k, v);
    assert "a:" + "*" == "a:*";
    assert k.name[..4] == "a:b:";
    assert Longest(r.routes, k.name) == Prefix("a:b:");
    var s := "a:*";
    assert s[..3] == "a:*" && s[..2] == "a:";
    assert Prefix("a:*") !in r.routes by {
      assert |Prefix("a:*").text| == 3;
    }
    assert LongestOf(r.routes, s, 2) == Prefix("a:");
    assert Longest(r.routes, s) == Prefix("a:");
    InvalidatedStore(r, matches, s, r.Checked(s), BackendId(2));
  }
}
