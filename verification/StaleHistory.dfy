// What the backend holds and what every call answers, as functions of the events.
module StaleHistory {
  import opened Basics
  import opened StaleModel
  import opened StaleTheorems

  /** The value of the last set of k that took effect, unless k was deleted,
      invalidated, given no time to live, or lost since. */
  function Content(cfg: Config, h: seq<Event>, k: Key): Option<Value>
    decreases |h|, 0
  {
    if h == [] then None
    else
      var (past, e) := (h[..|h| - 1], h[|h| - 1]);
      if e.Set? && (e.ok || e.applied) && cfg.build(e.key) == k then Some(e.value)
      else if Loses(cfg, past, e, k) then None
      else Content(cfg, past, k)
  }

  /** What a delete of key removes: the built key, or the raw one if that is absent. */
  function Target(cfg: Config, past: seq<Event>, key: Key): Key
    decreases |past|, 1
  {
    var k := cfg.build(key);
    if Content(cfg, past, k).Some? then k else key
  }

  /** The event takes k out of the backend. */
  predicate Loses(cfg: Config, past: seq<Event>, e: Event, k: Key)
    decreases |past|, 2
  {
    || (e.Delete? && (e.ok || e.applied) && Target(cfg, past, e.key) == k)
    || (e.Expire? && e.ok && e.ttl <= 0 && cfg.build(e.key) == k)
    || (e.Invalidate? && (k in e.partial || InSome(e.groups, k)))
    || (e.Vanish? && e.key == k)
  }

  predicate InSome(groups: seq<seq<Key>>, k: Key) {
    exists i :: 0 <= i < |groups| && k in groups[i]
  }

  lemma {:induction false} UnionHasGroups(groups: seq<seq<Key>>, k: Key)
    ensures k in Union(groups) <==> InSome(groups, k)
  {
    if groups != [] {
      var n := |groups| - 1;
      UnionHasGroups(groups[..n], k);
      assert InSome(groups, k) <==> InSome(groups[..n], k) || k in groups[n] by {
        if InSome(groups[..n], k) {
          var i :| 0 <= i < n && k in groups[..n][i];
          assert k in groups[i];
        }
        if InSome(groups, k) && k !in groups[n] {
          var i :| 0 <= i <= n && k in groups[i];
          assert k in groups[..n][i];
        }
      }
    }
  }

  function Held(s: State, k: Key): Option<Value> {
    if k in s.data then Some(s.data[k]) else None
  }

  lemma StepIsContent(cfg: Config, s: State, past: seq<Event>, e: Event, k: Key)
    requires cfg.maxEntries >= 1 && forall x :: Held(s, x) == Content(cfg, past, x)
    ensures Held(Apply(cfg, s, e).0, k) ==
      if e.Set? && (e.ok || e.applied) && cfg.build(e.key) == k then Some(e.value)
      else if Loses(cfg, past, e, k) then None
      else Held(s, k)
  {
    if e.Invalidate? {
      UnionHasGroups(e.groups, k);
    } else if e.Delete? {
      assert Held(s, cfg.build(e.key)) == Content(cfg, past, cfg.build(e.key));
    }
  }

  lemma {:induction false} DataIsContent(cfg: Config, h: seq<Event>, k: Key)
    requires cfg.maxEntries >= 1
    ensures Held(Run(cfg, h), k) == Content(cfg, h, k)
    decreases |h|
  {
    if h != [] {
      var past := h[..|h| - 1];
      forall x ensures Held(Run(cfg, past), x) == Content(cfg, past, x) {
        DataIsContent(cfg, past, x);
      }
      StepIsContent(cfg, Run(cfg, past), past, h[|h| - 1], k);
    }
  }

  /** The answer to a get: the cached value while the backend works, and after a
      failure a stale value, the default or the error. */
  ghost predicate Answers(cfg: Config, h: seq<Event>, key: Key, trouble: Trouble, r: Reply) {
    match trouble
    case NoTrouble =>
      r == (match Content(cfg, h, cfg.build(key)) case Some(v) => Fresh(v) case None => Default)
    case BadPayload => r == Default
    case ConnectionLost => r.Stale? || r == Raised
    case MentionsConnect => r.Stale? || r == if cfg.fallback then Default else Raised
    case OtherError => r.Stale? || r == Raised
  }

  ghost predicate Replies(cfg: Config, h: seq<Event>, e: Event, r: Reply) {
    if e.Get? then Answers(cfg, h, e.key, e.trouble, r)
    else if e.Set? then r == Flag(e.ok && !e.degraded)
    else if e.Delete? then
      r == Flag(e.ok && (Content(cfg, h, cfg.build(e.key)).Some? || Content(cfg, h, e.key).Some?))
    else if e.Expire? then r == Flag(e.ok && Content(cfg, h, cfg.build(e.key)).Some?)
    else r == Nothing
  }

  /** Every reply, from the events alone; StaleTheorems.ServedIff says when a value is
      stale. */
  lemma RepliesAreHistory(cfg: Config, h: seq<Event>, e: Event)
    requires cfg.maxEntries >= 1
    ensures Replies(cfg, h, e, Apply(cfg, Run(cfg, h), e).1)
  {
    if e.Get? || e.Delete? || e.Expire? {
      DataIsContent(cfg, h, e.key);
      DataIsContent(cfg, h, cfg.build(e.key));
    }
  }
}
