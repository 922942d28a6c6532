// YokedCache.get, set, delete, expire and the invalidations, as far as they concern
// the stale store: a bounded, ordered memory of successful sets, served when the
// backend fails.  How the backend answers is part of each event.
module StaleModel {
  import opened Basics
  import opened OrderedDict

  type Time = real

  /** staleTtl <= 0 means no age limit; build is _build_key. */
  datatype Config = Config(
    staleIfError: bool,
    staleWhileRevalidate: bool,
    fallback: bool,
    staleTtl: real,
    maxEntries: nat,
    build: Key -> Key)
  {
    predicate Records() {
      staleIfError || staleWhileRevalidate
    }
  }

  datatype Entry = Entry(value: Value, storedAt: Time)

  type Store = Dict<Key, Entry>

  /** data is what the backend holds. */
  datatype State = State(stale: Store, data: map<Key, Value>)

  const INITIAL := State(Dict([], map[]), map[])

  datatype Trouble =
    | NoTrouble
    | BadPayload       // the payload cannot be deserialised
    | ConnectionLost   // a CacheConnectionError
    | MentionsConnect  // another error whose text mentions a connection
    | OtherError

  predicate Fails(x: Trouble) {
    x.ConnectionLost? || x.MentionsConnect? || x.OtherError?
  }

  /** A failing operation may have taken effect all the same, or in part. */
  datatype Event =
    | Get(key: Key, trouble: Trouble, now: Time)
    | Set(key: Key, value: Value, ok: bool, applied: bool, degraded: bool, now: Time)
    | Delete(key: Key, ok: bool, applied: bool)
    | Expire(key: Key, ttl: int, ok: bool)
    | Invalidate(groups: seq<seq<Key>>, partial: seq<Key>)   // the groups done, and keys deleted before a failure
    | Vanish(key: Key)                                         // the entry expires in the backend

  datatype Reply = Fresh(value: Value) | Stale(value: Value) | Default | Raised | Flag(b: bool) | Nothing

  function PopFront(d: Store): (r: Store)
    requires d.order != []
    ensures |r.order| == |d.order| - 1
  {
    Dict(d.order[1..], d.vals - {d.order[0]})
  }

  /** while len(store) >= max: store.popitem(last=False) */
  function Shrunk(d: Store, max: nat): (r: Store)
    requires max >= 1
    ensures |r.order| < max
    decreases |d.order|
  {
    if |d.order| < max then d else Shrunk(PopFront(d), max)
  }

  function Recorded(d: Store, k: Key, e: Entry, max: nat): Store
    requires max >= 1
  {
    if k in d.vals then d.MoveToEnd(k).Put(k, e) else Shrunk(d, max).Put(k, e)
  }

  /** pop(k, None) for each key */
  function Popped(d: Store, keys: set<Key>): Store {
    Dict(Without(d.order, keys), d.vals - keys)
  }

  function ToSet(keys: seq<Key>): set<Key> {
    set k | k in keys
  }

  function Union(groups: seq<seq<Key>>): set<Key> {
    if groups == [] then {} else Union(groups[..|groups| - 1]) + ToSet(groups[|groups| - 1])
  }

  predicate Servable(cfg: Config, s: State, k: Key, now: Time) {
    && cfg.staleIfError && k in s.stale.vals
    && (cfg.staleTtl <= 0.0 || now - s.stale.vals[k].storedAt <= cfg.staleTtl)
  }

  function Apply(cfg: Config, s: State, e: Event): (State, Reply)
    requires cfg.maxEntries >= 1
  {
    match e
    case Get(key, trouble, now) =>
      var k := cfg.build(key);
      if Fails(trouble) then
        (s, if Servable(cfg, s, k, now) then Stale(s.stale.vals[k].value)
            else if trouble.MentionsConnect? && cfg.fallback then Default
            else Raised)
      else if k !in s.data then (s.(stale := Popped(s.stale, {k})), Default)
      else if trouble.BadPayload? then (s, Default)
      else (s, Fresh(s.data[k]))
    case Set(key, v, ok, applied, degraded, now) =>
      var k := cfg.build(key);
      var s1 := if applied || ok then s.(data := s.data[k := v]) else s;
      (if ok && cfg.Records() then s1.(stale := Recorded(s1.stale, k, Entry(v, now), cfg.maxEntries)) else s1,
       Flag(ok && !degraded))
    case Delete(key, ok, applied) =>
      var k := cfg.build(key);
      var gone := if k in s.data then {k} else {key};
      if !ok then (if applied then s.(data := s.data - gone) else s, Flag(false))
      else if k in s.data || key in s.data then (State(Popped(s.stale, {k, key}), s.data - gone), Flag(true))
      else (s, Flag(false))
    case Expire(key, ttl, ok) =>
      var k := cfg.build(key);
      if !ok || k !in s.data then (s, Flag(false))
      else (State(if ttl < 10 then Popped(s.stale, {k}) else s.stale, if ttl <= 0 then s.data - {k} else s.data), Flag(true))
    case Invalidate(groups, partial) =>
      (State(Popped(s.stale, Union(groups)), s.data - Union(groups) - ToSet(partial)), Nothing)
    case Vanish(k) => (s.(data := s.data - {k}), Nothing)
  }

  function Run(cfg: Config, h: seq<Event>): State
    requires cfg.maxEntries >= 1
  {
    if h == [] then INITIAL else Apply(cfg, Run(cfg, h[..|h| - 1]), h[|h| - 1]).0
  }

  /** The event takes k out of the stale store: the backend said that k is gone, or k
      was deleted, invalidated, or given less than ten seconds. */
  predicate Pops(cfg: Config, s: State, e: Event, k: Key) {
    match e
    case Get(key, trouble, _) => cfg.build(key) == k && !Fails(trouble) && k !in s.data
    case Delete(key, ok, _) =>
      ok && (cfg.build(key) in s.data || key in s.data) && (cfg.build(key) == k || key == k)
    case Expire(key, ttl, ok) => cfg.build(key) == k && ok && k in s.data && ttl < 10
    case Invalidate(groups, _) => k in Union(groups)
    case Set(_, _, _, _, _, _) => false
    case Vanish(_) => false
  }

  predicate SetsOk(cfg: Config, e: Event, k: Key) {
    e.Set? && e.ok && (cfg.staleIfError || cfg.staleWhileRevalidate) && cfg.build(e.key) == k
  }

  /** The last successful set of k, unless k was popped since: what an unbounded
      store would hold. */
  function LastSet(cfg: Config, h: seq<Event>, k: Key): Option<Entry>
    requires cfg.maxEntries >= 1
  {
    if h == [] then None
    else
      var n := |h| - 1;
      if SetsOk(cfg, h[n], k) then Some(Entry(h[n].value, h[n].now))
      else if Pops(cfg, Run(cfg, h[..n]), h[n], k) then None
      else LastSet(cfg, h[..n], k)
  }

  /** The other keys set successfully since the last successful set of k. */
  function OthersSince(cfg: Config, h: seq<Event>, k: Key): set<Key> {
    if h == [] then {}
    else
      var n := |h| - 1;
      if SetsOk(cfg, h[n], k) then {}
      else if h[n].Set? && h[n].ok && (cfg.staleIfError || cfg.staleWhileRevalidate) then OthersSince(cfg, h[..n], k) + {cfg.build(h[n].key)}
      else OthersSince(cfg, h[..n], k)
  }
}
