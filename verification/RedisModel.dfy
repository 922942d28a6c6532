// RedisBackend over a timed store: string keys with an expiry, tag sets with an
// expiry of their own, whole seconds.  Keys and tag keys are already built.
module RedisModel {
  import opened Basics

  datatype Item = Item(value: Value, deadline: int)

  /** A tag set; no deadline means that it persists. */
  datatype TagSet = TagSet(members: set<Key>, deadline: Option<int>)

  datatype Db = Db(data: map<Key, Item>, sets: map<Tag, TagSet>, now: int)
  {
    predicate Live(k: Key) {
      k in data && now < data[k].deadline
    }

    predicate HasSet(t: Tag) {
      t in sets && (sets[t].deadline.None? || now < sets[t].deadline.value)
    }

    /** SMEMBERS */
    function Members(t: Tag): set<Key> {
      if HasSet(t) then sets[t].members else {}
    }

    /** TTL: -2 without the set, -1 without an expiry. */
    function Ttl(t: Tag): int {
      if !HasSet(t) then -2
      else if sets[t].deadline.None? then -1
      else sets[t].deadline.value - now
    }

    function LiveAmong(keys: set<Key>): set<Key> {
      set k | k in keys && Live(k)
    }

    /** DEL of data keys */
    function Del(keys: set<Key>): Db {
      Db(data - keys, sets, now)
    }
  }

  /** The commands a pipeline queues. */
  datatype Command =
    | SetEx(key: Key, value: Value, seconds: int)
    | SAdd(tag: Tag, key: Key)
    | ExpireSet(tag: Tag, seconds: int)

  function Exec(db: Db, c: Command): Db {
    match c
    case SetEx(k, v, s) => db.(data := db.data[k := Item(v, db.now + s)])
    case SAdd(t, k) =>
      db.(sets := db.sets[t := if db.HasSet(t) then TagSet(db.sets[t].members + {k}, db.sets[t].deadline)
                               else TagSet({k}, None)])
    case ExpireSet(t, s) =>
      if !db.HasSet(t) then db
      else if s <= 0 then db.(sets := db.sets - {t})
      else db.(sets := db.sets[t := TagSet(db.sets[t].members, Some(db.now + s))])
  }

  function ExecAll(db: Db, pipe: seq<Command>): Db {
    if pipe == [] then db else Exec(ExecAll(db, pipe[..|pipe| - 1]), pipe[|pipe| - 1])
  }

  lemma ExecSnoc(db: Db, pipe: seq<Command>, c: Command)
    ensures ExecAll(db, pipe + [c]) == Exec(ExecAll(db, pipe), c)
  {
  }

  const TAG_GRACE := 60

  /** The tag set after key k with this lifetime joined it: it never loses time. */
  function Joined(db: Db, t: Tag, k: Key, ttl: int): TagSet {
    TagSet(db.Members(t) + {k},
           if !db.HasSet(t) then Some(db.now + ttl + TAG_GRACE)
           else if db.sets[t].deadline.None? then None
           else Some(Later(db.sets[t].deadline.value, db.now + ttl + TAG_GRACE)))
  }

  function Later(a: int, b: int): int {
    if a > b then a else b
  }

  function JoinedSets(db: Db, tags: set<Tag>, k: Key, ttl: int): (r: map<Tag, TagSet>)
    ensures forall t :: t in r <==> t in db.sets || t in tags
    ensures forall t :: t in r ==> r[t] == if t in tags then Joined(db, t, k, ttl) else db.sets[t]
  {
    map t | t in db.sets.Keys + tags :: if t in tags then Joined(db, t, k, ttl) else db.sets[t]
  }

  /** YokedCache.set instead resets the expiry whatever it was. */
  function ResetSets(db: Db, tags: set<Tag>, k: Key, ttl: int): (r: map<Tag, TagSet>)
    ensures forall t :: t in r <==> t in db.sets || t in tags
    ensures forall t :: t in r ==>
      r[t] == if t in tags then TagSet(db.Members(t) + {k}, Some(db.now + ttl + TAG_GRACE)) else db.sets[t]
  {
    map t | t in db.sets.Keys + tags ::
      if t in tags then TagSet(db.Members(t) + {k}, Some(db.now + ttl + TAG_GRACE)) else db.sets[t]
  }

  function ListedIn(db: Db, tags: set<Tag>): set<Key> {
    set t, k | t in tags && k in db.Members(t) :: k
  }

  function Dropped(db: Db, tags: set<Tag>): set<Tag> {
    set t | t in tags && db.Members(t) != {}
  }

  /** How a command ends: answered, failed without effect, or with an effect whose
      answer was lost. */
  datatype Fate = Done | Refused | Unheard

  datatype Op =
    | Set(key: Key, value: Value, ttl: int, jitter: int, tags: set<Tag>, fate: Fate)
    | ResettingSet(key: Key, value: Value, seconds: int, tags: set<Tag>)   // YokedCache.set
    | Get(key: Key, fate: Fate, readable: bool)   // readable: the payload can be decoded
    | Delete(key: Key, fate: Fate)
    | Expire(key: Key, seconds: int, fate: Fate)
    | InvalidateTags(tags: set<Tag>)
    | InvalidateMatching(matches: Key -> bool)   // patterns over data keys
    | DeletePart(keys: set<Key>)   // a chunk of an invalidation that fails or is still under way
    | DropSet(tag: Tag)            // the DEL of a tag set whose members were read earlier
    | Tick(elapsed: nat)

  datatype Reply = Found(value: Value) | Absent | Flag(b: bool) | Count(n: nat) | Raised | Nothing

  function Matching(db: Db, matches: Key -> bool): set<Key> {
    set k | k in db.data && db.Live(k) && matches(k)
  }

  function Expired(db: Db, k: Key, seconds: int): Db {
    if !db.Live(k) then db
    else if seconds <= 0 then db.Del({k})
    else db.(data := db.data[k := db.data[k].(deadline := db.now + seconds)])
  }

  function Apply(db: Db, op: Op): (Db, Reply) {
    match op
    case Set(k, v, ttl, jitter, tags, fate) =>
      var seconds := EffectiveTtl(ttl, jitter);
      (if fate.Refused? then db
       else Db(db.data[k := Item(v, db.now + seconds)], JoinedSets(db, tags, k, seconds), db.now),
       Flag(fate.Done?))
    case ResettingSet(k, v, seconds, tags) =>
      (Db(db.data[k := Item(v, db.now + seconds)], ResetSets(db, tags, k, seconds), db.now), Flag(true))
    case Get(k, fate, readable) =>
      (db, if fate.Done? && db.Live(k) && readable then Found(db.data[k].value) else Absent)
    case Delete(k, fate) => (if fate.Refused? then db else db.Del({k}), Flag(fate.Done? && db.Live(k)))
    case Expire(k, seconds, fate) =>
      (if fate.Refused? then db else Expired(db, k, seconds), Flag(fate.Done? && db.Live(k)))
    case InvalidateTags(tags) =>
      (Db(db.data - ListedIn(db, tags), db.sets - Dropped(db, tags), db.now),
       Count(|db.LiveAmong(ListedIn(db, tags))|))
    case InvalidateMatching(p) => (db.Del(Matching(db, p)), Count(|Matching(db, p)|))
    case DeletePart(keys) => (db.Del(keys), Nothing)
    case DropSet(t) => (db.(sets := db.sets - {t}), Nothing)
    case Tick(s) => (db.(now := db.now + s), Nothing)
  }

  const EMPTY := Db(map[], map[], 0)

  function Run(db: Db, ops: seq<Op>): Db {
    if ops == [] then db else Apply(Run(db, ops[..|ops| - 1]), ops[|ops| - 1]).0
  }

  lemma RunSnoc(db: Db, ops: seq<Op>, op: Op)
    ensures Run(db, ops + [op]) == Apply(Run(db, ops), op).0
  {
  }
}
