// The memoising decorator: overlapping calls of one decorated function.
module MemoModel {
  import opened Basics

  datatype Args = Args(text: string)

  /** The function (None: it raises), the key builder (None: it raises), and
      skip_cache_on_error. */
  datatype Config = Config(f: Args -> Option<Value>, key: Args -> Option<Key>, skip: bool)

  /** sync_wrapper or _cached_call */
  datatype Kind = Sync | Async

  datatype Pc =
    | Entered
    | Running(writeTo: Option<Key>)      // about to run the function
    | Writing(writeTo: Option<Key>, value: Value)
    | Returned(value: Value)
    | Raised

  datatype Call = Call(kind: Kind, args: Args, pc: Pc, runs: nat)

  type CallId = nat

  datatype State = State(cache: map<Key, Value>, calls: map<CallId, Call>)

  const INITIAL := State(map[], map[])

  datatype Action =
    | Enter(c: CallId, kind: Kind, args: Args)
    | Read(c: CallId, fault: bool)
    | RunBody(c: CallId, condition: bool)
    | Write(c: CallId, fault: bool, applied: bool)
    | Forget(key: Key)                     // expiry, eviction, invalidation

  predicate Enabled(s: State, a: Action) {
    match a
    case Enter(c, _, _) => c !in s.calls
    case Read(c, _) => c in s.calls && s.calls[c].pc.Entered?
    case RunBody(c, _) => c in s.calls && s.calls[c].pc.Running?
    case Write(c, fault, applied) =>
      c in s.calls && s.calls[c].pc.Writing? && s.calls[c].pc.writeTo.Some? && (!fault ==> applied)
    case Forget(_) => true
  }

  /** Building the key and reading the cache.  Only the asynchronous form guards the
      building of the key, and it then gives up the write as well. */
  function AfterRead(cfg: Config, cache: map<Key, Value>, c: Call, fault: bool): Pc {
    match cfg.key(c.args)
    case None => if c.kind.Async? && cfg.skip then Running(None) else Raised
    case Some(k) =>
      if fault then
        if !cfg.skip then Raised else Running(if c.kind.Async? then None else Some(k))
      else if k in cache then Returned(cache[k])
      else Running(Some(k))
  }

  function AfterBody(cfg: Config, c: Call, condition: bool): Pc
    requires c.pc.Running?
  {
    match cfg.f(c.args)
    case None => Raised
    case Some(v) => if c.pc.writeTo.Some? && condition then Writing(c.pc.writeTo, v) else Returned(v)
  }

  function AfterWrite(cfg: Config, c: Call, fault: bool): Pc
    requires c.pc.Writing?
  {
    if fault && !cfg.skip then Raised else Returned(c.pc.value)
  }

  function Goto(s: State, c: CallId, pc: Pc): State
    requires c in s.calls
  {
    s.(calls := s.calls[c := s.calls[c].(pc := pc)])
  }

  function Next(cfg: Config, s: State, a: Action): State
    requires Enabled(s, a)
  {
    match a
    case Enter(c, kind, args) => s.(calls := s.calls[c := Call(kind, args, Entered, 0)])
    case Read(c, fault) => Goto(s, c, AfterRead(cfg, s.cache, s.calls[c], fault))
    case RunBody(c, condition) =>
      s.(calls := s.calls[c := s.calls[c].(pc := AfterBody(cfg, s.calls[c], condition), runs := s.calls[c].runs + 1)])
    case Write(c, fault, applied) =>
      var pc := s.calls[c].pc;
      Goto(if applied then s.(cache := s.cache[pc.writeTo.value := pc.value]) else s, c, AfterWrite(cfg, s.calls[c], fault))
    case Forget(k) => s.(cache := s.cache - {k})
  }

  datatype Result = At(state: State) | Impossible

  function Exec(cfg: Config, acts: seq<Action>): Result {
    if acts == [] then At(INITIAL)
    else
      var n := |acts| - 1;
      match Exec(cfg, acts[..n])
      case At(s) => if Enabled(s, acts[n]) then At(Next(cfg, s, acts[n])) else Impossible
      case Impossible => Impossible
  }
}
