// What is cached and how every call ends, as functions of the actions of a run.
module MemoHistory {
  import opened Basics
  import opened MemoModel

  datatype Caller = Caller(kind: Kind, args: Args)

  function CallerOf(acts: seq<Action>, c: CallId): Option<Caller> {
    if acts == [] then None
    else
      var (past, a) := (acts[..|acts| - 1], acts[|acts| - 1]);
      if a.Enter? && a.c == c then Some(Caller(a.kind, a.args)) else CallerOf(past, c)
  }

  /** The function's value for the arguments of the last call that wrote under k. */
  function Content(cfg: Config, acts: seq<Action>, k: Key): Option<Value> {
    if acts == [] then None
    else
      var (past, a) := (acts[..|acts| - 1], acts[|acts| - 1]);
      if a.Write? && a.applied && CallerOf(past, a.c).Some? && cfg.key(CallerOf(past, a.c).value.args) == Some(k) then
        cfg.f(CallerOf(past, a.c).value.args)
      else if a.Forget? && a.key == k then None
      else Content(cfg, past, k)
  }

  datatype Ending = Gives(value: Value) | Fails | Open

  /** How the read of a call ends it, if it does. */
  function AfterLooking(cfg: Config, past: seq<Action>, caller: Caller, fault: bool): Ending {
    var key := cfg.key(caller.args);
    if key.None? then if caller.kind.Async? && cfg.skip then Open else Fails
    else if fault then if cfg.skip then Open else Fails
    else if Content(cfg, past, key.value).Some? then Gives(Content(cfg, past, key.value).value)
    else Open
  }

  /** The call reaches its write: the key was built, and a failed read is forgiven to
      the synchronous form only. */
  predicate MayWrite(cfg: Config, acts: seq<Action>, c: CallId) {
    acts != [] &&
    var (past, a) := (acts[..|acts| - 1], acts[|acts| - 1]);
    if a.Read? && a.c == c then
      CallerOf(past, c).Some? && cfg.key(CallerOf(past, c).value.args).Some? && (a.fault ==> CallerOf(past, c).value.kind.Sync?)
    else MayWrite(cfg, past, c)
  }

  predicate Concerns(a: Action, c: CallId) {
    !a.Forget? && a.c == c
  }

  function Ended(cfg: Config, acts: seq<Action>, c: CallId): Ending {
    if acts == [] then Open
    else
      var (past, a) := (acts[..|acts| - 1], acts[|acts| - 1]);
      if !Concerns(a, c) then Ended(cfg, past, c)
      else if a.Enter? || CallerOf(past, c).None? then Open
      else
        var caller := CallerOf(past, c).value;
        if a.Read? then AfterLooking(cfg, past, caller, a.fault)
        else if cfg.f(caller.args).None? then Fails
        else if a.RunBody? then if a.condition && MayWrite(cfg, past, c) then Open else Gives(cfg.f(caller.args).value)
        else if a.fault && !cfg.skip then Fails
        else Gives(cfg.f(caller.args).value)
  }

  function EndOf(pc: Pc): Ending {
    match pc
    case Returned(v) => Gives(v)
    case Raised => Fails
    case _ => Open
  }

  ghost predicate CallTold(cfg: Config, acts: seq<Action>, s: State, c: CallId) {
    c in s.calls ==>
      var call := s.calls[c];
      && CallerOf(acts, c) == Some(Caller(call.kind, call.args))
      && EndOf(call.pc) == Ended(cfg, acts, c)
      && (call.pc.Running? ==> call.pc.writeTo == if MayWrite(cfg, acts, c) then cfg.key(call.args) else None)
      && (call.pc.Writing? ==> call.pc.writeTo == cfg.key(call.args) && cfg.f(call.args) == Some(call.pc.value))
      && (MayWrite(cfg, acts, c) ==> cfg.key(call.args).Some?)
  }

  function Cached(s: State, k: Key): Option<Value> {
    if k in s.cache then Some(s.cache[k]) else None
  }

  ghost predicate Told(cfg: Config, acts: seq<Action>, s: State) {
    && (forall c :: CallTold(cfg, acts, s, c))
    && (forall k :: Cached(s, k) == Content(cfg, acts, k))
    && (forall c :: c !in s.calls ==> !MayWrite(cfg, acts, c))
  }

  lemma CallStep(cfg: Config, past: seq<Action>, s: State, a: Action, c: CallId)
    requires Told(cfg, past, s) && Enabled(s, a)
    ensures CallTold(cfg, past + [a], Next(cfg, s, a), c)
    ensures c !in Next(cfg, s, a).calls ==> !MayWrite(cfg, past + [a], c)
  {
    assert (past + [a])[..|past|] == past;
    assert CallTold(cfg, past, s, c);
    if a.Read? && a.c == c && cfg.key(s.calls[c].args).Some? {
      var k := cfg.key(s.calls[c].args).value;
      assert Cached(s, k) == Content(cfg, past, k);
    }
  }

  lemma CacheStep(cfg: Config, past: seq<Action>, s: State, a: Action, k: Key)
    requires Told(cfg, past, s) && Enabled(s, a)
    ensures Cached(Next(cfg, s, a), k) == Content(cfg, past + [a], k)
  {
    assert (past + [a])[..|past|] == past;
    assert Cached(s, k) == Content(cfg, past, k);
    if a.Write? {
      assert CallTold(cfg, past, s, a.c);
    }
  }

  lemma {:induction false} RunIsTold(cfg: Config, acts: seq<Action>)
    requires Exec(cfg, acts).At?
    ensures Told(cfg, acts, Exec(cfg, acts).state)
  {
    if acts != [] {
      var n := |acts| - 1;
      var (past, s, a) := (acts[..n], Exec(cfg, acts[..n]).state, acts[n]);
      RunIsTold(cfg, past);
      assert acts == past + [a];
      forall c ensures CallTold(cfg, acts, Next(cfg, s, a), c) && (c !in Next(cfg, s, a).calls ==> !MayWrite(cfg, acts, c)) {
        CallStep(cfg, past, s, a, c);
      }
      forall k ensures Cached(Next(cfg, s, a), k) == Content(cfg, acts, k) {
        CacheStep(cfg, past, s, a, k);
      }
    }
  }

  /** In every run a call has returned or raised exactly as its actions say: a value
      that is cached when it looks is used, and a cache failure is skipped if the
      decorator was told to. */
  lemma CallsEndAsTold(cfg: Config, acts: seq<Action>, c: CallId)
    requires Exec(cfg, acts).At? && c in Exec(cfg, acts).state.calls
    ensures EndOf(Exec(cfg, acts).state.calls[c].pc) == Ended(cfg, acts, c)
  {
    RunIsTold(cfg, acts);
    assert CallTold(cfg, acts, Exec(cfg, acts).state, c);
  }

  /** What is cached is what the last call that wrote there got from the function. */
  lemma CacheIsHistory(cfg: Config, acts: seq<Action>, k: Key)
    requires Exec(cfg, acts).At?
    ensures Cached(Exec(cfg, acts).state, k) == Content(cfg, acts, k)
  {
    RunIsTold(cfg, acts);
  }
}
