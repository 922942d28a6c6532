// The wrappers as they run when no other call interleaves.
module CachedFunction {
  import opened Basics
  import opened MemoModel

  /** What goes wrong during a call, and what the condition says. */
  datatype Weather = Weather(readFault: bool, condition: bool, writeFault: bool, applied: bool)
  {
    predicate Possible() {
      !writeFault ==> applied
    }
  }

  /** The steps of one call from start to end. */
  function Steps(cfg: Config, cache: map<Key, Value>, c: CallId, kind: Kind, args: Args, w: Weather): seq<Action> {
    var call := Call(kind, args, Entered, 0);
    var first := [Enter(c, kind, args), Read(c, w.readFault)];
    var read := AfterRead(cfg, cache, call, w.readFault);
    if !read.Running? then first
    else if AfterBody(cfg, call.(pc := read), w.condition).Writing? then
      first + [RunBody(c, w.condition), Write(c, w.writeFault, w.applied)]
    else first + [RunBody(c, w.condition)]
  }

  function RunFrom(cfg: Config, s: State, acts: seq<Action>): Result
    decreases |acts|
  {
    if acts == [] then At(s)
    else if Enabled(s, acts[0]) then RunFrom(cfg, Next(cfg, s, acts[0]), acts[1..])
    else Impossible
  }

  /** A call ends in one of these, having run the function so often. */
  datatype Outcome = Outcome(cache: map<Key, Value>, end: Pc, runs: nat)

  function WholeCall(cfg: Config, cache: map<Key, Value>, kind: Kind, args: Args, w: Weather): Outcome {
    var call := Call(kind, args, Entered, 0);
    var read := AfterRead(cfg, cache, call, w.readFault);
    if !read.Running? then Outcome(cache, read, 0)
    else
      var body := AfterBody(cfg, call.(pc := read), w.condition);
      if !body.Writing? then Outcome(cache, body, 1)
      else
        Outcome(if w.applied && body.writeTo.Some? then cache[body.writeTo.value := body.value] else cache,
                AfterWrite(cfg, call.(pc := body), w.writeFault), 1)
  }

  lemma Unroll(cfg: Config, s: State, a: Action, rest: seq<Action>)
    requires Enabled(s, a)
    ensures RunFrom(cfg, s, [a] + rest) == RunFrom(cfg, Next(cfg, s, a), rest)
  {
  }

  lemma ReadSteps(cfg: Config, s: State, c: CallId, kind: Kind, args: Args, fault: bool, rest: seq<Action>)
    requires c !in s.calls
    ensures var call := Call(kind, args, Entered, 0);
      RunFrom(cfg, s, [Enter(c, kind, args)] + ([Read(c, fault)] + rest)) ==
        RunFrom(cfg, s.(calls := s.calls[c := call.(pc := AfterRead(cfg, s.cache, call, fault))]), rest)
  {
    var call := Call(kind, args, Entered, 0);
    var s1 := Next(cfg, s, Enter(c, kind, args));
    Unroll(cfg, s, Enter(c, kind, args), [Read(c, fault)] + rest);
    Unroll(cfg, s1, Read(c, fault), rest);
    assert s1.calls[c := call.(pc := AfterRead(cfg, s.cache, call, fault))] ==
      s.calls[c := call.(pc := AfterRead(cfg, s.cache, call, fault))];
  }

  lemma BodySteps(cfg: Config, s: State, calls: map<CallId, Call>, c: CallId, call: Call, w: Weather)
    requires call.pc.Running? && call.runs == 0 && s.calls == calls[c := call] && w.Possible()
    ensures var body := AfterBody(cfg, call, w.condition);
      var after := if body.Writing? && w.applied then s.cache[body.writeTo.value := body.value] else s.cache;
      var end := if body.Writing? then AfterWrite(cfg, call.(pc := body), w.writeFault) else body;
      RunFrom(cfg, s, [RunBody(c, w.condition)] + (if body.Writing? then [Write(c, w.writeFault, w.applied)] else [])) ==
        At(State(after, calls[c := call.(pc := end, runs := 1)]))
  {
    var body := AfterBody(cfg, call, w.condition);
    var rest := if body.Writing? then [Write(c, w.writeFault, w.applied)] else [];
    Unroll(cfg, s, RunBody(c, w.condition), rest);
    var s1 := Next(cfg, s, RunBody(c, w.condition));
    assert s1.calls == calls[c := call.(pc := body, runs := 1)];
    if body.Writing? {
      assert rest == [Write(c, w.writeFault, w.applied)] + [];
      Unroll(cfg, s1, Write(c, w.writeFault, w.applied), []);
    }
  }

  /** Such a call is a run of the protocol. */
  lemma WholeCallIsRun(cfg: Config, s: State, c: CallId, kind: Kind, args: Args, w: Weather)
    requires c !in s.calls && w.Possible()
    ensures var o := WholeCall(cfg, s.cache, kind, args, w);
      RunFrom(cfg, s, Steps(cfg, s.cache, c, kind, args, w)) ==
        At(State(o.cache, s.calls[c := Call(kind, args, o.end, o.runs)]))
  {
    var acts := Steps(cfg, s.cache, c, kind, args, w);
    var call := Call(kind, args, AfterRead(cfg, s.cache, Call(kind, args, Entered, 0), w.readFault), 0);
    assert acts == [acts[0]] + ([acts[1]] + acts[2..]);
    ReadSteps(cfg, s, c, kind, args, w.readFault, acts[2..]);
    if call.pc.Running? {
      assert acts[2..] == [acts[2]] + acts[3..];
      BodySteps(cfg, s.(calls := s.calls[c := call]), s.calls, c, call, w);
    }
  }

  class CachedFunction {
    const cfg: Config
    var cache: map<Key, Value>
    var bodyRuns: nat

    constructor (cfg: Config)
      ensures this.cfg == cfg && cache == map[] && bodyRuns == 0
    {
      this.cfg := cfg;
      cache, bodyRuns := map[], 0;
    }

    method Body(args: Args) returns (r: Option<Value>)
      modifies `bodyRuns
      ensures r == cfg.f(args) && bodyRuns == old(bodyRuns) + 1
    {
      bodyRuns := bodyRuns + 1;
      r := cfg.f(args);
    }

    /** The write at the end of both forms. */
    method WriteBack(key: Key, value: Value, w: Weather) returns (end: Pc)
      modifies `cache
      ensures cache == if w.applied then old(cache)[key := value] else old(cache)
      ensures end == if w.writeFault && !cfg.skip then Raised else Returned(value)
    {
      if w.applied {
        cache := cache[key := value];
      }
      if w.writeFault {
        if !cfg.skip {
          return Raised;
        }
      }
      return Returned(value);
    }

    /** sync_wrapper */
    method SyncCall(args: Args, w: Weather) returns (end: Pc)
      requires w.Possible()
      modifies this
      ensures bodyRuns >= old(bodyRuns) && Outcome(cache, end, bodyRuns - old(bodyRuns)) == WholeCall(cfg, old(cache), Sync, args, w)
    {
      var key := cfg.key(args);
      if key.None? {
        return Raised;
      }
      if w.readFault {
        if !cfg.skip {
          return Raised;
        }
      } else if key.value in cache {
        return Returned(cache[key.value]);
      }
      var result := Body(args);
      if result.None? {
        return Raised;
      }
      if w.condition {
        end := WriteBack(key.value, result.value, w);
      } else {
        end := Returned(result.value);
      }
    }

    /** _cached_call */
    method AsyncCall(args: Args, w: Weather) returns (end: Pc)
      requires w.Possible()
      modifies this
      ensures bodyRuns >= old(bodyRuns) && Outcome(cache, end, bodyRuns - old(bodyRuns)) == WholeCall(cfg, old(cache), Async, args, w)
    {
      var key := cfg.key(args);
      if key.None? || w.readFault {
        if !cfg.skip {
          return Raised;
        }
        key := None;
      } else if key.value in cache {
        return Returned(cache[key.value]);
      }
      var result := Body(args);
      if result.None? {
        return Raised;
      }
      if key.None? || !w.condition {
        return Returned(result.value);
      }
      end := WriteBack(key.value, result.value, w);
    }
  }
}
