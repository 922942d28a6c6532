// A memoised call returns what the function returns.
module MemoTheorems {
  import opened Basics
  import opened MemoModel

  /** The key builder merges no two arguments with different outcomes. */
  ghost predicate KeysSeparate(cfg: Config) {
    forall a, b :: Merged(cfg, a, b) ==> cfg.f(a) == cfg.f(b)
  }

  predicate Merged(cfg: Config, a: Args, b: Args) {
    cfg.key(a).Some? && cfg.key(a) == cfg.key(b)
  }

  /** The cached value is the function's for some arguments with this key. */
  ghost predicate CacheOk(cfg: Config, s: State, k: Key) {
    k in s.cache ==> exists a :: Owns(cfg, a, k, s.cache[k])
  }

  predicate Owns(cfg: Config, a: Args, k: Key, v: Value) {
    cfg.key(a) == Some(k) && cfg.f(a) == Some(v)
  }

  /** A call never runs the function twice, and returns the function's own value. */
  predicate CallOk(cfg: Config, c: Call) {
    match c.pc
    case Entered => c.runs == 0
    case Running(w) => c.runs == 0 && (w.Some? ==> cfg.key(c.args) == w)
    case Writing(w, v) => c.runs == 1 && cfg.f(c.args) == Some(v) && w.Some? && cfg.key(c.args) == w
    case Returned(v) => c.runs <= 1 && cfg.f(c.args) == Some(v)
    case Raised => c.runs <= 1
  }

  ghost predicate Transparent(cfg: Config, s: State) {
    forall c :: c in s.calls ==> CallOk(cfg, s.calls[c])
  }

  ghost predicate Sound(cfg: Config, s: State) {
    Transparent(cfg, s) && forall k :: CacheOk(cfg, s, k)
  }

  lemma ReadKeeps(cfg: Config, s: State, c: CallId, fault: bool)
    requires KeysSeparate(cfg) && Sound(cfg, s) && Enabled(s, Read(c, fault))
    ensures CallOk(cfg, Next(cfg, s, Read(c, fault)).calls[c])
  {
    var k := cfg.key(s.calls[c].args);
    assert CallOk(cfg, s.calls[c]);
    if k.Some? && !fault && k.value in s.cache {
      assert CacheOk(cfg, s, k.value);
      var a :| Owns(cfg, a, k.value, s.cache[k.value]);
      assert Merged(cfg, a, s.calls[c].args);
    }
  }

  lemma CacheKeeps(cfg: Config, s: State, a: Action, k: Key)
    requires Sound(cfg, s) && Enabled(s, a)
    ensures CacheOk(cfg, Next(cfg, s, a), k)
  {
    assert CacheOk(cfg, s, k);
    if a.Write? {
      assert CallOk(cfg, s.calls[a.c]);
      assert Owns(cfg, s.calls[a.c].args, s.calls[a.c].pc.writeTo.value, s.calls[a.c].pc.value);
    }
  }

  lemma NextKeepsSound(cfg: Config, s: State, a: Action)
    requires KeysSeparate(cfg) && Sound(cfg, s) && Enabled(s, a)
    ensures Sound(cfg, Next(cfg, s, a))
  {
    var r := Next(cfg, s, a);
    forall k ensures CacheOk(cfg, r, k) {
      CacheKeeps(cfg, s, a, k);
    }
    forall c | c in r.calls ensures CallOk(cfg, r.calls[c]) {
      if c in s.calls {
        assert CallOk(cfg, s.calls[c]);
      }
      if a.Read? && c == a.c {
        ReadKeeps(cfg, s, c, a.fault);
      }
    }
  }

  lemma {:induction false} RunsAreSound(cfg: Config, acts: seq<Action>)
    requires KeysSeparate(cfg) && Exec(cfg, acts).At?
    ensures Sound(cfg, Exec(cfg, acts).state)
  {
    if acts != [] {
      var n := |acts| - 1;
      RunsAreSound(cfg, acts[..n]);
      NextKeepsSound(cfg, Exec(cfg, acts[..n]).state, acts[n]);
    }
  }

  lemma ExecSnoc(cfg: Config, acts: seq<Action>, a: Action)
    requires Exec(cfg, acts).At? && Enabled(Exec(cfg, acts).state, a)
    ensures Exec(cfg, acts + [a]) == At(Next(cfg, Exec(cfg, acts).state, a))
  {
  }

  /** Calls that fill the cache for a, ... */
  function Fill(a: Args): seq<Action> {
    [Enter(0, Sync, a)] + [Read(0, false)] + [RunBody(0, true)] + [Write(0, false, true)]
  }

  lemma FillFills(cfg: Config, a: Args)
    requires cfg.key(a).Some? && cfg.f(a).Some?
    ensures Exec(cfg, Fill(a)).At?
    ensures var s := Exec(cfg, Fill(a)).state;
      && s.cache == map[cfg.key(a).value := cfg.f(a).value] && s.calls.Keys == {0}
  {
    ExecSnoc(cfg, [], Enter(0, Sync, a));
    assert [] + [Enter(0, Sync, a)] == [Enter(0, Sync, a)];
    ExecSnoc(cfg, [Enter(0, Sync, a)], Read(0, false));
    ExecSnoc(cfg, [Enter(0, Sync, a)] + [Read(0, false)], RunBody(0, true));
    ExecSnoc(cfg, [Enter(0, Sync, a)] + [Read(0, false)] + [RunBody(0, true)], Write(0, false, true));
  }

  /** ... and then answer a call with b. */
  function FillAndAsk(a: Args, b: Args): seq<Action> {
    Fill(a) + [Enter(1, Sync, b)] + [Read(1, false)]
  }

  lemma MergedKeysShow(cfg: Config, a: Args, b: Args)
    requires Merged(cfg, a, b) && cfg.f(a).Some? && cfg.f(a) != cfg.f(b)
    ensures Exec(cfg, FillAndAsk(a, b)).At? && !Transparent(cfg, Exec(cfg, FillAndAsk(a, b)).state)
  {
    FillFills(cfg, a);
    ExecSnoc(cfg, Fill(a), Enter(1, Sync, b));
    ExecSnoc(cfg, Fill(a) + [Enter(1, Sync, b)], Read(1, false));
    var s := Exec(cfg, FillAndAsk(a, b)).state;
    assert s.calls[1].pc == Returned(cfg.f(a).value);
    assert !CallOk(cfg, s.calls[1]);
  }

  ghost predicate AlwaysTransparent(cfg: Config) {
    forall acts :: TransparentAfter(cfg, acts)
  }

  ghost predicate TransparentAfter(cfg: Config, acts: seq<Action>) {
    Exec(cfg, acts).At? ==> Transparent(cfg, Exec(cfg, acts).state)
  }

  /** Memoisation is transparent, under any overlap of calls and any mix of expiry,
      unmet conditions and cache failures, exactly if the keys separate arguments
      with different outcomes. */
  lemma TransparentIff(cfg: Config)
    ensures AlwaysTransparent(cfg) <==> KeysSeparate(cfg)
  {
    if KeysSeparate(cfg) {
      forall acts ensures TransparentAfter(cfg, acts) {
        if Exec(cfg, acts).At? {
          RunsAreSound(cfg, acts);
        }
      }
    } else {
      var a, b :| Merged(cfg, a, b) && cfg.f(a) != cfg.f(b);
      if cfg.f(a).Some? {
        MergedKeysShow(cfg, a, b);
        assert !TransparentAfter(cfg, FillAndAsk(a, b));
      } else {
        MergedKeysShow(cfg, b, a);
        assert !TransparentAfter(cfg, FillAndAsk(b, a));
      }
    }
  }

  /** The body runs at most once per call, whatever the keys. */
  lemma {:induction false} BodyRunsAtMostOnce(cfg: Config, acts: seq<Action>, c: CallId)
    requires Exec(cfg, acts).At? && c in Exec(cfg, acts).state.calls
    ensures var call := Exec(cfg, acts).state.calls[c];
      call.runs <= 1 && (call.pc.Entered? || call.pc.Running? ==> call.runs == 0)
  {
    if acts != [] {
      var n := |acts| - 1;
      if c in Exec(cfg, acts[..n]).state.calls {
        BodyRunsAtMostOnce(cfg, acts[..n], c);
      }
    }
  }
}
