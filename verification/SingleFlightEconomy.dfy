// How often fetch_or_set runs the loader, and what its callers get.
module SingleFlightEconomy {
  import opened Basics
  import opened OrderedDict
  import opened InflightLocks
  import opened SingleFlight
  import opened SingleFlightSafety
  import opened SingleFlightTheorems

  /** What entitles fetch_or_set to load key again: the load or the set failed, the
      re-check under the lock failed into a miss, or the value went away. */
  predicate Excuse(c: Config, e: Event, key: Key) {
    match e
    case LoadFailed(k) => k == key
    case SetFailed(k) => k == key
    case ReadFaulted(k, locked, answer) => k == key && locked && answer.Miss?
    case Removed(slot) => slot == c.storeKey(key)
    case _ => false
  }

  /** There was a load of key and no excuse since the last one. */
  predicate Settled(c: Config, log: seq<Event>, key: Key) {
    log != [] &&
    var n := |log| - 1;
    log[n] == LoadStarted(key) || (!Excuse(c, log[n], key) && Settled(c, log[..n], key))
  }

  lemma SettledGrows(c: Config, log: seq<Event>, e: Event, key: Key)
    ensures Settled(c, log + [e], key) ==
      (e == LoadStarted(key) || (!Excuse(c, e, key) && Settled(c, log, key)))
  {
  }

  lemma {:induction false} UnsettledHasExcuse(c: Config, log: seq<Event>, key: Key, i: nat)
    requires i < |log| && log[i] == LoadStarted(key) && !Settled(c, log, key)
    ensures exists m :: i < m < |log| && Excuse(c, log[m], key)
    decreases |log|
  {
    var n := |log| - 1;
    if Excuse(c, log[n], key) {
    } else {
      UnsettledHasExcuse(c, log[..n], key, i);
      var m :| i < m < n && Excuse(c, log[..n][m], key);
      assert Excuse(c, log[m], key);
    }
  }

  ghost predicate ExcusedBetween(c: Config, log: seq<Event>, key: Key, i: nat, j: nat) {
    exists m :: i < m < j && m < |log| && Excuse(c, log[m], key)
  }

  ghost predicate Economical(c: Config, log: seq<Event>, key: Key) {
    forall i, j :: 0 <= i < j < |log| && log[i] == LoadStarted(key) && log[j] == LoadStarted(key) ==>
      ExcusedBetween(c, log, key, i, j)
  }

  lemma EconomicalGrows(c: Config, log: seq<Event>, e: Event, key: Key)
    requires Economical(c, log, key)
    requires e == LoadStarted(key) ==> !Settled(c, log, key)
    ensures Economical(c, log + [e], key)
  {
    var log' := log + [e];
    forall i, j | 0 <= i < j < |log'| && log'[i] == LoadStarted(key) && log'[j] == LoadStarted(key)
      ensures ExcusedBetween(c, log', key, i, j)
    {
      if j < |log| {
        assert log[i] == LoadStarted(key) && log[j] == LoadStarted(key);
        assert ExcusedBetween(c, log, key, i, j);
        var m :| i < m < j && m < |log| && Excuse(c, log[m], key);
        assert Excuse(c, log'[m], key);
      } else {
        UnsettledHasExcuse(c, log, key, i);
        var m :| i < m < |log| && Excuse(c, log[m], key);
        assert Excuse(c, log'[m], key);
      }
    }
  }

  predicate LoadsFor(s: State, t: TaskId, key: Key) {
    t in s.tasks && s.tasks[t].kind.Fetch? && s.tasks[t].key == key && s.tasks[t].InLoader()
  }

  predicate SawMiss(s: State, t: TaskId, key: Key) {
    t in s.tasks && s.tasks[t].key == key && s.tasks[t].pc.RecheckReply? && s.tasks[t].pc.reply.Miss?
  }

  ghost predicate Frugal(c: Config, s: State, key: Key) {
    && Economical(c, s.log, key)
    && (Settled(c, s.log, key) ==> c.storeKey(key) in s.store || exists t :: LoadsFor(s, t, key))
    && (forall t :: SawMiss(s, t, key) ==> !Settled(c, s.log, key))
  }

  /** A step that starts no load for key, keeps the value and the running load. */
  lemma QuietStepKeepsFrugal(c: Config, s: State, s': State, key: Key)
    requires Frugal(c, s, key) && s'.log == s.log
    requires c.storeKey(key) in s.store ==> c.storeKey(key) in s'.store
    requires forall t :: LoadsFor(s, t, key) ==> LoadsFor(s', t, key) || c.storeKey(key) in s'.store
    requires forall t :: SawMiss(s', t, key) ==> SawMiss(s, t, key) || !Settled(c, s.log, key)
    ensures Frugal(c, s', key)
  {
  }

  /** A step that notes an event. */
  lemma NotedStepKeepsFrugal(c: Config, s: State, s': State, e: Event, key: Key)
    requires Frugal(c, s, key) && s'.log == s.log + [e]
    requires e == LoadStarted(key) ==> !Settled(c, s.log, key) && exists t :: LoadsFor(s', t, key)
    requires e == LoadStarted(key) ==> forall t :: !SawMiss(s', t, key)
    requires !Excuse(c, e, key) && e != LoadStarted(key) ==>
      && (c.storeKey(key) in s.store ==> c.storeKey(key) in s'.store)
      && (forall t :: LoadsFor(s, t, key) ==> LoadsFor(s', t, key))
      && (forall t :: SawMiss(s', t, key) ==> SawMiss(s, t, key))
    ensures Frugal(c, s', key)
  {
    SettledGrows(c, s.log, e, key);
    EconomicalGrows(c, s.log, e, key);
    if !Excuse(c, e, key) && e != LoadStarted(key) && Settled(c, s.log, key) && c.storeKey(key) !in s'.store {
      var t :| LoadsFor(s, t, key);
      assert LoadsFor(s', t, key);
    }
  }

  lemma LookupKeepsFrugal(c: Config, s: State, a: Action, key: Key)
    requires Frugal(c, s, key) && Enabled(s, a) && LooksUp(s, a)
    ensures Frugal(c, Next(c, s, a), key)
  {
    var s' := Next(c, s, a);
    QuietStepKeepsFrugal(c, s, s', key);
  }

  lemma AnswerKeepsFrugal(c: Config, s: State, a: Action, key: Key)
    requires Frugal(c, s, key) && Exclusive(s) && Enabled(s, a) && a.Answer?
    ensures Frugal(c, Next(c, s, a), key)
  {
    var s' := Next(c, s, a);
    var k := s.tasks[a.t];
    if a.fault {
      NotedStepKeepsFrugal(c, s, s', ReadFaulted(k.key, k.pc.Recheck?, a.faulty), key);
    } else {
      if SawMiss(s', a.t, key) && Settled(c, s.log, key) {
        var u :| LoadsFor(s, u, key);
        assert BothInside(s, a.t, u);
      }
      QuietStepKeepsFrugal(c, s, s', key);
    }
  }

  lemma LoadStartKeepsFrugal(c: Config, s: State, a: Action, key: Key)
    requires Frugal(c, s, key) && Exclusive(s) && Enabled(s, a) && a.AfterRecheck?
    ensures Frugal(c, Next(c, s, a), key)
  {
    var s' := Next(c, s, a);
    var k := s.tasks[a.t];
    if s'.log == s.log {
      QuietStepKeepsFrugal(c, s, s', key);
    } else {
      if k.key == key {
        assert SawMiss(s, a.t, key);
        assert LoadsFor(s', a.t, key);
        forall t ensures !SawMiss(s', t, key) {
          assert SawMiss(s', t, key) ==> BothInside(s, a.t, t);
        }
      }
      NotedStepKeepsFrugal(c, s, s', LoadStarted(k.key), key);
    }
  }

  lemma OwnerKeepsFrugal(c: Config, s: State, a: Action, key: Key)
    requires Frugal(c, s, key) && Enabled(s, a)
    requires a.LoaderReturns? || a.StoreAnswers? || a.AfterStore? || a.Raise?
    ensures Frugal(c, Next(c, s, a), key)
  {
    var s' := Next(c, s, a);
    if s'.log == s.log {
      QuietStepKeepsFrugal(c, s, s', key);
    } else {
      NotedStepKeepsFrugal(c, s, s', s'.log[|s.log|], key);
    }
  }

  lemma NextKeepsFrugal(c: Config, s: State, a: Action, key: Key)
    requires Frugal(c, s, key) && Exclusive(s) && Enabled(s, a)
    ensures Frugal(c, Next(c, s, a), key)
  {
    var s' := Next(c, s, a);
    if LooksUp(s, a) {
      LookupKeepsFrugal(c, s, a, key);
    } else if a.Answer? {
      AnswerKeepsFrugal(c, s, a, key);
    } else if a.Remove? {
      NotedStepKeepsFrugal(c, s, s', Removed(a.slot), key);
    } else if a.Write? {
      NotedStepKeepsFrugal(c, s, s', Written(a.slot), key);
    } else if a.Call? || a.AfterFirst? || a.Wake? || a.CancelWait? || a.DropWait? {
      QuietStepKeepsFrugal(c, s, s', key);
    } else if a.AfterRecheck? {
      LoadStartKeepsFrugal(c, s, a, key);
    } else {
      OwnerKeepsFrugal(c, s, a, key);
    }
  }

  /** Single-flight economy: between two loader runs of fetch_or_set for a key
      something failed for that key, or its value was removed or expired. */
  lemma {:induction false} Economy(c: Config, acts: seq<Action>, key: Key)
    requires c.maxKeys >= 1 && SafeRun(c, acts)
    ensures Frugal(c, Exec(c, acts).state, key)
    decreases |acts|
  {
    if acts != [] {
      var n := |acts| - 1;
      Economy(c, acts[..n], key);
      Exclusion(c, acts[..n]);
      NextKeepsFrugal(c, Exec(c, acts[..n]).state, acts[n], key);
    }
  }

  /** The answer to t's re-check makes it start the loader. */
  predicate Reloads(c: Config, s: State, t: TaskId, fault: bool, faulty: Reply)
    requires Enabled(s, Answer(t, fault, faulty)) && s.tasks[t].pc.Recheck?
  {
    var r := Next(c, s, Answer(t, fault, faulty));
    Enabled(r, AfterRecheck(t)) && Next(c, r, AfterRecheck(t)).log == r.log + [LoadStarted(s.tasks[t].key)]
  }

  lemma ReloadsIff(c: Config, s: State, t: TaskId, fault: bool, faulty: Reply)
    requires t in s.tasks && s.tasks[t].kind.Fetch? && s.tasks[t].pc.Recheck? && LockKnown(s, t)
    requires c.storeKey(s.tasks[t].key) in s.store
    ensures Reloads(c, s, t, fault, faulty) <==> fault && faulty.Miss?
  {
  }

  lemma SettledIsCached(c: Config, s: State, t: TaskId)
    requires t in s.tasks && s.tasks[t].pc.Recheck? && Settled(c, s.log, s.tasks[t].key)
    requires Frugal(c, s, s.tasks[t].key) && Exclusive(s)
    ensures c.storeKey(s.tasks[t].key) in s.store
  {
    if c.storeKey(s.tasks[t].key) !in s.store {
      var u :| LoadsFor(s, u, s.tasks[t].key);
      assert BothInside(s, t, u);
    }
  }

  /** When the load before is not excused, the value is cached, and the loader starts
      again exactly if the re-check fails into a miss. */
  lemma UnexcusedReloadIff(c: Config, acts: seq<Action>, t: TaskId, fault: bool, faulty: Reply)
    requires c.maxKeys >= 1 && SafeRun(c, acts)
    requires var s := Exec(c, acts).state;
      t in s.tasks && s.tasks[t].kind.Fetch? && s.tasks[t].pc.Recheck? && Settled(c, s.log, s.tasks[t].key)
    ensures var s := Exec(c, acts).state;
      c.storeKey(s.tasks[t].key) in s.store && (Reloads(c, s, t, fault, faulty) <==> fault && faulty.Miss?)
  {
    var s := Exec(c, acts).state;
    Economy(c, acts, s.tasks[t].key);
    Exclusion(c, acts);
    SettledIsCached(c, s, t);
    HolderKnown(c, acts, t);
    ReloadsIff(c, s, t, fault, faulty);
  }

  lemma HolderKnown(c: Config, acts: seq<Action>, t: TaskId)
    requires c.maxKeys >= 1 && Exec(c, acts).At?
    requires t in Exec(c, acts).state.tasks && Exec(c, acts).state.tasks[t].Holds()
    ensures LockKnown(Exec(c, acts).state, t)
  {
    RunsAreSound(c, acts);
    assert TaskOk(Exec(c, acts).state, t);
  }
}
