// Pieces of runs: one more action, a caller that misses, a holder that loads.
module SingleFlightRuns {
  import opened Basics
  import opened OrderedDict
  import opened InflightLocks
  import opened SingleFlight

  lemma Step(c: Config, acts: seq<Action>, s: State, a: Action) returns (longer: seq<Action>)
    requires Exec(c, acts) == At(s) && Enabled(s, a)
    ensures longer == acts + [a] && acts <= longer && Exec(c, longer) == At(Next(c, s, a))
  {
    longer := acts + [a];
    assert longer[..|acts|] == acts;
  }

  function Missed(s: State, t: TaskId, key: Key): State {
    s.(tasks := s.tasks[t := Task(Fetch, key, FirstReply(Miss))])
  }

  /** A caller that finds nothing cached and asks for the lock. */
  lemma CallAndMiss(c: Config, acts: seq<Action>, s: State, t: TaskId, key: Key) returns (longer: seq<Action>)
    requires Exec(c, acts) == At(s) && t !in s.tasks && c.storeKey(key) !in s.store && EntryKnown(s, key)
    ensures |longer| == |acts| + 3 && acts <= longer
    ensures Exec(c, longer) ==
      At(LookUpStep(c, Missed(s, t, key), t))
  {
    longer := Step(c, acts, s, Call(t, key));
    var s1 := Next(c, s, Call(t, key));
    longer := Step(c, longer, s1, Answer(t, false, Miss));
    var s2 := Next(c, s1, Answer(t, false, Miss));
    assert s2.tasks == s.tasks[t := Task(Fetch, key, FirstReply(Miss))];
    longer := Step(c, longer, s2, AfterFirst(t, t));
  }

  /** The holder finds nothing cached either and starts the loader. */
  lemma RecheckAndLoad(c: Config, acts: seq<Action>, s: State, t: TaskId) returns (longer: seq<Action>)
    requires Exec(c, acts) == At(s) && t in s.tasks && s.tasks[t].pc.Recheck? && s.tasks[t].kind.Fetch?
    requires c.storeKey(s.tasks[t].key) !in s.store && LockKnown(s, t)
    ensures |longer| == |acts| + 2 && acts <= longer
    ensures Exec(c, longer) ==
      At(Goto(Note(s, [LoadStarted(s.tasks[t].key)]), t, Loading(s.tasks[t].pc.lock)))
  {
    longer := Step(c, acts, s, Answer(t, false, Miss));
    var s1 := Next(c, s, Answer(t, false, Miss));
    longer := Step(c, longer, s1, AfterRecheck(t));
    assert Next(c, s1, AfterRecheck(t)).tasks == s.tasks[t := s.tasks[t].(pc := Loading(s.tasks[t].pc.lock))];
  }
}
