// What each refresh task was created with, and what it does before it ends.
module SwrHistory {
  import opened Basics
  import opened SwrModel
  import opened SwrTracking

  datatype Birth = Birth(key: Key, ttl: int, delay: real)

  function FirstBirth(key: Key, ttl: int, threshold: real): Birth {
    Birth(key, ttl, ttl as real * (1.0 - threshold))
  }

  function NextBirth(b: Birth, o: Outcome): Birth {
    if !o.answer.Raises? then FirstBirth(b.key, b.ttl, o.threshold)
    else b.(delay := if b.delay >= 30.0 then 60.0 else b.delay + b.delay)
  }

  /** The call, or the step of an earlier task, that created t: the lifetime is handed
      on, and the delay is what the threshold leaves of it, or after a failure twice
      the earlier delay, a minute at most. */
  function BirthOf(acts: seq<Action>, t: TaskId): Option<Birth> {
    if acts == [] then None
    else
      var (past, a) := (acts[..|acts| - 1], acts[|acts| - 1]);
      if a.Schedule? && a.spare == t then
        Some(FirstBirth(a.key, if a.ttl == None then a.defaultTtl else a.ttl.value, a.threshold))
      else if a.Resume? && a.spare == t && BirthOf(past, a.t).Some? then Some(NextBirth(BirthOf(past, a.t).value, a.outcome))
      else BirthOf(past, t)
  }

  function BornWith(k: Task): Birth {
    Birth(k.key, k.ttl, k.delay)
  }

  ghost predicate Born(acts: seq<Action>, s: State, t: TaskId) {
    t in s.tasks ==> BirthOf(acts, t) == Some(BornWith(s.tasks[t]))
  }

  /** Only the progress and the cancellation of the tasks change, and only `spare` is
      new, if anything, born like this. */
  ghost predicate OneBirth(s: State, r: State, spare: TaskId, b: Birth) {
    && s.tasks.Keys <= r.tasks.Keys <= s.tasks.Keys + {spare}
    && (forall t :: t in s.tasks ==> BornWith(r.tasks[t]) == BornWith(s.tasks[t]))
    && (spare in r.tasks && spare !in s.tasks ==> BornWith(r.tasks[spare]) == b)
  }

  lemma CreateBirth(s: State, k: Key, spare: TaskId, delay: real, ttl: int)
    requires spare !in s.tasks
    ensures OneBirth(s, Create(s, k, spare, delay, ttl), spare, Birth(k, ttl, delay))
  {
  }

  lemma FinishBirth(s: State, r: State, t: TaskId, spare: TaskId, b: Birth)
    requires t in s.tasks && OneBirth(s, r, spare, b)
    ensures OneBirth(s, Finish(r, t), spare, b)
  {
  }

  lemma CancelBirth(s: State, k: Key, spare: TaskId, b: Birth)
    requires spare !in s.tasks
    ensures OneBirth(s, CancelRefresh(s, k), spare, b)
  {
  }

  lemma ThenBirth(s: State, m: State, r: State, spare: TaskId, b: Birth)
    requires m.tasks.Keys == s.tasks.Keys && OneBirth(s, m, spare, b) && OneBirth(m, r, spare, b)
    ensures OneBirth(s, r, spare, b)
  {
  }

  lemma ScheduleBirth(s: State, current: Option<TaskId>, k: Key, spare: TaskId, alive: bool, ttl: int, threshold: real)
    requires spare !in s.tasks
    ensures OneBirth(s, ScheduleRefresh(s, current, k, spare, alive, ttl, threshold), spare, FirstBirth(k, ttl, threshold))
  {
    if alive && !s.shutdown {
      var m := if k in s.table && current != Some(s.table[k]) then CancelRefresh(s, k) else s;
      CancelBirth(s, k, spare, FirstBirth(k, ttl, threshold));
      CreateBirth(m, k, spare, RefreshDelay(ttl, threshold), ttl);
      ThenBirth(s, m, Create(m, k, spare, RefreshDelay(ttl, threshold), ttl), spare, FirstBirth(k, ttl, threshold));
    }
  }

  lemma RetryBirth(s: State, t: TaskId, o: Outcome, spare: TaskId)
    requires t in s.tasks && spare !in s.tasks && o.answer.Raises?
    ensures OneBirth(s, Retry(s, t, spare), spare, NextBirth(BornWith(s.tasks[t]), o))
  {
    var (k, b) := (s.tasks[t], NextBirth(BornWith(s.tasks[t]), o));
    CreateBirth(s, k.key, spare, RetryDelay(k.delay), k.ttl);
    FinishBirth(s, Create(s, k.key, spare, RetryDelay(k.delay), k.ttl), t, spare, b);
  }

  lemma SucceedBirth(s: State, t: TaskId, o: Outcome, spare: TaskId)
    requires t in s.tasks && spare !in s.tasks && !o.answer.Raises?
    ensures OneBirth(s, Succeed(s, t, spare, o), spare, NextBirth(BornWith(s.tasks[t]), o))
  {
    var (k, b) := (s.tasks[t], NextBirth(BornWith(s.tasks[t]), o));
    ScheduleBirth(s, Some(t), k.key, spare, o.cacheAlive, k.ttl, o.threshold);
    FinishBirth(s, ScheduleRefresh(s, Some(t), k.key, spare, o.cacheAlive, k.ttl, o.threshold), t, spare, b);
    FinishBirth(s, s, t, spare, b);
  }

  lemma MoveBirth(s: State, t: TaskId, pc: Pc, spare: TaskId, b: Birth)
    requires t in s.tasks
    ensures OneBirth(s, Goto(s, t, pc), spare, b)
  {
  }

  lemma ResumeBirth(s: State, t: TaskId, o: Outcome, spare: TaskId)
    requires t in s.tasks && !s.tasks[t].pc.Finished? && spare !in s.tasks
    ensures OneBirth(s, Proceed(s, t, o, spare), spare, NextBirth(BornWith(s.tasks[t]), o))
  {
    var (k, b, r) := (s.tasks[t], NextBirth(BornWith(s.tasks[t]), o), Proceed(s, t, o, spare));
    if o.answer.Raises? && (k.pc.AwaitLoad? || k.pc.AwaitSet?) {
      RetryBirth(s, t, o, spare);
    } else if o.answer.Yes? && k.pc.AwaitSet? {
      SucceedBirth(s, t, o, spare);
    } else if r == Finish(s, t) {
      FinishBirth(s, s, t, spare, b);
    } else {
      assert r == Goto(s, t, r.tasks[t].pc);
      MoveBirth(s, t, r.tasks[t].pc, spare, b);
    }
  }

  lemma NextBirths(s: State, a: Action)
    requires Enabled(s, a)
    ensures if a.Schedule? then
        OneBirth(s, Next(s, a), a.spare, FirstBirth(a.key, if a.ttl == None then a.defaultTtl else a.ttl.value, a.threshold))
      else if a.Resume? then OneBirth(s, Next(s, a), a.spare, NextBirth(BornWith(s.tasks[a.t]), a.outcome))
      else Next(s, a).tasks.Keys == s.tasks.Keys && forall t :: t in s.tasks ==> BornWith(Next(s, a).tasks[t]) == BornWith(s.tasks[t])
  {
    if a.Schedule? {
      ScheduleBirth(s, None, a.key, a.spare, a.cacheAlive, ActualTtl(a.ttl, a.defaultTtl), a.threshold);
    } else if a.Resume? {
      ResumeBirth(s, a.t, a.outcome, a.spare);
      FinishBirth(s, s, a.t, a.spare, NextBirth(BornWith(s.tasks[a.t]), a.outcome));
    }
  }

  lemma BirthStep(past: seq<Action>, s: State, a: Action, t: TaskId)
    requires Enabled(s, a) && forall u :: Born(past, s, u)
    ensures Born(past + [a], Next(s, a), t)
  {
    assert (past + [a])[..|past|] == past;
    assert Born(past, s, t);
    NextBirths(s, a);
    if a.Resume? {
      assert Born(past, s, a.t);
    }
  }

  /** In every run each task has the key, the lifetime and the delay it was born with. */
  lemma {:induction false} TasksAreBorn(acts: seq<Action>, t: TaskId)
    requires Exec(acts).At?
    ensures Born(acts, Exec(acts).state, t)
    decreases |acts|
  {
    if acts != [] {
      var n := |acts| - 1;
      forall u ensures Born(acts[..n], Exec(acts[..n]).state, u) {
        TasksAreBorn(acts[..n], u);
      }
      assert acts == acts[..n] + [acts[n]];
      BirthStep(acts[..n], Exec(acts[..n]).state, acts[n], t);
    }
  }

  /** What t was told at its last await. */
  function LastOutcome(acts: seq<Action>, t: TaskId): Option<Outcome> {
    if acts == [] then None
    else if acts[|acts| - 1].Resume? && acts[|acts| - 1].t == t then Some(acts[|acts| - 1].outcome)
    else LastOutcome(acts[..|acts| - 1], t)
  }

  ghost predicate Entitled(acts: seq<Action>, s: State, t: TaskId) {
    t in s.tasks ==>
      var o := LastOutcome(acts, t);
      && (s.tasks[t].pc.AwaitLoad? ==> o.Some? && o.value.answer.Yes?)
      && (s.tasks[t].pc.AwaitSet? ==> o.Some? && !o.value.answer.Raises?)
      && (s.tasks[t].pc.AwaitLock? ==> o.Some? && o.value.cacheAlive)
  }

  ghost predicate Waits(s: State, r: State, t: TaskId) {
    t in s.tasks ==> t in r.tasks && r.tasks[t].pc == s.tasks[t].pc
  }

  lemma FinishWaits(s: State, r: State, u: TaskId, t: TaskId)
    requires u in r.tasks && u != t && Waits(s, r, t)
    ensures Waits(s, Finish(r, u), t)
  {
  }

  lemma ScheduleWaits(s: State, current: Option<TaskId>, k: Key, spare: TaskId, alive: bool, ttl: int, threshold: real, t: TaskId)
    requires spare != t
    ensures Waits(s, ScheduleRefresh(s, current, k, spare, alive, ttl, threshold), t)
    ensures s.tasks.Keys <= ScheduleRefresh(s, current, k, spare, alive, ttl, threshold).tasks.Keys
  {
  }

  lemma ProceedWaits(s: State, u: TaskId, o: Outcome, spare: TaskId, t: TaskId)
    requires u in s.tasks && !s.tasks[u].pc.Finished? && spare !in s.tasks && t in s.tasks && t != u
    ensures Waits(s, Proceed(s, u, o, spare), t)
  {
    var (k, r) := (s.tasks[u], Proceed(s, u, o, spare));
    if o.answer.Raises? && (k.pc.AwaitLoad? || k.pc.AwaitSet?) {
      FinishWaits(s, Create(s, k.key, spare, RetryDelay(k.delay), k.ttl), u, t);
    } else if o.answer.Yes? && k.pc.AwaitSet? {
      SucceedWaits(s, u, o, spare, t);
    } else if r == Finish(s, u) {
      FinishWaits(s, s, u, t);
    } else {
      assert r == Goto(s, u, r.tasks[u].pc);
    }
  }

  lemma SucceedWaits(s: State, u: TaskId, o: Outcome, spare: TaskId, t: TaskId)
    requires u in s.tasks && spare !in s.tasks && t in s.tasks && t != u
    ensures Waits(s, Succeed(s, u, spare, o), t)
  {
    ScheduleWaits(s, Some(u), s.tasks[u].key, spare, o.cacheAlive, s.tasks[u].ttl, o.threshold, t);
    FinishWaits(s, ScheduleRefresh(s, Some(u), s.tasks[u].key, spare, o.cacheAlive, s.tasks[u].ttl, o.threshold), u, t);
    FinishWaits(s, s, u, t);
  }

  lemma OtherTasksWait(s: State, a: Action, t: TaskId)
    requires Enabled(s, a) && t in s.tasks && !(a.Resume? && a.t == t)
    ensures Waits(s, Next(s, a), t)
  {
    if a.Resume? {
      ProceedWaits(s, a.t, a.outcome, a.spare, t);
      FinishWaits(s, s, a.t, t);
    } else if a.Schedule? {
      ScheduleWaits(s, None, a.key, a.spare, a.cacheAlive, ActualTtl(a.ttl, a.defaultTtl), a.threshold, t);
    }
  }

  lemma NewTasksAreFresh(s: State, a: Action, t: TaskId)
    requires Enabled(s, a) && t !in s.tasks && t in Next(s, a).tasks
    ensures Next(s, a).tasks[t].pc.Fresh?
  {
  }

  lemma EntitledStep(past: seq<Action>, s: State, a: Action, t: TaskId)
    requires Enabled(s, a) && Entitled(past, s, t)
    ensures Entitled(past + [a], Next(s, a), t)
  {
    assert (past + [a])[..|past|] == past;
    if t in Next(s, a).tasks {
      if t !in s.tasks {
        NewTasksAreFresh(s, a, t);
      } else if !(a.Resume? && a.t == t) {
        OtherTasksWait(s, a, t);
      }
    }
  }

  /** In every run a loader runs only for a key that the cache has just said it holds,
      and a value is stored only if its loader did not raise. */
  lemma {:induction false} LoadersAreEntitled(acts: seq<Action>, t: TaskId)
    requires Exec(acts).At?
    ensures Entitled(acts, Exec(acts).state, t)
    decreases |acts|
  {
    if acts != [] {
      var n := |acts| - 1;
      LoadersAreEntitled(acts[..n], t);
      assert acts == acts[..n] + [acts[n]];
      EntitledStep(acts[..n], Exec(acts[..n]).state, acts[n], t);
    }
  }

  /** A step of t creates a successor iff the loader or the set raised, or the set
      succeeded with refreshing still wanted. */
  lemma SuccessorIff(s: State, t: TaskId, o: Outcome, spare: TaskId)
    requires Sound(s) && Enabled(s, Resume(t, o, spare))
    ensures spare in Next(s, Resume(t, o, spare)).tasks <==>
      var k := s.tasks[t];
      && k.Active()
      && ((o.answer.Raises? && (k.pc.AwaitLoad? || k.pc.AwaitSet?))
          || (o.answer.Yes? && k.pc.AwaitSet? && o.swrEnabled && o.cacheAlive && !s.shutdown))
  {
    if s.tasks[t].Active() && s.tasks[t].pc.AwaitSet? {
      SucceedIsReplaceOrFinish(s, t, spare, o);
    }
  }

  /** It ends the task iff the task was cancelled, the scheduler or the cache is gone
      when it wakes, the key is gone, the loader raised, or the set has its answer; it
      waits for the lock of its key iff that is not free when it wakes. */
  lemma EndsIff(s: State, t: TaskId, o: Outcome, spare: TaskId)
    requires Sound(s) && Enabled(s, Resume(t, o, spare))
    ensures t in Next(s, Resume(t, o, spare)).tasks
    ensures Next(s, Resume(t, o, spare)).tasks[t].pc.Finished? <==>
      var k := s.tasks[t];
      || k.cancelled || k.pc.AwaitSet?
      || (k.pc.Sleeping? && (s.shutdown || !o.cacheAlive))
      || (k.pc.AwaitExists? && !o.answer.Yes?)
      || (k.pc.AwaitLoad? && o.answer.Raises?)
    ensures Next(s, Resume(t, o, spare)).tasks[t].pc.AwaitLock? <==>
      var k := s.tasks[t];
      !k.cancelled && k.pc.Sleeping? && !s.shutdown && o.cacheAlive && !o.lockFree
  {
  }

  /** The entry of k is the same in both. */
  predicate SameEntry(s: State, r: State, k: Key) {
    (k in r.table <==> k in s.table) && (k in s.table ==> k in r.table && r.table[k] == s.table[k])
  }

  ghost predicate EntryIs(s: State, r: State, t: TaskId, spare: TaskId, k: Key)
    requires t in s.tasks
  {
    if k != s.tasks[t].key then SameEntry(s, r, k)
    else if spare in r.tasks then k in r.table && r.table[k] == spare
    else if t in r.tasks && r.tasks[t].pc.Finished? && !s.tasks[t].pc.Fresh? && k in s.table && s.table[k] == t then k !in r.table
    else SameEntry(s, r, k)
  }

  lemma FinishEntry(s: State, t: TaskId, spare: TaskId, k: Key)
    requires t in s.tasks && spare !in s.tasks && !s.tasks[t].pc.Fresh?
    ensures EntryIs(s, Finish(s, t), t, spare, k)
  {
  }

  lemma GotoEntry(s: State, t: TaskId, pc: Pc, spare: TaskId, k: Key)
    requires t in s.tasks && spare !in s.tasks && (pc.Finished? ==> s.tasks[t].pc.Fresh?)
    ensures EntryIs(s, Goto(s, t, pc), t, spare, k)
  {
  }

  lemma ReplaceEntry(s: State, t: TaskId, spare: TaskId, delay: real, ttl: int, k: Key)
    requires t in s.tasks && spare !in s.tasks
    ensures EntryIs(s, Finish(Create(s, s.tasks[t].key, spare, delay, ttl), t), t, spare, k)
  {
  }

  /** A step of t touches the entry of its key only: a successor takes it over, and a
      task that ends takes its own entry along, unless it never ran. */
  lemma EntryAfterStep(s: State, t: TaskId, o: Outcome, spare: TaskId, k: Key)
    requires Sound(s) && Enabled(s, Resume(t, o, spare))
    ensures EntryIs(s, Next(s, Resume(t, o, spare)), t, spare, k)
  {
    var (a, r) := (s.tasks[t], Next(s, Resume(t, o, spare)));
    assert TaskOk(s, t);
    if a.Active() && o.answer.Raises? && (a.pc.AwaitLoad? || a.pc.AwaitSet?) {
      ReplaceEntry(s, t, spare, RetryDelay(a.delay), a.ttl, k);
    } else if a.Active() && o.answer.Yes? && a.pc.AwaitSet? {
      SucceedIsReplaceOrFinish(s, t, spare, o);
      ReplaceEntry(s, t, spare, RefreshDelay(a.ttl, o.threshold), a.ttl, k);
      FinishEntry(s, t, spare, k);
    } else if r.tasks[t].pc.Finished? && !a.pc.Fresh? {
      FinishEntry(s, t, spare, k);
    } else {
      GotoEntry(s, t, r.tasks[t].pc, spare, k);
    }
  }

  lemma Goes(acts: seq<Action>, s: State, t: TaskId, o: Outcome, spare: TaskId) returns (longer: seq<Action>)
    requires Exec(acts) == At(s) && Enabled(s, Resume(t, o, spare))
    ensures acts <= longer && Exec(longer) == At(Next(s, Resume(t, o, spare)))
  {
    longer := acts + [Resume(t, o, spare)];
    ExecSnoc(acts, Resume(t, o, spare));
  }

  /** A refresh that meets no trouble goes through all its stages. */
  lemma RefreshGoesThrough(acts: seq<Action>, t: TaskId, spare: TaskId, threshold: real) returns (longer: seq<Action>)
    requires Exec(acts).At? && !Exec(acts).state.shutdown && spare !in Exec(acts).state.tasks
    requires var s := Exec(acts).state; t in s.tasks && s.tasks[t].Active() && s.tasks[t].pc.Fresh?
    ensures acts <= longer && Exec(longer).At?
    ensures var (k, r) := (Exec(acts).state.tasks[t], Exec(longer).state);
      && t in r.tasks && r.tasks[t].pc.Finished?
      && spare in r.tasks && r.tasks[spare].Active() && r.tasks[spare].ttl == k.ttl
      && k.key in r.table && r.table[k.key] == spare
  {
    var o := Outcome(true, true, Yes, true, threshold);
    var s := Exec(acts).state;
    RunsAreSound(acts);
    assert TaskOk(s, t);
    longer := Goes(acts, s, t, o, spare);
    longer := Goes(longer, Goto(s, t, Sleeping), t, o, spare);
    longer := Goes(longer, Goto(s, t, AwaitExists), t, o, spare);
    longer := Goes(longer, Goto(s, t, AwaitLoad), t, o, spare);
    longer := Goes(longer, Goto(s, t, AwaitSet), t, o, spare);
  }
}
