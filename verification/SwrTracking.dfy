// Which refresh tasks the scheduler knows about, and what stop() leaves behind.
module SwrTracking {
  import opened Basics
  import opened SwrModel

  /** The entry of key k, if there is one, is a task for k. */
  ghost predicate EntryOk(s: State, k: Key) {
    k in s.table ==> s.table[k] in s.tasks && s.tasks[s.table[k]].key == k
  }

  /** An active task is exactly the one recorded for its key. */
  ghost predicate TaskOk(s: State, t: TaskId) {
    t in s.tasks && s.tasks[t].Active() ==> s.tasks[t].key in s.table && s.table[s.tasks[t].key] == t
  }

  ghost predicate Tracked(s: State) {
    (forall k :: EntryOk(s, k)) && (forall t :: TaskOk(s, t))
  }

  /** Before stop() has cancelled them, the recorded tasks are all active. */
  ghost predicate EntriesActive(s: State) {
    forall k :: k in s.table && s.table[k] in s.tasks ==> s.tasks[s.table[k]].Active()
  }

  ghost predicate NobodyActive(s: State) {
    forall t :: t in s.tasks ==> !s.tasks[t].Active()
  }

  ghost predicate PhaseOk(s: State) {
    && (s.shutdown <==> !s.phase.Running?)
    && (s.phase.Running? || s.phase.Stopping? ==> EntriesActive(s))
    && (s.phase.Gathering? || s.phase.Stopped? ==> NobodyActive(s))
    && (s.phase.Gathering? ==> s.table.Values <= s.phase.waiting)
    && (s.phase.Stopped? ==> s.table == map[])
  }

  ghost predicate Sound(s: State) {
    Tracked(s) && PhaseOk(s)
  }

  lemma CancelKeepsTracked(s: State, k: Key)
    requires Tracked(s)
    ensures Tracked(CancelRefresh(s, k))
    ensures EntriesActive(s) ==> EntriesActive(CancelRefresh(s, k))
    ensures NobodyActive(s) ==> NobodyActive(CancelRefresh(s, k))
  {
    var r := CancelRefresh(s, k);
    forall x ensures EntryOk(r, x) {
      assert EntryOk(s, x);
    }
    forall t ensures TaskOk(r, t) {
      assert TaskOk(s, t);
    }
    forall x | EntriesActive(s) && x in r.table && r.table[x] in r.tasks ensures r.tasks[r.table[x]].Active() {
      assert EntryOk(s, x) && EntryOk(s, k);
    }
  }

  /** Creating a task for k is safe once no other active task is left for k. */
  lemma CreateKeepsTracked(s: State, k: Key, spare: TaskId, delay: real, ttl: int)
    requires Tracked(s) && spare !in s.tasks && k !in s.table
    ensures Tracked(Create(s, k, spare, delay, ttl))
    ensures EntriesActive(s) ==> EntriesActive(Create(s, k, spare, delay, ttl))
  {
    var r := Create(s, k, spare, delay, ttl);
    forall x ensures EntryOk(r, x) {
      assert EntryOk(s, x);
    }
    forall t ensures TaskOk(r, t) {
      assert TaskOk(s, t);
    }
    forall x | EntriesActive(s) && x in r.table && r.table[x] in r.tasks ensures r.tasks[r.table[x]].Active() {
      assert EntryOk(s, x);
    }
  }

  lemma MoveKeepsTracked(s: State, t: TaskId, pc: Pc)
    requires Tracked(s) && t in s.tasks && !s.tasks[t].pc.Finished? && !pc.Finished?
    ensures Tracked(Goto(s, t, pc))
    ensures EntriesActive(s) ==> EntriesActive(Goto(s, t, pc))
    ensures NobodyActive(s) ==> NobodyActive(Goto(s, t, pc))
  {
    var r := Goto(s, t, pc);
    forall x ensures EntryOk(r, x) {
      assert EntryOk(s, x);
    }
    forall u ensures TaskOk(r, u) {
      assert TaskOk(s, u);
    }
  }

  lemma FinishKeepsTracked(s: State, t: TaskId)
    requires Tracked(s) && t in s.tasks
    ensures Tracked(Finish(s, t))
    ensures EntriesActive(s) ==> EntriesActive(Finish(s, t))
    ensures NobodyActive(s) ==> NobodyActive(Finish(s, t))
  {
    var r := Finish(s, t);
    forall x ensures EntryOk(r, x) {
      assert EntryOk(s, x);
    }
    forall u ensures TaskOk(r, u) {
      assert TaskOk(s, u);
    }
    forall x | EntriesActive(s) && x in r.table && r.table[x] in r.tasks ensures r.tasks[r.table[x]].Active() {
      assert EntryOk(s, x);
    }
  }

  /** A task that is replaced by a new one for its key, and finishes: the order of
      the two writes to the table, with the identity check in between, matters. */
  lemma ReplaceIsFinishThenCreate(s: State, t: TaskId, spare: TaskId, delay: real, ttl: int)
    requires Tracked(s) && t in s.tasks && s.tasks[t].Active() && spare !in s.tasks
    ensures Finish(Create(s, s.tasks[t].key, spare, delay, ttl), t) == Create(Finish(s, t), s.tasks[t].key, spare, delay, ttl)
    ensures s.tasks[t].key !in Finish(s, t).table
  {
    assert TaskOk(s, t);
    var k := s.tasks[t].key;
    assert (s.table - {k})[k := spare] == s.table[k := spare];
  }

  lemma ReplaceKeepsTracked(s: State, t: TaskId, spare: TaskId, delay: real, ttl: int)
    requires Tracked(s) && t in s.tasks && s.tasks[t].Active() && spare !in s.tasks
    ensures Tracked(Finish(Create(s, s.tasks[t].key, spare, delay, ttl), t))
    ensures EntriesActive(s) ==> EntriesActive(Finish(Create(s, s.tasks[t].key, spare, delay, ttl), t))
  {
    ReplaceIsFinishThenCreate(s, t, spare, delay, ttl);
    FinishKeepsTracked(s, t);
    CreateKeepsTracked(Finish(s, t), s.tasks[t].key, spare, delay, ttl);
  }

  lemma SucceedIsReplaceOrFinish(s: State, t: TaskId, spare: TaskId, o: Outcome)
    requires Tracked(s) && t in s.tasks && s.tasks[t].Active() && spare !in s.tasks
    ensures Succeed(s, t, spare, o) ==
      if o.swrEnabled && o.cacheAlive && !s.shutdown then Finish(Create(s, s.tasks[t].key, spare, RefreshDelay(s.tasks[t].ttl, o.threshold), s.tasks[t].ttl), t)
      else Finish(s, t)
  {
    assert TaskOk(s, t);
  }

  /** What every step of an active task keeps. */
  ghost predicate Kept(s: State, r: State) {
    && Tracked(r)
    && (EntriesActive(s) ==> EntriesActive(r))
    && r.shutdown == s.shutdown && r.phase == s.phase
  }

  lemma FinishKept(s: State, t: TaskId)
    requires Tracked(s) && t in s.tasks
    ensures Kept(s, Finish(s, t))
  {
    FinishKeepsTracked(s, t);
  }

  lemma MoveKept(s: State, t: TaskId, pc: Pc)
    requires Tracked(s) && t in s.tasks && !s.tasks[t].pc.Finished? && !pc.Finished?
    ensures Kept(s, Goto(s, t, pc))
  {
    MoveKeepsTracked(s, t, pc);
  }

  lemma ReplaceKept(s: State, t: TaskId, spare: TaskId, delay: real, ttl: int)
    requires Tracked(s) && t in s.tasks && s.tasks[t].Active() && spare !in s.tasks
    ensures Kept(s, Finish(Create(s, s.tasks[t].key, spare, delay, ttl), t))
  {
    ReplaceKeepsTracked(s, t, spare, delay, ttl);
  }

  lemma EarlyStepKeeps(s: State, t: TaskId, o: Outcome, spare: TaskId)
    requires Tracked(s) && t in s.tasks && s.tasks[t].Active() && spare !in s.tasks
    requires !s.tasks[t].pc.AwaitLoad? && !s.tasks[t].pc.AwaitSet?
    ensures Kept(s, Proceed(s, t, o, spare))
  {
    var r := Proceed(s, t, o, spare);
    if r == Finish(s, t) {
      FinishKept(s, t);
    } else {
      MoveKept(s, t, r.tasks[t].pc);
    }
  }

  lemma LateStepKeeps(s: State, t: TaskId, o: Outcome, spare: TaskId)
    requires Tracked(s) && t in s.tasks && s.tasks[t].Active() && spare !in s.tasks
    requires s.tasks[t].pc.AwaitLoad? || s.tasks[t].pc.AwaitSet?
    ensures Kept(s, Proceed(s, t, o, spare))
  {
    if o.answer.Raises? {
      ReplaceKept(s, t, spare, RetryDelay(s.tasks[t].delay), s.tasks[t].ttl);
    } else if s.tasks[t].pc.AwaitLoad? {
      MoveKept(s, t, AwaitSet);
    } else {
      SucceedIsReplaceOrFinish(s, t, spare, o);
      ReplaceKept(s, t, spare, RefreshDelay(s.tasks[t].ttl, o.threshold), s.tasks[t].ttl);
      FinishKept(s, t);
    }
  }

  lemma ProceedKeeps(s: State, t: TaskId, o: Outcome, spare: TaskId)
    requires Tracked(s) && t in s.tasks && s.tasks[t].Active() && spare !in s.tasks
    ensures Kept(s, Proceed(s, t, o, spare))
  {
    if s.tasks[t].pc.AwaitLoad? || s.tasks[t].pc.AwaitSet? {
      LateStepKeeps(s, t, o, spare);
    } else {
      EarlyStepKeeps(s, t, o, spare);
    }
  }

  lemma AbortKeeps(s: State, t: TaskId)
    requires Sound(s) && t in s.tasks && !s.tasks[t].pc.Finished? && s.tasks[t].cancelled
    ensures Sound(Abort(s, t))
  {
    if s.tasks[t].pc.Fresh? {
      var r := Goto(s, t, Finished);
      forall x ensures EntryOk(r, x) {
        assert EntryOk(s, x);
      }
      forall u ensures TaskOk(r, u) {
        assert TaskOk(s, u);
      }
    } else {
      FinishKeepsTracked(s, t);
    }
  }

  lemma ResumeKeeps(s: State, a: Action)
    requires Sound(s) && a.Resume? && Enabled(s, a)
    ensures Sound(Next(s, a))
  {
    if s.tasks[a.t].cancelled {
      AbortKeeps(s, a.t);
    } else {
      ProceedKeeps(s, a.t, a.outcome, a.spare);
      assert s.tasks[a.t].Active();
    }
  }

  lemma CancelKeeps(s: State, k: Key)
    requires Sound(s)
    ensures Sound(CancelRefresh(s, k)) && CancelRefresh(s, k).phase == s.phase
  {
    CancelKeepsTracked(s, k);
  }

  lemma ScheduleKeeps(s: State, a: Action)
    requires Sound(s) && a.Schedule? && Enabled(s, a)
    ensures Sound(Next(s, a))
  {
    if a.cacheAlive && !s.shutdown {
      CancelKeeps(s, a.key);
      var ttl := ActualTtl(a.ttl, a.defaultTtl);
      CreateKeepsTracked(CancelRefresh(s, a.key), a.key, a.spare, RefreshDelay(ttl, a.threshold), ttl);
    }
  }

  lemma CancelTrackedKeeps(s: State)
    requires Tracked(s) && s.shutdown
    ensures Sound(CancelTracked(s))
  {
    var r := CancelTracked(s);
    forall x ensures EntryOk(r, x) {
      assert EntryOk(s, x);
    }
    forall t | t in r.tasks ensures !r.tasks[t].Active() {
      assert TaskOk(s, t);
    }
  }

  lemma CleanupKeeps(s: State)
    requires Sound(s)
    ensures Sound(s.(table := s.table - Done(s)))
  {
    var r := s.(table := s.table - Done(s));
    forall x ensures EntryOk(r, x) {
      assert EntryOk(s, x);
    }
    forall t ensures TaskOk(r, t) {
      assert TaskOk(s, t);
    }
  }

  lemma StopKeeps(s: State, a: Action)
    requires Sound(s) && (a.StopBegin? || a.StopCancel? || a.StopFinish?) && Enabled(s, a)
    ensures Sound(Next(s, a))
  {
    var down := s.(shutdown := true);
    forall x ensures EntryOk(down, x) {
      assert EntryOk(s, x);
    }
    forall t ensures TaskOk(down, t) {
      assert TaskOk(s, t);
    }
    if a.StopBegin? && s.cleanup {
      var r := down.(phase := Stopping);
      assert forall x :: EntryOk(s, x) ==> EntryOk(r, x);
      assert forall t :: TaskOk(s, t) ==> TaskOk(r, t);
    } else if a.StopFinish? {
      forall t ensures TaskOk(Next(s, a), t) {
        assert t in s.tasks ==> !s.tasks[t].Active();
      }
    } else {
      CancelTrackedKeeps(down);
    }
  }

  lemma NextKeepsSound(s: State, a: Action)
    requires Sound(s) && Enabled(s, a)
    ensures Sound(Next(s, a))
  {
    if a.Resume? {
      ResumeKeeps(s, a);
    } else if a.Schedule? {
      ScheduleKeeps(s, a);
    } else if a.Cancel? {
      CancelKeeps(s, a.key);
    } else if a.Cleanup? {
      CleanupKeeps(s);
    } else if a.Start? {
      var r := s.(cleanup := true);
      assert forall x :: EntryOk(s, x) ==> EntryOk(r, x);
      assert forall t :: TaskOk(s, t) ==> TaskOk(r, t);
    } else {
      StopKeeps(s, a);
    }
  }

  lemma {:induction false} RunsAreSound(acts: seq<Action>)
    requires Exec(acts).At?
    ensures Sound(Exec(acts).state)
  {
    if acts != [] {
      var n := |acts| - 1;
      RunsAreSound(acts[..n]);
      NextKeepsSound(Exec(acts[..n]).state, acts[n]);
    }
  }

  /** In every run: a task that is neither finished nor asked to cancel is exactly
      the one recorded for its key, so there is at most one for each key. */
  lemma AtMostOnePerKey(acts: seq<Action>, t: TaskId, u: TaskId)
    requires Exec(acts).At?
    requires var s := Exec(acts).state;
      t in s.tasks && u in s.tasks && s.tasks[t].Active() && s.tasks[u].Active() && s.tasks[t].key == s.tasks[u].key
    ensures t == u
    ensures var s := Exec(acts).state; s.tasks[t].key in s.table && s.table[s.tasks[t].key] == t
  {
    RunsAreSound(acts);
    var s := Exec(acts).state;
    assert TaskOk(s, t) && TaskOk(s, u);
  }

  /** Until stop() cancels them the recorded tasks are the active ones, so the
      periodic cleanup finds nothing to do. */
  lemma CleanupIsIdle(acts: seq<Action>)
    requires Exec(acts).At? && (Exec(acts).state.phase.Running? || Exec(acts).state.phase.Stopping?)
    ensures Done(Exec(acts).state) == {}
  {
    RunsAreSound(acts);
  }

  predicate StopHasCancelled(s: State) {
    s.phase.Gathering? || s.phase.Stopped?
  }

  lemma QuietStep(s: State, a: Action)
    requires Sound(s) && Enabled(s, a) && s.shutdown && NobodyActive(s)
    ensures Next(s, a).tasks.Keys == s.tasks.Keys
    ensures Next(s, a).shutdown && NobodyActive(Next(s, a))
  {
  }

  /** Once stop() has cancelled the tasks, no task is active and none is created,
      whoever asks and whatever is called. */
  lemma {:induction false} NothingAfterStop(acts: seq<Action>, more: seq<Action>)
    requires Exec(acts + more).At? && Exec(acts).At? && StopHasCancelled(Exec(acts).state)
    ensures var (s, r) := (Exec(acts).state, Exec(acts + more).state);
      r.shutdown && NobodyActive(r) && r.tasks.Keys == s.tasks.Keys
    decreases |more|
  {
    if more == [] {
      assert acts + more == acts;
      RunsAreSound(acts);
    } else {
      var n := |more| - 1;
      assert (acts + more)[..|acts + more| - 1] == acts + more[..n];
      NothingAfterStop(acts, more[..n]);
      RunsAreSound(acts + more[..n]);
      QuietStep(Exec(acts + more[..n]).state, more[n]);
    }
  }

  /** This step of stop() asks the recorded tasks to cancel. */
  predicate Cancels(s: State, a: Action) {
    a.StopCancel? || (a.StopBegin? && !s.cleanup)
  }

  /** Since stop() cancelled the tasks in state s: no task is new, a finished one stays
      finished, and stop() waits, or has waited, for exactly those recorded then. */
  ghost predicate StoppedSince(s: State, r: State) {
    && r.tasks.Keys == s.tasks.Keys && r.shutdown && NobodyActive(r)
    && (forall t :: t in s.tasks && s.tasks[t].pc.Finished? ==> r.tasks[t].pc.Finished?)
    && (r.phase == Gathering(s.table.Values)
        || (r.phase == Stopped && forall k :: k in s.table && s.table[k] in r.tasks ==> r.tasks[s.table[k]].pc.Finished?))
  }

  lemma CancelStarts(s: State, a: Action)
    requires Sound(s) && Enabled(s, a) && Cancels(s, a)
    ensures StoppedSince(s, Next(s, a))
  {
    NextKeepsSound(s, a);
  }

  lemma FinishedStays(s: State, a: Action, t: TaskId)
    requires Enabled(s, a) && s.shutdown && NobodyActive(s) && t in s.tasks && s.tasks[t].pc.Finished?
    ensures t in Next(s, a).tasks && Next(s, a).tasks[t].pc.Finished?
  {
    if a.Resume? {
      assert !s.tasks[a.t].Active();
      assert Next(s, a) == Abort(s, a.t);
    }
  }

  lemma StopStep(s: State, r: State, a: Action)
    requires Sound(r) && StoppedSince(s, r) && Enabled(r, a) && !a.StopBegin?
    ensures StoppedSince(s, Next(r, a))
  {
    QuietStep(r, a);
    forall t | t in r.tasks && r.tasks[t].pc.Finished? ensures Next(r, a).tasks[t].pc.Finished? {
      FinishedStays(r, a, t);
    }
    if a.StopFinish? {
      forall k | k in s.table && s.table[k] in r.tasks ensures r.tasks[s.table[k]].pc.Finished? {
        assert s.table[k] in s.table.Values;
      }
    }
  }

  lemma {:induction false} StopKeepsWaiting(acts: seq<Action>, a: Action, more: seq<Action>)
    requires Exec(acts).At? && Enabled(Exec(acts).state, a) && Cancels(Exec(acts).state, a)
    requires Exec(acts + [a] + more).At? && StopBegin !in more
    ensures StoppedSince(Exec(acts).state, Exec(acts + [a] + more).state)
    decreases |more|
  {
    RunsAreSound(acts);
    if more == [] {
      assert acts + [a] + more == acts + [a];
      ExecSnoc(acts, a);
      CancelStarts(Exec(acts).state, a);
    } else {
      var n := |more| - 1;
      var run := acts + [a] + more[..n];
      assert (acts + [a] + more)[..|run|] == run;
      assert more == more[..n] + [more[n]];
      StopKeepsWaiting(acts, a, more[..n]);
      RunsAreSound(run);
      StopStep(Exec(acts).state, Exec(run).state, more[n]);
    }
  }

  /** When stop() has returned, a task that has not finished is one that was neither
      finished nor recorded when it cancelled the tasks, and that somebody had
      cancelled before. */
  lemma UnfinishedAfterStop(acts: seq<Action>, a: Action, more: seq<Action>, t: TaskId)
    requires Exec(acts).At? && Enabled(Exec(acts).state, a) && Cancels(Exec(acts).state, a)
    requires Exec(acts + [a] + more).At? && StopBegin !in more
    requires var r := Exec(acts + [a] + more).state; r.phase.Stopped? && t in r.tasks && !r.tasks[t].pc.Finished?
    ensures Exec(acts + [a] + more).state.table == map[]
    ensures var s := Exec(acts).state;
      t in s.tasks && !s.tasks[t].pc.Finished? && t !in s.table.Values && s.tasks[t].cancelled
  {
    StopKeepsWaiting(acts, a, more);
    RunsAreSound(acts + [a] + more);
    RunsAreSound(acts);
    var s := Exec(acts).state;
    assert TaskOk(s, t);
  }

  lemma ExecSnoc(acts: seq<Action>, a: Action)
    requires Exec(acts).At? && Enabled(Exec(acts).state, a)
    ensures Exec(acts + [a]) == At(Next(Exec(acts).state, a))
  {
  }

  /** It does not wait for a task cancelled before: that one may still have to end. */
  lemma CancelledTaskMayOutliveStop(k: Key)
    ensures var acts := [Schedule(k, 0, true, None, 300, 0.1), Cancel(k), StopBegin];
      && Exec(acts).At? && Exec(acts).state.phase.Stopped?
      && 0 in Exec(acts).state.tasks && !Exec(acts).state.tasks[0].pc.Finished?
  {
    var (a, b) := (Schedule(k, 0, true, None, 300, 0.1), Cancel(k));
    ExecSnoc([], a);
    assert [] + [a] == [a] && [a] + [b] == [a, b] && [a, b] + [StopBegin] == [a, b, StopBegin];
    ExecSnoc([a], b);
    assert k in Exec([a]).state.table;
    assert Exec([a, b]).state.table == map[];
    ExecSnoc([a, b], StopBegin);
  }

  /** The shutdown flag alone does not keep a failing refresh from creating its
      successor; only the cancellation that follows does. */
  lemma RetryIgnoresShutdown(s: State, t: TaskId, o: Outcome, spare: TaskId)
    requires Sound(s) && s.phase.Stopping? && Enabled(s, Resume(t, o, spare))
    requires s.tasks[t].Active() && s.tasks[t].pc.AwaitLoad? && o.answer.Raises?
    ensures var r := Next(s, Resume(t, o, spare));
      && spare in r.tasks && r.tasks[spare].Active()
      && !Next(r, StopCancel).tasks[spare].Active()
  {
  }

  function Doubled(delay: real, n: nat): (r: real)
    ensures delay >= 0.0 ==> r >= 0.0
  {
    if n == 0 then delay else 2.0 * Doubled(delay, n - 1)
  }

  function AfterRetries(delay: real, n: nat): real {
    if n == 0 then delay else RetryDelay(AfterRetries(delay, n - 1))
  }

  /** Retries back off exponentially, up to a minute. */
  lemma {:induction false} RetriesBackOff(delay: real, n: nat)
    requires delay >= 0.0 && n >= 1
    ensures AfterRetries(delay, n) == if Doubled(delay, n) < 60.0 then Doubled(delay, n) else 60.0
  {
    if n > 1 {
      RetriesBackOff(delay, n - 1);
    }
  }

  /** A refresh is scheduled for when this share of the lifetime is left, and so is
      each one that follows it. */
  lemma RefreshesBeforeExpiry(s: State, t: TaskId, o: Outcome, spare: TaskId)
    requires Sound(s) && Enabled(s, Resume(t, o, spare)) && s.tasks[t].Active() && s.tasks[t].pc.AwaitSet?
    requires o.answer.Yes? && o.swrEnabled && o.cacheAlive && !s.shutdown
    ensures var (r, ttl) := (Next(s, Resume(t, o, spare)), s.tasks[t].ttl);
      && spare in r.tasks && r.tasks[spare].ttl == ttl && ttl as real - r.tasks[spare].delay == ttl as real * o.threshold
  {
    SucceedIsReplaceOrFinish(s, t, spare, o);
    Share(s.tasks[t].ttl as real, o.threshold);
  }

  lemma Share(x: real, y: real)
    ensures x - x * (1.0 - y) == x * y
  {
  }
}
