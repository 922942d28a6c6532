// Single-flight exclusion: which lock a task uses, and when that is enough.
module SingleFlightTheorems {
  import opened Basics
  import opened OrderedDict
  import opened InflightLocks
  import opened SingleFlight
  import opened SingleFlightSafety

  /** Some future in the queue is not cancelled: u still waits to be given the lock. */
  ghost predicate StillWaits(lk: Lock, u: TaskId) {
    exists i :: 0 <= i < |lk.waiters| && lk.waiters[i].task == u && !lk.waiters[i].status.Cancelled?
  }

  /** The task holds its lock or still waits for it. */
  ghost predicate Engaged(s: State, t: TaskId) {
    t in s.tasks &&
    (s.tasks[t].Holds()
     || (s.tasks[t].pc.Queued? && s.tasks[t].pc.lock < |s.heap| && StillWaits(s.heap[s.tasks[t].pc.lock], t)))
  }

  /** Whoever holds or awaits a lock for a raw key uses the lock the table has for it. */
  ghost predicate Tracked(s: State) {
    forall t :: Engaged(s, t) ==>
      s.tasks[t].key in s.table.vals && s.table.vals[s.tasks[t].key] == s.tasks[t].pc.lock
  }

  predicate Dropped(c: Config, s: State, a: Action, k: Key)
    requires LooksUp(s, a)
  {
    k in s.table.vals && k !in TableAfterEviction(s.table, s.heap, c.maxKeys, s.tasks[a.t].key).vals
  }

  /** This step evicts no lock for which a task still waits. */
  ghost predicate SafeStep(c: Config, s: State, a: Action) {
    LooksUp(s, a) ==>
      forall k :: Dropped(c, s, a, k) && s.table.vals[k] < |s.heap| ==> s.heap[s.table.vals[k]].Free()
  }

  /** Nobody waits for r who did not wait for the lock before. */
  ghost predicate NobodyJoins(lk: Lock, r: Lock) {
    forall u :: StillWaits(r, u) ==> StillWaits(lk, u)
  }

  lemma WakingJoinsNobody(lk: Lock)
    ensures NobodyJoins(lk, lk.WakeFirst())
  {
    var r := lk.WakeFirst();
    forall u | StillWaits(r, u) ensures StillWaits(lk, u) {
      var i :| 0 <= i < |r.waiters| && r.waiters[i].task == u && !r.waiters[i].status.Cancelled?;
      assert lk.waiters[i].task == u && !lk.waiters[i].status.Cancelled?;
    }
  }

  lemma ForgettingJoinsNobody(lk: Lock, t: TaskId)
    ensures NobodyJoins(lk, lk.Forget(t))
  {
    var (p, r) := (Position(lk.waiters, t), lk.Forget(t));
    forall u | StillWaits(r, u) ensures StillWaits(lk, u) {
      var i :| 0 <= i < |r.waiters| && r.waiters[i].task == u && !r.waiters[i].status.Cancelled?;
      var j := if i < p then i else i + 1;
      assert r != lk ==> lk.waiters[j] == r.waiters[i];
    }
  }

  lemma QueueJoinsNobody(lk: Lock, t: TaskId)
    ensures NobodyJoins(lk, lk.Release()) && NobodyJoins(lk, lk.Resume(t))
    ensures NobodyJoins(lk, lk.RequestCancel(t)) && NobodyJoins(lk, lk.GiveUp(t))
  {
    WakingJoinsNobody(lk.(locked := false));
    ForgettingJoinsNobody(lk, t);
    WakingJoinsNobody(lk.Forget(t));
    CancelJoinsNobody(lk, t);
    forall u | StillWaits(lk.Resume(t), u) ensures StillWaits(lk.Forget(t), u) {
      assert lk.Resume(t).waiters == lk.Forget(t).waiters;
    }
    forall u | StillWaits(lk.Release(), u) ensures StillWaits(lk, u) {
      assert StillWaits(lk.(locked := false), u);
      assert lk.(locked := false).waiters == lk.waiters;
    }
  }

  lemma CancelJoinsNobody(lk: Lock, t: TaskId)
    ensures NobodyJoins(lk, lk.RequestCancel(t))
  {
    var r := lk.RequestCancel(t);
    forall u | StillWaits(r, u) ensures StillWaits(lk, u) {
      var i :| 0 <= i < |r.waiters| && r.waiters[i].task == u && !r.waiters[i].status.Cancelled?;
      assert lk.waiters[i].task == u && !lk.waiters[i].status.Cancelled?;
    }
  }

  lemma WokenStillWaits(s: State, t: TaskId)
    requires WaitsAs(s, t) && StatusIn(s, t).Woken?
    ensures Engaged(s, t)
  {
    var lk := s.heap[s.tasks[t].pc.lock];
    assert lk.waiters[Position(lk.waiters, t)].task == t;
  }

  /** Lock l changed so that nobody joined its queue, and task t moved on. */
  ghost predicate OneLockMoved(s: State, s': State, t: TaskId, l: LockId) {
    && s'.table == s.table && |s'.heap| == |s.heap| && s'.tasks.Keys == s.tasks.Keys && t in s.tasks && l < |s.heap|
    && (forall m :: 0 <= m < |s.heap| && m != l ==> s'.heap[m] == s.heap[m])
    && NobodyJoins(s.heap[l], s'.heap[l])
    && (forall u :: u in s.tasks && u != t ==> s'.tasks[u] == s.tasks[u])
    && s'.tasks[t].key == s.tasks[t].key
    && (Engaged(s', t) ==> Engaged(s, t) && s'.tasks[t].pc.lock == s.tasks[t].pc.lock)
  }

  lemma OneLockKeepsTracked(s: State, s': State, t: TaskId, l: LockId)
    requires Tracked(s) && OneLockMoved(s, s', t, l)
    ensures Tracked(s')
  {
    forall u | Engaged(s', u) ensures s'.tasks[u].key in s'.table.vals && s'.table.vals[s'.tasks[u].key] == s'.tasks[u].pc.lock {
      if u != t {
        assert Engaged(s, u);
      }
    }
  }

  lemma QueueKeepsTracked(c: Config, s: State, a: Action)
    requires Enabled(s, a) && Tracked(s) && (a.Wake? || a.CancelWait? || a.DropWait?)
    ensures Tracked(QueueStep(s, a))
  {
    var (t, s') := (a.t, QueueStep(s, a));
    var l := s.tasks[t].pc.lock;
    QueueJoinsNobody(s.heap[l], t);
    if a.Wake? {
      WokenStillWaits(s, t);
    }
    OneLockKeepsTracked(s, s', t, l);
  }

  lemma LeaveKeepsTracked(s: State, t: TaskId, pc: Pc)
    requires Tracked(s) && t in s.tasks && LockKnown(s, t) && (pc.Returned? || pc.Ended?)
    ensures Tracked(Leave(s, t, pc))
  {
    var l := s.tasks[t].pc.lock;
    QueueJoinsNobody(s.heap[l], t);
    OneLockKeepsTracked(s, Leave(s, t, pc), t, l);
  }

  /** The locks stay as they are; whoever is engaged was, and for the same lock. */
  lemma SameHeapKeepsTracked(s: State, s': State)
    requires Tracked(s) && s'.table == s.table && s'.heap == s.heap
    requires forall t :: t in s'.tasks && s'.tasks[t].UsesLock() ==>
      t in s.tasks && s.tasks[t].key == s'.tasks[t].key && s.tasks[t].UsesLock()
      && s.tasks[t].pc.lock == s'.tasks[t].pc.lock && s.tasks[t].Holds() == s'.tasks[t].Holds()
    ensures Tracked(s')
  {
    forall t | Engaged(s', t) ensures Engaged(s, t) {
    }
  }

  lemma OwnerKeepsTracked(c: Config, s: State, a: Action)
    requires Enabled(s, a) && Tracked(s)
    requires a.AfterRecheck? || a.LoaderReturns? || a.StoreAnswers? || a.AfterStore? || a.Raise?
    ensures Tracked(OwnerStep(c, s, a))
  {
    var k := s.tasks[a.t];
    if a.AfterRecheck? && k.pc.reply.Hit? {
      LeaveKeepsTracked(s, a.t, Returned(k.pc.reply.value));
    } else if a.AfterStore? {
      LeaveKeepsTracked(s, a.t, if k.kind.Fetch? then Returned(k.pc.value) else Ended);
    } else if a.Raise? {
      SameHeapKeepsTracked(s, Note(s, Failure(k)));
      LeaveKeepsTracked(Note(s, Failure(k)), a.t, Ended);
    } else {
      SameHeapKeepsTracked(s, OwnerStep(c, s, a));
    }
  }

  lemma NonLookupKeepsTracked(c: Config, s: State, a: Action)
    requires Enabled(s, a) && Tracked(s) && !LooksUp(s, a)
    ensures Tracked(Next(c, s, a))
  {
    if a.Wake? || a.CancelWait? || a.DropWait? {
      QueueKeepsTracked(c, s, a);
    } else if a.AfterRecheck? || a.LoaderReturns? || a.StoreAnswers? || a.AfterStore? || a.Raise? {
      OwnerKeepsTracked(c, s, a);
    } else {
      SameHeapKeepsTracked(s, Next(c, s, a));
    }
  }

  /** Looking a lock up, the task may take it or join its queue, and no other lock
      changes. */
  lemma LookUpTouchesOneLock(c: Config, s: State, t: TaskId)
    requires t in s.tasks && EntryKnown(s, s.tasks[t].key) && !s.tasks[t].UsesLock()
    ensures var (r, l) := (LookUpStep(c, s, t), LookUp(c, s, s.tasks[t].key).1);
      && |s.heap| <= |r.heap|
      && (forall m :: 0 <= m < |s.heap| && m != l ==> r.heap[m] == s.heap[m])
      && (l < |s.heap| ==> r.heap[l].waiters == s.heap[l].waiters || r.heap[l].waiters == s.heap[l].waiters + [Waiter(t, Pending)])
  {
  }

  lemma StillWaitsBefore(lk: Lock, r: Lock, t: TaskId, u: TaskId)
    requires r.waiters == lk.waiters || r.waiters == lk.waiters + [Waiter(t, Pending)]
    requires StillWaits(r, u) && u != t
    ensures StillWaits(lk, u)
  {
    var i :| 0 <= i < |r.waiters| && r.waiters[i].task == u && !r.waiters[i].status.Cancelled?;
    assert lk.waiters[i] == r.waiters[i];
  }

  lemma EngagedBefore(c: Config, s: State, t: TaskId, u: TaskId)
    requires Sound(s) && t in s.tasks && EntryKnown(s, s.tasks[t].key) && !s.tasks[t].UsesLock()
    requires u != t && Engaged(LookUpStep(c, s, t), u)
    ensures Engaged(s, u)
  {
    LookUpTouchesOneLock(c, s, t);
    assert TaskOk(s, u);
    if s.tasks[u].pc.Queued? {
      StillWaitsBefore(s.heap[s.tasks[u].pc.lock], LookUpStep(c, s, t).heap[s.tasks[u].pc.lock], t, u);
    }
  }

  predicate TrackedTask(s: State, u: TaskId)
    requires u in s.tasks && s.tasks[u].UsesLock()
  {
    s.tasks[u].key in s.table.vals && s.table.vals[s.tasks[u].key] == s.tasks[u].pc.lock
  }

  lemma LookingTaskIsTracked(c: Config, s: State, t: TaskId)
    requires Sound(s) && c.maxKeys >= 1 && t in s.tasks && EntryKnown(s, s.tasks[t].key)
    ensures var r := LookUpStep(c, s, t); r.tasks[t].UsesLock() ==> TrackedTask(r, t)
  {
    LookupKeepsHeldLocks(s.table, s.heap, c.maxKeys, s.tasks[t].key);
  }

  lemma OtherTaskStaysTracked(c: Config, s: State, a: Action, u: TaskId)
    requires Sound(s) && Enabled(s, a) && c.maxKeys >= 1 && Tracked(s) && LooksUp(s, a) && SafeStep(c, s, a)
    requires u != a.t && Engaged(LookUpStep(c, s, a.t), u)
    ensures TrackedTask(LookUpStep(c, s, a.t), u)
  {
    EngagedBefore(c, s, a.t, u);
    KeptTracked(c, s, a, u);
  }

  lemma SafeLookupKeepsTracked(c: Config, s: State, a: Action)
    requires Sound(s) && Enabled(s, a) && c.maxKeys >= 1 && Tracked(s) && LooksUp(s, a)
    requires SafeStep(c, s, a)
    ensures Tracked(LookUpStep(c, s, a.t))
  {
    var s' := LookUpStep(c, s, a.t);
    forall u | Engaged(s', u) ensures TrackedTask(s', u) {
      if u == a.t {
        LookingTaskIsTracked(c, s, u);
      } else {
        OtherTaskStaysTracked(c, s, a, u);
      }
    }
  }

  lemma KeptTracked(c: Config, s: State, a: Action, u: TaskId)
    requires Sound(s) && c.maxKeys >= 1 && Tracked(s) && LooksUp(s, a) && SafeStep(c, s, a) && Engaged(s, u)
    ensures var f := Lookup(s.table, s.heap, c.maxKeys, s.tasks[a.t].key);
      s.tasks[u].key in f.table.vals && f.table.vals[s.tasks[u].key] == s.tasks[u].pc.lock
  {
    var (k, l) := (s.tasks[u].key, s.tasks[u].pc.lock);
    LookupKeepsHeldLocks(s.table, s.heap, c.maxKeys, s.tasks[a.t].key);
    assert TaskOk(s, u);
    assert s.tasks[u].pc.Queued? ==> !s.heap[l].Free();
    assert !Dropped(c, s, a, k);
  }

  lemma UnsafeLookupBreaksTracked(c: Config, s: State, a: Action, k: Key, w: TaskId)
    requires Sound(s) && Enabled(s, a) && c.maxKeys >= 1 && Tracked(s) && LooksUp(s, a)
    requires Dropped(c, s, a, k) && s.table.vals[k] < |s.heap| && StillWaits(s.heap[s.table.vals[k]], w)
    ensures var r := LookUpStep(c, s, a.t);
      && w in s.tasks && s.tasks[w].key == k && s.tasks[w].pc == Queued(s.table.vals[k])
      && r.tasks[w] == s.tasks[w] && k !in r.table.vals && Engaged(r, w)
      && r.heap[s.table.vals[k]] == s.heap[s.table.vals[k]] && !r.heap[s.table.vals[k]].locked
  {
    var (l, key) := (s.table.vals[k], s.tasks[a.t].key);
    assert LockOk(s, l);
    var i :| 0 <= i < |s.heap[l].waiters| && s.heap[l].waiters[i].task == w && !s.heap[l].waiters[i].status.Cancelled?;
    assert s.tasks[w].pc == Queued(l);
    assert Engaged(s, w);
    assert s.tasks[w].key == k;
    LookupKeepsHeldLocks(s.table, s.heap, c.maxKeys, key);
    assert LookUp(c, s, key).1 == |s.heap|;
    LookUpTouchesOneLock(c, s, a.t);
  }

  lemma SomebodyWaits(lk: Lock) returns (w: TaskId)
    requires !lk.locked && !lk.Free()
    ensures StillWaits(lk, w)
  {
    var i :| 0 <= i < |lk.waiters| && !lk.waiters[i].status.Cancelled?;
    w := lk.waiters[i].task;
  }

  lemma UnsafeStepHasWaiter(c: Config, s: State, a: Action) returns (k: Key, w: TaskId)
    requires Sound(s) && LooksUp(s, a) && !SafeStep(c, s, a)
    ensures Dropped(c, s, a, k) && s.table.vals[k] < |s.heap| && StillWaits(s.heap[s.table.vals[k]], w)
  {
    k :| Dropped(c, s, a, k) && s.table.vals[k] < |s.heap| && !s.heap[s.table.vals[k]].Free();
    assert Evictable(s.table, s.heap, k);
    w := SomebodyWaits(s.heap[s.table.vals[k]]);
  }

  /** Exactly the evictions of a lock somebody still waits for lose track of a task. */
  lemma TrackedIffSafe(c: Config, s: State, a: Action)
    requires Sound(s) && Enabled(s, a) && c.maxKeys >= 1 && Tracked(s)
    ensures Tracked(Next(c, s, a)) <==> SafeStep(c, s, a)
  {
    if !LooksUp(s, a) {
      NonLookupKeepsTracked(c, s, a);
    } else if SafeStep(c, s, a) {
      SafeLookupKeepsTracked(c, s, a);
    } else {
      var k, w := UnsafeStepHasWaiter(c, s, a);
      UnsafeLookupBreaksTracked(c, s, a, k, w);
    }
  }

  ghost predicate SafeRun(c: Config, acts: seq<Action>)
    decreases |acts|
  {
    Exec(c, acts).At? &&
    (acts != [] ==>
      var n := |acts| - 1;
      SafeRun(c, acts[..n]) && SafeStep(c, Exec(c, acts[..n]).state, acts[n]))
  }

  lemma {:induction false} SafeRunsAreTracked(c: Config, acts: seq<Action>)
    requires c.maxKeys >= 1 && SafeRun(c, acts)
    ensures Sound(Exec(c, acts).state) && Tracked(Exec(c, acts).state)
    decreases |acts|
  {
    RunsAreSound(c, acts);
    if acts != [] {
      var n := |acts| - 1;
      SafeRunsAreTracked(c, acts[..n]);
      TrackedIffSafe(c, Exec(c, acts[..n]).state, acts[n]);
    }
  }

  /** Two tasks inside the critical section of one raw key are the same task. */
  ghost predicate Exclusive(s: State) {
    forall t, u :: BothInside(s, t, u) ==> t == u
  }

  ghost predicate BothInside(s: State, t: TaskId, u: TaskId) {
    && t in s.tasks && u in s.tasks
    && s.tasks[t].Holds() && s.tasks[u].Holds()
    && s.tasks[t].key == s.tasks[u].key
  }

  lemma TrackedIsExclusive(s: State)
    requires Sound(s) && Tracked(s)
    ensures Exclusive(s)
  {
    forall t, u | BothInside(s, t, u) ensures t == u {
      var l := s.tasks[t].pc.lock;
      assert TaskOk(s, t);
      assert OneHolder(s, l);
      assert HeldBy(s, t, l) && HeldBy(s, u, l);
    }
  }

  /** Single-flight exclusion, for fetch_or_set and background refreshes alike:
      at most one task is in a loader for a raw key. */
  lemma Exclusion(c: Config, acts: seq<Action>)
    requires c.maxKeys >= 1 && SafeRun(c, acts)
    ensures Tracked(Exec(c, acts).state) && Exclusive(Exec(c, acts).state)
  {
    SafeRunsAreTracked(c, acts);
    TrackedIsExclusive(Exec(c, acts).state);
  }

  /** Lock l was released and the task it is handed to has not run yet. */
  predicate HandOff(s: State, l: LockId) {
    l < |s.heap| && !s.heap[l].locked && !s.heap[l].Free()
  }

  /** A pass that runs while no tracked lock is being handed over is safe. */
  lemma NoHandOffIsSafe(c: Config, s: State, a: Action)
    requires forall k :: k in s.table.vals ==> !HandOff(s, s.table.vals[k])
    ensures SafeStep(c, s, a)
  {
  }

  ghost function Requested(s: State): set<Key> {
    set t | t in s.tasks :: s.tasks[t].key
  }

  lemma {:induction false} TableHasRequestedKeys(c: Config, acts: seq<Action>)
    requires c.maxKeys >= 1 && Exec(c, acts).At?
    ensures Exec(c, acts).state.table.vals.Keys <= Requested(Exec(c, acts).state)
    decreases |acts|
  {
    if acts != [] {
      var n := |acts| - 1;
      var s, a := Exec(c, acts[..n]).state, acts[n];
      TableHasRequestedKeys(c, acts[..n]);
      RunsAreSound(c, acts[..n]);
      NextExtends(c, s, a);
      TasksKeepTheirKeys(s, Next(c, s, a));
      if LooksUp(s, a) {
        LookupKeepsHeldLocks(s.table, s.heap, c.maxKeys, s.tasks[a.t].key);
        assert s.tasks[a.t].key in Requested(s);
      }
    }
  }

  lemma TasksKeepTheirKeys(s: State, s': State)
    requires Extends(s, s')
    ensures Requested(s) <= Requested(s')
  {
  }

  /** Unconditionally: with at most max keys ever requested nothing is evicted. */
  lemma {:induction false} FewKeysAreSafe(c: Config, acts: seq<Action>)
    requires c.maxKeys >= 1 && Exec(c, acts).At?
    requires |Requested(Exec(c, acts).state)| <= c.maxKeys
    ensures SafeRun(c, acts)
    decreases |acts|
  {
    if acts != [] {
      var n := |acts| - 1;
      var s, a := Exec(c, acts[..n]).state, acts[n];
      NextExtends(c, s, a);
      TasksKeepTheirKeys(s, Next(c, s, a));
      SubsetSize(Requested(s), Requested(Next(c, s, a)));
      FewKeysAreSafe(c, acts[..n]);
      if LooksUp(s, a) && s.tasks[a.t].key !in s.table.vals {
        TableHasRequestedKeys(c, acts[..n]);
        RunsAreSound(c, acts[..n]);
        SizeIsKeys(s.table);
        var key := s.tasks[a.t].key;
        assert key in Requested(s);
        SubsetSize(s.table.vals.Keys, Requested(s) - {key});
      }
    }
  }
}
