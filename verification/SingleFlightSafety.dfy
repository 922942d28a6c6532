// What every action of the single-flight protocol keeps.
module SingleFlightSafety {
  import opened Basics
  import opened OrderedDict
  import opened InflightLocks
  import opened SingleFlight

  ghost predicate TaskOk(s: State, t: TaskId)
    requires t in s.tasks
  {
    var k := s.tasks[t];
    k.UsesLock() ==>
      && k.pc.lock < |s.heap|
      && (k.Holds() ==> s.heap[k.pc.lock].locked)
      && (k.pc.Queued? ==> s.heap[k.pc.lock].Waiting(t))
  }

  ghost predicate LockOk(s: State, l: LockId)
    requires l < |s.heap|
  {
    && s.heap[l].Ok()
    && forall i :: 0 <= i < |s.heap[l].waiters| ==>
         var t := s.heap[l].waiters[i].task;
         t in s.tasks && s.tasks[t].pc == Queued(l)
  }

  ghost predicate HeldBy(s: State, t: TaskId, l: LockId) {
    t in s.tasks && s.tasks[t].Holds() && s.tasks[t].pc.lock == l
  }

  ghost predicate OneHolder(s: State, l: LockId)
    requires l < |s.heap|
  {
    && (forall t, u :: HeldBy(s, t, l) && HeldBy(s, u, l) ==> t == u)
    && (s.heap[l].locked ==> exists t :: HeldBy(s, t, l))
  }

  ghost predicate DistinctLocks(d: Dict<Key, LockId>) {
    forall j, k :: j in d.vals && k in d.vals && j != k ==> d.vals[j] != d.vals[k]
  }

  /** Holds in every run, whatever is evicted. */
  ghost predicate Sound(s: State) {
    && InHeap(s.table, s.heap)
    && DistinctLocks(s.table)
    && (forall t :: t in s.tasks ==> TaskOk(s, t))
    && (forall l :: 0 <= l < |s.heap| ==> LockOk(s, l) && OneHolder(s, l))
  }

  lemma WaitingMeansListed(lk: Lock, t: TaskId)
    ensures lk.Waiting(t) <==> exists i :: 0 <= i < |lk.waiters| && lk.waiters[i].task == t
  {
  }

  lemma SameQueueSameWaiting(lk: Lock, other: Lock)
    requires |lk.waiters| == |other.waiters|
    requires forall i :: 0 <= i < |lk.waiters| ==> lk.waiters[i].task == other.waiters[i].task
    ensures forall u :: lk.Waiting(u) == other.Waiting(u)
  {
  }

  lemma TakeKeepsOk(lk: Lock)
    requires lk.Ok() && lk.Free()
    ensures lk.Take().Ok()
  {
  }

  lemma EnqueueKeepsOk(lk: Lock, t: TaskId)
    requires lk.Ok() && !lk.Free() && !lk.Waiting(t)
    ensures lk.Enqueue(t).Ok()
    ensures forall u :: lk.Enqueue(t).Waiting(u) == (lk.Waiting(u) || u == t)
  {
    var e := lk.Enqueue(t);
    forall u ensures e.Waiting(u) == (lk.Waiting(u) || u == t) {
      var n := |lk.waiters|;
      assert e.waiters[n].task == t;
      assert forall i :: 0 <= i < n ==> e.waiters[i] == lk.waiters[i];
      WaitingMeansListed(lk, u);
      WaitingMeansListed(e, u);
    }
  }

  lemma ReleaseKeepsOk(lk: Lock)
    requires lk.Ok() && lk.locked
    ensures lk.Release().Ok()
    ensures forall u :: lk.Release().Waiting(u) == lk.Waiting(u)
  {
  }

  lemma ForgottenIsGone(lk: Lock, t: TaskId)
    requires lk.Ok() && lk.Waiting(t)
    ensures var f := lk.Forget(t);
      && (forall i, j :: 0 <= i < j < |f.waiters| ==> f.waiters[i].task != f.waiters[j].task)
      && (forall i :: 0 <= i < |f.waiters| ==> f.waiters[i] in lk.waiters && f.waiters[i].task != t)
  {
  }

  lemma OthersStay(lk: Lock, t: TaskId, u: TaskId)
    requires lk.Waiting(t) && u != t
    ensures lk.Forget(t).Waiting(u) == lk.Waiting(u)
  {
    var (p, f) := (Position(lk.waiters, t), lk.Forget(t));
    if lk.Waiting(u) {
      var q := Position(lk.waiters, u);
      assert lk.waiters[q] == f.waiters[if q < p then q else q - 1];
    }
    if f.Waiting(u) {
      var q := Position(f.waiters, u);
      assert f.waiters[q] == lk.waiters[if q < p then q else q + 1];
    }
  }

  lemma ForgetKeepsOthers(lk: Lock, t: TaskId)
    requires lk.Ok() && lk.Waiting(t)
    ensures var f := lk.Forget(t);
      && !f.Waiting(t)
      && (forall i, j :: 0 <= i < j < |f.waiters| ==> f.waiters[i].task != f.waiters[j].task)
      && (forall i :: 0 <= i < |f.waiters| ==> f.waiters[i] in lk.waiters && f.waiters[i].task != t)
      && (forall u :: u != t ==> f.Waiting(u) == lk.Waiting(u))
  {
    ForgottenIsGone(lk, t);
    forall u | u != t ensures lk.Forget(t).Waiting(u) == lk.Waiting(u) {
      OthersStay(lk, t, u);
    }
  }

  lemma ResumeKeepsOk(lk: Lock, t: TaskId)
    requires lk.Ok() && lk.Waiting(t) && lk.StatusOf(t).Woken?
    ensures !lk.locked && lk.Resume(t).Ok()
  {
  }

  lemma RequestCancelKeepsOk(lk: Lock, t: TaskId)
    requires lk.Ok()
    ensures lk.RequestCancel(t).Ok()
    ensures forall u :: lk.RequestCancel(t).Waiting(u) == lk.Waiting(u)
  {
    SameQueueSameWaiting(lk.RequestCancel(t), lk);
  }

  lemma GiveUpKeepsOk(lk: Lock, t: TaskId)
    requires lk.Ok() && lk.Waiting(t) && !lk.StatusOf(t).Pending?
    ensures lk.GiveUp(t).Ok() && !lk.GiveUp(t).Waiting(t)
    ensures forall u :: u != t ==> lk.GiveUp(t).Waiting(u) == lk.Waiting(u)
  {
    ForgetKeepsOthers(lk, t);
    SameQueueSameWaiting(lk.GiveUp(t), lk.Forget(t));
  }

  lemma NotWaitingHere(s: State, t: TaskId, l: LockId)
    requires l < |s.heap| && LockOk(s, l)
    requires t in s.tasks ==> s.tasks[t].pc != Queued(l)
    ensures !s.heap[l].Waiting(t)
  {
  }

  /** Lock l became lk while task t moved to pc, nothing else having changed. */
  ghost predicate LocalMove(s: State, t: TaskId, l: LockId, lk: Lock, pc: Pc)
    requires t in s.tasks && l < |s.heap|
  {
    var before := s.tasks[t];
    var after := before.(pc := pc);
    && (before.UsesLock() ==> before.pc.lock == l)
    && (after.UsesLock() ==> pc.lock == l)
    && lk.Ok()
    && (forall u :: u != t ==> lk.Waiting(u) == s.heap[l].Waiting(u))
    && lk.Waiting(t) == pc.Queued?
    && (if after.Holds() then lk.locked && (before.Holds() || !s.heap[l].locked)
        else lk.locked == (s.heap[l].locked && !before.Holds()))
  }

  lemma LocalMoveKeepsSound(s: State, t: TaskId, l: LockId, lk: Lock, pc: Pc)
    requires Sound(s) && t in s.tasks && l < |s.heap|
    requires LocalMove(s, t, l, lk, pc)
    ensures Sound(Goto(WithLock(s, l, lk), t, pc))
  {
    var s' := Goto(WithLock(s, l, lk), t, pc);
    forall m | 0 <= m < |s'.heap| ensures LockOk(s', m) && OneHolder(s', m) {
      assert LockOk(s, m) && OneHolder(s, m);
      LocalMoveKeepsLock(s, t, l, lk, pc, m);
    }
    forall u | u in s'.tasks ensures TaskOk(s', u) {
      assert TaskOk(s, u) && OneHolder(s, l);
      assert HeldBy(s, u, l) && HeldBy(s, t, l) ==> u == t;
    }
  }

  lemma LocalMoveKeepsLock(s: State, t: TaskId, l: LockId, lk: Lock, pc: Pc, m: LockId)
    requires t in s.tasks && l < |s.heap| && m < |s.heap|
    requires LocalMove(s, t, l, lk, pc)
    requires TaskOk(s, t) && LockOk(s, m) && OneHolder(s, m)
    requires forall u :: HeldBy(s, u, m) ==> s.heap[m].locked
    ensures var s' := Goto(WithLock(s, l, lk), t, pc); LockOk(s', m) && OneHolder(s', m)
  {
    var s' := Goto(WithLock(s, l, lk), t, pc);
    forall i | 0 <= i < |s'.heap[m].waiters|
      ensures var u := s'.heap[m].waiters[i].task; u in s'.tasks && s'.tasks[u].pc == Queued(m)
    {
      var u := s'.heap[m].waiters[i].task;
      if m == l {
        assert lk.Waiting(u);
        if u != t {
          assert s.heap[l].Waiting(u);
        }
      }
    }
    if s'.heap[m].locked {
      if HeldBy(s', t, m) {
      } else {
        var h :| HeldBy(s, h, m);
        assert HeldBy(s', h, m);
      }
    }
    forall u, v | HeldBy(s', u, m) && HeldBy(s', v, m) ensures u == v {
      assert u != t ==> HeldBy(s, u, m);
      assert v != t ==> HeldBy(s, v, m);
      assert m == l && s.tasks[t].Holds() ==> HeldBy(s, t, m);
    }
  }

  lemma AcquireKeepsSound(s: State, t: TaskId, l: LockId)
    requires Sound(s) && t in s.tasks && l < |s.heap| && !s.tasks[t].UsesLock()
    ensures Sound(Acquire(s, t, l))
  {
    var lk := s.heap[l];
    assert LockOk(s, l);
    NotWaitingHere(s, t, l);
    if lk.Free() {
      TakeKeepsOk(lk);
      LocalMoveKeepsSound(s, t, l, lk.Take(), if s.tasks[t].kind.Fetch? then Recheck(l) else Loading(l));
    } else {
      EnqueueKeepsOk(lk, t);
      LocalMoveKeepsSound(s, t, l, lk.Enqueue(t), Queued(l));
    }
  }

  lemma LeaveKeepsSound(s: State, t: TaskId, pc: Pc)
    requires Sound(s) && t in s.tasks && s.tasks[t].Holds() && LockKnown(s, t)
    requires pc.Returned? || pc.Ended?
    ensures Sound(Leave(s, t, pc))
  {
    var l := s.tasks[t].pc.lock;
    assert TaskOk(s, t) && LockOk(s, l);
    NotWaitingHere(s, t, l);
    ReleaseKeepsOk(s.heap[l]);
    LocalMoveKeepsSound(s, t, l, s.heap[l].Release(), pc);
  }

  lemma WakeKeepsSound(s: State, t: TaskId)
    requires Sound(s) && WaitsAs(s, t) && StatusIn(s, t).Woken?
    ensures var l := s.tasks[t].pc.lock; Sound(Entered(WithLock(s, l, s.heap[l].Resume(t)), t, l))
  {
    var l := s.tasks[t].pc.lock;
    assert LockOk(s, l);
    ResumeKeepsOk(s.heap[l], t);
    ForgetKeepsOthers(s.heap[l], t);
    LocalMoveKeepsSound(s, t, l, s.heap[l].Resume(t), if s.tasks[t].kind.Fetch? then Recheck(l) else Loading(l));
  }

  lemma DropKeepsSound(s: State, t: TaskId)
    requires Sound(s) && WaitsAs(s, t) && !StatusIn(s, t).Pending?
    ensures var l := s.tasks[t].pc.lock; Sound(Goto(WithLock(s, l, s.heap[l].GiveUp(t)), t, Ended))
  {
    var l := s.tasks[t].pc.lock;
    assert LockOk(s, l);
    GiveUpKeepsOk(s.heap[l], t);
    LocalMoveKeepsSound(s, t, l, s.heap[l].GiveUp(t), Ended);
  }

  lemma CancelKeepsSound(s: State, t: TaskId)
    requires Sound(s) && WaitsAs(s, t)
    ensures var l := s.tasks[t].pc.lock; Sound(WithLock(s, l, s.heap[l].RequestCancel(t)))
  {
    var l := s.tasks[t].pc.lock;
    assert LockOk(s, l);
    RequestCancelKeepsOk(s.heap[l], t);
    LocalMoveKeepsSound(s, t, l, s.heap[l].RequestCancel(t), Queued(l));
    var s1 := WithLock(s, l, s.heap[l].RequestCancel(t));
    assert Goto(s1, t, Queued(l)).tasks == s1.tasks;
  }

  /** Moving on inside the critical section leaves the locks alone. */
  lemma StepInsideKeepsSound(s: State, t: TaskId, pc: Pc)
    requires Sound(s) && t in s.tasks && s.tasks[t].Holds()
    requires s.tasks[t].(pc := pc).Holds() && pc.lock == s.tasks[t].pc.lock
    ensures Sound(Goto(s, t, pc))
  {
    var l := pc.lock;
    assert TaskOk(s, t) && LockOk(s, l);
    NotWaitingHere(s, t, l);
    LocalMoveKeepsSound(s, t, l, s.heap[l], pc);
    assert WithLock(s, l, s.heap[l]).heap == s.heap;
  }

  /** A task outside the critical section moves on, or a new one appears. */
  lemma OutsideKeepsSound(s: State, t: TaskId, k: Task)
    requires Sound(s) && !k.UsesLock()
    requires t in s.tasks ==> !s.tasks[t].UsesLock()
    ensures Sound(s.(tasks := s.tasks[t := k]))
  {
    var s' := s.(tasks := s.tasks[t := k]);
    forall m | 0 <= m < |s.heap| ensures LockOk(s', m) && OneHolder(s', m) {
      assert LockOk(s, m) && OneHolder(s, m);
      if s.heap[m].locked {
        var h :| HeldBy(s, h, m);
        assert HeldBy(s', h, m);
      }
      assert forall u :: HeldBy(s', u, m) ==> HeldBy(s, u, m);
    }
    forall u | u in s'.tasks ensures TaskOk(s', u) {
      assert u != t ==> TaskOk(s, u);
    }
  }

  /** A new free lock at the end of the heap, or none, with the tasks as they were. */
  lemma SameLocksKeepSound(s: State, s': State)
    requires Sound(s) && s'.tasks == s.tasks && |s.heap| <= |s'.heap|
    requires forall m :: 0 <= m < |s.heap| ==> s'.heap[m] == s.heap[m]
    requires forall m :: |s.heap| <= m < |s'.heap| ==> s'.heap[m] == Lock(false, [])
    ensures forall t :: t in s'.tasks ==> TaskOk(s', t)
    ensures forall m :: 0 <= m < |s'.heap| ==> LockOk(s', m) && OneHolder(s', m)
  {
    forall u | u in s'.tasks ensures TaskOk(s', u) {
      assert TaskOk(s, u);
    }
    forall m | 0 <= m < |s'.heap| ensures LockOk(s', m) && OneHolder(s', m) {
      if m < |s.heap| {
        assert LockOk(s, m) && OneHolder(s, m);
        if s.heap[m].locked {
          var h :| HeldBy(s, h, m);
          assert HeldBy(s', h, m);
        }
        assert forall u :: HeldBy(s', u, m) ==> HeldBy(s, u, m);
      } else {
        assert forall u :: u in s.tasks ==> TaskOk(s, u);
      }
    }
  }

  lemma LookupKeepsDistinctLocks(d: Dict<Key, LockId>, heap: seq<Lock>, max: nat, key: Key)
    requires InHeap(d, heap) && max >= 1 && DistinctLocks(d)
    ensures DistinctLocks(Lookup(d, heap, max, key).table)
  {
  }

  function LookUpTo(c: Config, s: State, t: TaskId): State
    requires t in s.tasks && EntryKnown(s, s.tasks[t].key)
  {
    LookUp(c, s, s.tasks[t].key).0
  }

  lemma LookUpKeepsSound(c: Config, s: State, t: TaskId)
    requires Sound(s) && c.maxKeys >= 1 && t in s.tasks && EntryKnown(s, s.tasks[t].key)
    ensures Sound(LookUpTo(c, s, t))
  {
    var key := s.tasks[t].key;
    LookupKeepsHeldLocks(s.table, s.heap, c.maxKeys, key);
    LookupKeepsDistinctLocks(s.table, s.heap, c.maxKeys, key);
    SameLocksKeepSound(s, LookUpTo(c, s, t));
  }

  lemma BackendKeepsSound(s: State, s': State)
    requires Sound(s)
    requires s'.table == s.table && s'.heap == s.heap && s'.tasks == s.tasks
    ensures Sound(s')
  {
    forall m | 0 <= m < |s'.heap| ensures LockOk(s', m) && OneHolder(s', m) {
      assert LockOk(s, m) && OneHolder(s, m);
      if s.heap[m].locked {
        var h :| HeldBy(s, h, m);
        assert HeldBy(s', h, m);
      }
      assert forall u :: HeldBy(s', u, m) ==> HeldBy(s, u, m);
    }
    forall u | u in s'.tasks ensures TaskOk(s', u) {
      assert TaskOk(s, u);
    }
  }

  lemma AfterLookUpKeepsSound(s: State, t: TaskId, l: LockId, refresh: bool)
    requires Sound(s) && t in s.tasks && l < |s.heap| && (s.tasks[t].pc.FirstReply? || s.tasks[t].pc.RefreshNew?)
    ensures Sound(if refresh && s.heap[l].locked then Goto(s, t, Ended) else Acquire(s, t, l))
  {
    if refresh && s.heap[l].locked {
      OutsideKeepsSound(s, t, s.tasks[t].(pc := Ended));
    } else {
      AcquireKeepsSound(s, t, l);
    }
  }

  lemma LookUpStepIs(c: Config, s: State, t: TaskId)
    requires t in s.tasks && EntryKnown(s, s.tasks[t].key)
    ensures var (s1, l) := (LookUpTo(c, s, t), LookUp(c, s, s.tasks[t].key).1);
      && s1.tasks == s.tasks && l < |s1.heap|
      && LookUpStep(c, s, t) == if s.tasks[t].pc.RefreshNew? && s1.heap[l].locked then Goto(s1, t, Ended) else Acquire(s1, t, l)
  {
  }

  lemma StepFromLookUpKeepsSound(c: Config, s: State, t: TaskId)
    requires t in s.tasks && EntryKnown(s, s.tasks[t].key) && Sound(LookUpTo(c, s, t))
    requires s.tasks[t].pc.FirstReply? || s.tasks[t].pc.RefreshNew?
    ensures Sound(LookUpStep(c, s, t))
  {
    LookUpStepIs(c, s, t);
    AfterLookUpKeepsSound(LookUpTo(c, s, t), t, LookUp(c, s, s.tasks[t].key).1, s.tasks[t].pc.RefreshNew?);
  }

  lemma LookUpStepKeepsSound(c: Config, s: State, t: TaskId)
    requires Sound(s) && c.maxKeys >= 1 && t in s.tasks && EntryKnown(s, s.tasks[t].key)
    requires s.tasks[t].pc.FirstReply? || s.tasks[t].pc.RefreshNew?
    ensures Sound(LookUpStep(c, s, t))
  {
    LookUpKeepsSound(c, s, t);
    StepFromLookUpKeepsSound(c, s, t);
  }

  lemma LookingUpKeepsSound(c: Config, s: State, a: Action)
    requires Sound(s) && Enabled(s, a) && c.maxKeys >= 1 && LooksUp(s, a)
    ensures Sound(Next(c, s, a))
  {
    LookUpStepKeepsSound(c, s, a.t);
  }

  lemma BackendAnswerKeepsSound(c: Config, s: State, a: Action)
    requires Sound(s) && Enabled(s, a)
    requires a.Answer? || a.StoreAnswers? || a.Remove? || a.Write?
    ensures Sound(Next(c, s, a))
  {
    match a
    case Answer(t, fault, faulty) =>
      var k := s.tasks[t];
      var s1 := if fault then Note(s, [ReadFaulted(k.key, k.pc.Recheck?, faulty)]) else s;
      BackendKeepsSound(s, s1);
      var k' := Next(c, s, a).tasks[t];
      if k.pc.FirstRead? {
        OutsideKeepsSound(s1, t, k');
      } else {
        StepInsideKeepsSound(s1, t, k'.pc);
      }
    case StoreAnswers(t, ok, applied) =>
      var k := s.tasks[t];
      var s1 := if applied then s.(store := s.store[c.storeKey(k.key) := k.pc.value]) else s;
      var s2 := if ok then s1 else Note(s1, Failure(k));
      BackendKeepsSound(s, s2);
      StepInsideKeepsSound(s2, t, Stored(k.pc.lock, k.pc.value));
    case Remove(_) => BackendKeepsSound(s, Next(c, s, a));
    case Write(_, _) => BackendKeepsSound(s, Next(c, s, a));
  }

  lemma OwnerStepKeepsSound(c: Config, s: State, a: Action)
    requires Sound(s) && Enabled(s, a)
    requires a.AfterRecheck? || a.LoaderReturns? || a.AfterStore? || a.Raise?
    ensures Sound(Next(c, s, a))
  {
    var k := s.tasks[a.t];
    var s1 := s.(log := Next(c, s, a).log);
    BackendKeepsSound(s, s1);
    var pc := Next(c, s, a).tasks[a.t].pc;
    if k.(pc := pc).Holds() {
      StepInsideKeepsSound(s1, a.t, pc);
    } else {
      LeaveKeepsSound(s1, a.t, pc);
    }
  }

  lemma FirstHitKeepsSound(c: Config, s: State, a: Action)
    requires Sound(s) && Enabled(s, a) && a.AfterFirst? && !LooksUp(s, a)
    ensures Sound(Next(c, s, a))
  {
    var k := s.tasks[a.t];
    OutsideKeepsSound(s, a.t, k.(pc := Returned(k.pc.reply.value)));
    OutsideKeepsSound(Goto(s, a.t, Returned(k.pc.reply.value)), a.refresher, Task(Refresh, k.key, RefreshNew));
  }

  lemma NextKeepsSound(c: Config, s: State, a: Action)
    requires Sound(s) && Enabled(s, a) && c.maxKeys >= 1
    ensures Sound(Next(c, s, a))
  {
    match a
    case Call(t, k) => OutsideKeepsSound(s, t, Task(Fetch, k, FirstRead));
    case Wake(t) => WakeKeepsSound(s, t);
    case CancelWait(t) => CancelKeepsSound(s, t);
    case DropWait(t) => DropKeepsSound(s, t);
    case AfterFirst(_, _) =>
      if LooksUp(s, a) {
        LookingUpKeepsSound(c, s, a);
      } else {
        FirstHitKeepsSound(c, s, a);
      }
    case RunRefresh(_) => LookingUpKeepsSound(c, s, a);
    case Answer(_, _, _) => BackendAnswerKeepsSound(c, s, a);
    case StoreAnswers(_, _, _) => BackendAnswerKeepsSound(c, s, a);
    case Remove(_) => BackendAnswerKeepsSound(c, s, a);
    case Write(_, _) => BackendAnswerKeepsSound(c, s, a);
    case _ => OwnerStepKeepsSound(c, s, a);
  }

  /** In every run: one lock, one holder. */
  lemma {:induction false} RunsAreSound(c: Config, acts: seq<Action>)
    requires c.maxKeys >= 1 && Exec(c, acts).At?
    ensures Sound(Exec(c, acts).state)
    decreases |acts|
  {
    if acts != [] {
      var n := |acts| - 1;
      RunsAreSound(c, acts[..n]);
      NextKeepsSound(c, Exec(c, acts[..n]).state, acts[n]);
    }
  }

  predicate Unfinished(k: Task) {
    !k.pc.Returned? && !k.pc.Ended?
  }

  /** The task is waiting for something outside the protocol that can always
      happen (the backend, the loader, its own resumption), or for its turn. */
  predicate CanMove(s: State, t: TaskId) {
    t in s.tasks &&
    exists a :: a in [Answer(t, false, Miss), AfterFirst(t, t), RunRefresh(t), Wake(t), DropWait(t),
                      AfterRecheck(t), LoaderReturns(t, Value("")), StoreAnswers(t, true, true), AfterStore(t)] &&
                Enabled(s, a)
  }

  predicate SharesLock(s: State, t: TaskId, u: TaskId) {
    && t in s.tasks && u in s.tasks
    && s.tasks[t].pc.Queued? && s.tasks[u].UsesLock() && s.tasks[u].pc.lock == s.tasks[t].pc.lock
  }

  /** No lost wake-up and no deadlock: behind every queued task there is one on
      the same lock that can move. */
  lemma NoDeadlock(s: State, t: TaskId)
    requires Sound(s) && t in s.tasks && Unfinished(s.tasks[t])
    ensures exists u :: CanMove(s, u) && (u == t || SharesLock(s, t, u))
  {
    assert TaskOk(s, t);
    if s.tasks[t].pc.Queued? {
      var l := s.tasks[t].pc.lock;
      assert LockOk(s, l) && OneHolder(s, l);
      if s.heap[l].locked {
        var h :| HeldBy(s, h, l);
        HolderCanMove(s, h);
      } else {
        var h := s.heap[l].waiters[0].task;
        assert Position(s.heap[l].waiters, h) == 0;
        assert Enabled(s, if StatusIn(s, h).Woken? then Wake(h) else DropWait(h));
        assert CanMove(s, h);
      }
    } else {
      HolderCanMove(s, t);
    }
  }

  lemma HolderCanMove(s: State, t: TaskId)
    requires Sound(s) && t in s.tasks && Unfinished(s.tasks[t]) && !s.tasks[t].pc.Queued?
    ensures CanMove(s, t)
  {
    assert TaskOk(s, t);
    var moves := [Answer(t, false, Miss), AfterFirst(t, t), RunRefresh(t), Wake(t), DropWait(t),
                  AfterRecheck(t), LoaderReturns(t, Value("")), StoreAnswers(t, true, true), AfterStore(t)];
    var i := match s.tasks[t].pc
      case FirstReply(_) => 1
      case RefreshNew => 2
      case RecheckReply(_, _) => 5
      case Loading(_) => 6
      case Storing(_, _) => 7
      case Stored(_, _) => 8
      case _ => 0;
    assert moves[i] in moves && Enabled(s, moves[i]);
  }
}
