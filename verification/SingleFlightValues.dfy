// What is cached, what a read answers and what a caller is given, as functions of the
// actions of a run.
module SingleFlightValues {
  import opened Basics
  import opened InflightLocks
  import opened SingleFlight
  import opened SingleFlightRuns
  import opened SingleFlightSafety

  datatype Origin = Origin(kind: Kind, key: Key)

  /** The call, or the stale hit, that created task t. */
  function OriginOf(acts: seq<Action>, t: TaskId): Option<Origin> {
    if acts == [] then None
    else
      var (past, a) := (acts[..|acts| - 1], acts[|acts| - 1]);
      if a.Call? && a.t == t then Some(Origin(Fetch, a.key))
      else if a.AfterFirst? && a.refresher == t && a.t != t then
        match OriginOf(past, a.t)
        case Some(o) => Some(Origin(Refresh, o.key))
        case None => None
      else OriginOf(past, t)
  }

  /** What the loader of t returned. */
  function LoadedBy(acts: seq<Action>, t: TaskId): Option<Value> {
    if acts == [] then None
    else
      var (past, a) := (acts[..|acts| - 1], acts[|acts| - 1]);
      if a.LoaderReturns? && a.t == t then Some(a.value) else LoadedBy(past, t)
  }

  /** The last thing that happened to the slot: a task of either kind stored what its
      loader returned, somebody else wrote, or the value went away. */
  function Content(c: Config, acts: seq<Action>, slot: Key): Option<Value> {
    if acts == [] then None
    else
      var (past, a) := (acts[..|acts| - 1], acts[|acts| - 1]);
      if a.StoreAnswers? && a.applied && OriginOf(past, a.t).Some? && c.storeKey(OriginOf(past, a.t).value.key) == slot then
        LoadedBy(past, a.t)
      else if a.Write? && a.slot == slot then Some(a.value)
      else if a.Remove? && a.slot == slot then None
      else Content(c, past, slot)
  }

  function AsReply(content: Option<Value>): Reply {
    match content
    case Some(v) => Hit(v)
    case None => Miss
  }

  /** What the last get of t answered. */
  function ReadBy(c: Config, acts: seq<Action>, t: TaskId): Option<Reply> {
    if acts == [] then None
    else
      var (past, a) := (acts[..|acts| - 1], acts[|acts| - 1]);
      if a.Answer? && a.t == t then
        if a.fault then Some(a.faulty)
        else if OriginOf(past, t).Some? then Some(AsReply(Content(c, past, c.storeKey(OriginOf(past, t).value.key))))
        else None
      else ReadBy(c, past, t)
  }

  /** The task whose step this is. */
  function Actor(a: Action): Option<TaskId> {
    match a
    case Remove(_) => None
    case Write(_, _) => None
    case _ => Some(a.t)
  }

  /** What t was given: the value a read found, or the one its own loader returned. */
  function GivenTo(c: Config, acts: seq<Action>, t: TaskId): Option<Value> {
    if acts == [] then None
    else
      var (past, a) := (acts[..|acts| - 1], acts[|acts| - 1]);
      if Actor(a) != Some(t) then GivenTo(c, past, t)
      else if a.AfterFirst? || a.AfterRecheck? then
        if ReadBy(c, past, t).Some? && ReadBy(c, past, t).value.Hit? then Some(ReadBy(c, past, t).value.value) else None
      else if a.AfterStore? && OriginOf(past, t).Some? && OriginOf(past, t).value.kind.Fetch? then LoadedBy(past, t)
      else None
  }

  /** Task t is where the actions have brought it. */
  ghost predicate TaskTold(c: Config, acts: seq<Action>, s: State, t: TaskId) {
    t in s.tasks ==>
      var k := s.tasks[t];
      && OriginOf(acts, t) == Some(Origin(k.kind, k.key))
      && (k.pc.Storing? || k.pc.Stored? ==> LoadedBy(acts, t) == Some(k.pc.value))
      && (k.pc.FirstReply? || k.pc.RecheckReply? ==> ReadBy(c, acts, t) == Some(k.pc.reply))
      && GivenTo(c, acts, t) == if k.pc.Returned? then Some(k.pc.value) else None
  }

  function Cached(s: State, slot: Key): Option<Value> {
    if slot in s.store then Some(s.store[slot]) else None
  }

  ghost predicate Told(c: Config, acts: seq<Action>, s: State) {
    && (forall t :: TaskTold(c, acts, s, t))
    && (forall slot :: Cached(s, slot) == Content(c, acts, slot))
    && (forall t :: t !in s.tasks ==> GivenTo(c, acts, t) == None)
  }

  lemma NextStore(c: Config, s: State, a: Action)
    requires Enabled(s, a)
    ensures Next(c, s, a).store ==
      match a
      case StoreAnswers(t, _, applied) =>
        if applied then s.store[c.storeKey(s.tasks[t].key) := s.tasks[t].pc.value] else s.store
      case Remove(slot) => s.store - {slot}
      case Write(slot, v) => s.store[slot := v]
      case _ => s.store
  {
  }

  lemma StoreStep(c: Config, past: seq<Action>, s: State, a: Action, slot: Key)
    requires Told(c, past, s) && Enabled(s, a)
    ensures Cached(Next(c, s, a), slot) == Content(c, past + [a], slot)
  {
    assert (past + [a])[..|past|] == past;
    NextStore(c, s, a);
    assert Cached(s, slot) == Content(c, past, slot);
    if a.StoreAnswers? {
      assert TaskTold(c, past, s, a.t);
    }
  }

  /** A task that does not move stays as it is. */
  lemma OtherTasks(c: Config, s: State, a: Action, t: TaskId)
    requires Enabled(s, a) && t in s.tasks && Actor(a) != Some(t)
    ensures t in Next(c, s, a).tasks && Next(c, s, a).tasks[t] == s.tasks[t]
  {
  }

  lemma NewTasks(c: Config, s: State, a: Action, t: TaskId)
    requires Enabled(s, a) && t !in s.tasks && t in Next(c, s, a).tasks
    ensures var k := Next(c, s, a).tasks[t];
      || (a.Call? && a.t == t && k == Task(Fetch, a.key, FirstRead))
      || (a.AfterFirst? && a.refresher == t && a.t != t && k == Task(Refresh, s.tasks[a.t].key, RefreshNew))
  {
  }

  /** Neither given a value nor about to be. */
  predicate EmptyHanded(pc: Pc) {
    pc.FirstRead? || pc.RefreshNew? || pc.Queued? || pc.Recheck? || pc.Loading? || pc.Ended?
  }

  lemma LookingUpIsEmptyHanded(c: Config, s: State, t: TaskId)
    requires t in s.tasks && EntryKnown(s, s.tasks[t].key)
    ensures EmptyHanded(LookUpStep(c, s, t).tasks[t].pc)
  {
  }

  lemma QueueStepIsEmptyHanded(s: State, a: Action)
    requires Enabled(s, a) && (a.Wake? || a.CancelWait? || a.DropWait?)
    ensures a.t in s.tasks && EmptyHanded(s.tasks[a.t].pc)
    ensures EmptyHanded(QueueStep(s, a).tasks[a.t].pc)
  {
  }

  /** Where the step of a task leads. */
  lemma OwnStep(c: Config, s: State, a: Action)
    requires Enabled(s, a) && Actor(a).Some? && !a.Call?
    ensures a.t in s.tasks && a.t in Next(c, s, a).tasks
    ensures var (k, k') := (s.tasks[a.t], Next(c, s, a).tasks[a.t]);
      k'.key == k.key && k'.kind == k.kind && LeadsTo(c, s, a, k, k'.pc)
  {
    if LooksUp(s, a) {
      LookingUpIsEmptyHanded(c, s, a.t);
    } else if a.Wake? || a.CancelWait? || a.DropWait? {
      QueueStepIsEmptyHanded(s, a);
    }
  }

  predicate LeadsTo(c: Config, s: State, a: Action, k: Task, pc: Pc) {
    match a
    case Answer(_, fault, faulty) =>
      (pc.FirstReply? || pc.RecheckReply?) && pc.reply == (if fault then faulty else AsReply(Cached(s, c.storeKey(k.key))))
    case AfterFirst(_, _) =>
      k.pc.FirstReply? && if k.pc.reply.Hit? then pc == Returned(k.pc.reply.value) else EmptyHanded(pc)
    case AfterRecheck(_) =>
      k.pc.RecheckReply? && if k.pc.reply.Hit? then pc == Returned(k.pc.reply.value) else EmptyHanded(pc)
    case LoaderReturns(_, v) => pc.Storing? && pc.value == v
    case StoreAnswers(_, _, _) => k.pc.Storing? && pc.Stored? && pc.value == k.pc.value
    case AfterStore(_) => k.pc.Stored? && pc == if k.kind.Fetch? then Returned(k.pc.value) else Ended
    case _ => EmptyHanded(pc)
  }

  lemma OwnStepIsTold(c: Config, past: seq<Action>, s: State, a: Action)
    requires Told(c, past, s) && Enabled(s, a) && Actor(a).Some? && !a.Call?
    ensures TaskTold(c, past + [a], Next(c, s, a), a.t)
  {
    assert (past + [a])[..|past|] == past;
    OwnStep(c, s, a);
    assert TaskTold(c, past, s, a.t);
    assert Cached(s, c.storeKey(s.tasks[a.t].key)) == Content(c, past, c.storeKey(s.tasks[a.t].key));
  }

  lemma TaskStep(c: Config, past: seq<Action>, s: State, a: Action, t: TaskId)
    requires Told(c, past, s) && Enabled(s, a)
    ensures TaskTold(c, past + [a], Next(c, s, a), t)
  {
    if t in Next(c, s, a).tasks {
      if t !in s.tasks {
        NewTaskIsTold(c, past, s, a, t);
      } else if Actor(a) == Some(t) {
        OwnStepIsTold(c, past, s, a);
      } else {
        OtherTaskIsTold(c, past, s, a, t);
      }
    }
  }

  lemma NewTaskIsTold(c: Config, past: seq<Action>, s: State, a: Action, t: TaskId)
    requires Told(c, past, s) && Enabled(s, a) && t !in s.tasks && t in Next(c, s, a).tasks
    ensures TaskTold(c, past + [a], Next(c, s, a), t)
  {
    assert (past + [a])[..|past|] == past;
    NewTasks(c, s, a, t);
    if a.AfterFirst? {
      assert TaskTold(c, past, s, a.t);
    }
  }

  lemma OtherTaskIsTold(c: Config, past: seq<Action>, s: State, a: Action, t: TaskId)
    requires Told(c, past, s) && Enabled(s, a) && t in s.tasks && Actor(a) != Some(t)
    ensures TaskTold(c, past + [a], Next(c, s, a), t)
  {
    assert (past + [a])[..|past|] == past;
    OtherTasks(c, s, a, t);
    assert TaskTold(c, past, s, t);
  }

  lemma NobodyYet(c: Config, past: seq<Action>, s: State, a: Action, t: TaskId)
    requires Told(c, past, s) && Enabled(s, a) && t !in Next(c, s, a).tasks
    ensures GivenTo(c, past + [a], t) == None
  {
    assert (past + [a])[..|past|] == past;
    if t in s.tasks {
      if Actor(a) == Some(t) {
        OwnStep(c, s, a);
      } else {
        OtherTasks(c, s, a, t);
      }
    }
  }

  lemma ToldStep(c: Config, past: seq<Action>, s: State, a: Action)
    requires Told(c, past, s) && Enabled(s, a)
    ensures Told(c, past + [a], Next(c, s, a))
  {
    var (acts, r) := (past + [a], Next(c, s, a));
    forall slot ensures Cached(r, slot) == Content(c, acts, slot) {
      StoreStep(c, past, s, a, slot);
    }
    forall t ensures TaskTold(c, acts, r, t) {
      TaskStep(c, past, s, a, t);
    }
    forall t | t !in r.tasks ensures GivenTo(c, acts, t) == None {
      NobodyYet(c, past, s, a, t);
    }
  }

  /** Every run: what is cached is what was stored, written or removed last, and every
      task has the key, the value and the reply that the actions gave it. */
  lemma {:induction false} RunIsTold(c: Config, acts: seq<Action>)
    requires Exec(c, acts).At?
    ensures Told(c, acts, Exec(c, acts).state)
    decreases |acts|
  {
    if acts != [] {
      var n := |acts| - 1;
      RunIsTold(c, acts[..n]);
      assert acts == acts[..n] + [acts[n]];
      ToldStep(c, acts[..n], Exec(c, acts[..n]).state, acts[n]);
    }
  }

  /** Once the loader of a task, caller or refresh, has returned and its set takes
      effect, that value is cached under the key, and nothing else has changed. */
  lemma StoredIsLoaded(c: Config, acts: seq<Action>, t: TaskId, ok: bool)
    requires Exec(c, acts + [StoreAnswers(t, ok, true)]).At?
    ensures Exec(c, acts).At? && OriginOf(acts, t).Some? && LoadedBy(acts, t).Some?
    ensures Exec(c, acts + [StoreAnswers(t, ok, true)]).state.store ==
      Exec(c, acts).state.store[c.storeKey(OriginOf(acts, t).value.key) := LoadedBy(acts, t).value]
  {
    var a := StoreAnswers(t, ok, true);
    assert (acts + [a])[..|acts|] == acts;
    RunIsTold(c, acts);
    assert TaskTold(c, acts, Exec(c, acts).state, t);
    NextStore(c, Exec(c, acts).state, a);
  }

  /** A read that does not fail answers what is cached by then. */
  lemma ReadsAnswerContent(c: Config, acts: seq<Action>, t: TaskId, faulty: Reply)
    requires Exec(c, acts + [Answer(t, false, faulty)]).At?
    ensures OriginOf(acts, t).Some?
    ensures var r := Exec(c, acts + [Answer(t, false, faulty)]).state; t in r.tasks
    ensures var pc := Exec(c, acts + [Answer(t, false, faulty)]).state.tasks[t].pc;
      (pc.FirstReply? || pc.RecheckReply?) && pc.reply == AsReply(Content(c, acts, c.storeKey(OriginOf(acts, t).value.key)))
  {
    var a := Answer(t, false, faulty);
    var s := Exec(c, acts).state;
    assert (acts + [a])[..|acts|] == acts;
    RunIsTold(c, acts);
    assert TaskTold(c, acts, s, t);
    OwnStep(c, s, a);
    assert Cached(s, c.storeKey(s.tasks[t].key)) == Content(c, acts, c.storeKey(s.tasks[t].key));
  }

  /** A task has returned v iff v is what it was given: what its last read found, or
      else, for a caller, what its own loader returned. */
  lemma ReturnedIsGiven(c: Config, acts: seq<Action>, t: TaskId, v: Value)
    requires Exec(c, acts).At? && t in Exec(c, acts).state.tasks
    ensures Exec(c, acts).state.tasks[t].pc == Returned(v) <==> GivenTo(c, acts, t) == Some(v)
  {
    RunIsTold(c, acts);
    assert TaskTold(c, acts, Exec(c, acts).state, t);
  }

  /** The lock of a key: the tracked one, or a new one. */
  function LockFor(s: State, key: Key): Lock
    requires EntryKnown(s, key)
  {
    if key in s.table.vals then s.heap[s.table.vals[key]] else Lock(false, [])
  }

  /** Asking for the lock: a refresh gives up if it is held, a free lock is taken at
      once, and otherwise the task is the last in its queue. */
  lemma AskingForLock(c: Config, s: State, t: TaskId)
    requires t in s.tasks && EntryKnown(s, s.tasks[t].key) && c.maxKeys >= 1 && InHeap(s.table, s.heap)
    ensures var (r, lk) := (LookUpStep(c, s, t), LockFor(s, s.tasks[t].key));
      && s.tasks[t].key in r.table.vals && r.table.vals[s.tasks[t].key] < |r.heap|
      && var (pc, l) := (r.tasks[t].pc, r.table.vals[s.tasks[t].key]);
      if s.tasks[t].pc.RefreshNew? && lk.locked then pc == Ended && r.heap[l] == lk
      else if lk.Free() then
        pc == (if s.tasks[t].kind.Fetch? then Recheck(l) else Loading(l)) && r.heap[l] == lk.(locked := true)
      else pc == Queued(l) && r.heap[l] == lk.(waiters := lk.waiters + [Waiter(t, Pending)])
  {
    LookupKeepsHeldLocks(s.table, s.heap, c.maxKeys, s.tasks[t].key);
  }

  function Scheduled(s: State, t: TaskId, r: TaskId, v: Value): State
    requires t in s.tasks
  {
    s.(tasks := s.tasks[t := s.tasks[t].(pc := Returned(v))][r := Task(Refresh, s.tasks[t].key, RefreshNew)])
  }

  lemma RefreshIsScheduled(c: Config, acts: seq<Action>, s: State, t: TaskId, r: TaskId, v: Value) returns (longer: seq<Action>)
    requires Exec(c, acts) == At(s) && t in s.tasks && s.tasks[t].pc == FirstReply(Hit(v)) && EntryKnown(s, s.tasks[t].key)
    requires r !in s.tasks
    ensures acts <= longer && Exec(c, longer) == At(Scheduled(s, t, r, v))
  {
    longer := Step(c, acts, s, AfterFirst(t, r));
  }

  ghost predicate OnlyMovedTo(s: State, e: State, r: TaskId, pc: Pc) {
    && r in s.tasks && e.heap == s.heap && e.tasks == s.tasks[r := s.tasks[r].(pc := pc)]
  }

  lemma ValueIsLoaded(c: Config, acts: seq<Action>, s: State, r: TaskId, l: LockId, v: Value) returns (longer: seq<Action>, e: State)
    requires Exec(c, acts) == At(s) && r in s.tasks && s.tasks[r].pc == Loading(l)
    ensures acts <= longer && Exec(c, longer) == At(e) && OnlyMovedTo(s, e, r, Storing(l, v)) && e.store == s.store
  {
    longer := Step(c, acts, s, LoaderReturns(r, v));
    e := Next(c, s, LoaderReturns(r, v));
  }

  lemma ValueIsStored(c: Config, acts: seq<Action>, s: State, r: TaskId, l: LockId, v: Value) returns (longer: seq<Action>, e: State)
    requires Exec(c, acts) == At(s) && r in s.tasks && s.tasks[r].pc == Storing(l, v)
    ensures acts <= longer && Exec(c, longer) == At(e) && OnlyMovedTo(s, e, r, Stored(l, v))
    ensures e.store == s.store[c.storeKey(s.tasks[r].key) := v]
  {
    longer := Step(c, acts, s, StoreAnswers(r, true, true));
    e := Next(c, s, StoreAnswers(r, true, true));
  }

  lemma RefreshLoads(c: Config, acts: seq<Action>, s: State, r: TaskId, l: LockId, v: Value) returns (longer: seq<Action>, e: State)
    requires Exec(c, acts) == At(s) && r in s.tasks && s.tasks[r].kind.Refresh? && s.tasks[r].pc == Loading(l) && l < |s.heap|
    ensures acts <= longer && Exec(c, longer) == At(e)
    ensures e.store == s.store[c.storeKey(s.tasks[r].key) := v] && r in e.tasks && e.tasks[r].pc == Ended
    ensures forall u :: u in s.tasks && u != r ==> u in e.tasks && e.tasks[u] == s.tasks[u]
  {
    var s1, s2;
    longer, s1 := ValueIsLoaded(c, acts, s, r, l, v);
    longer, s2 := ValueIsStored(c, longer, s1, r, l, v);
    longer := Step(c, longer, s2, AfterStore(r));
    e := Next(c, s2, AfterStore(r));
  }

  /** A caller that finds a stale value returns it, and the refresh it schedules, if
      the lock is free, puts a new one in the cache. */
  lemma RefreshCaches(c: Config, acts: seq<Action>, t: TaskId, r: TaskId, stale: Value, v: Value) returns (longer: seq<Action>)
    requires c.maxKeys >= 1 && Exec(c, acts).At?
    requires var s := Exec(c, acts).state; t in s.tasks && s.tasks[t].pc == FirstReply(Hit(stale)) && r !in s.tasks
    requires var s := Exec(c, acts).state; EntryKnown(s, s.tasks[t].key) ==> LockFor(s, s.tasks[t].key).Free()
    ensures acts <= longer && Exec(c, longer).At?
    ensures var (s, e) := (Exec(c, acts).state, Exec(c, longer).state);
      && t in e.tasks && e.tasks[t].pc == Returned(stale)
      && e.store == s.store[c.storeKey(s.tasks[t].key) := v]
  {
    var s := Exec(c, acts).state;
    RunsAreSound(c, acts);
    longer := RefreshIsScheduled(c, acts, s, t, r, stale);
    var s1 := Scheduled(s, t, r, stale);
    longer := Step(c, longer, s1, RunRefresh(r));
    AskingForLock(c, s1, r);
    var s2 := LookUpStep(c, s1, r);
    var e;
    longer, e := RefreshLoads(c, longer, s2, r, s2.tasks[r].pc.lock, v);
  }

  /** A caller that is cancelled while it waits leaves the queue. */
  lemma CancelledCallerLeaves(c: Config, s: State, t: TaskId)
    requires Enabled(s, CancelWait(t)) && s.heap[s.tasks[t].pc.lock].Ok()
    ensures var s1 := Next(c, s, CancelWait(t));
      && Enabled(s1, DropWait(t))
      && var r := Next(c, s1, DropWait(t));
      t in r.tasks && r.tasks[t].pc == Ended && !r.heap[s.tasks[t].pc.lock].Waiting(t)
  {
    var lk := s.heap[s.tasks[t].pc.lock];
    var cancelled := lk.RequestCancel(t);
    SamePlace(lk.waiters, cancelled.waiters, t);
    GivesUpPlace(cancelled, t);
  }

  lemma {:induction false} SamePlace(ws: seq<Waiter>, vs: seq<Waiter>, t: TaskId)
    requires |ws| == |vs| && forall i :: 0 <= i < |ws| ==> ws[i].task == vs[i].task
    ensures Position(ws, t) == Position(vs, t)
  {
    if ws != [] {
      SamePlace(ws[1..], vs[1..], t);
    }
  }

  lemma GivesUpPlace(lk: Lock, t: TaskId)
    requires lk.Waiting(t) && forall i, j :: 0 <= i < j < |lk.waiters| ==> lk.waiters[i].task != lk.waiters[j].task
    ensures !lk.Forget(t).Waiting(t) && !lk.GiveUp(t).Waiting(t)
  {
    var r := lk.Forget(t);
    SamePlace(r.waiters, r.WakeFirst().waiters, t);
  }

  /** A loader or a set that fails ends its task and gives the lock back. */
  lemma FailureReleasesLock(c: Config, s: State, t: TaskId)
    requires t in s.tasks && s.tasks[t].Holds() && LockKnown(s, t)
    ensures Enabled(s, Raise(t))
    ensures var r := Next(c, s, Raise(t)); t in r.tasks && r.tasks[t].pc == Ended && !r.heap[s.tasks[t].pc.lock].locked
  {
  }
}
