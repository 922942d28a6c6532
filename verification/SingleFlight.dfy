// fetch_or_set and _background_refresh as a protocol of cooperating tasks.  Each
// action is one run of a task between two awaits, one answer of the backend, or
// one event from outside (a removal, an expiry, a direct write, a cancellation).
module SingleFlight {
  import opened Basics
  import opened OrderedDict
  import opened InflightLocks

  datatype Reply = Hit(value: Value) | Miss

  datatype Pc =
    | FirstRead                          // awaiting the unlocked get
    | FirstReply(reply: Reply)
    | RefreshNew                         // created by create_task, not yet run
    | Queued(lock: LockId)               // awaiting lock.acquire()
    | Recheck(lock: LockId)              // holding the lock, awaiting the second get
    | RecheckReply(lock: LockId, reply: Reply)
    | Loading(lock: LockId)              // awaiting the loader
    | Storing(lock: LockId, value: Value)  // awaiting set
    | Stored(lock: LockId, value: Value)   // set has its outcome, task not yet resumed
    | Returned(value: Value)
    | Ended                              // raised, cancelled, or a finished refresh

  datatype Kind = Fetch | Refresh

  datatype Task = Task(kind: Kind, key: Key, pc: Pc) {
    predicate UsesLock() {
      pc.Queued? || Holds()
    }
    predicate Holds() {
      pc.Recheck? || pc.RecheckReply? || pc.Loading? || pc.Storing? || pc.Stored?
    }
    /** A loader run is in progress: from its start until its value is stored. */
    predicate InLoader() {
      pc.Loading? || pc.Storing?
    }
  }

  datatype Event =
    | LoadStarted(key: Key)    // fetch_or_set called the loader
    | LoadReturned(key: Key, value: Value)
    | LoadFailed(key: Key)     // ... which raised or was cancelled
    | SetFailed(key: Key)      // set returned False or was cancelled
    | ReadFaulted(key: Key, locked: bool, answer: Reply)   // get fell back; locked: the re-check under the lock
    | Removed(slot: Key)       // deleted, invalidated or expired in the backend
    | Written(slot: Key)       // set by somebody outside this protocol

  /** storeKey is YokedCache._build_key: locks use the raw key, values the built one. */
  datatype Config = Config(maxKeys: nat, storeKey: Key -> Key)

  datatype State = State(
    table: Dict<Key, LockId>,
    heap: seq<Lock>,
    tasks: map<TaskId, Task>,
    store: map<Key, Value>,
    log: seq<Event>)

  const INITIAL := State(Dict([], map[]), [], map[], map[], [])

  datatype Action =
    | Call(t: TaskId, key: Key)
    | Answer(t: TaskId, fault: bool, faulty: Reply)
    | AfterFirst(t: TaskId, refresher: TaskId)   // refresher == t: no refresh is scheduled
    | RunRefresh(t: TaskId)
    | Wake(t: TaskId)
    | CancelWait(t: TaskId)
    | DropWait(t: TaskId)
    | AfterRecheck(t: TaskId)
    | LoaderReturns(t: TaskId, value: Value)
    | StoreAnswers(t: TaskId, ok: bool, applied: bool)
    | AfterStore(t: TaskId)
    | Raise(t: TaskId)
    | Remove(slot: Key)
    | Write(slot: Key, value: Value)

  /** The action looks a lock up: `lock = self._inflight_locks[key]`. */
  predicate LooksUp(s: State, a: Action) {
    match a
    case AfterFirst(t, r) => t in s.tasks && s.tasks[t].pc == FirstReply(Miss)
    case RunRefresh(t) => t in s.tasks && s.tasks[t].pc.RefreshNew?
    case _ => false
  }

  predicate Enabled(s: State, a: Action) {
    match a
    case Call(t, k) => t !in s.tasks
    case Answer(t, fault, faulty) => t in s.tasks && (s.tasks[t].pc.FirstRead? || s.tasks[t].pc.Recheck?)
    case AfterFirst(t, r) =>
      t in s.tasks && s.tasks[t].pc.FirstReply? && (r == t || r !in s.tasks) && EntryKnown(s, s.tasks[t].key)
    case RunRefresh(t) => t in s.tasks && s.tasks[t].pc.RefreshNew? && EntryKnown(s, s.tasks[t].key)
    case Wake(t) => WaitsAs(s, t) && StatusIn(s, t).Woken?
    case CancelWait(t) => WaitsAs(s, t)
    case DropWait(t) => WaitsAs(s, t) && !StatusIn(s, t).Pending?
    case AfterRecheck(t) => t in s.tasks && s.tasks[t].pc.RecheckReply? && LockKnown(s, t)
    case LoaderReturns(t, v) => t in s.tasks && s.tasks[t].pc.Loading?
    case StoreAnswers(t, ok, applied) => t in s.tasks && s.tasks[t].pc.Storing? && (ok ==> applied)
    case AfterStore(t) => t in s.tasks && s.tasks[t].pc.Stored? && LockKnown(s, t)
    case Raise(t) => t in s.tasks && s.tasks[t].Holds() && LockKnown(s, t)
    case Remove(slot) => true
    case Write(slot, v) => true
  }

  predicate LockKnown(s: State, t: TaskId)
    requires t in s.tasks
  {
    s.tasks[t].UsesLock() && s.tasks[t].pc.lock < |s.heap|
  }

  predicate EntryKnown(s: State, key: Key) {
    key in s.table.vals ==> s.table.vals[key] < |s.heap|
  }

  predicate WaitsAs(s: State, t: TaskId) {
    t in s.tasks && s.tasks[t].pc.Queued? && LockKnown(s, t) && s.heap[s.tasks[t].pc.lock].Waiting(t)
  }

  function StatusIn(s: State, t: TaskId): WaitStatus
    requires WaitsAs(s, t)
  {
    s.heap[s.tasks[t].pc.lock].StatusOf(t)
  }

  function Goto(s: State, t: TaskId, pc: Pc): State
    requires t in s.tasks
  {
    s.(tasks := s.tasks[t := s.tasks[t].(pc := pc)])
  }

  function WithLock(s: State, l: LockId, lk: Lock): State
    requires l < |s.heap|
  {
    s.(heap := s.heap[l := lk])
  }

  function Note(s: State, events: seq<Event>): State {
    s.(log := s.log + events)
  }

  /** What a task does once it owns lock l. */
  function Entered(s: State, t: TaskId, l: LockId): State
    requires t in s.tasks
  {
    Goto(s, t, if s.tasks[t].kind.Fetch? then Recheck(l) else Loading(l))
  }

  /** `async with lock` */
  function Acquire(s: State, t: TaskId, l: LockId): State
    requires t in s.tasks && l < |s.heap|
  {
    if s.heap[l].Free() then Entered(WithLock(s, l, s.heap[l].Take()), t, l)
    else Goto(WithLock(s, l, s.heap[l].Enqueue(t)), t, Queued(l))
  }

  /** Leaving the `async with` block. */
  function Leave(s: State, t: TaskId, pc: Pc): State
    requires t in s.tasks && LockKnown(s, t)
  {
    var l := s.tasks[t].pc.lock;
    Goto(WithLock(s, l, s.heap[l].Release()), t, pc)
  }

  function LookUp(c: Config, s: State, key: Key): (r: (State, LockId))
    requires EntryKnown(s, key)
    ensures r.1 < |r.0.heap|
  {
    var f := Lookup(s.table, s.heap, c.maxKeys, key);
    (s.(table := f.table, heap := f.heap), f.lock)
  }

  function Read(c: Config, s: State, key: Key): Reply {
    if c.storeKey(key) in s.store then Hit(s.store[c.storeKey(key)]) else Miss
  }

  /** Task t alone has moved, and if it uses a lock now then that is l. */
  ghost predicate OnlyMoved(s: State, r: State, t: TaskId, l: LockId) {
    && t in s.tasks && r.tasks.Keys == s.tasks.Keys
    && (forall u :: u in s.tasks && u != t ==> r.tasks[u] == s.tasks[u])
    && r.tasks[t].key == s.tasks[t].key && r.tasks[t].kind == s.tasks[t].kind
    && (r.tasks[t].UsesLock() ==> r.tasks[t].pc.lock == l)
    && r.store == s.store && r.log == s.log
  }

  function Failure(k: Task): seq<Event> {
    if k.pc.Loading? && k.kind.Fetch? then [LoadFailed(k.key)]
    else if k.pc.Storing? && k.kind.Fetch? then [SetFailed(k.key)]
    else []
  }

  /** A missing value, or a refresh that starts: look the lock up and ask for it.
      A refresh gives up at once if somebody holds it. */
  function LookUpStep(c: Config, s: State, t: TaskId): (r: State)
    requires t in s.tasks && EntryKnown(s, s.tasks[t].key)
    ensures OnlyMoved(s, r, t, LookUp(c, s, s.tasks[t].key).1)
    ensures r.table == LookUp(c, s, s.tasks[t].key).0.table
  {
    var (s1, l) := LookUp(c, s, s.tasks[t].key);
    if s.tasks[t].pc.RefreshNew? && s1.heap[l].locked then Goto(s1, t, Ended) else Acquire(s1, t, l)
  }

  function QueueStep(s: State, a: Action): (r: State)
    requires Enabled(s, a) && (a.Wake? || a.CancelWait? || a.DropWait?)
    ensures Extends(s, r) && r.table == s.table && r.log == s.log && r.store == s.store
  {
    var t := a.t;
    var l := s.tasks[t].pc.lock;
    match a
    case Wake(_) => Entered(WithLock(s, l, s.heap[l].Resume(t)), t, l)
    case CancelWait(_) => WithLock(s, l, s.heap[l].RequestCancel(t))
    case DropWait(_) => Goto(WithLock(s, l, s.heap[l].GiveUp(t)), t, Ended)
  }

  /** Steps of a task inside the critical section. */
  function OwnerStep(c: Config, s: State, a: Action): (r: State)
    requires Enabled(s, a)
    requires a.AfterRecheck? || a.LoaderReturns? || a.StoreAnswers? || a.AfterStore? || a.Raise?
    ensures Extends(s, r) && r.table == s.table
  {
    var t := a.t;
    var k := s.tasks[t];
    match a
    case AfterRecheck(_) =>
      if k.pc.reply.Hit? then Leave(s, t, Returned(k.pc.reply.value))
      else Goto(Note(s, if k.kind.Fetch? then [LoadStarted(k.key)] else []), t, Loading(k.pc.lock))
    case LoaderReturns(_, v) => Goto(Note(s, [LoadReturned(k.key, v)]), t, Storing(k.pc.lock, v))
    case StoreAnswers(_, ok, applied) =>
      var s1 := if applied then s.(store := s.store[c.storeKey(k.key) := k.pc.value]) else s;
      Goto(if ok then s1 else Note(s1, Failure(k)), t, Stored(k.pc.lock, k.pc.value))
    case AfterStore(_) => Leave(s, t, if k.kind.Fetch? then Returned(k.pc.value) else Ended)
    case Raise(_) => Leave(Note(s, Failure(k)), t, Ended)
  }

  function Next(c: Config, s: State, a: Action): State
    requires Enabled(s, a)
  {
    if LooksUp(s, a) then LookUpStep(c, s, a.t)
    else
      match a
      case Call(t, k) => s.(tasks := s.tasks[t := Task(Fetch, k, FirstRead)])
      case Answer(t, fault, faulty) =>
        var k := s.tasks[t];
        var r := if fault then faulty else Read(c, s, k.key);
        var s1 := if fault then Note(s, [ReadFaulted(k.key, k.pc.Recheck?, faulty)]) else s;
        Goto(s1, t, if k.pc.FirstRead? then FirstReply(r) else RecheckReply(k.pc.lock, r))
      case AfterFirst(t, r) =>
        var k := s.tasks[t];
        var s1 := Goto(s, t, Returned(k.pc.reply.value));
        if r == t then s1 else s1.(tasks := s1.tasks[r := Task(Refresh, k.key, RefreshNew)])
      case Wake(_) => QueueStep(s, a)
      case CancelWait(_) => QueueStep(s, a)
      case DropWait(_) => QueueStep(s, a)
      case Remove(slot) => Note(s.(store := s.store - {slot}), [Removed(slot)])
      case Write(slot, v) => Note(s.(store := s.store[slot := v]), [Written(slot)])
      case AfterRecheck(_) => OwnerStep(c, s, a)
      case LoaderReturns(_, _) => OwnerStep(c, s, a)
      case StoreAnswers(_, _, _) => OwnerStep(c, s, a)
      case AfterStore(_) => OwnerStep(c, s, a)
      case Raise(_) => OwnerStep(c, s, a)
  }

  /** Tasks never disappear or change their key, and the history only grows. */
  ghost predicate Extends(s: State, r: State) {
    && (forall t :: t in s.tasks ==> t in r.tasks && r.tasks[t].key == s.tasks[t].key && r.tasks[t].kind == s.tasks[t].kind)
    && s.log <= r.log
  }

  lemma NextExtends(c: Config, s: State, a: Action)
    requires Enabled(s, a)
    ensures Extends(s, Next(c, s, a))
  {
  }

  /** The state after a sequence of actions, if each was enabled in turn. */
  function Exec(c: Config, acts: seq<Action>): (r: Result)
    ensures r.At? ==> forall i :: 0 <= i <= |acts| ==> Exec(c, acts[..i]).At?
    decreases |acts|
  {
    if acts == [] then At(INITIAL)
    else
      var n := |acts| - 1;
      assert forall i :: 0 <= i <= n ==> acts[..n][..i] == acts[..i];
      assert acts[..|acts|] == acts;
      match Exec(c, acts[..n])
      case At(s) => if Enabled(s, acts[n]) then At(Next(c, s, acts[n])) else Impossible
      case Impossible => Impossible
  }

  datatype Result = At(state: State) | Impossible
}
