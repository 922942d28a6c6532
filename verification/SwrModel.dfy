// The refresh scheduler as a protocol of tasks.  Each action is one run of a task
// between two awaits, or one call from outside.  The lock of a key may be granted
// at any time, which allows every order the real locks allow.
module SwrModel {
  import opened Basics

  type TaskId = nat

  datatype Pc =
    | Fresh          // created by create_task, not yet run
    | Sleeping
    | AwaitLock
    | AwaitExists
    | AwaitLoad
    | AwaitSet
    | Finished

  datatype Task = Task(key: Key, pc: Pc, cancelled: bool, delay: real, ttl: int) {
    /** Neither finished nor asked to cancel. */
    predicate Active() {
      !pc.Finished? && !cancelled
    }
  }

  /** How far stop() is: before it, awaiting the cleanup task, awaiting the refresh
      tasks it cancelled, done. */
  datatype Phase = Running | Stopping | Gathering(waiting: set<TaskId>) | Stopped

  datatype State = State(
    table: map<Key, TaskId>,      // _refresh_tasks
    tasks: map<TaskId, Task>,     // every task ever created
    shutdown: bool,
    cleanup: bool,                // there is a cleanup task
    phase: Phase)

  const INITIAL := State(map[], map[], false, false, Running)

  datatype Answer = Yes | No | Raises

  /** What the awaited call and the cache turn out to be. */
  datatype Outcome = Outcome(cacheAlive: bool, lockFree: bool, answer: Answer, swrEnabled: bool, threshold: real)

  datatype Action =
    | Start
    | Schedule(key: Key, spare: TaskId, cacheAlive: bool, ttl: Option<int>, defaultTtl: int, threshold: real)
    | Cancel(key: Key)
    | Resume(t: TaskId, outcome: Outcome, spare: TaskId)
    | Cleanup
    | StopBegin
    | StopCancel
    | StopFinish

  predicate Enabled(s: State, a: Action) {
    match a
    case Start => true
    case Schedule(_, spare, _, _, _, _) => spare !in s.tasks
    case Cancel(_) => true
    case Resume(t, _, spare) => t in s.tasks && !s.tasks[t].pc.Finished? && spare !in s.tasks
    case Cleanup => s.cleanup && !s.shutdown
    case StopBegin => s.phase.Running? || s.phase.Stopped?
    case StopCancel => s.phase.Stopping?
    case StopFinish => s.phase.Gathering? && AllFinished(s.tasks, s.phase.waiting)
  }

  predicate AllFinished(tasks: map<TaskId, Task>, ts: set<TaskId>) {
    forall t :: t in ts && t in tasks ==> tasks[t].pc.Finished?
  }

  /** task.cancel(), which does nothing to a finished task. */
  function AskedToCancel(k: Task): Task {
    if k.pc.Finished? then k else k.(cancelled := true)
  }

  function CancelAll(tasks: map<TaskId, Task>, ts: set<TaskId>): (r: map<TaskId, Task>)
    ensures r.Keys == tasks.Keys
    ensures forall t :: t in r ==> r[t] == if t in ts then AskedToCancel(tasks[t]) else tasks[t]
  {
    map t | t in tasks :: if t in ts then AskedToCancel(tasks[t]) else tasks[t]
  }

  function CancelRefresh(s: State, k: Key): State {
    if k in s.table then s.(table := s.table - {k}, tasks := CancelAll(s.tasks, {s.table[k]})) else s
  }

  function Create(s: State, k: Key, spare: TaskId, delay: real, ttl: int): State {
    s.(table := s.table[k := spare], tasks := s.tasks[spare := Task(k, Fresh, false, delay, ttl)])
  }

  function ActualTtl(ttl: Option<int>, defaultTtl: int): int {
    if ttl.Some? then ttl.value else defaultTtl
  }

  /** The refresh runs when this share of the lifetime remains. */
  function RefreshDelay(ttl: int, threshold: real): real {
    ttl as real * (1.0 - threshold)
  }

  /** schedule_refresh; `current` is the task that calls it, if one does. */
  function ScheduleRefresh(s: State, current: Option<TaskId>, k: Key, spare: TaskId, alive: bool, ttl: int, threshold: real): State {
    if !alive || s.shutdown then s
    else
      Create(if k in s.table && current != Some(s.table[k]) then CancelRefresh(s, k) else s, k, spare,
             RefreshDelay(ttl, threshold), ttl)
  }

  function Goto(s: State, t: TaskId, pc: Pc): State
    requires t in s.tasks
  {
    s.(tasks := s.tasks[t := s.tasks[t].(pc := pc)])
  }

  /** The finally block: the entry goes only if it is still this task's. */
  function Finish(s: State, t: TaskId): State
    requires t in s.tasks
  {
    var k := s.tasks[t].key;
    Goto(if k in s.table && s.table[k] == t then s.(table := s.table - {k}) else s, t, Finished)
  }

  function RetryDelay(delay: real): real {
    if delay * 2.0 < 60.0 then delay * 2.0 else 60.0
  }

  /** The loader or the set raised. */
  function Retry(s: State, t: TaskId, spare: TaskId): State
    requires t in s.tasks && spare !in s.tasks
  {
    Finish(Create(s, s.tasks[t].key, spare, RetryDelay(s.tasks[t].delay), s.tasks[t].ttl), t)
  }

  /** The value is in the cache: schedule the next refresh, then finish. */
  function Succeed(s: State, t: TaskId, spare: TaskId, o: Outcome): State
    requires t in s.tasks && spare !in s.tasks
  {
    Finish(if o.swrEnabled then ScheduleRefresh(s, Some(t), s.tasks[t].key, spare, o.cacheAlive, s.tasks[t].ttl, o.threshold)
           else s, t)
  }

  /** CancelledError at the await.  A task that never ran has no finally block. */
  function Abort(s: State, t: TaskId): State
    requires t in s.tasks
  {
    if s.tasks[t].pc.Fresh? then Goto(s, t, Finished) else Finish(s, t)
  }

  function Proceed(s: State, t: TaskId, o: Outcome, spare: TaskId): State
    requires t in s.tasks && !s.tasks[t].pc.Finished? && spare !in s.tasks
  {
    match s.tasks[t].pc
    case Fresh => Goto(s, t, Sleeping)
    case Sleeping =>
      if s.shutdown || !o.cacheAlive then Finish(s, t) else Goto(s, t, if o.lockFree then AwaitExists else AwaitLock)
    case AwaitLock => Goto(s, t, AwaitExists)
    case AwaitExists => if o.answer.Yes? then Goto(s, t, AwaitLoad) else Finish(s, t)
    case AwaitLoad => if o.answer.Raises? then Retry(s, t, spare) else Goto(s, t, AwaitSet)
    case AwaitSet =>
      if o.answer.Raises? then Retry(s, t, spare)
      else if o.answer.Yes? then Succeed(s, t, spare, o)
      else Finish(s, t)
  }

  function Done(s: State): (r: set<Key>)
    ensures forall k :: k in r <==> k in s.table && s.table[k] in s.tasks && s.tasks[s.table[k]].pc.Finished?
  {
    set k | k in s.table && s.table[k] in s.tasks && s.tasks[s.table[k]].pc.Finished?
  }

  /** stop() from the point where the cleanup task is gone. */
  function CancelTracked(s: State): State {
    var s1 := s.(cleanup := false, tasks := CancelAll(s.tasks, s.table.Values));
    if s.table == map[] then s1.(phase := Stopped) else s1.(phase := Gathering(s.table.Values))
  }

  function Next(s: State, a: Action): State
    requires Enabled(s, a)
  {
    match a
    case Start => s.(cleanup := true)
    case Schedule(k, spare, alive, ttl, defaultTtl, threshold) =>
      ScheduleRefresh(s, None, k, spare, alive, ActualTtl(ttl, defaultTtl), threshold)
    case Cancel(k) => CancelRefresh(s, k)
    case Resume(t, o, spare) => if s.tasks[t].cancelled then Abort(s, t) else Proceed(s, t, o, spare)
    case Cleanup => s.(table := s.table - Done(s))
    case StopBegin =>
      if s.cleanup then s.(shutdown := true, phase := Stopping) else CancelTracked(s.(shutdown := true))
    case StopCancel => CancelTracked(s)
    case StopFinish => s.(table := map[], phase := Stopped)
  }

  datatype Result = At(state: State) | Impossible

  function Exec(acts: seq<Action>): Result {
    if acts == [] then At(INITIAL)
    else
      var n := |acts| - 1;
      match Exec(acts[..n])
      case At(s) => if Enabled(s, acts[n]) then At(Next(s, acts[n])) else Impossible
      case Impossible => Impossible
  }
}
