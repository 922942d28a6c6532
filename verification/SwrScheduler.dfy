// The scheduler object.  The tasks of the event loop are a field, so that a method
// can create a task, ask it to cancel, or run it up to its next await.
module SwrScheduler {
  import opened Basics
  import opened SwrModel

  lemma CancelNone(tasks: map<TaskId, Task>)
    ensures CancelAll(tasks, {}) == tasks
  {
  }

  lemma CancelMore(tasks: map<TaskId, Task>, ts: set<TaskId>, t: TaskId)
    ensures CancelAll(CancelAll(tasks, ts), {t}) == CancelAll(tasks, ts + {t})
  {
  }

  class SWRScheduler {
    var refreshTasks: map<Key, TaskId>
    var tasks: map<TaskId, Task>
    var shutdown: bool
    var cleanupTask: bool
    ghost var phase: Phase

    ghost function View(): State
      reads this
    {
      State(refreshTasks, tasks, shutdown, cleanupTask, phase)
    }

    constructor ()
      ensures View() == INITIAL
    {
      refreshTasks, tasks, shutdown, cleanupTask, phase := map[], map[], false, false, Running;
    }

    method Start()
      modifies this
      ensures View() == Next(old(View()), Action.Start)
    {
      if !cleanupTask {
        cleanupTask := true;
      }
    }

    method CancelTask(t: TaskId)
      modifies `tasks
      ensures tasks == CancelAll(old(tasks), {t})
    {
      if t in tasks && !tasks[t].pc.Finished? {
        tasks := tasks[t := tasks[t].(cancelled := true)];
      }
    }

    method CancelRefresh(key: Key) returns (found: bool)
      modifies this
      ensures View() == SwrModel.CancelRefresh(old(View()), key)
      ensures found == (key in old(refreshTasks))
    {
      if key in refreshTasks {
        var t := refreshTasks[key];
        refreshTasks := refreshTasks - {key};
        CancelTask(t);
        return true;
      }
      return false;
    }

    method CreateTask(key: Key, spare: TaskId, delay: real, ttl: int)
      modifies this
      ensures View() == Create(old(View()), key, spare, delay, ttl)
    {
      tasks := tasks[spare := Task(key, Fresh, false, delay, ttl)];
      refreshTasks := refreshTasks[key := spare];
    }

    method ScheduleRefresh(current: Option<TaskId>, key: Key, spare: TaskId, cacheAlive: bool,
        ttl: Option<int>, defaultTtl: int, threshold: real)
      modifies this
      ensures View() == SwrModel.ScheduleRefresh(old(View()), current, key, spare, cacheAlive, ActualTtl(ttl, defaultTtl), threshold)
    {
      if !cacheAlive || shutdown {
        return;
      }
      if key in refreshTasks && current != Some(refreshTasks[key]) {
        var _ := CancelRefresh(key);
      }
      var actualTtl := if ttl.Some? then ttl.value else defaultTtl;
      CreateTask(key, spare, RefreshDelay(actualTtl, threshold), actualTtl);
    }

    /** The finally block of _refresh_after_delay. */
    method FinishTask(t: TaskId)
      requires t in tasks
      modifies this
      ensures View() == Finish(old(View()), t)
    {
      var key := tasks[t].key;
      if key in refreshTasks && refreshTasks[key] == t {
        refreshTasks := refreshTasks - {key};
      }
      tasks := tasks[t := tasks[t].(pc := Finished)];
    }

    method RetryTask(t: TaskId, spare: TaskId)
      requires t in tasks && spare !in tasks
      modifies this
      ensures View() == Retry(old(View()), t, spare)
    {
      CreateTask(tasks[t].key, spare, RetryDelay(tasks[t].delay), tasks[t].ttl);
      FinishTask(t);
    }

    method MoveTask(t: TaskId, pc: Pc)
      requires t in tasks
      modifies `tasks
      ensures View() == Goto(old(View()), t, pc)
    {
      tasks := tasks[t := tasks[t].(pc := pc)];
    }

    /** Runs _refresh_after_delay from one await to the next. */
    method Resume(t: TaskId, o: Outcome, spare: TaskId)
      requires Enabled(View(), Action.Resume(t, o, spare))
      modifies this
      ensures View() == Next(old(View()), Action.Resume(t, o, spare))
    {
      if tasks[t].cancelled {
        if tasks[t].pc.Fresh? {
          MoveTask(t, Finished);
        } else {
          FinishTask(t);
        }
        return;
      }
      match tasks[t].pc {
        case Fresh =>
          MoveTask(t, Sleeping);
        case Sleeping =>
          if shutdown || !o.cacheAlive {
            FinishTask(t);
          } else {
            MoveTask(t, if o.lockFree then AwaitExists else AwaitLock);
          }
        case AwaitLock =>
          MoveTask(t, AwaitExists);
        case AwaitExists =>
          if o.answer.Yes? {
            MoveTask(t, AwaitLoad);
          } else {
            FinishTask(t);
          }
        case AwaitLoad =>
          if o.answer.Raises? {
            RetryTask(t, spare);
          } else {
            MoveTask(t, AwaitSet);
          }
        case AwaitSet =>
          if o.answer.Raises? {
            RetryTask(t, spare);
            return;
          }
          if o.answer.Yes? && o.swrEnabled {
            ScheduleRefresh(Some(t), tasks[t].key, spare, o.cacheAlive, Some(tasks[t].ttl), 0, o.threshold);
          }
          FinishTask(t);
      }
    }

    /** One round of _cleanup_loop: collect the completed keys, then pop them. */
    method CleanupRound()
      modifies `refreshTasks
      ensures View() == old(View()).(table := old(refreshTasks) - Done(old(View())))
    {
      var completed := set k | k in refreshTasks && refreshTasks[k] in tasks && tasks[refreshTasks[k]].pc.Finished?;
      ghost var all := completed;
      assert completed == Done(View());
      assert refreshTasks - {} == refreshTasks;
      while completed != {}
        invariant completed <= all
        invariant refreshTasks == old(refreshTasks) - (all - completed)
        decreases completed
      {
        var k :| k in completed;
        assert old(refreshTasks) - (all - completed) - {k} == old(refreshTasks) - (all - (completed - {k}));
        refreshTasks := refreshTasks - {k};
        completed := completed - {k};
      }
      assert all - {} == all;
    }

    /** stop() up to its first await. */
    method StopBegin()
      requires phase.Running? || phase.Stopped?
      modifies this
      ensures View() == Next(old(View()), Action.StopBegin)
    {
      shutdown := true;
      if cleanupTask {
        phase := Stopping;
      } else {
        StopCancel();
      }
    }

    /** stop() once the cleanup task is gone: cancels the recorded tasks one by one. */
    method StopCancel()
      modifies this
      ensures View() == CancelTracked(old(View()))
    {
      cleanupTask := false;
      var rest := refreshTasks.Values;
      ghost var all := rest;
      CancelNone(tasks);
      assert all - all == {};
      while rest != {}
        invariant rest <= all && all == refreshTasks.Values
        invariant View() == old(View()).(cleanup := false, tasks := CancelAll(old(tasks), all - rest))
        decreases rest
      {
        var t :| t in rest;
        CancelMore(old(tasks), all - rest, t);
        assert all - rest + {t} == all - (rest - {t});
        CancelTask(t);
        rest := rest - {t};
      }
      assert all - {} == all;
      if refreshTasks == map[] {
        phase := Stopped;
      } else {
        phase := Gathering(all);
      }
    }

    /** stop() when every task it waited for is done. */
    method StopFinish()
      requires Enabled(View(), Action.StopFinish)
      modifies this
      ensures View() == Next(old(View()), Action.StopFinish)
    {
      refreshTasks := map[];
      phase := Stopped;
    }
  }
}
