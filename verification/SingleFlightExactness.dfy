// The condition on evictions is exact: dropping a lock for which a task still waits
// lets two tasks into the critical section of its key.
module SingleFlightExactness {
  import opened Basics
  import opened OrderedDict
  import opened InflightLocks
  import opened SingleFlight
  import opened SingleFlightRuns
  import opened SingleFlightSafety
  import opened SingleFlightTheorems

  /** Lock l is unlocked, tasks of key k and no others still wait for it, and the
      table has forgotten k. */
  ghost predicate Orphaned(s: State, l: LockId, k: Key) {
    && Sound(s) && k !in s.table.vals
    && l < |s.heap| && !s.heap[l].locked && !s.heap[l].Free()
    && forall u :: StillWaits(s.heap[l], u) ==> u in s.tasks && s.tasks[u].key == k
  }

  lemma HeadMayDrop(s: State, l: LockId, k: Key, h: TaskId)
    requires Orphaned(s, l, k) && h == s.heap[l].waiters[0].task && s.heap[l].waiters[0].status.Cancelled?
    ensures WaitsAs(s, h) && s.tasks[h].pc == Queued(l) && StatusIn(s, h).Cancelled?
  {
    assert LockOk(s, l);
    assert s.heap[l].waiters[0].task == h;
  }

  lemma HeadForgotten(lk: Lock, h: TaskId)
    requires lk.waiters != [] && lk.waiters[0].task == h
    ensures lk.Forget(h) == lk.(waiters := lk.waiters[1..])
  {
    assert lk.waiters[..0] + lk.waiters[1..] == lk.waiters[1..];
  }

  lemma RestNotFree(lk: Lock)
    requires !lk.locked && !lk.Free() && lk.waiters[0].status.Cancelled?
    ensures !lk.(waiters := lk.waiters[1..]).WakeFirst().Free()
  {
    var i :| 0 <= i < |lk.waiters| && !lk.waiters[i].status.Cancelled?;
    assert lk.waiters[1..][i - 1] == lk.waiters[i];
    assert !lk.(waiters := lk.waiters[1..]).WakeFirst().waiters[i - 1].status.Cancelled?;
  }

  lemma HeadDropped(lk: Lock, h: TaskId)
    requires !lk.locked && !lk.Free() && lk.waiters[0] == Waiter(h, Cancelled)
    ensures !lk.GiveUp(h).locked && !lk.GiveUp(h).Free() && |lk.GiveUp(h).waiters| == |lk.waiters| - 1
  {
    HeadForgotten(lk, h);
    RestNotFree(lk);
    assert lk.GiveUp(h) == lk.(waiters := lk.waiters[1..]).WakeFirst();
  }

  lemma DropKeepsOrphaned(c: Config, s: State, l: LockId, k: Key, h: TaskId)
    requires Orphaned(s, l, k) && s.heap[l].waiters[0] == Waiter(h, Cancelled) && c.maxKeys >= 1
    ensures Enabled(s, DropWait(h)) && Orphaned(Next(c, s, DropWait(h)), l, k)
    ensures |Next(c, s, DropWait(h)).heap[l].waiters| == |s.heap[l].waiters| - 1
  {
    HeadMayDrop(s, l, k, h);
    NextKeepsSound(c, s, DropWait(h));
    HeadDropped(s.heap[l], h);
    QueueJoinsNobody(s.heap[l], h);
  }

  /** Cancelled heads leave one after the other until the head has been woken. */
  lemma HeadIsWoken(c: Config, acts: seq<Action>, s: State, l: LockId, k: Key) returns (longer: seq<Action>, r: State)
    requires Exec(c, acts) == At(s) && Orphaned(s, l, k) && c.maxKeys >= 1
    ensures acts <= longer && Exec(c, longer) == At(r)
    ensures Orphaned(r, l, k) && r.heap[l].waiters[0].status.Woken?
    decreases |s.heap[l].waiters|
  {
    assert LockOk(s, l);
    if s.heap[l].waiters[0].status.Woken? {
      longer, r := acts, s;
    } else {
      var h := s.heap[l].waiters[0].task;
      DropKeepsOrphaned(c, s, l, k, h);
      longer := Step(c, acts, s, DropWait(h));
      longer, r := HeadIsWoken(c, longer, Next(c, s, DropWait(h)), l, k);
    }
  }

  lemma WokenHeadEnters(c: Config, s: State, l: LockId, k: Key, w: TaskId)
    requires Orphaned(s, l, k) && s.heap[l].waiters[0] == Waiter(w, Woken) && c.maxKeys >= 1
    ensures Enabled(s, Wake(w))
    ensures var r := Next(c, s, Wake(w));
      && r.table == s.table && Sound(r) && w in r.tasks && r.tasks[w].Holds() && r.tasks[w].key == k
  {
    assert LockOk(s, l);
    assert s.heap[l].waiters[0].task == w;
    assert StillWaits(s.heap[l], w);
    NextKeepsSound(c, s, Wake(w));
  }

  lemma FreshId(used: set<TaskId>) returns (n: TaskId)
    ensures n !in used && forall x :: x in used ==> x < n
  {
    if used == {} {
      n := 0;
    } else {
      var x :| x in used;
      var m := FreshId(used - {x});
      n := if m > x then m else x + 1;
      forall y | y in used ensures y < n {
        assert y == x || y in used - {x};
      }
    }
  }

  /** Whoever asks for k now gets a lock of its own. */
  lemma NewcomerEnters(c: Config, s: State, n: TaskId, k: Key)
    requires n in s.tasks && s.tasks[n].pc.FirstReply? && s.tasks[n].kind.Fetch? && s.tasks[n].key == k && k !in s.table.vals
    ensures EntryKnown(s, k)
    ensures var r := LookUpStep(c, s, n);
      && r.tasks[n].Holds() && r.tasks[n].key == k && forall u :: u in s.tasks && u != n ==> r.tasks[u] == s.tasks[u]
  {
  }

  lemma SecondCaller(c: Config, acts: seq<Action>, s: State, w: TaskId, k: Key) returns (longer: seq<Action>)
    requires Exec(c, acts) == At(s) && w in s.tasks && s.tasks[w].Holds() && s.tasks[w].key == k && k !in s.table.vals
    ensures acts <= longer && Exec(c, longer).At? && !Exclusive(Exec(c, longer).state)
  {
    var slot := c.storeKey(k);
    longer := Step(c, acts, s, Remove(slot));
    var s1 := Next(c, s, Remove(slot));
    var n := FreshId(s.tasks.Keys);
    longer := CallAndMiss(c, longer, s1, n, k);
    NewcomerEnters(c, Missed(s1, n, k), n, k);
    assert BothInside(Exec(c, longer).state, w, n);
  }

  lemma OrphanBreaksExclusion(c: Config, acts: seq<Action>, s: State, l: LockId, k: Key) returns (longer: seq<Action>)
    requires Exec(c, acts) == At(s) && Orphaned(s, l, k) && c.maxKeys >= 1
    ensures acts <= longer && Exec(c, longer).At? && !Exclusive(Exec(c, longer).state)
  {
    var r;
    longer, r := HeadIsWoken(c, acts, s, l, k);
    var w := r.heap[l].waiters[0].task;
    WokenHeadEnters(c, r, l, k, w);
    longer := Step(c, longer, r, Wake(w));
    longer := SecondCaller(c, longer, Next(c, r, Wake(w)), w, k);
  }

  lemma UnsafeStepOrphans(c: Config, s: State, a: Action) returns (l: LockId, k: Key)
    requires Sound(s) && Enabled(s, a) && c.maxKeys >= 1 && Tracked(s) && !SafeStep(c, s, a)
    ensures Orphaned(Next(c, s, a), l, k)
  {
    var w;
    k, w := UnsafeStepHasWaiter(c, s, a);
    l := s.table.vals[k];
    UnsafeLookupBreaksTracked(c, s, a, k, w);
    NextKeepsSound(c, s, a);
    var r := LookUpStep(c, s, a.t);
    forall u | StillWaits(r.heap[l], u) ensures u in r.tasks && r.tasks[u].key == k {
      UnsafeLookupBreaksTracked(c, s, a, k, u);
    }
    assert r.heap[l] == s.heap[l];
  }

  ghost predicate Continues(c: Config, run: seq<Action>, acts: seq<Action>, a: Action) {
    acts + [a] <= run && Exec(c, run).At?
  }

  /** The other half of Exclusion: after a safe run, a step that is not safe has a
      continuation with two tasks inside the critical section of one key. */
  lemma UnsafeStepBreaksExclusion(c: Config, acts: seq<Action>, a: Action)
    requires c.maxKeys >= 1 && SafeRun(c, acts)
    requires Enabled(Exec(c, acts).state, a) && !SafeStep(c, Exec(c, acts).state, a)
    ensures exists run :: Continues(c, run, acts, a) && !Exclusive(Exec(c, run).state)
  {
    var s := Exec(c, acts).state;
    SafeRunsAreTracked(c, acts);
    var l, k := UnsafeStepOrphans(c, s, a);
    var longer := Step(c, acts, s, a);
    var run := OrphanBreaksExclusion(c, longer, Next(c, s, a), l, k);
    assert Continues(c, run, acts, a);
  }
}
