// What overlapping callers of fetch_or_set receive, and the two ways in which
// single-flight protection can be lost.
module SingleFlightOutcomes {
  import opened Basics
  import opened OrderedDict
  import opened InflightLocks
  import opened SingleFlight
  import opened SingleFlightSafety
  import opened SingleFlightTheorems
  import opened SingleFlightEconomy

  /** Nothing excuses a second load of key, no failed read was answered with a value,
      nobody else touched its slot and no background refresh of it was created. */
  ghost predicate Undisturbed(c: Config, s: State, key: Key) {
    && (forall e :: e in s.log ==> !Excuse(c, e, key) && !Misleads(e, key) && e != Written(c.storeKey(key)))
    && (forall t :: t in s.tasks && c.storeKey(s.tasks[t].key) == c.storeKey(key) ==>
          s.tasks[t].key == key && s.tasks[t].kind.Fetch?)
  }

  predicate Misleads(e: Event, key: Key) {
    e.ReadFaulted? && e.key == key && e.answer.Hit?
  }

  /** The task has been given v, by the backend or by its own loader. */
  predicate Has(k: Task, v: Value) {
    match k.pc
    case FirstReply(r) => r == Hit(v)
    case RecheckReply(_, r) => r == Hit(v)
    case Stored(_, w) => w == v
    case Returned(w) => w == v
    case _ => false
  }

  predicate StillMissing(k: Task) {
    k.InLoader() || (k.pc.RecheckReply? && k.pc.reply.Miss?)
  }

  ghost predicate Agreed(c: Config, s: State, key: Key) {
    var slot := c.storeKey(key);
    && (forall t, v :: t in s.tasks && s.tasks[t].key == key && Has(s.tasks[t], v) ==>
          slot in s.store && s.store[slot] == v)
    && (forall t :: t in s.tasks && s.tasks[t].key == key && StillMissing(s.tasks[t]) ==> slot !in s.store)
    && (forall t :: t in s.tasks && s.tasks[t].key == key && s.tasks[t].pc.Storing? ==>
          LoadReturned(key, s.tasks[t].pc.value) in s.log)
    && (slot in s.store ==> LoadReturned(key, s.store[slot]) in s.log)
  }

  /** Task t moved while the backend kept its content; other tasks are new at most. */
  lemma MoveKeepsAgreed(c: Config, s: State, s': State, t: TaskId, key: Key)
    requires Agreed(c, s, key) && s'.store == s.store && s.log <= s'.log
    requires forall u :: u in s'.tasks && u != t ==>
      (if u in s.tasks then s'.tasks[u] == s.tasks[u] else s'.tasks[u].pc.FirstRead? || s'.tasks[u].pc.RefreshNew?)
    requires t in s'.tasks && s'.tasks[t].key == key ==> Fits(c, s', s'.tasks[t])
    ensures Agreed(c, s', key)
  {
  }

  /** One task's share of Agreed. */
  ghost predicate Fits(c: Config, s: State, k: Task) {
    var slot := c.storeKey(k.key);
    && (forall v :: Has(k, v) ==> slot in s.store && s.store[slot] == v)
    && (StillMissing(k) ==> slot !in s.store)
    && (k.pc.Storing? ==> LoadReturned(k.key, k.pc.value) in s.log)
  }

  lemma AgreedFits(c: Config, s: State, t: TaskId)
    requires t in s.tasks && Agreed(c, s, s.tasks[t].key)
    ensures Fits(c, s, s.tasks[t])
  {
  }

  lemma StoreKeepsAgreed(c: Config, s: State, a: Action, key: Key)
    requires Agreed(c, s, key) && Exclusive(s) && Enabled(s, a) && a.StoreAnswers?
    requires Undisturbed(c, s, key) && Undisturbed(c, OwnerStep(c, s, a), key)
    ensures Agreed(c, OwnerStep(c, s, a), key)
  {
    var s' := OwnerStep(c, s, a);
    var k := s.tasks[a.t];
    if k.key == key {
      assert k.kind.Fetch?;
      assert !a.ok ==> SetFailed(key) in s'.log;
      forall u | u in s.tasks && u != a.t && s.tasks[u].key == key ensures !StillMissing(s.tasks[u]) {
        assert StillMissing(s.tasks[u]) ==> BothInside(s, a.t, u);
      }
      assert StillMissing(k);
    } else {
      assert c.storeKey(k.key) != c.storeKey(key);
      assert s.log <= s'.log;
    }
  }

  lemma AnswerKeepsAgreed(c: Config, s: State, a: Action, key: Key)
    requires Agreed(c, s, key) && Enabled(s, a) && a.Answer?
    requires Undisturbed(c, Next(c, s, a), key)
    ensures Agreed(c, Next(c, s, a), key)
  {
    var s' := Next(c, s, a);
    assert a.fault ==> ReadFaulted(s.tasks[a.t].key, s.tasks[a.t].pc.Recheck?, a.faulty) in s'.log;
    MoveKeepsAgreed(c, s, s', a.t, key);
  }

  lemma InsideKeepsAgreed(c: Config, s: State, a: Action, key: Key)
    requires Agreed(c, s, key) && Enabled(s, a)
    requires a.LoaderReturns? || (a.AfterRecheck? && s.tasks[a.t].pc.reply.Miss?)
    ensures Agreed(c, OwnerStep(c, s, a), key)
  {
    var s' := OwnerStep(c, s, a);
    var k := s.tasks[a.t];
    if k.key == key {
      AgreedFits(c, s, a.t);
      assert a.LoaderReturns? ==> LoadReturned(key, a.value) in s'.log;
    }
    MoveKeepsAgreed(c, s, s', a.t, key);
  }

  lemma LeavingMovesOne(c: Config, s: State, a: Action)
    requires Enabled(s, a)
    requires a.AfterStore? || a.Raise? || (a.AfterRecheck? && s.tasks[a.t].pc.reply.Hit?)
    ensures var r := OwnerStep(c, s, a);
      && r.store == s.store && s.log <= r.log && r.tasks.Keys == s.tasks.Keys
      && forall u :: u in s.tasks && u != a.t ==> r.tasks[u] == s.tasks[u]
  {
  }

  lemma LeavingFits(c: Config, s: State, a: Action)
    requires Enabled(s, a)
    requires a.AfterStore? || a.Raise? || (a.AfterRecheck? && s.tasks[a.t].pc.reply.Hit?)
    requires Fits(c, s, s.tasks[a.t])
    ensures Fits(c, OwnerStep(c, s, a), OwnerStep(c, s, a).tasks[a.t])
  {
    assert forall v :: Has(OwnerStep(c, s, a).tasks[a.t], v) ==> Has(s.tasks[a.t], v);
  }

  lemma LeavingKeepsAgreed(c: Config, s: State, a: Action, key: Key)
    requires Agreed(c, s, key) && Enabled(s, a)
    requires a.AfterStore? || a.Raise? || (a.AfterRecheck? && s.tasks[a.t].pc.reply.Hit?)
    ensures Agreed(c, OwnerStep(c, s, a), key)
  {
    if s.tasks[a.t].key == key {
      AgreedFits(c, s, a.t);
      LeavingFits(c, s, a);
    }
    LeavingMovesOne(c, s, a);
    MoveKeepsAgreed(c, s, OwnerStep(c, s, a), a.t, key);
  }

  lemma OwnerKeepsAgreed(c: Config, s: State, a: Action, key: Key)
    requires Agreed(c, s, key) && Enabled(s, a)
    requires a.AfterRecheck? || a.LoaderReturns? || a.AfterStore? || a.Raise?
    ensures Agreed(c, OwnerStep(c, s, a), key)
  {
    if a.LoaderReturns? || (a.AfterRecheck? && s.tasks[a.t].pc.reply.Miss?) {
      InsideKeepsAgreed(c, s, a, key);
    } else {
      LeavingKeepsAgreed(c, s, a, key);
    }
  }

  lemma QueueKeepsAgreed(c: Config, s: State, a: Action, key: Key)
    requires Agreed(c, s, key) && Enabled(s, a) && (a.Wake? || a.CancelWait? || a.DropWait?)
    requires Undisturbed(c, s, key)
    ensures Agreed(c, QueueStep(s, a), key)
  {
    MoveKeepsAgreed(c, s, QueueStep(s, a), a.t, key);
  }

  lemma CallKeepsAgreed(c: Config, s: State, a: Action, key: Key)
    requires Agreed(c, s, key) && Enabled(s, a) && (a.Call? || (a.AfterFirst? && !LooksUp(s, a)))
    ensures Agreed(c, Next(c, s, a), key)
  {
    if a.AfterFirst? && s.tasks[a.t].key == key {
      AgreedFits(c, s, a.t);
      assert forall v :: Has(Next(c, s, a).tasks[a.t], v) ==> Has(s.tasks[a.t], v);
    }
    MoveKeepsAgreed(c, s, Next(c, s, a), a.t, key);
  }

  lemma LookupKeepsAgreed(c: Config, s: State, t: TaskId, key: Key)
    requires Agreed(c, s, key) && t in s.tasks && EntryKnown(s, s.tasks[t].key)
    requires s.tasks[t].pc.FirstReply? || s.tasks[t].pc.RefreshNew?
    requires Undisturbed(c, s, key)
    ensures Agreed(c, LookUpStep(c, s, t), key)
  {
    MoveKeepsAgreed(c, s, LookUpStep(c, s, t), t, key);
  }

  lemma BackendEventKeepsAgreed(c: Config, s: State, a: Action, key: Key)
    requires Agreed(c, s, key) && Enabled(s, a) && (a.Remove? || a.Write?)
    requires Undisturbed(c, Next(c, s, a), key)
    ensures Agreed(c, Next(c, s, a), key)
  {
    assert (if a.Remove? then Removed(a.slot) else Written(a.slot)) in Next(c, s, a).log;
  }

  lemma NextKeepsAgreed(c: Config, s: State, a: Action, key: Key)
    requires Agreed(c, s, key) && Exclusive(s) && Enabled(s, a)
    requires Undisturbed(c, s, key) && Undisturbed(c, Next(c, s, a), key)
    ensures Agreed(c, Next(c, s, a), key)
  {
    if LooksUp(s, a) {
      LookupKeepsAgreed(c, s, a.t, key);
    } else if a.Remove? || a.Write? {
      BackendEventKeepsAgreed(c, s, a, key);
    } else if a.StoreAnswers? {
      StoreKeepsAgreed(c, s, a, key);
    } else if a.Answer? {
      AnswerKeepsAgreed(c, s, a, key);
    } else if a.AfterRecheck? || a.LoaderReturns? || a.AfterStore? || a.Raise? {
      OwnerKeepsAgreed(c, s, a, key);
    } else if a.Wake? || a.CancelWait? || a.DropWait? {
      QueueKeepsAgreed(c, s, a, key);
    } else {
      CallKeepsAgreed(c, s, a, key);
    }
  }

  lemma UndisturbedBefore(c: Config, s: State, s': State, key: Key)
    requires Extends(s, s') && Undisturbed(c, s', key)
    ensures Undisturbed(c, s, key)
  {
  }

  lemma {:induction false} UndisturbedRunsAgree(c: Config, acts: seq<Action>, key: Key)
    requires c.maxKeys >= 1 && SafeRun(c, acts)
    requires Undisturbed(c, Exec(c, acts).state, key)
    ensures Agreed(c, Exec(c, acts).state, key)
    decreases |acts|
  {
    if acts != [] {
      var n := |acts| - 1;
      var s := Exec(c, acts[..n]).state;
      NextExtends(c, s, acts[n]);
      UndisturbedBefore(c, s, Next(c, s, acts[n]), key);
      UndisturbedRunsAgree(c, acts[..n], key);
      Exclusion(c, acts[..n]);
      NextKeepsAgreed(c, s, acts[n], key);
    }
  }

  /** All callers of an undisturbed key return one value, which a loader run
      produced, and there was one such run at most. */
  lemma OneLoadOneValue(c: Config, acts: seq<Action>, key: Key, t: TaskId, u: TaskId)
    requires c.maxKeys >= 1 && SafeRun(c, acts)
    requires var s := Exec(c, acts).state;
      && Undisturbed(c, s, key)
      && t in s.tasks && s.tasks[t].key == key && s.tasks[t].pc.Returned?
      && u in s.tasks && s.tasks[u].key == key && s.tasks[u].pc.Returned?
    ensures var s := Exec(c, acts).state;
      && s.tasks[t].pc.value == s.tasks[u].pc.value
      && LoadReturned(key, s.tasks[t].pc.value) in s.log
      && (forall i, j :: 0 <= i < j < |s.log| && s.log[i] == LoadStarted(key) ==> s.log[j] != LoadStarted(key))
  {
    var s := Exec(c, acts).state;
    UndisturbedRunsAgree(c, acts, key);
    assert Has(s.tasks[t], s.tasks[t].pc.value) && Has(s.tasks[u], s.tasks[u].pc.value);
    Economy(c, acts, key);
    forall i, j | 0 <= i < j < |s.log| && s.log[i] == LoadStarted(key) ensures s.log[j] != LoadStarted(key) {
      assert s.log[j] == LoadStarted(key) ==> ExcusedBetween(c, s.log, key, i, j);
    }
  }
}
