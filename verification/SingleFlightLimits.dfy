// Two runs in which single-flight protection is lost: an eviction during a
// hand-over, and reads that fail while the value is cached.
module SingleFlightLimits {
  import opened Basics
  import opened OrderedDict
  import opened InflightLocks
  import opened SingleFlight
  import opened SingleFlightRuns
  import opened SingleFlightTheorems
  import opened SingleFlightEconomy
  import opened SingleFlightOutcomes

  const K := Key("k")
  const X := Key("x")
  const V := Value("v")

  const ONE_SLOT := Config(1, k => k)

  const F1 := Task(Fetch, K, Recheck(0))
  const F2 := Task(Fetch, K, Queued(0))
  const F3 := Task(Fetch, X, Recheck(1))
  const F4 := Task(Fetch, K, Recheck(2))
  const GONE := Task(Fetch, K, Ended)

  const HELD := Lock(true, [])
  const HANDED := Lock(false, [Waiter(2, Woken)])

  const S1 := State(Dict([K], map[K := 0]), [HELD], map[1 := F1], map[], [])
  const S2 := State(Dict([K], map[K := 0]), [Lock(true, [Waiter(2, Pending)])], map[1 := F1, 2 := F2], map[], [])
  const S3 := State(Dict([K], map[K := 0]), [HANDED], map[1 := GONE, 2 := F2], map[], [])
  const S4 := State(Dict([X], map[X := 1]), [HANDED, HELD], map[1 := GONE, 2 := F2, 3 := F3], map[], [])
  const S5 := State(Dict([X, K], map[X := 1, K := 2]), [HANDED, HELD, HELD],
                    map[1 := GONE, 2 := F2, 3 := F3, 4 := F4], map[], [])
  const S6 := State(Dict([X, K], map[X := 1, K := 2]), [HELD, HELD, HELD],
                    map[1 := GONE, 2 := F1, 3 := F3, 4 := F4], map[], [])

  lemma FirstCaller()
    ensures LookUpStep(ONE_SLOT, Missed(INITIAL, 1, K), 1) == S1
  {
    var m := Missed(INITIAL, 1, K);
    assert Lookup(m.table, m.heap, 1, K) == Found(S1.table, [Lock(false, [])], 0) by {
      assert [] + [K] == [K];
    }
    assert [Lock(false, [])][0 := HELD] == [HELD];
    assert LookUpStep(ONE_SLOT, m, 1).tasks == S1.tasks;
  }

  lemma OnlyKeyMovesToEnd()
    ensures S1.table.MoveToEnd(K) == S1.table
  {
    WithoutLength([K], K);
    assert Without([K], {K}) + [K] == [K];
  }

  lemma SecondCaller()
    ensures LookUpStep(ONE_SLOT, Missed(S1, 2, K), 2) == S2
  {
    var m := Missed(S1, 2, K);
    OnlyKeyMovesToEnd();
    assert Lookup(m.table, m.heap, 1, K) == Found(S1.table, [HELD], 0);
    assert HELD.Enqueue(2).waiters == [Waiter(2, Pending)];
    assert [HELD][0 := HELD.Enqueue(2)] == S2.heap;
    assert LookUpStep(ONE_SLOT, m, 2).tasks == S2.tasks;
  }

  lemma HandOver()
    ensures Enabled(S2, Raise(1)) && Next(ONE_SLOT, S2, Raise(1)) == S3
  {
    assert S2.heap[0].Release() == HANDED;
    var r := Next(ONE_SLOT, S2, Raise(1));
    assert r.heap == S3.heap;
    assert r.tasks == S3.tasks;
  }

  /** The full table evicts the lock of "k", which is unlocked but not idle. */
  lemma ThirdCaller()
    ensures LookUpStep(ONE_SLOT, Missed(S3, 3, X), 3) == S4
  {
    assert EvictPass([K], S3.table, [HANDED], 1) == Dict([], map[]);
  }

  lemma FourthCaller()
    ensures LookUpStep(ONE_SLOT, Missed(S4, 4, K), 4) == S5
  {
    assert EvictPass([X], S4.table, S4.heap, 1) == S4.table;
  }

  lemma SecondCallerWakes()
    ensures Enabled(S5, Wake(2)) && Next(ONE_SLOT, S5, Wake(2)) == S6
  {
    assert Position([Waiter(2, Woken)], 2) == 0;
    assert HANDED.Resume(2) == HELD;
    var r := Next(ONE_SLOT, S5, Wake(2));
    assert r.heap == S6.heap;
    assert r.tasks == S6.tasks;
  }

  lemma LockIsHandedOver() returns (acts: seq<Action>)
    ensures Exec(ONE_SLOT, acts) == At(S3)
  {
    acts := CallAndMiss(ONE_SLOT, [], INITIAL, 1, K);
    FirstCaller();
    acts := CallAndMiss(ONE_SLOT, acts, S1, 2, K);
    SecondCaller();
    HandOver();
    acts := Step(ONE_SLOT, acts, S2, Raise(1));
  }

  /** Task 1 holds the lock of "k", task 2 waits for it, task 1 gives up; before
      task 2 runs, task 3 looks "x" up and task 4 looks "k" up. */
  lemma TwoLocks() returns (acts: seq<Action>)
    ensures Exec(ONE_SLOT, acts) == At(S6)
  {
    acts := LockIsHandedOver();
    acts := CallAndMiss(ONE_SLOT, acts, S3, 3, X);
    ThirdCaller();
    acts := CallAndMiss(ONE_SLOT, acts, S4, 4, K);
    FourthCaller();
    SecondCallerWakes();
    acts := Step(ONE_SLOT, acts, S5, Wake(2));
  }

  predicate TwoLoaders(s: State, t: TaskId, u: TaskId, key: Key) {
    t != u && LoadsFor(s, t, key) && LoadsFor(s, u, key)
  }

  /** Without the hypothesis on evictions two loaders for one key can overlap. */
  lemma EvictionDuringHandOver()
    ensures exists acts :: Exec(ONE_SLOT, acts).At? && TwoLoaders(Exec(ONE_SLOT, acts).state, 2, 4, K)
  {
    var acts := TwoLocks();
    acts := RecheckAndLoad(ONE_SLOT, acts, S6, 2);
    acts := RecheckAndLoad(ONE_SLOT, acts, Exec(ONE_SLOT, acts).state, 4);
    assert TwoLoaders(Exec(ONE_SLOT, acts).state, 2, 4, K);
  }

  function Cached(table: Dict<Key, LockId>, lock: Lock, pc: Pc, store: map<Key, Value>, log: seq<Event>): State {
    State(table, [lock], map[1 := Task(Fetch, K, pc)], store, log)
  }

  const LOADED := [LoadStarted(K), LoadReturned(K, V)]
  const R1 := Cached(S1.table, HELD, Loading(0), map[], [LoadStarted(K)])
  const R2 := Cached(S1.table, HELD, Storing(0, V), map[], LOADED)
  const R3 := Cached(S1.table, HELD, Stored(0, V), map[K := V], LOADED)
  const R4 := Cached(S1.table, Lock(false, []), Returned(V), map[K := V], LOADED)

  lemma LoaderReturned()
    ensures Moves(R1, LoaderReturns(1, V), R2)
  {
  }

  lemma ValueStored()
    ensures Moves(R2, StoreAnswers(1, true, true), R3)
  {
  }

  lemma CallerReturned()
    ensures Moves(R3, AfterStore(1), R4)
  {
  }

  ghost predicate Moves(s: State, a: Action, s': State) {
    Enabled(s, a) && Next(ONE_SLOT, s, a) == s'
  }

  lemma Move(acts: seq<Action>, s: State, a: Action, s': State) returns (longer: seq<Action>)
    requires Exec(ONE_SLOT, acts) == At(s) && Moves(s, a, s')
    ensures Exec(ONE_SLOT, longer) == At(s')
  {
    longer := Step(ONE_SLOT, acts, s, a);
  }

  lemma LoadBegins() returns (acts: seq<Action>)
    ensures Exec(ONE_SLOT, acts) == At(R1)
  {
    acts := CallAndMiss(ONE_SLOT, [], INITIAL, 1, K);
    FirstCaller();
    acts := RecheckAndLoad(ONE_SLOT, acts, S1, 1);
    assert Goto(Note(S1, [LoadStarted(K)]), 1, Loading(0)).tasks == R1.tasks;
  }

  /** Task 1 loads "k", caches the value and returns it. */
  lemma LoadAndStore() returns (acts: seq<Action>)
    ensures Exec(ONE_SLOT, acts) == At(R4)
  {
    acts := LoadBegins();
    LoaderReturned();
    acts := Move(acts, R1, LoaderReturns(1, V), R2);
    ValueStored();
    acts := Move(acts, R2, StoreAnswers(1, true, true), R3);
    CallerReturned();
    acts := Move(acts, R3, AfterStore(1), R4);
  }

  /** The hypotheses of OneLoadOneValue are met, by this run for one. */
  lemma UndisturbedRunExists()
    ensures exists acts :: SafeRun(ONE_SLOT, acts) && LoadedOnce(Exec(ONE_SLOT, acts).state)
  {
    var acts := LoadAndStore();
    SubsetSize(Requested(R4), {K});
    FewKeysAreSafe(ONE_SLOT, acts);
  }

  ghost predicate LoadedOnce(s: State) {
    Undisturbed(ONE_SLOT, s, K) && 1 in s.tasks && s.tasks[1].key == K && s.tasks[1].pc == Returned(V)
  }

  function WithSecond(s: State, pc: Pc, lock: Lock, log: seq<Event>): State {
    s.(tasks := s.tasks[2 := Task(Fetch, K, pc)], heap := [lock], log := log)
  }

  const FAULT := ReadFaulted(K, true, Miss)
  const UNLOCKED := ReadFaulted(K, false, Miss)

  const Q1 := WithSecond(R4, FirstRead, Lock(false, []), LOADED)
  const Q2 := WithSecond(R4, FirstReply(Miss), Lock(false, []), LOADED + [UNLOCKED])
  const Q3 := WithSecond(R4, Recheck(0), HELD, LOADED + [UNLOCKED])
  const Q4 := WithSecond(R4, RecheckReply(0, Miss), HELD, LOADED + [UNLOCKED] + [FAULT])
  const Q5 := WithSecond(R4, Loading(0), HELD, LOADED + [UNLOCKED] + [FAULT] + [LoadStarted(K)])

  lemma SecondCalls()
    ensures Moves(R4, Call(2, K), Q1)
  {
  }

  lemma FirstReadFails()
    ensures Moves(Q1, Answer(2, true, Miss), Q2)
  {
  }

  lemma SecondLocks()
    ensures Moves(Q2, AfterFirst(2, 2), Q3)
  {
  }

  lemma SecondReadFails()
    ensures Moves(Q3, Answer(2, true, Miss), Q4)
  {
  }

  lemma SecondLoads()
    ensures Moves(Q4, AfterRecheck(2), Q5)
  {
  }

  /** Reads that fail into the fallback, although the value is cached. */
  lemma ReadsFail(acts: seq<Action>) returns (longer: seq<Action>)
    requires Exec(ONE_SLOT, acts) == At(R4)
    ensures Exec(ONE_SLOT, longer) == At(Q5)
  {
    SecondCalls();
    longer := Move(acts, R4, Call(2, K), Q1);
    FirstReadFails();
    longer := Move(longer, Q1, Answer(2, true, Miss), Q2);
    SecondLocks();
    longer := Move(longer, Q2, AfterFirst(2, 2), Q3);
    SecondReadFails();
    longer := Move(longer, Q3, Answer(2, true, Miss), Q4);
    SecondLoads();
    longer := Move(longer, Q4, AfterRecheck(2), Q5);
  }

  predicate LoadedTwice(log: seq<Event>, key: Key) {
    exists i, j :: 0 <= i < j < |log| && log[i] == LoadStarted(key) && log[j] == LoadStarted(key)
  }

  predicate OnlyReadsFailed(log: seq<Event>) {
    forall e :: e in log ==> !e.LoadFailed? && !e.SetFailed? && !e.Removed? && !e.Written?
  }

  predicate LoadedTwiceForAReadFault(log: seq<Event>, key: Key) {
    LoadedTwice(log, key) && OnlyReadsFailed(log)
  }

  lemma SecondLoadOutcome(s: State)
    requires s == Q5
    ensures LoadedTwiceForAReadFault(s.log, K) && |Requested(s)| <= 1
  {
    assert s.log == [LoadStarted(K), LoadReturned(K, V), UNLOCKED, FAULT, LoadStarted(K)];
    assert s.log[0] == LoadStarted(K) && s.log[4] == LoadStarted(K);
    SubsetSize(Requested(s), {K});
  }

  /** The loader runs twice although no load and no set failed and nothing was
      removed: a failed read alone is enough. */
  lemma FailedReadLoadsTwice()
    ensures exists acts :: SafeRun(ONE_SLOT, acts) && LoadedTwiceForAReadFault(Exec(ONE_SLOT, acts).state.log, K)
  {
    var acts := LoadAndStore();
    acts := ReadsFail(acts);
    SecondLoadOutcome(Exec(ONE_SLOT, acts).state);
    FewKeysAreSafe(ONE_SLOT, acts);
  }
}
