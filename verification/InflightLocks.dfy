// The lock table behind single-flight loading (_InflightLockMap) and the part
// of asyncio.Lock that it depends on.  Lock objects live in a heap, a sequence
// indexed by LockId: dropping a table entry does not destroy the lock object.
module InflightLocks {
  import opened Basics
  import opened OrderedDict

  type LockId = nat
  type TaskId = nat

  /** The future on which a task waits: not done, given the lock, or cancelled. */
  datatype WaitStatus = Pending | Woken | Cancelled

  datatype Waiter = Waiter(task: TaskId, status: WaitStatus)

  /** The position of t's future, or |ws| if t is not waiting. */
  function Position(ws: seq<Waiter>, t: TaskId): (i: nat)
    ensures i <= |ws|
    ensures i < |ws| ==> ws[i].task == t
    ensures forall j :: 0 <= j < i ==> ws[j].task != t
  {
    if ws == [] then 0 else if ws[0].task == t then 0 else 1 + Position(ws[1..], t)
  }

  /** asyncio.Lock.  Releasing clears `locked` and only marks the first waiter
      as woken; the lock is taken again when that waiter's task next runs. */
  datatype Lock = Lock(locked: bool, waiters: seq<Waiter>) {

    /** acquire() returns at once. */
    predicate Free() {
      !locked && forall i :: 0 <= i < |waiters| ==> waiters[i].status.Cancelled?
    }

    function WakeFirst(): Lock {
      if waiters != [] && waiters[0].status.Pending? then
        this.(waiters := waiters[0 := waiters[0].(status := Woken)])
      else
        this
    }

    function Take(): Lock {
      this.(locked := true)
    }

    function Enqueue(t: TaskId): Lock {
      this.(waiters := waiters + [Waiter(t, Pending)])
    }

    function Release(): Lock {
      this.(locked := false).WakeFirst()
    }

    function Forget(t: TaskId): Lock {
      var i := Position(waiters, t);
      if i == |waiters| then this else this.(waiters := waiters[..i] + waiters[i + 1..])
    }

    /** The woken task runs: it leaves the queue and holds the lock. */
    function Resume(t: TaskId): Lock {
      Forget(t).Take()
    }

    /** Task.cancel() while the future is not done. */
    function RequestCancel(t: TaskId): Lock {
      var i := Position(waiters, t);
      if i < |waiters| && waiters[i].status.Pending? then
        this.(waiters := waiters[i := waiters[i].(status := Cancelled)])
      else
        this
    }

    /** CancelledError reaches the waiting task, which passes the lock on. */
    function GiveUp(t: TaskId): Lock {
      if locked then Forget(t) else Forget(t).WakeFirst()
    }

    predicate Waiting(t: TaskId) {
      Position(waiters, t) < |waiters|
    }

    function StatusOf(t: TaskId): WaitStatus
      requires Waiting(t)
    {
      waiters[Position(waiters, t)].status
    }

    /** Only the head of the queue of an unlocked lock is ever woken, and such a
        head is never left asleep. */
    ghost predicate Ok() {
      && (forall i, j :: 0 <= i < j < |waiters| ==> waiters[i].task != waiters[j].task)
      && (forall i :: 0 <= i < |waiters| && waiters[i].status.Woken? ==> i == 0 && !locked)
      && (!locked && waiters != [] ==> !waiters[0].status.Pending?)
    }
  }

  ghost predicate InHeap(d: Dict<Key, LockId>, heap: seq<Lock>) {
    d.Valid() && forall k :: k in d.vals ==> d.vals[k] < |heap|
  }

  predicate Evictable(d: Dict<Key, LockId>, heap: seq<Lock>, k: Key) {
    k in d.vals && d.vals[k] < |heap| && !heap[d.vals[k]].locked
  }

  /** The eviction loop over the candidate keys still to be looked at. */
  function EvictPass(candidates: seq<Key>, d: Dict<Key, LockId>, heap: seq<Lock>, max: nat): (r: Dict<Key, LockId>)
    ensures d.Valid() ==> r.Valid()
    ensures forall k :: k in r.vals ==> k in d.vals && r.vals[k] == d.vals[k]
    ensures forall k :: k in d.vals && k !in r.vals ==> k in candidates && Evictable(d, heap, k)
  {
    if candidates == [] || |d.order| < max then d
    else
      var c := candidates[0];
      EvictPass(candidates[1..], if Evictable(d, heap, c) then d.Del(c) else d, heap, max)
  }

  /** The pass frees a slot unless every lock it looked at is held. */
  lemma {:induction false} EvictPassMakesRoom(candidates: seq<Key>, d: Dict<Key, LockId>, heap: seq<Lock>, max: nat)
    ensures var r := EvictPass(candidates, d, heap, max);
      |r.order| < max || forall k :: k in candidates ==> !Evictable(r, heap, k)
  {
    if candidates != [] && |d.order| >= max {
      var c := candidates[0];
      var d1 := if Evictable(d, heap, c) then d.Del(c) else d;
      EvictPassMakesRoom(candidates[1..], d1, heap, max);
      var r := EvictPass(candidates, d, heap, max);
      forall k | k in candidates && |r.order| >= max ensures !Evictable(r, heap, k) {
        if k !in candidates[1..] {
          assert k == c;
        }
      }
    }
  }

  function Lost(d: Dict<Key, LockId>, r: Dict<Key, LockId>): set<Key> {
    d.vals.Keys - r.vals.Keys
  }

  function AfterOne(d: Dict<Key, LockId>, heap: seq<Lock>, c: Key): Dict<Key, LockId> {
    if Evictable(d, heap, c) then d.Del(c) else d
  }

  lemma OneLess(d: Dict<Key, LockId>, heap: seq<Lock>, c: Key)
    requires d.Valid()
    ensures |d.order| <= |AfterOne(d, heap, c).order| + 1
    ensures AfterOne(d, heap, c).order == Without(d.order, Lost(d, AfterOne(d, heap, c)))
  {
    if Evictable(d, heap, c) {
      WithoutLength(d.order, c);
      assert Lost(d, d.Del(c)) == {c};
    }
  }

  lemma LostTwice(d: Dict<Key, LockId>, m: Dict<Key, LockId>, r: Dict<Key, LockId>)
    requires r.vals.Keys <= m.vals.Keys <= d.vals.Keys
    requires m.order == Without(d.order, Lost(d, m)) && r.order == Without(m.order, Lost(m, r))
    ensures r.order == Without(d.order, Lost(d, r))
  {
    WithoutTwice(d.order, Lost(d, m), Lost(m, r));
    assert Lost(d, m) + Lost(m, r) == Lost(d, r);
  }

  lemma NothingLost(d: Dict<Key, LockId>)
    ensures d.order == Without(d.order, Lost(d, d))
  {
    assert Lost(d, d) == {};
  }

  /** The pass drops just enough locks and leaves the rest in their order. */
  ghost predicate JustEnough(d: Dict<Key, LockId>, r: Dict<Key, LockId>, max: nat) {
    && (|d.order| < max ==> r == d) && (|d.order| >= max ==> |r.order| + 1 >= max)
    && r.order == Without(d.order, Lost(d, r))
  }

  lemma {:induction false} EvictPassDropsJustEnough(candidates: seq<Key>, d: Dict<Key, LockId>, heap: seq<Lock>, max: nat)
    requires d.Valid()
    ensures JustEnough(d, EvictPass(candidates, d, heap, max), max)
  {
    if candidates == [] || |d.order| < max {
      NothingLost(d);
    } else {
      var d1 := AfterOne(d, heap, candidates[0]);
      OneLess(d, heap, candidates[0]);
      EvictPassDropsJustEnough(candidates[1..], d1, heap, max);
      LostTwice(d, d1, EvictPass(candidates[1..], d1, heap, max));
    }
  }

  lemma FirstIsLost(candidates: seq<Key>, d: Dict<Key, LockId>, heap: seq<Lock>, max: nat)
    requires candidates != [] && |d.order| >= max && Evictable(d, heap, candidates[0])
    ensures candidates[0] in Lost(d, EvictPass(candidates, d, heap, max))
  {
    assert candidates[0] !in d.Del(candidates[0]).vals;
  }

  lemma StillThere(d: Dict<Key, LockId>, heap: seq<Lock>, c: Key, k: Key)
    requires c != k
    ensures k in AfterOne(d, heap, c).vals <==> k in d.vals
    ensures Evictable(AfterOne(d, heap, c), heap, k) <==> Evictable(d, heap, k)
  {
  }

  /** a comes before b. */
  predicate Before(s: seq<Key>, a: Key, b: Key) {
    s != [] && if s[0] == a then b in s[1..] && a != b else s[0] != b && Before(s[1..], a, b)
  }

  /** It drops the locks in the order of the candidates, passing over the held ones. */
  lemma {:induction false} EvictPassDropsOldest(candidates: seq<Key>, d: Dict<Key, LockId>, heap: seq<Lock>, max: nat, a: Key, b: Key)
    requires Before(candidates, a, b) && Evictable(d, heap, a) && b in Lost(d, EvictPass(candidates, d, heap, max))
    ensures a in Lost(d, EvictPass(candidates, d, heap, max))
  {
    var c := candidates[0];
    if c == a {
      FirstIsLost(candidates, d, heap, max);
    } else {
      StillThere(d, heap, c, a);
      StillThere(d, heap, c, b);
      EvictPassDropsOldest(candidates[1..], AfterOne(d, heap, c), heap, max, a, b);
    }
  }

  datatype Found = Found(table: Dict<Key, LockId>, heap: seq<Lock>, lock: LockId)

  function TableAfterEviction(d: Dict<Key, LockId>, heap: seq<Lock>, max: nat, key: Key): Dict<Key, LockId> {
    if key !in d.vals && |d.order| >= max then EvictPass(d.order, d, heap, max) else d
  }

  /** _InflightLockMap.__getitem__ */
  function Lookup(d: Dict<Key, LockId>, heap: seq<Lock>, max: nat, key: Key): Found {
    if key in d.vals then
      Found(d.MoveToEnd(key), heap, d.vals[key])
    else
      Found(TableAfterEviction(d, heap, max, key).Put(key, |heap|), heap + [Lock(false, [])], |heap|)
  }

  /** A lookup gives the key its tracked lock, or a fresh unlocked one; no held
      lock loses its entry; and a lookup grows the table past `max` only if every
      other tracked lock is held. */
  lemma LookupKeepsHeldLocks(d: Dict<Key, LockId>, heap: seq<Lock>, max: nat, key: Key)
    requires InHeap(d, heap) && max >= 1
    ensures var f := Lookup(d, heap, max, key);
      && InHeap(f.table, f.heap) && heap <= f.heap
      && key in f.table.vals && f.table.vals[key] == f.lock
      && (if key in d.vals then f.lock == d.vals[key]
          else f.lock == |heap| && f.heap[f.lock] == Lock(false, []))
      && (forall k :: k in d.vals && heap[d.vals[k]].locked ==> k in f.table.vals && f.table.vals[k] == d.vals[k])
      && (forall k :: k in f.table.vals && k != key ==> k in d.vals && f.table.vals[k] == d.vals[k])
      && (if key in d.vals then |f.table.order| == |d.order|
          else |f.table.order| <= max || forall k :: k in f.table.vals && k != key ==> heap[f.table.vals[k]].locked)
  {
    if key in d.vals {
      WithoutLength(d.order, key);
    } else {
      EvictPassMakesRoom(d.order, d, heap, max);
    }
  }

  lemma EvictionDropsJustEnough(d: Dict<Key, LockId>, heap: seq<Lock>, max: nat, key: Key)
    requires d.Valid() && key !in d.vals
    ensures var r := TableAfterEviction(d, heap, max, key);
      && r.order == Without(d.order, Lost(d, r)) && key !in r.vals && r.Valid()
      && (Lost(d, r) != {} ==> |r.order| + 1 >= max)
  {
    EvictPassDropsJustEnough(d.order, d, heap, max);
    NothingLost(d);
  }

  lemma NewEntryIsLast(d: Dict<Key, LockId>, r: Dict<Key, LockId>, key: Key, l: LockId)
    requires key !in d.vals && key !in r.vals && r.Valid() && r.order == Without(d.order, Lost(d, r))
    ensures Lost(d, r.Put(key, l)) == Lost(d, r)
    ensures r.Put(key, l).order == Without(d.order, Lost(d, r) + {key}) + [key]
  {
    WithoutTwice(d.order, Lost(d, r), {key});
  }

  /** The table is in order of use: the key asked for comes last, the others keep
      their order, and one that must make room leaves no more room than needed. */
  lemma LookupKeepsOrder(d: Dict<Key, LockId>, heap: seq<Lock>, max: nat, key: Key)
    requires InHeap(d, heap) && max >= 1
    ensures var f := Lookup(d, heap, max, key);
      && f.table.order == Without(d.order, Lost(d, f.table) + {key}) + [key]
      && (Lost(d, f.table) != {} ==> |f.table.order| >= max)
  {
    if key in d.vals {
      assert Lost(d, d.MoveToEnd(key)) == {};
      assert {} + {key} == {key};
    } else {
      EvictionDropsJustEnough(d, heap, max, key);
      NewEntryIsLast(d, TableAfterEviction(d, heap, max, key), key, |heap|);
    }
  }

  class InflightLockMap {
    const max: nat
    var locks: Dict<Key, LockId>

    constructor (maxKeys: int)
      ensures max == (if maxKeys < 1 then 1 else maxKeys)
      ensures locks == Dict([], map[])
    {
      max := if maxKeys < 1 then 1 else maxKeys;
      locks := Dict([], map[]);
    }

    method GetItem(key: Key, heap: seq<Lock>) returns (lock: LockId, newHeap: seq<Lock>)
      modifies this
      ensures Found(locks, newHeap, lock) == Lookup(old(locks), heap, max, key)
    {
      if key in locks.vals {
        lock, newHeap := locks.vals[key], heap;
        locks := locks.MoveToEnd(key);
        return;
      }
      if |locks.order| >= max {
        var candidates := locks.order;
        var i := 0;
        while i < |candidates|
          invariant 0 <= i <= |candidates|
          invariant key !in locks.vals
          invariant EvictPass(candidates[i..], locks, heap, max) == EvictPass(candidates, old(locks), heap, max)
        {
          if |locks.order| < max {
            break;
          }
          if Evictable(locks, heap, candidates[i]) {
            locks := locks.Del(candidates[i]);
          }
          i := i + 1;
        }
      }
      lock, newHeap := |heap|, heap + [Lock(false, [])];
      locks := locks.Put(key, lock);
    }
  }
}
