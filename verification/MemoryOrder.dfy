// Facts about sorting the access times.
module MemoryOrder {
  import opened Basics
  import opened OrderedDict
  import opened MemoryModel

  predicate Ascending(s: seq<Key>, times: map<Key, Time>) {
    forall i, j :: 0 <= i < j < |s| ==> TimeOf(times, s[i]) <= TimeOf(times, s[j])
  }

  lemma {:induction false} InsertAscends(s: seq<Key>, k: Key, times: map<Key, Time>)
    requires Ascending(s, times)
    ensures Ascending(InsertByTime(s, k, times), times)
  {
    if s != [] {
      var n := |s| - 1;
      if TimeOf(times, s[n]) > TimeOf(times, k) {
        var r := InsertByTime(s[..n], k, times);
        InsertAscends(s[..n], k, times);
        forall x | x in r ensures TimeOf(times, x) <= TimeOf(times, s[n]) {
          if x != k {
            var i :| 0 <= i < n && s[..n][i] == x;
            assert s[i] == x;
          }
        }
      }
    }
  }

  lemma {:induction false} SortAscends(s: seq<Key>, times: map<Key, Time>)
    ensures Ascending(SortedByTime(s, times), times)
  {
    if s != [] {
      var n := |s| - 1;
      SortAscends(s[..n], times);
      InsertAscends(SortedByTime(s[..n], times), s[n], times);
    }
  }

  lemma InsertSnoc(s: seq<Key>, x: Key, k: Key, times: map<Key, Time>)
    ensures InsertByTime(s + [x], k, times) ==
      if TimeOf(times, x) <= TimeOf(times, k) then s + [x] + [k] else InsertByTime(s, k, times) + [x]
  {
  }

  lemma InsertNewest(s: seq<Key>, k: Key, times: map<Key, Time>)
    requires forall x :: x in s ==> TimeOf(times, x) <= TimeOf(times, k)
    ensures InsertByTime(s, k, times) == s + [k]
  {
  }

  lemma AllUpToLast(s: seq<Key>, times: map<Key, Time>, x: Key)
    requires Ascending(s, times) && x in s
    ensures TimeOf(times, x) <= TimeOf(times, s[|s| - 1])
  {
  }

  lemma {:induction false} InsertWithout(s: seq<Key>, k: Key, times: map<Key, Time>, gone: set<Key>)
    requires Ascending(s, times)
    ensures Without(InsertByTime(s, k, times), gone) ==
      if k in gone then Without(s, gone) else InsertByTime(Without(s, gone), k, times)
  {
    if s == [] || TimeOf(times, s[|s| - 1]) <= TimeOf(times, k) {
      WithoutSnoc(s, k, gone);
      forall x | x in Without(s, gone) ensures TimeOf(times, x) <= TimeOf(times, k) {
        AllUpToLast(s, times, x);
      }
      InsertNewest(Without(s, gone), k, times);
    } else {
      var n := |s| - 1;
      InsertWithout(s[..n], k, times, gone);
      WithoutSnoc(InsertByTime(s[..n], k, times), s[n], gone);
      InsertSnoc(Without(s[..n], gone), s[n], k, times);
    }
  }

  /** Removing keys and sorting commute. */
  lemma {:induction false} SortWithout(s: seq<Key>, times: map<Key, Time>, gone: set<Key>)
    ensures SortedByTime(Without(s, gone), times) == Without(SortedByTime(s, times), gone)
  {
    if s != [] {
      var n := |s| - 1;
      var w := Without(s[..n], gone);
      SortWithout(s[..n], times, gone);
      SortAscends(s[..n], times);
      InsertWithout(SortedByTime(s[..n], times), s[n], times, gone);
      if s[n] !in gone {
        assert (w + [s[n]])[..|w|] == w;
      }
    }
  }

  lemma {:induction false} InsertSame(s: seq<Key>, k: Key, times: map<Key, Time>, other: map<Key, Time>)
    requires forall x :: x in s || x == k ==> TimeOf(times, x) == TimeOf(other, x)
    ensures InsertByTime(s, k, times) == InsertByTime(s, k, other)
  {
    if s != [] {
      var n := |s| - 1;
      assert s[n] in s;
      assert forall x :: x in s[..n] ==> x in s;
      InsertSame(s[..n], k, times, other);
    }
  }

  /** Only the times of the sorted keys matter. */
  lemma {:induction false} SortSame(s: seq<Key>, times: map<Key, Time>, other: map<Key, Time>)
    requires forall x :: x in s ==> TimeOf(times, x) == TimeOf(other, x)
    ensures SortedByTime(s, times) == SortedByTime(s, other)
  {
    if s != [] {
      var n := |s| - 1;
      SortSame(s[..n], times, other);
      InsertSame(SortedByTime(s[..n], times), s[n], times, other);
    }
  }

  /** The newest key is sorted last, ties included, if it is also listed last. */
  lemma NewestIsLast(s: seq<Key>, k: Key, times: map<Key, Time>)
    requires forall x :: x in s ==> TimeOf(times, x) <= TimeOf(times, k)
    ensures SortedByTime(s + [k], times) == SortedByTime(s, times) + [k]
  {
  }

  lemma InsertBelowNewest(w: seq<Key>, k: Key, x: Key, times: map<Key, Time>)
    requires TimeOf(times, x) < TimeOf(times, k)
    ensures InsertByTime(w + [k], x, times) == InsertByTime(w, x, times) + [k]
  {
  }

  lemma SortSnoc(s: seq<Key>, x: Key, times: map<Key, Time>)
    ensures SortedByTime(s + [x], times) == InsertByTime(SortedByTime(s, times), x, times)
  {
  }

  /** Refreshing the time of a listed key moves it to the end of the sorted keys. */
  lemma {:induction false} TouchedIsLast(s: seq<Key>, k: Key, times: map<Key, Time>, now: Time)
    requires Distinct(s) && k in s
    requires forall x :: x in s && x != k ==> TimeOf(times, x) < now
    ensures SortedByTime(s, times[k := now]) == Without(SortedByTime(s, times), {k}) + [k]
    decreases |s|
  {
    var n := |s| - 1;
    var p, x := s[..n], s[n];
    assert s == p + [x];
    SortSnoc(p, x, times[k := now]);
    TouchedLeft(p, x, k, times);
    if x == k {
      TouchedHere(p, k, times, now);
    } else {
      assert k in p && forall y :: y in p ==> y in s;
      TouchedIsLast(p, k, times, now);
      TouchedStep(Without(SortedByTime(p, times), {k}), k, x, times, now);
    }
  }

  lemma TouchedLeft(p: seq<Key>, x: Key, k: Key, times: map<Key, Time>)
    ensures Without(SortedByTime(p + [x], times), {k}) ==
      if x == k then Without(SortedByTime(p, times), {k})
      else InsertByTime(Without(SortedByTime(p, times), {k}), x, times)
  {
    SortSnoc(p, x, times);
    SortAscends(p, times);
    InsertWithout(SortedByTime(p, times), x, times, {k});
  }

  lemma TouchedHere(p: seq<Key>, k: Key, times: map<Key, Time>, now: Time)
    requires k !in p
    requires forall x :: x in p ==> TimeOf(times, x) < now
    ensures InsertByTime(SortedByTime(p, times[k := now]), k, times[k := now]) ==
      Without(SortedByTime(p, times), {k}) + [k]
  {
    SortSame(p, times, times[k := now]);
    InsertNewest(SortedByTime(p, times), k, times[k := now]);
  }

  lemma TouchedStep(w: seq<Key>, k: Key, x: Key, times: map<Key, Time>, now: Time)
    requires x != k && k !in w && TimeOf(times, x) < now
    ensures InsertByTime(w + [k], x, times[k := now]) == InsertByTime(w, x, times) + [k]
  {
    InsertBelowNewest(w, k, x, times[k := now]);
    InsertSame(w, x, times, times[k := now]);
  }

  lemma SomeElement(s: seq<Key>)
    ensures s != [] ==> exists x :: x in s
  {
    if s != [] {
      assert s[0] in s;
    }
  }

  lemma WithoutAll(s: seq<Key>)
    ensures Without(s, ToSet(s)) == []
  {
    SomeElement(Without(s, ToSet(s)));
  }

  lemma LastIsNotBefore(s: seq<Key>, n: nat)
    requires Distinct(s) && n < |s|
    ensures s[|s| - 1] !in ToSet(s[..n])
  {
  }

  /** Dropping a prefix's keys drops the prefix. */
  lemma {:induction false} WithoutPrefix(s: seq<Key>, n: nat)
    requires Distinct(s) && n <= |s|
    ensures Without(s, ToSet(s[..n])) == s[n..]
    decreases |s|
  {
    if n == |s| {
      assert s[..n] == s;
      WithoutAll(s);
    } else {
      var m := |s| - 1;
      WithoutPrefix(s[..m], n);
      assert s[..m][..n] == s[..n];
      LastIsNotBefore(s, n);
      assert s[n..] == s[..m][n..] + [s[m]];
    }
  }
}
