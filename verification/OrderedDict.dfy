// Python dictionaries keep insertion order, and several parts of the cache rely
// on it.  A Dict is a lookup table together with the order of its keys.
module OrderedDict {

  /** No key is listed twice. */
  predicate Distinct<K(==)>(s: seq<K>) {
    s != [] ==>
      var n := |s| - 1;
      s[n] !in s[..n] && Distinct(s[..n])
  }

  lemma DistinctSnoc<K>(s: seq<K>, k: K)
    ensures Distinct(s + [k]) == (Distinct(s) && k !in s)
  {
  }

  /** The keys in `gone` taken out, the rest in the same order. */
  function Without<K(!new, ==)>(s: seq<K>, gone: set<K>): (r: seq<K>)
    ensures forall x :: x in r <==> x in s && x !in gone
    ensures Distinct(s) ==> Distinct(r)
    ensures (forall x :: x in s ==> x !in gone) ==> r == s
  {
    if s == [] then []
    else
      var n := |s| - 1;
      var w := Without(s[..n], gone);
      if s[n] in gone then w
      else
        DistinctSnoc(w, s[n]);
        w + [s[n]]
  }

  lemma WithoutSnoc<K(!new)>(s: seq<K>, x: K, gone: set<K>)
    ensures Without(s + [x], gone) == if x in gone then Without(s, gone) else Without(s, gone) + [x]
  {
  }

  lemma {:induction false} WithoutTwice<K(!new)>(s: seq<K>, a: set<K>, b: set<K>)
    ensures Without(Without(s, a), b) == Without(s, a + b)
  {
    if s != [] {
      var n := |s| - 1;
      WithoutTwice(s[..n], a, b);
      if s[n] !in a {
        var w := Without(s[..n], a);
        assert (w + [s[n]])[..|w|] == w;
      }
    }
  }

  lemma {:induction false} WithoutLength<K(!new)>(s: seq<K>, k: K)
    requires Distinct(s) && k in s
    ensures |Without(s, {k})| == |s| - 1
  {
    var n := |s| - 1;
    if s[n] != k {
      WithoutLength(s[..n], k);
    }
  }

  datatype Dict<K(!new, ==), V> = Dict(order: seq<K>, vals: map<K, V>) {

    ghost predicate Valid() {
      && Distinct(order)
      && (forall k :: k in order <==> k in vals)
    }

    /** d[k] = v: an existing key keeps its place, a new one goes to the end. */
    function Put(k: K, v: V): (d: Dict<K, V>)
      ensures Valid() ==> d.Valid()
    {
      DistinctSnoc(order, k);
      Dict(if k in vals then order else order + [k], vals[k := v])
    }

    /** d.pop(k, None) */
    function Del(k: K): (d: Dict<K, V>)
      ensures Valid() ==> d.Valid()
    {
      Dict(Without(order, {k}), vals - {k})
    }

    /** OrderedDict.move_to_end(k) */
    function MoveToEnd(k: K): (d: Dict<K, V>)
      requires k in vals
      ensures Valid() ==> d.Valid()
    {
      DistinctSnoc(Without(order, {k}), k);
      Dict(Without(order, {k}) + [k], vals)
    }
  }

  /** The order lists exactly the keys, so both have the same size. */
  lemma {:induction false} SizeIsKeys<K(!new), V>(d: Dict<K, V>)
    requires d.Valid()
    ensures |d.order| == |d.vals.Keys|
    decreases |d.order|
  {
    if d.order == [] {
      assert d.vals.Keys == {};
    } else {
      var n := |d.order| - 1;
      var rest := Dict(d.order[..n], d.vals - {d.order[n]});
      SizeIsKeys(rest);
      assert rest.vals.Keys == d.vals.Keys - {d.order[n]};
    }
  }
}
