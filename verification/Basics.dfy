// Names, values and a fact shared by the models.  Wrapping the strings keeps keys, tags
// and cached values apart.
module Basics {
  datatype Key = Key(name: string)
  datatype Tag = Tag(name: string)
  datatype Value = Value(payload: string)

  datatype Option<+T> = None | Some(value: T)

  /** `ttl or 300` with a jitter drawn by the caller, never below one second. */
  function EffectiveTtl(ttl: int, jitter: int): (r: int)
    ensures r >= 1
  {
    var base := if ttl == 0 then 300 else ttl;
    if base + jitter < 1 then 1 else base + jitter
  }

  lemma {:induction false} SubsetSize<T>(a: set<T>, b: set<T>)
    requires a <= b
    ensures |a| <= |b|
    decreases a
  {
    if a != {} {
      var x :| x in a;
      SubsetSize(a - {x}, b - {x});
    }
  }
}
