// sanitize_key and _build_key.  The SHA-256 digest is a parameter: a function to 64
// hexadecimal digits.
module Keys {

  predicate Hex(c: char) {
    '0' <= c <= '9' || 'a' <= c <= 'f'
  }

  ghost predicate IsDigest(digest: string -> string) {
    forall s :: HexString(digest(s))
  }

  predicate HexString(d: string) {
    |d| == 64 && forall c :: c in d ==> Hex(c)
  }

  predicate Bad(c: char) {
    c == ' ' || c == '\n' || c == '\r'
  }

  /** Spaces become underscores, line breaks go. */
  function Clean(s: string): (r: string)
    ensures forall c :: c in r ==> !Bad(c)
    ensures |r| <= |s|
  {
    if s == "" then ""
    else
      var n := |s| - 1;
      Clean(s[..n]) + (if s[n] == ' ' then "_" else if Bad(s[n]) then "" else [s[n]])
  }

  predicate IsClean(s: string) {
    forall c :: c in s ==> !Bad(c)
  }

  lemma {:induction false} CleanStays(s: string)
    requires IsClean(s)
    ensures Clean(s) == s
  {
    if s != "" {
      var n := |s| - 1;
      assert s == s[..n] + [s[n]];
      CleanStays(s[..n]);
    }
  }

  lemma {:induction false} CleanAppends(a: string, b: string)
    ensures Clean(a + b) == Clean(a) + Clean(b)
    decreases |b|
  {
    if b == "" {
      assert a + b == a;
    } else {
      var n := |b| - 1;
      assert (a + b)[..|a + b| - 1] == a + b[..n];
      CleanAppends(a, b[..n]);
    }
  }

  function Shortened(digest: string -> string, s: string): string {
    if |s| > 250 then s[..100] + ("#" + digest(s[100..])) else s
  }

  function Sanitize(digest: string -> string, key: string): string {
    Shortened(digest, Clean(key))
  }

  function BuildKey(digest: string -> string, prefix: string, key: string): string {
    Sanitize(digest, if prefix + ":" <= key then key else prefix + ":" + key)
  }

  lemma ShortenedIsShort(digest: string -> string, s: string)
    requires IsDigest(digest) && IsClean(s)
    ensures |Shortened(digest, s)| <= 250 && IsClean(Shortened(digest, s))
  {
  }

  lemma SanitizeTwice(digest: string -> string, key: string)
    requires IsDigest(digest)
    ensures Sanitize(digest, Sanitize(digest, key)) == Sanitize(digest, key)
    ensures |Sanitize(digest, key)| <= 250 && IsClean(Sanitize(digest, key))
  {
    ShortenedIsShort(digest, Clean(key));
    CleanStays(Sanitize(digest, key));
  }

  /** With CleanAppends: spaces become underscores, line breaks go, all else stays. */
  lemma CleanCharacter(c: char)
    ensures c == ' ' ==> Clean([c]) == "_"
    ensures c == '\n' || c == '\r' ==> Clean([c]) == ""
    ensures c != ' ' && c != '\n' && c != '\r' ==> Clean([c]) == [c]
  {
    assert [c][..0] == "";
  }

  /** Keys that the digest must tell apart. */
  predicate SameButForDigest(digest: string -> string, s: string, t: string) {
    |s| > 250 && |t| > 250 && s[..100] == t[..100] && digest(s[100..]) == digest(t[100..])
  }

  /** Two keys share a sanitised form iff they are the same but for spaces and line
      breaks, or are long and agree in their first 100 characters and in the digest of
      the rest, or one is spelled like the short form of the other. */
  lemma SanitizeSeparates(digest: string -> string, a: string, b: string)
    requires IsDigest(digest)
    ensures Sanitize(digest, a) == Sanitize(digest, b) <==>
      var (s, t) := (Clean(a), Clean(b));
      || s == t
      || SameButForDigest(digest, s, t)
      || (|s| <= 250 < |t| && s == t[..100] + "#" + digest(t[100..]))
      || (|t| <= 250 < |s| && t == s[..100] + "#" + digest(s[100..]))
  {
    var (s, t) := (Clean(a), Clean(b));
    if |s| > 250 && |t| > 250 {
      LongForm(digest, s);
      LongForm(digest, t);
    } else if |s| > 250 {
      LongForm(digest, s);
    } else if |t| > 250 {
      LongForm(digest, t);
    }
  }

  lemma LongForm(digest: string -> string, s: string)
    requires IsDigest(digest) && |s| > 250
    ensures Shortened(digest, s) == s[..100] + "#" + digest(s[100..])
    ensures Shortened(digest, s)[..100] == s[..100] && Shortened(digest, s)[101..] == digest(s[100..])
  {
  }

  predicate GoodPrefix(prefix: string) {
    IsClean(prefix) && |prefix| <= 99
  }

  /** A built key begins with the prefix, however long the key. */
  lemma BuiltKeyHasPrefix(digest: string -> string, prefix: string, rest: string)
    requires GoodPrefix(prefix)
    ensures prefix + ":" <= Sanitize(digest, prefix + ":" + rest)
  {
    var e := prefix + ":";
    CleanStays(e);
    CleanAppends(e, rest);
    assert e <= Clean(e + rest);
  }

  /** Building a built key changes nothing, for every digest and key. */
  lemma BuildKeyIsIdempotent(digest: string -> string, prefix: string, key: string)
    requires IsDigest(digest) && GoodPrefix(prefix)
    ensures Idempotent(digest, prefix, key)
  {
    var e := prefix + ":";
    var rest := if e <= key then key[|e|..] else key;
    assert (if e <= key then key else e + key) == e + rest;
    BuiltKeyHasPrefix(digest, prefix, rest);
    SanitizeTwice(digest, e + rest);
  }

  predicate Idempotent(digest: string -> string, prefix: string, key: string) {
    BuildKey(digest, prefix, BuildKey(digest, prefix, key)) == BuildKey(digest, prefix, key)
  }

  /** Only a good prefix survives the shortening of a long key. */
  lemma KeptPrefixIsGood(digest: string -> string, prefix: string, s: string)
    requires IsDigest(digest) && |Clean(s)| > 250 && prefix + ":" <= Sanitize(digest, s)
    ensures GoodPrefix(prefix)
  {
    var (e, r, d) := (prefix + ":", Sanitize(digest, s), digest(Clean(s)[100..]));
    SanitizeTwice(digest, s);
    forall c | c in prefix ensures !Bad(c) {
      var i :| 0 <= i < |prefix| && prefix[i] == c;
      assert r[i] == e[i] == c;
    }
    assert HexString(d);
    assert r[100] == '#';
    forall i | 101 <= i < |r| ensures Hex(r[i]) {
      assert r[i] == d[i - 101] && d[i - 101] in d;
    }
    assert r[|prefix|] == e[|prefix|] == ':';
  }

  lemma ShortenedEnds(digest: string -> string, s: string)
    requires IsDigest(digest) && |s| > 250
    ensures |Shortened(digest, s)| == 165 && Shortened(digest, s)[101..] == digest(s[100..])
  {
  }

  /** What is hashed when a long key is built, and when the built key is built again. */
  function HashedFirst(prefix: string, key: string): string
    requires |Clean(prefix + ":" + key)| > 250
  {
    Clean(prefix + ":" + key)[100..]
  }

  function BuiltAgain(digest: string -> string, prefix: string, key: string): string {
    Clean(prefix + ":") + BuildKey(digest, prefix, key)
  }

  lemma BadPrefixIsLost(digest: string -> string, prefix: string, key: string)
    requires IsDigest(digest) && !GoodPrefix(prefix) && !(prefix + ":" <= key) && |Clean(prefix + ":" + key)| > 250
    ensures !(prefix + ":" <= BuildKey(digest, prefix, key))
  {
    if prefix + ":" <= BuildKey(digest, prefix, key) {
      KeptPrefixIsGood(digest, prefix, prefix + ":" + key);
    }
  }

  lemma CleanOfPrefixed(e: string, r: string)
    requires IsClean(r)
    ensures Clean(e + r) == Clean(e) + r
  {
    CleanAppends(e, r);
    CleanStays(r);
  }

  lemma ColonStays(prefix: string)
    ensures |Clean(prefix + ":")| > 0
  {
    CleanAppends(prefix, ":");
  }

  lemma PrefixIsAddedAgain(digest: string -> string, prefix: string, key: string)
    requires IsDigest(digest) && !GoodPrefix(prefix) && !(prefix + ":" <= key) && |Clean(prefix + ":" + key)| > 250
    ensures BuildKey(digest, prefix, BuildKey(digest, prefix, key)) == Shortened(digest, BuiltAgain(digest, prefix, key))
    ensures |BuiltAgain(digest, prefix, key)| > |BuildKey(digest, prefix, key)|
  {
    BadPrefixIsLost(digest, prefix, key);
    SanitizeTwice(digest, prefix + ":" + key);
    CleanOfPrefixed(prefix + ":", BuildKey(digest, prefix, key));
    ColonStays(prefix);
  }

  lemma SameShortened(digest: string -> string, s: string, t: string)
    requires IsDigest(digest) && |s| > 250 && Shortened(digest, t) == Shortened(digest, s) && |t| > |Shortened(digest, s)|
    ensures |t| > 250 && digest(t[100..]) == digest(s[100..])
  {
    ShortenedEnds(digest, s);
    if |t| > 250 {
      ShortenedEnds(digest, t);
    }
  }

  /** Under a bad prefix a long key is built again with the prefix in front, and the
      result differs unless it is hashed and two digests agree. */
  lemma BadPrefixBuildsTwice(digest: string -> string, prefix: string, key: string)
    requires IsDigest(digest) && !GoodPrefix(prefix) && !(prefix + ":" <= key)
    requires |Clean(prefix + ":" + key)| > 250 && Idempotent(digest, prefix, key)
    ensures |BuiltAgain(digest, prefix, key)| > 250
    ensures digest(BuiltAgain(digest, prefix, key)[100..]) == digest(HashedFirst(prefix, key))
  {
    PrefixIsAddedAgain(digest, prefix, key);
    SameShortened(digest, Clean(prefix + ":" + key), BuiltAgain(digest, prefix, key));
  }

  function Zeros(n: nat): string {
    seq(n, i => '0')
  }

  /** A digest that tells one string from all others. */
  function Telling(x: string): string -> string {
    s => if s == x then Zeros(64) else Zeros(63) + "1"
  }

  lemma TellingIsDigest(x: string)
    ensures IsDigest(Telling(x))
    ensures forall s :: Telling(x)(s) == Telling(x)(x) ==> s == x
  {
    forall s ensures HexString(Telling(x)(s)) {
    }
    assert (Zeros(63) + "1")[63] == '1' && Zeros(64)[63] == '0';
  }

  lemma LongKey(prefix: string, key: string)
    requires key == Zeros(400 + |prefix|)
    ensures !(prefix + ":" <= key) && |Clean(prefix + ":" + key)| == |Clean(prefix + ":")| + 400 + |prefix|
  {
    CleanAppends(prefix + ":", key);
    CleanStays(key);
    assert (prefix + ":")[|prefix|] == ':' && key[|prefix|] == '0';
  }

  /** A long key of zeros is not built the same way twice under a bad prefix. */
  lemma BadPrefixFails(prefix: string)
    requires !GoodPrefix(prefix)
    ensures exists digest, key :: IsDigest(digest) && !Idempotent(digest, prefix, key)
  {
    var key := Zeros(400 + |prefix|);
    LongKey(prefix, key);
    var x := HashedFirst(prefix, key);
    TellingIsDigest(x);
    SanitizeTwice(Telling(x), prefix + ":" + key);
    assert |x| == |Clean(prefix + ":")| + 300 + |prefix|;
    assert |BuiltAgain(Telling(x), prefix, key)| <= |Clean(prefix + ":")| + 250;
    if Idempotent(Telling(x), prefix, key) {
      BadPrefixBuildsTwice(Telling(x), prefix, key);
    }
  }

  ghost predicate AlwaysIdempotent(prefix: string) {
    forall digest, key :: IsDigest(digest) ==> Idempotent(digest, prefix, key)
  }

  /** Building is idempotent, whatever the digest and the key, exactly if the prefix
      is clean and has at most 99 characters. */
  lemma IdempotentIff(prefix: string)
    ensures AlwaysIdempotent(prefix) <==> GoodPrefix(prefix)
  {
    if GoodPrefix(prefix) {
      forall digest, key | IsDigest(digest) ensures Idempotent(digest, prefix, key) {
        BuildKeyIsIdempotent(digest, prefix, key);
      }
    } else {
      BadPrefixFails(prefix);
    }
  }
}
