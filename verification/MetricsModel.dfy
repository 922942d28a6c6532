// What the metrics should say about the operations recorded since the last reset,
// and order statistics of the timings.
module MetricsModel {
  import opened Basics

  datatype OpType = OpType(name: string)
  datatype Table = Table(name: string)
  datatype ErrorType = ErrorType(name: string)

  datatype Metric = Metric(
    op: OpType,
    duration: real,
    success: bool,
    errorType: Option<ErrorType>,
    cacheHit: Option<bool>,
    table: Option<Table>,
    tags: set<Tag>)

  const GET := OpType("get")
  const SET := OpType("set")
  const DELETE := OpType("delete")

  const MAX_TIMES: nat := 1000

  /** A table or tag, each of which has statistics of its own. */
  datatype Subject = OfTable(table: Table) | OfTag(tag: Tag)

  function Subjects(m: Metric): set<Subject> {
    (if m.table.Some? then {OfTable(m.table.value)} else {}) + (set t | t in m.tags :: OfTag(t))
  }

  /** The keys of the hit and miss counters. */
  datatype Label = Total | Of(subject: Subject)

  function Labels(m: Metric): set<Label> {
    {Total} + (set x | x in Subjects(m) :: Of(x))
  }

  /** What a counter counts. */
  datatype Counter =
    | Operations(op: OpType)
    | Successes(op: OpType)
    | Errors(op: OpType)
    | ErrorsOf(error: ErrorType)
    | Hits(hit: Label)
    | Misses(missed: Label)
    | Stat(subject: Subject, stat: Statistic)

  /** The entries of table_metrics and tag_metrics that count. */
  datatype Statistic = StatHits | StatMisses | StatSets | StatDeletes | StatErrors

  predicate IsStat(x: Statistic, m: Metric) {
    match x
    case StatHits => m.op == GET && m.cacheHit == Some(true)
    case StatMisses => m.op == GET && m.cacheHit == Some(false)
    case StatSets => m.op == SET
    case StatDeletes => m.op == DELETE
    case StatErrors => !m.success
  }

  predicate Counts(c: Counter, m: Metric) {
    match c
    case Operations(op) => m.op == op
    case Successes(op) => m.op == op && m.success
    case Errors(op) => m.op == op && !m.success
    case ErrorsOf(e) => !m.success && m.errorType == Some(e)
    case Hits(l) => m.op == GET && m.cacheHit == Some(true) && l in Labels(m)
    case Misses(l) => m.op == GET && m.cacheHit == Some(false) && l in Labels(m)
    case Stat(subject, x) => subject in Subjects(m) && IsStat(x, m)
  }

  function Tally(h: seq<Metric>, c: Counter): nat {
    if h == [] then 0 else Tally(h[..|h| - 1], c) + if Counts(c, h[|h| - 1]) then 1 else 0
  }

  function Where(h: seq<Metric>, holds: Metric -> bool): set<nat> {
    set i | 0 <= i < |h| && holds(h[i])
  }

  /** In how many of the operations this holds. */
  function Number(h: seq<Metric>, holds: Metric -> bool): nat {
    |Where(h, holds)|
  }

  lemma NumberSnoc(h: seq<Metric>, m: Metric, holds: Metric -> bool)
    ensures Number(h + [m], holds) == Number(h, holds) + if holds(m) then 1 else 0
  {
    assert Where(h + [m], holds) == Where(h, holds) + if holds(m) then {|h|} else {};
  }

  lemma {:induction false} TallyIsNumber(h: seq<Metric>, c: Counter, holds: Metric -> bool)
    requires forall m :: Counts(c, m) <==> holds(m)
    ensures Tally(h, c) == Number(h, holds)
  {
    if h == [] {
      assert Where(h, holds) == {};
    } else {
      var n := |h| - 1;
      TallyIsNumber(h[..n], c, holds);
      NumberSnoc(h[..n], h[n], holds);
      assert h == h[..n] + [h[n]];
    }
  }

  /** The operation was on this table, or on something with this tag. */
  predicate Concerns(m: Metric, subject: Subject) {
    match subject
    case OfTable(t) => m.table == Some(t)
    case OfTag(t) => t in m.tags
  }

  lemma SubjectsConcern(m: Metric, subject: Subject)
    ensures subject in Subjects(m) <==> Concerns(m, subject)
    ensures Of(subject) in Labels(m) <==> Concerns(m, subject)
    ensures Total in Labels(m)
  {
  }

  /** What the counters of a type of operation, and of all, count. */
  lemma CountersMean(h: seq<Metric>, op: OpType, e: ErrorType)
    ensures Tally(h, Operations(op)) == Number(h, (m: Metric) => m.op == op)
    ensures Tally(h, Successes(op)) == Number(h, (m: Metric) => m.op == op && m.success)
    ensures Tally(h, Errors(op)) == Number(h, (m: Metric) => m.op == op && !m.success)
    ensures Tally(h, ErrorsOf(e)) == Number(h, (m: Metric) => !m.success && m.errorType == Some(e))
    ensures Tally(h, Hits(Total)) == Number(h, (m: Metric) => m.op.name == "get" && m.cacheHit == Some(true))
    ensures Tally(h, Misses(Total)) == Number(h, (m: Metric) => m.op.name == "get" && m.cacheHit == Some(false))
  {
    TallyIsNumber(h, Operations(op), (m: Metric) => m.op == op);
    TallyIsNumber(h, Successes(op), (m: Metric) => m.op == op && m.success);
    TallyIsNumber(h, Errors(op), (m: Metric) => m.op == op && !m.success);
    TallyIsNumber(h, ErrorsOf(e), (m: Metric) => !m.success && m.errorType == Some(e));
    TallyIsNumber(h, Hits(Total), (m: Metric) => m.op.name == "get" && m.cacheHit == Some(true));
    TallyIsNumber(h, Misses(Total), (m: Metric) => m.op.name == "get" && m.cacheHit == Some(false));
  }

  /** ... and those of a table or tag. */
  lemma SubjectHitsMean(h: seq<Metric>, x: Subject)
    ensures Tally(h, Hits(Of(x))) == Tally(h, Stat(x, StatHits)) ==
      Number(h, (m: Metric) => Concerns(m, x) && m.op.name == "get" && m.cacheHit == Some(true))
  {
    var holds := (m: Metric) => Concerns(m, x) && m.op.name == "get" && m.cacheHit == Some(true);
    forall m ensures Counts(Hits(Of(x)), m) == Counts(Stat(x, StatHits), m) == holds(m) {
      SubjectsConcern(m, x);
    }
    TallyIsNumber(h, Hits(Of(x)), holds);
    TallyIsNumber(h, Stat(x, StatHits), holds);
  }

  lemma SubjectMissesMean(h: seq<Metric>, x: Subject)
    ensures Tally(h, Misses(Of(x))) == Tally(h, Stat(x, StatMisses)) ==
      Number(h, (m: Metric) => Concerns(m, x) && m.op.name == "get" && m.cacheHit == Some(false))
  {
    var holds := (m: Metric) => Concerns(m, x) && m.op.name == "get" && m.cacheHit == Some(false);
    forall m ensures Counts(Misses(Of(x)), m) == Counts(Stat(x, StatMisses), m) == holds(m) {
      SubjectsConcern(m, x);
    }
    TallyIsNumber(h, Misses(Of(x)), holds);
    TallyIsNumber(h, Stat(x, StatMisses), holds);
  }

  lemma SubjectWritesMean(h: seq<Metric>, x: Subject)
    ensures Tally(h, Stat(x, StatSets)) == Number(h, (m: Metric) => Concerns(m, x) && m.op.name == "set")
    ensures Tally(h, Stat(x, StatDeletes)) == Number(h, (m: Metric) => Concerns(m, x) && m.op.name == "delete")
  {
    forall m ensures x in Subjects(m) <==> Concerns(m, x) {
      SubjectsConcern(m, x);
    }
    TallyIsNumber(h, Stat(x, StatSets), (m: Metric) => Concerns(m, x) && m.op.name == "set");
    TallyIsNumber(h, Stat(x, StatDeletes), (m: Metric) => Concerns(m, x) && m.op.name == "delete");
  }

  lemma SubjectErrorsMean(h: seq<Metric>, x: Subject)
    ensures Tally(h, Stat(x, StatErrors)) == Number(h, (m: Metric) => Concerns(m, x) && !m.success)
  {
    forall m ensures x in Subjects(m) <==> Concerns(m, x) {
      SubjectsConcern(m, x);
    }
    TallyIsNumber(h, Stat(x, StatErrors), (m: Metric) => Concerns(m, x) && !m.success);
  }

  /** Every operation is counted once, as a success or as an error. */
  lemma {:induction false} OperationsAreOutcomes(h: seq<Metric>, op: OpType)
    ensures Tally(h, Operations(op)) == Tally(h, Successes(op)) + Tally(h, Errors(op))
  {
    if h != [] {
      OperationsAreOutcomes(h[..|h| - 1], op);
    }
  }

  /** The operations, or the errors, of these types. */
  function TallyOf(h: seq<Metric>, ops: set<OpType>, errors: bool): nat {
    if h == [] then 0
    else
      TallyOf(h[..|h| - 1], ops, errors) +
      if h[|h| - 1].op in ops && (errors ==> !h[|h| - 1].success) then 1 else 0
  }

  lemma {:induction false} TallyOneMore(h: seq<Metric>, ops: set<OpType>, op: OpType)
    requires op !in ops
    ensures TallyOf(h, ops + {op}, false) == TallyOf(h, ops, false) + Tally(h, Operations(op))
    ensures TallyOf(h, ops + {op}, true) == TallyOf(h, ops, true) + Tally(h, Errors(op))
  {
    if h != [] {
      TallyOneMore(h[..|h| - 1], ops, op);
    }
  }

  lemma {:induction false} TallyNothing(h: seq<Metric>, errors: bool)
    ensures TallyOf(h, {}, errors) == 0
  {
    if h != [] {
      TallyNothing(h[..|h| - 1], errors);
    }
  }

  /** All errors. */
  function ErrorsIn(h: seq<Metric>): nat {
    if h == [] then 0 else ErrorsIn(h[..|h| - 1]) + if h[|h| - 1].success then 0 else 1
  }

  /** Summed over every type that occurs, the counters count everything. */
  lemma {:induction false} TallyEverything(h: seq<Metric>, ops: set<OpType>)
    requires forall op :: Tally(h, Operations(op)) > 0 ==> op in ops
    ensures TallyOf(h, ops, false) == |h| && TallyOf(h, ops, true) == ErrorsIn(h) <= |h|
  {
    if h != [] {
      var n := |h| - 1;
      forall op | Tally(h[..n], Operations(op)) > 0 ensures op in ops {
        assert Tally(h, Operations(op)) > 0;
      }
      assert Tally(h, Operations(h[n].op)) > 0;
      TallyEverything(h[..n], ops);
    }
  }

  /** Whose timings a list keeps. */
  datatype Timing = AllOf | ByOp(op: OpType) | BySubject(subject: Subject)

  predicate Times(t: Timing, m: Metric) {
    match t
    case AllOf => true
    case ByOp(op) => m.op == op
    case BySubject(subject) => subject in Subjects(m)
  }

  function Durations(h: seq<Metric>, t: Timing): seq<real> {
    if h == [] then []
    else Durations(h[..|h| - 1], t) + if Times(t, h[|h| - 1]) then [h[|h| - 1].duration] else []
  }

  lemma {:induction false} DurationsCount(h: seq<Metric>, op: OpType)
    ensures |Durations(h, ByOp(op))| == Tally(h, Operations(op))
  {
    if h != [] {
      DurationsCount(h[..|h| - 1], op);
    }
  }

  /** The last n elements, or all if there are fewer. */
  function Window<T>(s: seq<T>, n: nat): (r: seq<T>)
    ensures |r| == if |s| <= n then |s| else n
  {
    if |s| <= n then s else s[|s| - n..]
  }

  lemma WindowIsEnd<T>(s: seq<T>, n: nat)
    ensures exists dropped :: s == dropped + Window(s, n) && (dropped != [] ==> |Window(s, n)| == n)
  {
    assert s == s[..|s| - |Window(s, n)|] + Window(s, n);
  }

  /** Trimming after every step keeps the window of the whole. */
  lemma WindowSnoc<T>(s: seq<T>, x: T, n: nat)
    ensures Window(Window(s, n) + [x], n) == Window(s + [x], n)
  {
  }

  function Sum(s: seq<real>): real {
    if s == [] then 0.0 else Sum(s[..|s| - 1]) + s[|s| - 1]
  }

  /** sum(times) / len(times) */
  function Average(s: seq<real>): real {
    if s == [] then 0.0 else Sum(s) / |s| as real
  }

  lemma {:induction false} SumBounds(s: seq<real>, low: real, high: real)
    requires forall i :: 0 <= i < |s| ==> low <= s[i] <= high
    ensures |s| as real * low <= Sum(s) <= |s| as real * high
  {
    if s != [] {
      var n := |s| - 1;
      SumBounds(s[..n], low, high);
      assert |s| as real * low == n as real * low + low && |s| as real * high == n as real * high + high;
    }
  }

  /** The average of timings that lie between two bounds does, and times their number
      it is their sum. */
  lemma AverageBounds(s: seq<real>, low: real, high: real)
    requires s != [] && forall i :: 0 <= i < |s| ==> low <= s[i] <= high
    ensures low <= Average(s) <= high && Average(s) * |s| as real == Sum(s)
  {
    SumBounds(s, low, high);
    QuotientBounds(Sum(s), |s| as real, low, high);
  }

  lemma QuotientBounds(x: real, n: real, low: real, high: real)
    requires n > 0.0 && n * low <= x <= n * high
    ensures low <= x / n <= high && x / n * n == x
  {
    var q := x / n;
    assert q * n == x;
    if q < low {
      Less(q, low, n);
    } else if q > high {
      Less(high, q, n);
    }
  }

  lemma Less(x: real, y: real, n: real)
    requires x < y && n > 0.0
    ensures n * x < n * y
  {
  }

  function CountAtMost(s: seq<real>, x: real): nat {
    if s == [] then 0 else CountAtMost(s[..|s| - 1], x) + if s[|s| - 1] <= x then 1 else 0
  }

  function CountAtLeast(s: seq<real>, x: real): nat {
    if s == [] then 0 else CountAtLeast(s[..|s| - 1], x) + if s[|s| - 1] >= x then 1 else 0
  }

  lemma CountSnoc(s: seq<real>, y: real, x: real)
    ensures CountAtMost(s + [y], x) == CountAtMost(s, x) + if y <= x then 1 else 0
    ensures CountAtLeast(s + [y], x) == CountAtLeast(s, x) + if y >= x then 1 else 0
  {
  }

  function Sorted(s: seq<real>): (r: seq<real>)
    ensures |r| == |s|
  {
    if s == [] then [] else Inserted(Sorted(s[..|s| - 1]), s[|s| - 1])
  }

  function Inserted(s: seq<real>, x: real): (r: seq<real>)
    ensures |r| == |s| + 1
    ensures forall y :: y in r <==> y in s || y == x
  {
    if s == [] || s[|s| - 1] <= x then s + [x] else Inserted(s[..|s| - 1], x) + [s[|s| - 1]]
  }

  predicate Ascends(s: seq<real>) {
    forall i, j :: 0 <= i < j < |s| ==> s[i] <= s[j]
  }

  lemma {:induction false} InsertedAscends(s: seq<real>, x: real)
    requires Ascends(s)
    ensures Ascends(Inserted(s, x))
  {
    if s != [] && s[|s| - 1] > x {
      var n := |s| - 1;
      InsertedAscends(s[..n], x);
      var r := Inserted(s[..n], x);
      forall i | 0 <= i < |r| ensures r[i] <= s[n] {
        assert r[i] in r;
        if r[i] != x {
          var j :| 0 <= j < n && s[..n][j] == r[i];
          assert s[j] == r[i];
        }
      }
    }
  }

  lemma {:induction false} SortedAscends(s: seq<real>)
    ensures Ascends(Sorted(s))
  {
    if s != [] {
      SortedAscends(s[..|s| - 1]);
      InsertedAscends(Sorted(s[..|s| - 1]), s[|s| - 1]);
    }
  }

  lemma {:induction false} InsertedCounts(s: seq<real>, y: real, x: real)
    ensures CountAtMost(Inserted(s, y), x) == CountAtMost(s, x) + if y <= x then 1 else 0
    ensures CountAtLeast(Inserted(s, y), x) == CountAtLeast(s, x) + if y >= x then 1 else 0
  {
    CountSnoc(s, y, x);
    if s != [] && s[|s| - 1] > y {
      var n := |s| - 1;
      InsertedCounts(s[..n], y, x);
      CountSnoc(Inserted(s[..n], y), s[n], x);
    }
  }

  /** Sorting changes neither count. */
  lemma {:induction false} SortedCounts(s: seq<real>, x: real)
    ensures CountAtMost(Sorted(s), x) == CountAtMost(s, x)
    ensures CountAtLeast(Sorted(s), x) == CountAtLeast(s, x)
  {
    if s != [] {
      SortedCounts(s[..|s| - 1], x);
      InsertedCounts(Sorted(s[..|s| - 1]), s[|s| - 1], x);
    }
  }

  lemma {:induction false} RankOf(s: seq<real>, x: real, i: nat, n: nat)
    requires i <= n <= |s|
    requires (forall j :: 0 <= j < i ==> s[j] <= x) && (forall j :: i <= j < n ==> s[j] >= x)
    ensures CountAtMost(s[..n], x) >= i
    ensures CountAtLeast(s[..n], x) >= n - i
  {
    if n > 0 {
      assert s[..n][..n - 1] == s[..n - 1];
      RankOf(s, x, if i == n then i - 1 else i, n - 1);
    }
  }

  /** int(n * (p / 100)), capped at the last index. */
  function PercentileIndex(n: nat, p: real): (i: int)
    requires n > 0 && p >= 0.0
  {
    var i := (n as real * (p / 100.0)).Floor;
    if i <= n - 1 then i else n - 1
  }

  function Percentile(times: seq<real>, p: real): real
    requires p >= 0.0
  {
    if times == [] then 0.0
    else
      IndexIsInRange(|times|, p);
      Sorted(times)[PercentileIndex(|times|, p)]
  }

  lemma IndexIsInRange(n: nat, p: real)
    requires n > 0 && p >= 0.0
    ensures 0 <= PercentileIndex(n, p) < n
  {
  }

  lemma RankInAscending(s: seq<real>, i: nat)
    requires Ascends(s) && i < |s|
    ensures CountAtMost(s, s[i]) >= i + 1 && CountAtLeast(s, s[i]) >= |s| - i
  {
    assert s[..|s|] == s;
    forall j | 0 <= j < i + 1 ensures s[j] <= s[i] {
      assert j < i ==> s[j] <= s[i];
    }
    RankOf(s, s[i], i + 1, |s|);
    RankOf(s, s[i], i, |s|);
  }

  lemma RankInSorted(times: seq<real>, i: nat)
    requires i < |times|
    ensures CountAtMost(times, Sorted(times)[i]) >= i + 1
    ensures CountAtLeast(times, Sorted(times)[i]) >= |times| - i
  {
    SortedAscends(times);
    RankInAscending(Sorted(times), i);
    SortedCounts(times, Sorted(times)[i]);
  }

  lemma {:induction false} SortedMembers(s: seq<real>)
    ensures forall x :: x in Sorted(s) <==> x in s
  {
    if s != [] {
      SortedMembers(s[..|s| - 1]);
      assert s == s[..|s| - 1] + [s[|s| - 1]];
    }
  }

  /** p percent of n */
  function Share(n: nat, p: real): real {
    n as real * (p / 100.0)
  }

  /** The percentile is one of the timings: more than p percent of them, or all, are no
      larger, and the remaining percentage at least are no smaller. */
  lemma PercentileRank(times: seq<real>, p: real)
    requires times != [] && p >= 0.0
    ensures var (x, n) := (Percentile(times, p), |times|);
      && x in times
      && (CountAtMost(times, x) as real > Share(n, p) || CountAtMost(times, x) >= n)
      && CountAtLeast(times, x) as real >= n as real - Share(n, p)
  {
    IndexIsInRange(|times|, p);
    RankInSorted(times, PercentileIndex(|times|, p));
    SortedMembers(times);
    assert Percentile(times, p) in Sorted(times);
  }

  lemma ProductGrows(x: real, y: real, z: real)
    requires x >= 0.0 && y <= z
    ensures x * y <= x * z
  {
  }

  /** It grows with p. */
  lemma PercentileIsMonotone(times: seq<real>, p: real, q: real)
    requires 0.0 <= p <= q
    ensures Percentile(times, p) <= Percentile(times, q)
  {
    if times != [] {
      ProductGrows(|times| as real, p / 100.0, q / 100.0);
      SortedAscends(times);
      IndexIsInRange(|times|, p);
      IndexIsInRange(|times|, q);
      assert PercentileIndex(|times|, p) <= PercentileIndex(|times|, q);
    }
  }
}
