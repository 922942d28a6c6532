// The metrics object.  Its dictionaries of counters are one map here, and so are its
// dictionaries of timing lists: the constructor of the key names the dictionary.
module CacheMetrics {
  import opened Basics
  import opened MetricsModel

  /** A defaultdict(int), a defaultdict(list), and the averages kept for subjects. */
  function At(m: map<Counter, nat>, c: Counter): nat {
    if c in m then m[c] else 0
  }

  function ListAt(m: map<Timing, seq<real>>, t: Timing): seq<real> {
    if t in m then m[t] else []
  }

  function AverageAt(m: map<Subject, real>, x: Subject): real {
    if x in m then m[x] else 0.0
  }

  /** So far the counters in done have been updated. */
  ghost predicate Bumped(m: map<Counter, nat>, was: map<Counter, nat>, done: set<Counter>) {
    forall c :: At(m, c) == At(was, c) + if c in done then 1 else 0
  }

  ghost predicate Extended(m: map<Timing, seq<real>>, was: map<Timing, seq<real>>, done: set<Timing>, d: real) {
    forall t :: ListAt(m, t) == if t in done then Window(ListAt(was, t) + [d], MAX_TIMES) else ListAt(was, t)
  }

  ghost predicate CountsAre(m: map<Counter, nat>, h: seq<Metric>) {
    forall c :: At(m, c) == Tally(h, c)
  }

  ghost predicate ListsAre(m: map<Timing, seq<real>>, h: seq<Metric>) {
    forall t :: ListAt(m, t) == Window(Durations(h, t), MAX_TIMES)
  }

  ghost predicate AveragesAre(m: map<Subject, real>, times: map<Timing, seq<real>>) {
    forall x :: AverageAt(m, x) == Average(ListAt(times, BySubject(x)))
  }

  /** Updating exactly the counters that count a metric records it. */
  lemma BumpedCounts(m: map<Counter, nat>, was: map<Counter, nat>, done: set<Counter>, h: seq<Metric>, x: Metric)
    requires CountsAre(was, h) && Bumped(m, was, done)
    requires forall c :: c in done <==> Counts(c, x)
    ensures CountsAre(m, h + [x])
  {
  }

  lemma ExtendedLists(m: map<Timing, seq<real>>, was: map<Timing, seq<real>>, done: set<Timing>, h: seq<Metric>, x: Metric)
    requires ListsAre(was, h) && Extended(m, was, done, x.duration)
    requires forall t :: t in done <==> Times(t, x)
    ensures ListsAre(m, h + [x])
  {
  }

  lemma BumpedTwice(m: map<Counter, nat>, mid: map<Counter, nat>, was: map<Counter, nat>, a: set<Counter>, b: set<Counter>)
    requires Bumped(mid, was, a) && Bumped(m, mid, b) && a !! b
    ensures Bumped(m, was, a + b)
  {
  }

  lemma ExtendedTwice(m: map<Timing, seq<real>>, mid: map<Timing, seq<real>>, was: map<Timing, seq<real>>,
      a: set<Timing>, b: set<Timing>, d: real)
    requires Extended(mid, was, a, d) && Extended(m, mid, b, d) && a !! b
    ensures Extended(m, was, a + b, d)
  {
  }

  function OutcomeFor(x: Metric): set<Counter> {
    {Operations(x.op)} +
    (if x.success then {Successes(x.op)}
     else {Errors(x.op)} + (if x.errorType.Some? then {ErrorsOf(x.errorType.value)} else {}))
  }

  function HitsFor(x: Metric): set<Counter> {
    if x.op != GET || x.cacheHit.None? then {}
    else set l | l in Labels(x) :: if x.cacheHit.value then Hits(l) else Misses(l)
  }

  /** What one operation adds to the statistics of a subject. */
  function StatsFor(x: Metric, subject: Subject): set<Counter> {
    (if x.op == GET && x.cacheHit.Some? then {Stat(subject, if x.cacheHit.value then StatHits else StatMisses)}
     else if x.op == SET then {Stat(subject, StatSets)}
     else if x.op == DELETE then {Stat(subject, StatDeletes)}
     else {}) + (if x.success then {} else {Stat(subject, StatErrors)})
  }

  function AllStats(x: Metric, subjects: set<Subject>): set<Counter> {
    set subject, c | subject in subjects && c in StatsFor(x, subject) :: c
  }

  lemma StatsOf(x: Metric, c: Counter)
    requires c.Stat?
    ensures c in AllStats(x, Subjects(x)) <==> Counts(c, x)
  {
    assert c in StatsFor(x, c.subject) <==> IsStat(c.stat, x) by {
      assert GET != SET && GET != DELETE && SET != DELETE by {
        assert |GET.name| == 3 && |SET.name| == 3 && |DELETE.name| == 6;
        assert GET.name[0] != SET.name[0];
      }
    }
  }

  lemma HitsOf(x: Metric, c: Counter)
    requires c.Hits? || c.Misses?
    ensures c in HitsFor(x) <==> Counts(c, x)
  {
    if c.Hits? && Counts(c, x) {
      assert c.hit in Labels(x);
    }
    if c.Misses? && Counts(c, x) {
      assert c.missed in Labels(x);
    }
  }

  lemma CountersOf(x: Metric, c: Counter)
    ensures c in OutcomeFor(x) + HitsFor(x) + AllStats(x, Subjects(x)) <==> Counts(c, x)
  {
    if c.Stat? {
      StatsOf(x, c);
    } else if c.Hits? || c.Misses? {
      HitsOf(x, c);
    }
  }

  function SubjectTimings(subjects: set<Subject>): set<Timing> {
    set x | x in subjects :: BySubject(x)
  }

  function TimingsOf(x: Metric): set<Timing> {
    {AllOf, ByOp(x.op)} + SubjectTimings(Subjects(x))
  }

  lemma TimedBy(x: Metric, t: Timing)
    ensures t in TimingsOf(x) <==> Times(t, x)
  {
  }

  lemma RecordedCounts(m: map<Counter, nat>, mid: map<Counter, nat>, was: map<Counter, nat>, h: seq<Metric>, x: Metric)
    requires CountsAre(was, h) && Bumped(mid, was, OutcomeFor(x) + HitsFor(x)) && Bumped(m, mid, AllStats(x, Subjects(x)))
    ensures CountsAre(m, h + [x])
  {
    forall c ensures c in OutcomeFor(x) + HitsFor(x) + AllStats(x, Subjects(x)) <==> Counts(c, x) {
      CountersOf(x, c);
    }
    BumpedTwice(m, mid, was, OutcomeFor(x) + HitsFor(x), AllStats(x, Subjects(x)));
    BumpedCounts(m, was, OutcomeFor(x) + HitsFor(x) + AllStats(x, Subjects(x)), h, x);
  }

  lemma RecordedTimes(m: map<Timing, seq<real>>, mid: map<Timing, seq<real>>, was: map<Timing, seq<real>>, h: seq<Metric>, x: Metric)
    requires ListsAre(was, h)
    requires Extended(mid, was, {AllOf, ByOp(x.op)}, x.duration) && Extended(m, mid, SubjectTimings(Subjects(x)), x.duration)
    ensures ListsAre(m, h + [x])
  {
    forall t ensures t in TimingsOf(x) <==> Times(t, x) {
      TimedBy(x, t);
    }
    ExtendedTwice(m, mid, was, {AllOf, ByOp(x.op)}, SubjectTimings(Subjects(x)), x.duration);
    ExtendedLists(m, was, TimingsOf(x), h, x);
  }

  lemma OtherAverages(m: map<Subject, real>, times: map<Timing, seq<real>>, was: map<Timing, seq<real>>, subject: Subject, d: real)
    requires AveragesAre(m, was) && Extended(times, was, {BySubject(subject)}, d)
    ensures forall x :: x != subject ==> AverageAt(m, x) == Average(ListAt(times, BySubject(x)))
  {
    forall x | x != subject ensures ListAt(times, BySubject(x)) == ListAt(was, BySubject(x)) {
    }
  }

  /** The timings of these types, one list after the other. */
  function Joined(h: seq<Metric>, order: seq<OpType>): seq<real> {
    if order == [] then []
    else Joined(h, order[..|order| - 1]) + Window(Durations(h, ByOp(order[|order| - 1])), MAX_TIMES)
  }

  function TypesIn(order: seq<OpType>): set<OpType> {
    set op | op in order
  }

  lemma TypesInMore(order: seq<OpType>, op: OpType)
    ensures TypesIn(order + [op]) == TypesIn(order) + {op}
  {
  }

  lemma JoinedMore(h: seq<Metric>, order: seq<OpType>, op: OpType)
    ensures Joined(h, order + [op]) == Joined(h, order) + Window(Durations(h, ByOp(op)), MAX_TIMES)
  {
    assert (order + [op])[..|order|] == order;
  }

  /** These types, each once. */
  predicate Lists(order: seq<OpType>, types: set<OpType>) {
    TypesIn(order) == types && |order| == |types|
  }

  /** Every type with a timing once. */
  ghost predicate JoinsAll(h: seq<Metric>, order: seq<OpType>) {
    |order| == |TypesIn(order)| && forall op :: Durations(h, ByOp(op)) != [] ==> op in TypesIn(order)
  }

  function TimedTypes(m: map<Timing, seq<real>>): set<OpType> {
    set t | t in m && t.ByOp? :: t.op
  }

  lemma TimedTypesOccur(m: map<Timing, seq<real>>, h: seq<Metric>)
    requires ListsAre(m, h)
    ensures forall op :: Durations(h, ByOp(op)) != [] ==> op in TimedTypes(m)
  {
    forall op | Durations(h, ByOp(op)) != [] ensures op in TimedTypes(m) {
      assert ListAt(m, ByOp(op)) != [];
    }
  }

  function CountedTypes(m: map<Counter, nat>): set<OpType> {
    set c | c in m && c.Operations? :: c.op
  }

  lemma CountedTypesOccur(m: map<Counter, nat>, h: seq<Metric>)
    requires CountsAre(m, h)
    ensures forall op :: Tally(h, Operations(op)) > 0 ==> op in CountedTypes(m)
  {
    forall op | Tally(h, Operations(op)) > 0 ensures op in CountedTypes(m) {
      assert At(m, Operations(op)) > 0;
    }
  }

  class CacheMetrics {
    const maxHistory: nat
    var counters: map<Counter, nat>
    var times: map<Timing, seq<real>>
    var averages: map<Subject, real>
    var recent: seq<Metric>
    ghost var history: seq<Metric>   // recorded since the last reset

    /** Every counter, list and average is what the history says. */
    ghost predicate Valid()
      reads this
    {
      && CountsAre(counters, history) && ListsAre(times, history) && AveragesAre(averages, times)
      && recent == Window(history, maxHistory)
    }

    constructor (maxHistory: nat)
      ensures Valid() && history == [] && this.maxHistory == maxHistory
    {
      this.maxHistory := maxHistory;
      counters, times, averages, recent, history := map[], map[], map[], [], [];
    }

    method Reset()
      modifies this
      ensures Valid() && history == []
    {
      counters, times, averages, recent, history := map[], map[], map[], [], [];
    }

    method Bump(c: Counter)
      modifies `counters
      ensures Bumped(counters, old(counters), {c})
    {
      counters := counters[c := At(counters, c) + 1];
    }

    method BumpAll(cs: set<Counter>)
      modifies `counters
      ensures Bumped(counters, old(counters), cs)
    {
      var rest := cs;
      while rest != {}
        invariant rest <= cs && Bumped(counters, old(counters), cs - rest)
        decreases rest
      {
        var c :| c in rest;
        Bump(c);
        rest := rest - {c};
      }
    }

    /** append, then keep the last MAX_TIMES */
    method Extend(t: Timing, d: real)
      modifies `times
      ensures Extended(times, old(times), {t}, d)
    {
      var list := ListAt(times, t) + [d];
      if |list| > MAX_TIMES {
        list := list[|list| - MAX_TIMES..];
      }
      times := times[t := list];
    }

    method RecordOutcome(x: Metric)
      modifies `counters
      ensures Bumped(counters, old(counters), OutcomeFor(x))
    {
      Bump(Operations(x.op));
      if x.success {
        Bump(Successes(x.op));
      } else {
        Bump(Errors(x.op));
        if x.errorType.Some? {
          Bump(ErrorsOf(x.errorType.value));
        }
      }
    }

    method RecordHit(x: Metric)
      modifies `counters
      ensures Bumped(counters, old(counters), HitsFor(x))
    {
      if x.op == GET && x.cacheHit.Some? {
        if x.cacheHit.value {
          BumpAll(set l | l in Labels(x) :: Hits(l));
        } else {
          BumpAll(set l | l in Labels(x) :: Misses(l));
        }
      }
    }

    method RecordStats(x: Metric, subject: Subject)
      modifies `counters
      ensures Bumped(counters, old(counters), StatsFor(x, subject))
    {
      if x.op == GET && x.cacheHit.Some? {
        Bump(Stat(subject, if x.cacheHit.value then StatHits else StatMisses));
      } else if x.op == SET {
        Bump(Stat(subject, StatSets));
      } else if x.op == DELETE {
        Bump(Stat(subject, StatDeletes));
      }
      if !x.success {
        Bump(Stat(subject, StatErrors));
      }
    }

    /** The timings of one table or tag, and its new average. */
    method RecordAverage(subject: Subject, d: real)
      requires AveragesAre(averages, times)
      modifies `times, `averages
      ensures Extended(times, old(times), {BySubject(subject)}, d) && AveragesAre(averages, times)
    {
      Extend(BySubject(subject), d);
      OtherAverages(averages, times, old(times), subject, d);
      averages := averages[subject := Average(ListAt(times, BySubject(subject)))];
    }

    method RecordSubject(x: Metric, subject: Subject)
      requires AveragesAre(averages, times)
      modifies `counters, `times, `averages
      ensures Bumped(counters, old(counters), StatsFor(x, subject))
      ensures Extended(times, old(times), {BySubject(subject)}, x.duration) && AveragesAre(averages, times)
    {
      RecordStats(x, subject);
      RecordAverage(subject, x.duration);
    }

    method RecordSubjects(x: Metric)
      requires AveragesAre(averages, times)
      modifies `counters, `times, `averages
      ensures Bumped(counters, old(counters), AllStats(x, Subjects(x)))
      ensures Extended(times, old(times), SubjectTimings(Subjects(x)), x.duration)
      ensures AveragesAre(averages, times)
    {
      var rest := Subjects(x);
      ghost var done: set<Subject> := {};
      while rest != {}
        invariant done + rest == Subjects(x) && done !! rest
        invariant Bumped(counters, old(counters), AllStats(x, done))
        invariant Extended(times, old(times), SubjectTimings(done), x.duration)
        invariant AveragesAre(averages, times)
        decreases rest
      {
        var subject :| subject in rest;
        ghost var (c, t) := (counters, times);
        RecordSubject(x, subject);
        MoreStats(x, done, subject);
        BumpedTwice(counters, c, old(counters), AllStats(x, done), StatsFor(x, subject));
        ExtendedTwice(times, t, old(times), SubjectTimings(done), {BySubject(subject)}, x.duration);
        rest, done := rest - {subject}, done + {subject};
      }
      assert done == Subjects(x);
    }

    method RecordCounts(x: Metric)
      modifies `counters
      ensures Bumped(counters, old(counters), OutcomeFor(x) + HitsFor(x))
    {
      RecordOutcome(x);
      ghost var c := counters;
      RecordHit(x);
      BumpedTwice(counters, c, old(counters), OutcomeFor(x), HitsFor(x));
    }

    method RecordResponse(x: Metric)
      requires AveragesAre(averages, times)
      modifies `times
      ensures Extended(times, old(times), {AllOf, ByOp(x.op)}, x.duration) && AveragesAre(averages, times)
    {
      Extend(ByOp(x.op), x.duration);
      Extend(AllOf, x.duration);
    }

    method RecordRecent(x: Metric)
      requires recent == Window(history, maxHistory)
      modifies `recent
      ensures recent == Window(history + [x], maxHistory)
    {
      WindowSnoc(history, x, maxHistory);
      recent := Window(recent + [x], maxHistory);
    }

    method RecordLists(x: Metric)
      requires CountsAre(counters, history) && ListsAre(times, history) && AveragesAre(averages, times)
      modifies `counters, `times, `averages
      ensures CountsAre(counters, history + [x]) && ListsAre(times, history + [x]) && AveragesAre(averages, times)
    {
      RecordCounts(x);
      ghost var c := counters;
      RecordResponse(x);
      ghost var t := times;
      RecordSubjects(x);
      RecordedCounts(counters, c, old(counters), history, x);
      RecordedTimes(times, t, old(times), history, x);
    }

    method RecordOperation(x: Metric)
      requires Valid()
      modifies this
      ensures Valid() && history == old(history) + [x]
    {
      RecordLists(x);
      RecordRecent(x);
      history := history + [x];
    }

    /** get_percentile_response_time for one type of operation */
    method GetPercentile(p: real, op: OpType) returns (r: real)
      requires Valid() && p >= 0.0
      ensures r == Percentile(Window(Durations(history, ByOp(op)), 1000), p)
    {
      r := Percentile(ListAt(times, ByOp(op)), p);
    }

    method TimesOf(op: OpType) returns (list: seq<real>)
      requires ListsAre(times, history)
      ensures list == Window(Durations(history, ByOp(op)), MAX_TIMES)
    {
      list := ListAt(times, ByOp(op));
    }

    /** The lists of these types, joined in some order. */
    method JoinTimes(types: set<OpType>) returns (all: seq<real>)
      requires ListsAre(times, history)
      ensures exists order :: Lists(order, types) && all == Joined(history, order)
    {
      var rest := types;
      all := [];
      ghost var order: seq<OpType> := [];
      while rest != {}
        invariant rest <= types && TypesIn(order) == types - rest && |order| + |rest| == |types|
        invariant all == Joined(history, order)
        decreases rest
      {
        var op :| op in rest;
        JoinedMore(history, order, op);
        TypesInMore(order, op);
        var list := TimesOf(op);
        all := all + list;
        order := order + [op];
        rest := rest - {op};
      }
      assert Lists(order, types);
    }

    /** ... and for all of them: the percentile of their lists joined, each list once
        and none left out. */
    method GetOverallPercentile(p: real) returns (r: real)
      requires Valid() && p >= 0.0
      ensures exists order :: JoinsAll(history, order) && r == Percentile(Joined(history, order), p)
    {
      var all := JoinTimes(TimedTypes(times));
      TimedTypesOccur(times, history);
      ghost var order :| Lists(order, TimedTypes(times)) && all == Joined(history, order);
      assert JoinsAll(history, order);
      r := Percentile(all, p);
    }

    /** get_hit_rate, in all or for a table or tag */
    method GetHitRate(group: Label) returns (r: real)
      requires Valid()
      ensures 0.0 <= r <= 100.0
      ensures r * (Tally(history, Hits(group)) + Tally(history, Misses(group))) as real == 100.0 * Tally(history, Hits(group)) as real
      ensures Tally(history, Hits(group)) + Tally(history, Misses(group)) == 0 ==> r == 0.0
    {
      var hits := At(counters, Hits(group));
      r := Rate(hits, hits + At(counters, Misses(group)));
    }

    /** get_error_rate for one type of operation */
    method GetErrorRate(op: OpType) returns (r: real)
      requires Valid()
      ensures 0.0 <= r <= 100.0
      ensures r * (Tally(history, Successes(op)) + Tally(history, Errors(op))) as real == 100.0 * Tally(history, Errors(op)) as real
      ensures Tally(history, Operations(op)) == 0 ==> r == 0.0
    {
      OperationsAreOutcomes(history, op);
      r := Rate(At(counters, Errors(op)), At(counters, Operations(op)));
    }

    /** sum(values()) of the operation counts and of the error counts */
    method SumCounts() returns (total: nat, errors: nat)
      requires CountsAre(counters, history)
      ensures total == |history| && errors == ErrorsIn(history) <= total
    {
      total, errors := 0, 0;
      var rest := CountedTypes(counters);
      ghost var done: set<OpType> := {};
      TallyNothing(history, false);
      TallyNothing(history, true);
      while rest != {}
        invariant done + rest == CountedTypes(counters) && done !! rest
        invariant total == TallyOf(history, done, false) && errors == TallyOf(history, done, true)
        decreases rest
      {
        var op :| op in rest;
        TallyOneMore(history, done, op);
        total := total + At(counters, Operations(op));
        errors := errors + At(counters, Errors(op));
        rest, done := rest - {op}, done + {op};
      }
      CountedTypesOccur(counters, history);
      TallyEverything(history, done);
    }

    /** ... and over all of them: the share of errors in the whole history. */
    method GetOverallErrorRate() returns (r: real)
      requires Valid()
      ensures 0.0 <= r <= 100.0 && r * |history| as real == 100.0 * ErrorsIn(history) as real
      ensures history == [] ==> r == 0.0
    {
      var total, errors := SumCounts();
      r := Rate(errors, total);
    }
  }

  lemma MoreStats(x: Metric, done: set<Subject>, subject: Subject)
    requires subject !in done
    ensures AllStats(x, done + {subject}) == AllStats(x, done) + StatsFor(x, subject)
    ensures AllStats(x, done) !! StatsFor(x, subject)
    ensures SubjectTimings(done + {subject}) == SubjectTimings(done) + {BySubject(subject)}
    ensures SubjectTimings(done) !! {BySubject(subject)}
  {
  }

  method Rate(part: nat, whole: nat) returns (r: real)
    requires part <= whole
    ensures 0.0 <= r <= 100.0 && r * whole as real == 100.0 * part as real
    ensures whole == 0 ==> r == 0.0
  {
    if whole == 0 {
      return 0.0;
    }
    RateBounds(part, whole);
    r := part as real / whole as real * 100.0;
  }

  lemma RateBounds(part: nat, whole: nat)
    requires part <= whole && whole > 0
    ensures 0.0 <= part as real / whole as real * 100.0 <= 100.0
    ensures part as real / whole as real * 100.0 * whole as real == 100.0 * part as real
  {
  }
}
