/**
 Service-level metrics of a group of requests and their verdicts (cli/slaEval.ts),
 over exact numbers: nearest-rank percentiles, mean, throughput and error rate.
 */
module SlaMetrics {
  import opened JsMap
  import opened Wrappers

  datatype RequestResult = RequestResult(
    scenarioName: Option<string>, featureGroupName: Option<string>, responseTimeMs: real, timestamp: real, passed: bool)

  datatype GroupBy = ByScenario | ByFeatureGroup

  datatype Metrics = Metrics(p50: real, p95: real, p99: real, p999: real, avg: real, tps: real, errorRate: real)

  predicate InGroup(r: RequestResult, name: string, groupBy: GroupBy) {
    (if groupBy == ByScenario then r.scenarioName else r.featureGroupName) == Some(name)
  }

  function Named(results: seq<RequestResult>, name: string, groupBy: GroupBy): seq<RequestResult> {
    Filter(results, (r: RequestResult) => InGroup(r, name, groupBy))
  }

  function Durations(group: seq<RequestResult>): seq<real> {
    seq(|group|, i requires 0 <= i < |group| => group[i].responseTimeMs)
  }

  function Insert(x: real, s: seq<real>): seq<real> {
    if s == [] || x <= s[0] then [x] + s else [s[0]] + Insert(x, s[1..])
  }

  function Sort(s: seq<real>): seq<real> {
    if s == [] then [] else Insert(s[0], Sort(s[1..]))
  }

  /** `Math.ceil((p / 100) * n)` for a percentile given in thousandths. */
  function Rank(permille: nat, n: nat): nat {
    (permille * n + 999) / 1000
  }

  function Percentile(durations: seq<real>, permille: nat): real
    requires durations != [] && 0 < permille <= 1000
  {
    RankInRange(permille, |durations|);
    durations[Rank(permille, |durations|) - 1]
  }

  lemma RankInRange(permille: nat, n: nat)
    requires n > 0 && 0 < permille <= 1000
    ensures 1 <= Rank(permille, n) <= n
  {
    assert permille * n <= 1000 * n;
    assert permille * n >= 1;
  }

  function Sum(s: seq<real>): real {
    if s == [] then 0.0 else Sum(s[..|s| - 1]) + s[|s| - 1]
  }

  function MinTimestamp(group: seq<RequestResult>): real
    requires group != []
  {
    var t := group[|group| - 1].timestamp;
    if |group| == 1 then t
    else var m := MinTimestamp(group[..|group| - 1]); if t < m then t else m
  }

  function MaxEnd(group: seq<RequestResult>): real
    requires group != []
  {
    var last := group[|group| - 1];
    var t := last.timestamp + last.responseTimeMs;
    if |group| == 1 then t
    else var m := MaxEnd(group[..|group| - 1]); if t > m then t else m
  }

  function Errored(group: seq<RequestResult>): nat {
    if group == [] then 0
    else Errored(group[..|group| - 1]) + if group[|group| - 1].passed then 0 else 1
  }

  function MetricsOf(group: seq<RequestResult>): Metrics
    requires group != []
  {
    var sorted := Sort(Durations(group));
    SortLength(Durations(group));
    var n := |group| as real;
    var durationSec := (MaxEnd(group) - MinTimestamp(group)) / 1000.0;
    Metrics(
      Percentile(sorted, 500), Percentile(sorted, 950), Percentile(sorted, 990), Percentile(sorted, 999),
      Sum(sorted) / n,
      if durationSec > 0.0 then n / durationSec else 0.0,
      (Errored(group) as real / n) * 100.0)
  }

  function ComputeGroupMetrics(results: seq<RequestResult>, name: string, groupBy: GroupBy): Option<Metrics> {
    var group := Named(results, name, groupBy);
    if group == [] then None else Some(MetricsOf(group))
  }

  // ---- Sorting ----

  predicate Sorted(s: seq<real>) {
    forall i, j | 0 <= i <= j < |s| :: s[i] <= s[j]
  }

  lemma {:induction false} InsertSorts(x: real, s: seq<real>)
    requires Sorted(s)
    ensures Sorted(Insert(x, s))
    ensures multiset(Insert(x, s)) == multiset(s) + multiset{x}
    ensures |Insert(x, s)| == |s| + 1
    ensures s != [] ==> Insert(x, s)[0] == x || Insert(x, s)[0] == s[0]
    ensures s == [] ==> Insert(x, s)[0] == x
  {
    assert Insert(x, s) == if s == [] || x <= s[0] then [x] + s else [s[0]] + Insert(x, s[1..]);
    if s != [] && x > s[0] {
      var tail := s[1..];
      assert s == [s[0]] + tail && Sorted(tail);
      InsertSorts(x, tail);
      hide Insert;
      var rest := Insert(x, tail);
      assert s[0] <= rest[0];
      assert forall i | 0 <= i < |rest| :: rest[0] <= rest[i];
    }
  }

  lemma {:induction false} SortSorts(s: seq<real>)
    ensures Sorted(Sort(s)) && multiset(Sort(s)) == multiset(s)
  {
    if s != [] {
      SortSorts(s[1..]);
      InsertSorts(s[0], Sort(s[1..]));
      assert s == [s[0]] + s[1..];
    }
  }

  lemma SortLength(s: seq<real>)
    ensures |Sort(s)| == |s|
  {
    SortSorts(s);
    assert |multiset(Sort(s))| == |multiset(s)|;
  }

  // ---- Nearest rank ----

  /** How many samples are at most `v`, and how many at least `v`. */
  function AtMost(s: seq<real>, v: real): nat {
    if s == [] then 0 else (if s[0] <= v then 1 else 0) + AtMost(s[1..], v)
  }

  function AtLeast(s: seq<real>, v: real): nat {
    if s == [] then 0 else (if s[0] >= v then 1 else 0) + AtLeast(s[1..], v)
  }

  lemma {:induction false} InsertCounts(x: real, s: seq<real>, v: real)
    ensures AtMost(Insert(x, s), v) == (if x <= v then 1 else 0) + AtMost(s, v)
    ensures AtLeast(Insert(x, s), v) == (if x >= v then 1 else 0) + AtLeast(s, v)
  {
    if s != [] && x > s[0] {
      InsertCounts(x, s[1..], v);
    } else {
      assert ([x] + s)[1..] == s;
    }
  }

  lemma {:induction false} SortCounts(s: seq<real>, v: real)
    ensures AtMost(Sort(s), v) == AtMost(s, v) && AtLeast(Sort(s), v) == AtLeast(s, v)
  {
    if s != [] {
      SortCounts(s[1..], v);
      InsertCounts(s[0], Sort(s[1..]), v);
    }
  }

  lemma {:induction false} CountsAround(s: seq<real>, k: nat)
    requires Sorted(s) && k < |s|
    ensures AtMost(s, s[k]) >= k + 1
    ensures AtLeast(s, s[k]) >= |s| - k
  {
    if k == 0 {
      AllAtLeast(s, s[0]);
    } else {
      CountsAround(s[1..], k - 1);
    }
  }

  lemma {:induction false} AllAtLeast(s: seq<real>, v: real)
    requires forall i | 0 <= i < |s| :: s[i] >= v
    ensures AtLeast(s, v) == |s|
  {
    if s != [] {
      AllAtLeast(s[1..], v);
    }
  }

  /**
   The nearest-rank percentile is a sample; at least its rank of the samples are
   no greater, and at least the rest of them plus itself are no smaller.
   */
  lemma NearestRank(samples: seq<real>, permille: nat)
    requires samples != [] && 0 < permille <= 1000
    ensures |Sort(samples)| == |samples|
    ensures var v, rank := Percentile(Sort(samples), permille), Rank(permille, |samples|);
      && v in multiset(samples)
      && AtMost(samples, v) >= rank
      && AtLeast(samples, v) >= |samples| - rank + 1
      && 1000 * (rank - 1) < permille * |samples| <= 1000 * rank
  {
    var sorted := Sort(samples);
    SortSorts(samples);
    SortLength(samples);
    RankInRange(permille, |samples|);
    var k := Rank(permille, |samples|) - 1;
    assert sorted[k] in multiset(sorted);
    CountsAround(sorted, k);
    SortCounts(samples, sorted[k]);
  }

  lemma PercentilesOrdered(sorted: seq<real>, p: nat, q: nat)
    requires Sorted(sorted) && sorted != [] && 0 < p <= q <= 1000
    ensures sorted[0] <= Percentile(sorted, p) <= Percentile(sorted, q) <= sorted[|sorted| - 1]
  {
    RankInRange(p, |sorted|);
    RankInRange(q, |sorted|);
    assert p * |sorted| <= q * |sorted|;
  }

  lemma {:induction false} SumBetween(s: seq<real>, lo: real, hi: real)
    requires forall i | 0 <= i < |s| :: lo <= s[i] <= hi
    ensures |s| as real * lo <= Sum(s) <= |s| as real * hi
  {
    if s != [] {
      SumBetween(s[..|s| - 1], lo, hi);
      var m := (|s| - 1) as real;
      assert |s| as real == m + 1.0;
      assert (m + 1.0) * lo == m * lo + lo && (m + 1.0) * hi == m * hi + hi;
    }
  }

  lemma MeanBetween(s: seq<real>)
    requires Sorted(s) && s != []
    ensures s[0] <= Sum(s) / |s| as real <= s[|s| - 1]
  {
    hide Sum;
    SumBetween(s, s[0], s[|s| - 1]);
    hide Sorted;
    MeanOf(s[0], Sum(s), s[|s| - 1], |s|);
  }

  lemma MeanOf(lo: real, sum: real, hi: real, n: nat)
    requires n > 0 && n as real * lo <= sum <= n as real * hi
    ensures lo <= sum / n as real <= hi
  {
    Divide(lo, sum, hi, n as real);
  }

  lemma Divide(lo: real, sum: real, hi: real, n: real)
    requires n > 0.0 && n * lo <= sum <= n * hi
    ensures lo <= sum / n <= hi
  {
    var q := sum / n;
    assert q * n == sum;
    Scale(q, lo, n);
    Scale(hi, q, n);
  }

  lemma Scale(a: real, b: real, n: real)
    requires n > 0.0 && b * n <= a * n
    ensures b <= a
  {
  }

  lemma {:induction false} ErroredBound(group: seq<RequestResult>)
    ensures Errored(group) <= |group|
    ensures Errored(group) == 0 <==> forall i | 0 <= i < |group| :: group[i].passed
    ensures Errored(group) == |group| <==> forall i | 0 <= i < |group| :: !group[i].passed
  {
    if group != [] {
      ErroredBound(group[..|group| - 1]);
    }
  }

  /** The metrics of any non-empty group: percentiles in order, the mean between the extremes, the error rate a percentage that is 0 or 100 only for all or none passed. */
  lemma MetricsBounds(group: seq<RequestResult>)
    requires group != []
    ensures var m, sorted := MetricsOf(group), Sort(Durations(group));
      && |sorted| == |group|
      && sorted[0] <= m.p50 <= m.p95 <= m.p99 <= m.p999 <= sorted[|sorted| - 1]
      && sorted[0] <= m.avg <= sorted[|sorted| - 1]
      && 0.0 <= m.errorRate <= 100.0
      && (m.errorRate == 0.0 <==> forall i | 0 <= i < |group| :: group[i].passed)
      && (m.errorRate == 100.0 <==> forall i | 0 <= i < |group| :: !group[i].passed)
  {
    var sorted := Sort(Durations(group));
    SortSorts(Durations(group));
    SortLength(Durations(group));
    PercentilesOrdered(sorted, 500, 950);
    PercentilesOrdered(sorted, 950, 990);
    PercentilesOrdered(sorted, 990, 999);
    MeanBetween(sorted);
    ErroredBound(group);
    Rate(Errored(group), |group|);
  }

  lemma Rate(k: nat, n: nat)
    requires 0 < n && k <= n
    ensures 0.0 <= (k as real / n as real) * 100.0 <= 100.0
    ensures (k as real / n as real) * 100.0 == 0.0 <==> k == 0
    ensures (k as real / n as real) * 100.0 == 100.0 <==> k == n
  {
    var q := k as real / n as real;
    assert q * n as real == k as real;
    Divide(0.0, k as real, 1.0, n as real);
  }

  // ---- Each metric, exactly ----

  /** `v` is the nearest-rank percentile of `samples`: a sample, with its rank of them at most it and the rest and itself at least it. */
  ghost predicate IsPercentile(v: real, samples: seq<real>, permille: nat) {
    && v in samples
    && exists rank: nat ::
      && 1000 * (rank - 1) < permille * |samples| <= 1000 * rank
      && AtMost(samples, v) >= rank && AtLeast(samples, v) >= |samples| - rank + 1
  }

  lemma PercentileIs(samples: seq<real>, permille: nat)
    requires samples != [] && 0 < permille <= 1000
    ensures |Sort(samples)| == |samples| && IsPercentile(Percentile(Sort(samples), permille), samples, permille)
  {
    NearestRank(samples, permille);
    hide Percentile, Sort, AtMost, AtLeast;
    var v := Percentile(Sort(samples), permille);
    assert v in multiset(samples);
    assert Rank(permille, |samples|) >= 0;
  }

  lemma {:induction false} SumConcat(a: seq<real>, b: seq<real>)
    ensures Sum(a + b) == Sum(a) + Sum(b)
    decreases |b|
  {
    if b == [] {
      assert a + b == a;
    } else {
      var n := |b| - 1;
      assert (a + b)[..|a + b| - 1] == a + b[..n];
      SumConcat(a, b[..n]);
    }
  }

  /** The total: nothing for no samples, the sample for one, additive, and whatever the order. */
  lemma SumIsTotal(a: seq<real>, b: seq<real>, x: real)
    ensures Sum([]) == 0.0 && Sum([x]) == x && Sum(a + b) == Sum(a) + Sum(b)
    ensures multiset(a) == multiset(b) ==> Sum(a) == Sum(b)
  {
    SumOne(x);
    SumConcat(a, b);
    if multiset(a) == multiset(b) {
      SumAnyOrder(a, b);
    }
  }

  lemma {:induction false} SumAnyOrder(a: seq<real>, b: seq<real>)
    requires multiset(a) == multiset(b)
    ensures Sum(a) == Sum(b)
    decreases |a|
  {
    if a == [] {
      assert |multiset(b)| == |b| == 0;
    } else {
      var n := |a| - 1;
      assert a == a[..n] + [a[n]];
      assert a[n] in multiset(b);
      var others := TakeOut(b, a[n]);
      hide Sum;
      assert multiset(a) == multiset(a[..n]) + multiset{a[n]};
      assert multiset(a[..n]) == multiset(a) - multiset{a[n]} && multiset(others) == multiset(b) - multiset{a[n]};
      SumAnyOrder(a[..n], others);
      SumConcat(a[..n], [a[n]]);
      SumOne(a[n]);
    }
  }

  lemma TakeOut(b: seq<real>, x: real) returns (others: seq<real>)
    requires x in b
    ensures multiset(b) == multiset(others) + multiset{x} && Sum(b) == Sum(others) + x
  {
    var i :| 0 <= i < |b| && b[i] == x;
    var front, back := b[..i], b[i + 1..];
    others := front + back;
    assert b == front + [x] + back;
    SumConcat(front + [x], back);
    SumConcat(front, [x]);
    SumConcat(front, back);
    SumOne(x);
    hide Sum;
  }

  lemma SumOne(x: real)
    ensures Sum([x]) == x
  {
    assert [x][..0] == [];
  }

  function Failures(group: seq<RequestResult>): set<nat> {
    set i | 0 <= i < |group| && !group[i].passed
  }

  lemma {:induction false} ErroredCounts(group: seq<RequestResult>)
    ensures Errored(group) == |Failures(group)|
  {
    if group != [] {
      var n := |group| - 1;
      var front := group[..n];
      ErroredCounts(front);
      assert forall i | 0 <= i < n :: front[i] == group[i];
      assert Failures(group) == Failures(front) + if group[n].passed then {} else {n};
    }
  }

  /** What the metrics of a group are: each its own percentile, the total over the count, and the share of failures. */
  ghost predicate MetricsAre(m: Metrics, group: seq<RequestResult>, durations: seq<real>) {
    && IsPercentile(m.p50, durations, 500) && IsPercentile(m.p95, durations, 950)
    && IsPercentile(m.p99, durations, 990) && IsPercentile(m.p999, durations, 999)
    && m.avg * |group| as real == Sum(durations)
    && m.errorRate * |group| as real == 100.0 * |Failures(group)| as real
  }

  lemma MetricsExactly(group: seq<RequestResult>, durations: seq<real>)
    requires group != [] && |durations| == |group| && forall i | 0 <= i < |group| :: durations[i] == group[i].responseTimeMs
    ensures MetricsAre(MetricsOf(group), group, durations)
  {
    assert Durations(group) == durations;
    PercentileIs(durations, 500);
    PercentileIs(durations, 950);
    PercentileIs(durations, 990);
    PercentileIs(durations, 999);
    SortSorts(durations);
    SumAnyOrder(Sort(durations), durations);
    ErroredCounts(group);
    hide *;
    MetricsParts(group);
    MetricsFrom(MetricsOf(group), group, durations, Errored(group));
  }

  lemma MetricsParts(group: seq<RequestResult>)
    requires group != []
    ensures var m, sorted, n := MetricsOf(group), Sort(Durations(group)), |group| as real;
      && |sorted| == |group|
      && m.p50 == Percentile(sorted, 500) && m.p95 == Percentile(sorted, 950)
      && m.p99 == Percentile(sorted, 990) && m.p999 == Percentile(sorted, 999)
      && m.avg == Sum(sorted) / n && m.errorRate == (Errored(group) as real / n) * 100.0
  {
    SortLength(Durations(group));
    hide Percentile, Sort, Sum, Errored, MaxEnd, MinTimestamp;
  }

  lemma MetricsFrom(m: Metrics, group: seq<RequestResult>, durations: seq<real>, errored: nat)
    requires group != [] && errored == |Failures(group)|
    requires IsPercentile(m.p50, durations, 500) && IsPercentile(m.p95, durations, 950)
    requires IsPercentile(m.p99, durations, 990) && IsPercentile(m.p999, durations, 999)
    requires m.avg == Sum(durations) / |group| as real && m.errorRate == (errored as real / |group| as real) * 100.0
    ensures MetricsAre(m, group, durations)
  {
    hide IsPercentile, Sum, Failures;
    Quotient(Sum(durations), |group| as real);
    Quotient(errored as real, |group| as real);
    Swap(errored as real / |group| as real, |group| as real);
  }

  lemma Quotient(x: real, n: real)
    requires n > 0.0
    ensures x / n * n == x
  {
  }

  lemma Swap(q: real, n: real)
    ensures (q * 100.0) * n == 100.0 * (q * n)
  {
  }

  /** The metrics of a name, if any, are those of exactly its results, in order. */
  lemma GroupMetricsExactly(results: seq<RequestResult>, name: string, groupBy: GroupBy, durations: seq<real>)
    requires var group := Named(results, name, groupBy);
      |durations| == |group| && forall i | 0 <= i < |group| :: durations[i] == group[i].responseTimeMs
    ensures var group, m := Named(results, name, groupBy), ComputeGroupMetrics(results, name, groupBy);
      m.Some? ==> group != [] && MetricsAre(m.value, group, durations)
  {
    if Named(results, name, groupBy) != [] {
      MetricsExactly(Named(results, name, groupBy), durations);
    }
    hide MetricsOf, Named, MetricsAre;
  }

  /** The group's span: it starts with some request of it and ends with some, and holds them all. */
  lemma {:induction false} SpanCovers(group: seq<RequestResult>)
    requires group != []
    ensures forall i | 0 <= i < |group| ::
      MinTimestamp(group) <= group[i].timestamp && group[i].timestamp + group[i].responseTimeMs <= MaxEnd(group)
    ensures exists i :: 0 <= i < |group| && MinTimestamp(group) == group[i].timestamp
    ensures exists i :: 0 <= i < |group| && MaxEnd(group) == group[i].timestamp + group[i].responseTimeMs
  {
    var n := |group| - 1;
    assert group[n].timestamp + group[n].responseTimeMs == group[n].timestamp + group[n].responseTimeMs;
    if n > 0 {
      var front := group[..n];
      SpanCovers(front);
      assert forall i | 0 <= i < n :: front[i] == group[i];
      var i :| 0 <= i < n && MinTimestamp(front) == front[i].timestamp;
      var j :| 0 <= j < n && MaxEnd(front) == front[j].timestamp + front[j].responseTimeMs;
      assert MinTimestamp(group) == group[i].timestamp || MinTimestamp(group) == group[n].timestamp;
      assert MaxEnd(group) == group[j].timestamp + group[j].responseTimeMs
          || MaxEnd(group) == group[n].timestamp + group[n].responseTimeMs;
    }
  }

  /** Throughput times the span in seconds is the number of requests, unless the span is empty. */
  lemma ThroughputMeaning(group: seq<RequestResult>)
    requires group != []
    ensures var m, span := MetricsOf(group), MaxEnd(group) - MinTimestamp(group);
      && (span > 0.0 ==> m.tps * (span / 1000.0) == |group| as real)
      && (span <= 0.0 ==> m.tps == 0.0)
  {
    hide Sort, Sum, Percentile, Errored, Durations, MaxEnd, MinTimestamp;
    TimesDuration(|group| as real, MaxEnd(group) - MinTimestamp(group));
  }

  lemma TimesDuration(n: real, span: real)
    ensures span > 0.0 <==> span / 1000.0 > 0.0
    ensures span > 0.0 ==> n / (span / 1000.0) * (span / 1000.0) == n
  {
  }

  /** The group is exactly the results of that name, in order; there are no metrics only when there are none. */
  lemma GroupIsNamed(results: seq<RequestResult>, name: string, groupBy: GroupBy)
    ensures forall r :: r in Named(results, name, groupBy) <==> r in results && InGroup(r, name, groupBy)
    ensures forall r :: InGroup(r, name, groupBy) <==>
      (groupBy == ByScenario && r.scenarioName == Some(name)) || (groupBy == ByFeatureGroup && r.featureGroupName == Some(name))
    ensures forall front: seq<RequestResult>, last :: results == front + [last] ==>
      Named(results, name, groupBy) == Named(front, name, groupBy) + if InGroup(last, name, groupBy) then [last] else []
    ensures ComputeGroupMetrics(results, name, groupBy) == None <==> forall r :: r in results ==> !InGroup(r, name, groupBy)
  {
    var p := (r: RequestResult) => InGroup(r, name, groupBy);
    FilterElements(results, p);
    forall front: seq<RequestResult>, last | results == front + [last]
      ensures Named(results, name, groupBy) == Named(front, name, groupBy) + if InGroup(last, name, groupBy) then [last] else []
    {
      FilterConcat(front, [last], p);
    }
    var group := Named(results, name, groupBy);
    assert group != [] ==> group[0] in group;
  }

  // ---- Verdicts ----

  datatype Status = Pass | NoData | Warn | Fail

  datatype Target = Target(lte: bool, value: real, warnAt: Option<real>)

  function EvaluateOne(t: Target, actual: real): Status {
    if t.lte then
      if actual > t.value then Fail
      else if t.warnAt.Some? && actual > t.warnAt.value then Warn
      else Pass
    else
      if actual < t.value then Fail
      else if t.warnAt.Some? && actual < t.warnAt.value then Warn
      else Pass
  }

  function Severity(s: Status): nat {
    match s case Pass => 0 case NoData => 1 case Warn => 2 case Fail => 3
  }

  /** The worst status of any check. */
  function OverallStatus(checks: seq<Status>): (worst: Option<Status>)
    ensures worst == None <==> checks == []
    ensures worst.Some? ==> worst.value in checks
    ensures worst.Some? ==> forall c | c in checks :: Severity(c) <= Severity(worst.value)
  {
    if checks == [] then None
    else if Fail in checks then Some(Fail)
    else if Warn in checks then Some(Warn)
    else if NoData in checks then Some(NoData)
    else
      assert checks[0] in checks && checks[0] == Pass;
      Some(Pass)
  }

  /** One failure fails all; otherwise one warning warns; otherwise missing data shows; a pass needs only passes. */
  lemma OverallExactly(checks: seq<Status>)
    ensures OverallStatus(checks) == Some(Fail) <==> Fail in checks
    ensures OverallStatus(checks) == Some(Warn) <==> Warn in checks && Fail !in checks
    ensures OverallStatus(checks) == Some(NoData) <==> NoData in checks && Warn !in checks && Fail !in checks
    ensures OverallStatus(checks) == Some(Pass) <==> checks != [] && forall c | c in checks :: c == Pass
  {
    assert checks != [] ==> checks[0] in checks;
  }

  /** The bounds are inclusive: a target fails only beyond its value, and warns only beyond its warning level. */
  lemma VerdictExactly(t: Target, actual: real)
    ensures EvaluateOne(t, actual) == Fail <==> (t.lte && actual > t.value) || (!t.lte && actual < t.value)
    ensures EvaluateOne(t, actual) == Warn <==>
      && (if t.lte then actual <= t.value else actual >= t.value)
      && t.warnAt.Some? && (if t.lte then actual > t.warnAt.value else actual < t.warnAt.value)
    ensures EvaluateOne(t, actual) == Pass <==>
      && (if t.lte then actual <= t.value else actual >= t.value)
      && (t.warnAt.Some? ==> if t.lte then actual <= t.warnAt.value else actual >= t.warnAt.value)
  {
  }

  /** A worse measurement never gets a better verdict, wherever the warning level lies. */
  lemma WorseNeverBetter(t: Target, better: real, worse: real)
    requires if t.lte then better <= worse else better >= worse
    ensures Severity(EvaluateOne(t, better)) <= Severity(EvaluateOne(t, worse))
  {
  }
}
