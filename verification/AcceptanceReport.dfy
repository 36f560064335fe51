/** Platform reports, and the acceptance evidence that sums them up. */
module AcceptanceReport {
  import opened Prelude
  import opened QueueMetrics

  datatype Run = Run(name: string, result: string)

  datatype Status = NoData | Go | NoGo

  datatype PlatformReport = PlatformReport(
    platform: string,
    total: nat,
    passed: nat,
    status: Status,
    runs: seq<Run>,
    metrics: Option<Metrics>)

  datatype Failure = Failure(platform: string, run: string, result: string)

  datatype Payload = Payload(total: nat, passed: nat, failures: seq<Failure>, metrics: Metrics)

  predicate IsPass(r: Run) {
    r.result == "PASS"
  }

  function Passed(runs: seq<Run>): (n: nat)
    ensures n <= |runs|
  {
    if runs == [] then 0 else Passed(runs[..|runs| - 1]) + (if IsPass(runs[|runs| - 1]) then 1 else 0)
  }

  /** The report of a platform from its runs, if it has a directory of runs, and the audit files. */
  function ReportOf(platform: string, found: Option<seq<Run>>, files: seq<Audit>): PlatformReport {
    match found
    case None => PlatformReport(platform, 0, 0, NoData, [], Some(Metrics(0, 0, 0, 0, 0)))
    case Some(runs) =>
      var total, passed := |runs|, Passed(runs);
      PlatformReport(
        platform, total, passed,
        if total == 0 then NoData else if passed as real / total as real >= 0.95 then Go else NoGo,
        runs, Some(MetricsOf(files, platform)))
  }

  method CollectPlatform(platform: string, found: Option<seq<Run>>, files: seq<Audit>) returns (r: PlatformReport)
    ensures r == ReportOf(platform, found, files)
  {
    hide MetricsOf, IsPass;
    if found.None? {
      return PlatformReport(platform, 0, 0, NoData, [], Some(Metrics(0, 0, 0, 0, 0)));
    }
    var runs := found.value;
    var passed := 0;
    for i := 0 to |runs|
      invariant passed == Passed(runs[..i])
    {
      assert runs[..i + 1][..i] == runs[..i];
      if IsPass(runs[i]) { passed := passed + 1; }
    }
    assert runs[..|runs|] == runs;
    var metrics := CollectSchedulerMetrics(files, platform);
    var status := NoData;
    if |runs| > 0 {
      status := if passed as real / |runs| as real >= 0.95 then Go else NoGo;
    }
    return PlatformReport(platform, |runs|, passed, status, runs, Some(metrics));
  }

  /** A platform is a go exactly when it has runs and at most one in twenty did not pass. */
  lemma GoIff(platform: string, found: Option<seq<Run>>, files: seq<Audit>)
    ensures var r := ReportOf(platform, found, files);
      r.status == Go <==> r.runs != [] && 20 * (|r.runs| - Passed(r.runs)) <= |r.runs|
  {
    hide MetricsOf, Passed;
    if found.Some? && found.value != [] {
      ShareIff(Passed(found.value), |found.value|);
    }
  }

  lemma ShareIff(passed: nat, total: nat)
    requires total > 0
    ensures passed as real / total as real >= 0.95 <==> 100 * passed >= 95 * total
  {
    ShareOf(passed as real, total as real, passed as real / total as real);
    assert 100.0 * passed as real == (100 * passed) as real;
    assert 95.0 * total as real == (95 * total) as real;
  }

  lemma ShareOf(p: real, t: real, share: real)
    requires t > 0.0 && share == p / t
    ensures share >= 0.95 <==> 100.0 * p >= 95.0 * t
  {
    assert p == share * t;
    if share >= 0.95 {
      Scales(0.95, share, t);
    } else {
      ScalesBelow(share, 0.95, t);
    }
  }

  lemma Scales(a: real, b: real, t: real)
    requires t > 0.0 && a <= b
    ensures a * t <= b * t
  {
  }

  lemma ScalesBelow(a: real, b: real, t: real)
    requires t > 0.0 && a < b
    ensures a * t < b * t
  {
  }

  // ----- sums and failures

  function TotalRuns(ps: seq<PlatformReport>): nat {
    if ps == [] then 0 else TotalRuns(ps[..|ps| - 1]) + ps[|ps| - 1].total
  }

  function PassedRuns(ps: seq<PlatformReport>): nat {
    if ps == [] then 0 else PassedRuns(ps[..|ps| - 1]) + ps[|ps| - 1].passed
  }

  function FailedRuns(platform: string, runs: seq<Run>): seq<Failure> {
    if runs == [] then []
    else
      var last := runs[|runs| - 1];
      FailedRuns(platform, runs[..|runs| - 1])
      + (if IsPass(last) then [] else [Failure(platform, last.name, last.result)])
  }

  function Failures(ps: seq<PlatformReport>): seq<Failure> {
    if ps == [] then []
    else Failures(ps[..|ps| - 1]) + FailedRuns(ps[|ps| - 1].platform, ps[|ps| - 1].runs)
  }

  lemma {:induction false} FailedCount(platform: string, runs: seq<Run>)
    ensures |FailedRuns(platform, runs)| == |runs| - Passed(runs)
  {
    hide IsPass;
    if runs != [] {
      FailedCount(platform, runs[..|runs| - 1]);
    }
  }

  predicate Counted(p: PlatformReport) {
    p.total == |p.runs| && p.passed == Passed(p.runs)
  }

  /** There are as many failures as runs that did not pass. */
  lemma {:induction false} FailuresAreTheRest(ps: seq<PlatformReport>)
    requires forall i :: 0 <= i < |ps| ==> Counted(ps[i])
    ensures |Failures(ps)| == TotalRuns(ps) - PassedRuns(ps)
  {
    hide Passed, FailedRuns;
    if ps != [] {
      var last := ps[|ps| - 1];
      assert Counted(last);
      FailuresAreTheRest(ps[..|ps| - 1]);
      FailedCount(last.platform, last.runs);
    }
  }

  // ----- aggregated metrics

  function Select(ps: seq<PlatformReport>): seq<Metrics> {
    if ps == [] then []
    else Select(ps[..|ps| - 1]) + (if ps[|ps| - 1].metrics.Some? then [ps[|ps| - 1].metrics.value] else [])
  }

  function P50s(ms: seq<Metrics>): seq<int> {
    seq(|ms|, i requires 0 <= i < |ms| => ms[i].p50)
  }

  function P95s(ms: seq<Metrics>): seq<int> {
    seq(|ms|, i requires 0 <= i < |ms| => ms[i].p95)
  }

  function Maxima(ms: seq<Metrics>): seq<int> {
    seq(|ms|, i requires 0 <= i < |ms| => ms[i].max)
  }

  function SumConflicts(ms: seq<Metrics>): int {
    if ms == [] then 0 else SumConflicts(ms[..|ms| - 1]) + ms[|ms| - 1].conflicts
  }

  function SumRecoveries(ms: seq<Metrics>): int {
    if ms == [] then 0 else SumRecoveries(ms[..|ms| - 1]) + ms[|ms| - 1].recoveries
  }

  function MaxOf(s: seq<int>): int {
    if s == [] then 0
    else if |s| == 1 then s[0]
    else Max(MaxOf(s[..|s| - 1]), s[|s| - 1])
  }

  /** The upper median. */
  function Median(s: seq<int>): int {
    if s == [] then 0 else SortedIs(s); Sorted(s)[|s| / 2]
  }

  function Combined(ms: seq<Metrics>): Metrics {
    Metrics(Median(P50s(ms)), Largest(P95s(ms)), MaxOf(Maxima(ms)), SumConflicts(ms), SumRecoveries(ms))
  }

  function PayloadOf(ps: seq<PlatformReport>): Payload {
    Payload(TotalRuns(ps), PassedRuns(ps), Failures(ps), Combined(Select(ps)))
  }

  method Totals(ps: seq<PlatformReport>) returns (total: nat, passed: nat, failures: seq<Failure>)
    ensures total == TotalRuns(ps) && passed == PassedRuns(ps) && failures == Failures(ps)
  {
    hide FailedRuns;
    total, passed, failures := 0, 0, [];
    for i := 0 to |ps|
      invariant total == TotalRuns(ps[..i]) && passed == PassedRuns(ps[..i]) && failures == Failures(ps[..i])
    {
      assert ps[..i + 1][..i] == ps[..i];
      total := total + ps[i].total;
      passed := passed + ps[i].passed;
      failures := failures + FailedRuns(ps[i].platform, ps[i].runs);
    }
    assert ps[..|ps|] == ps;
  }

  lemma ListsGrow(ms: seq<Metrics>, m: Metrics)
    ensures P50s(ms + [m]) == P50s(ms) + [m.p50] && P95s(ms + [m]) == P95s(ms) + [m.p95]
    ensures Maxima(ms + [m]) == Maxima(ms) + [m.max]
    ensures SumConflicts(ms + [m]) == SumConflicts(ms) + m.conflicts
    ensures SumRecoveries(ms + [m]) == SumRecoveries(ms) + m.recoveries
  {
    assert (ms + [m])[..|ms|] == ms;
  }

  lemma SelectGrows(ps: seq<PlatformReport>, i: nat)
    requires i < |ps|
    ensures ps[i].metrics.None? ==> Select(ps[..i + 1]) == Select(ps[..i])
    ensures ps[i].metrics.Some? ==> Select(ps[..i + 1]) == Select(ps[..i]) + [ps[i].metrics.value]
  {
    assert ps[..i + 1][..i] == ps[..i];
  }

  method AggregateMetrics(ps: seq<PlatformReport>) returns (m: Metrics)
    ensures m == Combined(Select(ps))
  {
    hide Sorted, P50s, P95s, Maxima, MaxOf, SumConflicts, SumRecoveries, Ascending, Select;
    var p50s: seq<int>, p95s: seq<int>, maxima: seq<int> := [], [], [];
    var conflicts, recoveries := 0, 0;
    NothingYet();
    assert Select(ps[..0]) == [] by { SelectNothing(ps); }
    for i := 0 to |ps|
      invariant p50s == P50s(Select(ps[..i])) && p95s == P95s(Select(ps[..i])) && maxima == Maxima(Select(ps[..i]))
      invariant conflicts == SumConflicts(Select(ps[..i])) && recoveries == SumRecoveries(Select(ps[..i]))
    {
      SelectGrows(ps, i);
      if ps[i].metrics.None? { continue; }
      var entry := ps[i].metrics.value;
      ListsGrow(Select(ps[..i]), entry);
      p50s := p50s + [entry.p50];
      p95s := p95s + [entry.p95];
      maxima := maxima + [entry.max];
      conflicts := conflicts + entry.conflicts;
      recoveries := recoveries + entry.recoveries;
    }
    assert ps[..|ps|] == ps;
    SortedIs(p50s);
    SortedIs(p95s);
    var p50, p95, max := 0, 0, 0;
    if p50s != [] { p50 := Sorted(p50s)[|p50s| / 2]; }
    if p95s != [] { p95 := Sorted(p95s)[Max(0, |p95s| - 1)]; }
    if maxima != [] { max := MaxOf(maxima); }
    MaxOfNothing();
    return Metrics(p50, p95, max, conflicts, recoveries);
  }

  lemma NothingYet()
    ensures P50s([]) == [] && P95s([]) == [] && Maxima([]) == [] && SumConflicts([]) == 0 && SumRecoveries([]) == 0
  {
  }

  lemma SelectNothing(ps: seq<PlatformReport>)
    ensures Select(ps[..0]) == []
  {
  }

  lemma MaxOfNothing()
    ensures MaxOf([]) == 0
  {
  }

  method BuildPayload(ps: seq<PlatformReport>) returns (r: Payload)
    ensures r == PayloadOf(ps)
  {
    hide Combined, TotalRuns, PassedRuns, Failures;
    var total, passed, failures := Totals(ps);
    var metrics := AggregateMetrics(ps);
    return Payload(total, passed, failures, metrics);
  }

  // ----- order after aggregation

  lemma {:induction false} MaxIsAbove(s: seq<int>, i: nat)
    requires i < |s|
    ensures s[i] <= MaxOf(s)
  {
    if |s| > 1 && i < |s| - 1 {
      MaxIsAbove(s[..|s| - 1], i);
    }
  }

  /** The aggregated p50 is an upper median: more than half of the values are at or below it,
      and at most half strictly below. */
  lemma MedianSplits(s: seq<int>)
    requires s != []
    ensures Median(s) in s
    ensures 2 * AtMost(s, Median(s)) > |s| && 2 * AtMost(s, Median(s) - 1) <= |s|
  {
    hide Sorted, AtMost, Ascending;
    SortedIs(s);
    MedianIsThere(s);
    var t, k := Sorted(s), |s| / 2;
    RankCounts(t, k);
    SortedCounts(s, t[k]);
    SortedCounts(s, t[k] - 1);
  }

  /** The aggregated maximum is the greatest of the maxima. */
  lemma {:induction false} MaxIsThere(s: seq<int>)
    requires s != []
    ensures MaxOf(s) in s && forall i :: 0 <= i < |s| ==> s[i] <= MaxOf(s)
  {
    var n := |s| - 1;
    if n > 0 {
      MaxIsThere(s[..n]);
      assert s == s[..n] + [s[n]];
    }
    forall i | 0 <= i < |s|
      ensures s[i] <= MaxOf(s)
    {
      MaxIsAbove(s, i);
    }
  }

  lemma LargestIsAbove(s: seq<int>, i: nat)
    requires i < |s|
    ensures s[i] <= Largest(s) && Largest(s) in s
  {
    hide Sorted;
    SortedIs(s);
    var t := Sorted(s);
    assert s[i] in multiset(s) && s[i] in multiset(t);
    assert t[|t| - 1] in multiset(t) && t[|t| - 1] in multiset(s);
  }

  lemma MedianIsThere(s: seq<int>)
    requires s != []
    ensures Median(s) in s
  {
    hide Sorted, Ascending;
    SortedIs(s);
    assert Sorted(s)[|s| / 2] in multiset(Sorted(s));
    assert Sorted(s)[|s| / 2] in multiset(s);
  }

  /** Aggregation keeps p50, p95 and the maximum in order. */
  lemma CombinedInOrder(ms: seq<Metrics>)
    requires forall i :: 0 <= i < |ms| ==> InOrder(ms[i])
    ensures InOrder(Combined(ms))
  {
    hide Median, Largest, MaxOf, SumConflicts, SumRecoveries;
    if ms == [] {
      NothingInOrder();
    } else {
      MedianIsThere(P50s(ms));
      var i :| 0 <= i < |ms| && P50s(ms)[i] == Median(P50s(ms));
      LargestIsAbove(P95s(ms), i);
      var j :| 0 <= j < |ms| && P95s(ms)[j] == Largest(P95s(ms));
      MaxIsAbove(Maxima(ms), j);
      assert InOrder(ms[i]) && InOrder(ms[j]);
    }
  }

  lemma NothingInOrder()
    ensures InOrder(Combined([]))
  {
    assert P50s([]) == [] && P95s([]) == [] && Maxima([]) == [];
  }

  predicate Built(p: PlatformReport, files: seq<Audit>) {
    p == ReportOf(p.platform, Some(p.runs), files) || p == ReportOf(p.platform, None, files)
  }

  lemma ZerosInOrder()
    ensures InOrder(Metrics(0, 0, 0, 0, 0))
  {
  }

  lemma {:induction false} SelectedInOrder(ps: seq<PlatformReport>, files: seq<Audit>, i: nat)
    requires forall k :: 0 <= k < |ps| ==> Built(ps[k], files)
    requires i < |Select(ps)|
    ensures InOrder(Select(ps)[i])
  {
    hide MetricsOf, InOrder, Passed;
    var n := |ps| - 1;
    assert Built(ps[n], files);
    if i < |Select(ps[..n])| {
      SelectedInOrder(ps[..n], files, i);
    } else {
      MetricsInOrder(files, ps[n].platform);
      ZerosInOrder();
    }
  }

  /** For collected reports: the aggregated metrics are in order, and every run that did not
      pass is listed as a failure. */
  lemma AcceptanceHolds(ps: seq<PlatformReport>, files: seq<Audit>)
    requires forall k :: 0 <= k < |ps| ==> Built(ps[k], files)
    ensures InOrder(PayloadOf(ps).metrics)
    ensures |PayloadOf(ps).failures| == PayloadOf(ps).total - PayloadOf(ps).passed
  {
    hide Combined, Select, Failures, TotalRuns, PassedRuns, InOrder, ReportOf;
    forall i | 0 <= i < |Select(ps)|
      ensures InOrder(Select(ps)[i])
    {
      SelectedInOrder(ps, files, i);
    }
    CombinedInOrder(Select(ps));
    forall i | 0 <= i < |ps|
      ensures Counted(ps[i])
    {
      assert Built(ps[i], files);
      BuiltCounts(ps[i], files);
    }
    FailuresAreTheRest(ps);
  }

  lemma BuiltCounts(p: PlatformReport, files: seq<Audit>)
    requires Built(p, files)
    ensures Counted(p)
  {
    hide MetricsOf, Passed;
  }

  // ----- the report and its sums, written out

  /** The runs before and behind a run, and the run itself, are counted apart. */
  lemma {:induction false} PassedJoin(a: seq<Run>, r: Run, b: seq<Run>)
    ensures Passed(a + [r] + b) == Passed(a) + (if r.result == "PASS" then 1 else 0) + Passed(b)
    decreases |b|
  {
    var all := a + [r] + b;
    if b == [] {
      assert all == a + [r] && all[..|all| - 1] == a;
    } else {
      assert all[..|all| - 1] == a + [r] + b[..|b| - 1];
      PassedJoin(a, r, b[..|b| - 1]);
    }
  }

  /** A platform's report: no data without a directory of runs or without runs, and its metrics
      from the audit files, all zero without a directory. */
  lemma ReportWritten(platform: string, found: Option<seq<Run>>, files: seq<Audit>)
    ensures var r := ReportOf(platform, found, files);
      && r.platform == platform && r.runs == found.GetOr([]) && r.total == |r.runs| && r.passed == Passed(r.runs)
      && (r.status == NoData <==> r.runs == [])
      && (r.status == Go <==> r.runs != [] && 20 * (|r.runs| - Passed(r.runs)) <= |r.runs|)
      && r.metrics == Some(if found.Some? then MetricsOf(files, platform) else Metrics(0, 0, 0, 0, 0))
  {
    hide MetricsOf, Passed;
    GoIff(platform, found, files);
  }

  predicate FailureOf(f: Failure, p: PlatformReport, r: Run) {
    r.result != "PASS" && f == Failure(p.platform, r.name, r.result)
  }

  lemma {:induction false} FailedRunsAre(p: PlatformReport, runs: seq<Run>, f: Failure)
    ensures f in FailedRuns(p.platform, runs) <==> exists k :: 0 <= k < |runs| && FailureOf(f, p, runs[k])
  {
    if runs != [] {
      var n := |runs| - 1;
      FailedRunsAre(p, runs[..n], f);
      assert forall k :: 0 <= k < n ==> runs[..n][k] == runs[k];
    }
  }

  predicate FailureIn(f: Failure, p: PlatformReport) {
    exists k :: 0 <= k < |p.runs| && FailureOf(f, p, p.runs[k])
  }

  /** What one platform adds to each of the sums, wherever it stands. */
  lemma {:induction false} SumsWritten(a: seq<PlatformReport>, p: PlatformReport, b: seq<PlatformReport>)
    ensures TotalRuns(a + [p] + b) == TotalRuns(a) + p.total + TotalRuns(b)
    ensures PassedRuns(a + [p] + b) == PassedRuns(a) + p.passed + PassedRuns(b)
    decreases |b|
  {
    var all := a + [p] + b;
    if b == [] {
      assert all == a + [p] && all[..|all| - 1] == a;
    } else {
      assert all[..|all| - 1] == a + [p] + b[..|b| - 1];
      SumsWritten(a, p, b[..|b| - 1]);
    }
  }

  lemma {:induction false} FailuresJoin(a: seq<PlatformReport>, p: PlatformReport, b: seq<PlatformReport>)
    ensures Failures(a + [p] + b) == Failures(a) + FailedRuns(p.platform, p.runs) + Failures(b)
    decreases |b|
  {
    hide FailedRuns;
    var all := a + [p] + b;
    if b == [] {
      assert all == a + [p] && all[..|all| - 1] == a;
    } else {
      assert all[..|all| - 1] == a + [p] + b[..|b| - 1];
      FailuresJoin(a, p, b[..|b| - 1]);
    }
  }

  lemma {:induction false} SelectJoin(a: seq<PlatformReport>, p: PlatformReport, b: seq<PlatformReport>)
    ensures Select(a + [p] + b) == Select(a) + (if p.metrics.Some? then [p.metrics.value] else []) + Select(b)
    decreases |b|
  {
    var all := a + [p] + b;
    if b == [] {
      assert all == a + [p] && all[..|all| - 1] == a;
    } else {
      assert all[..|all| - 1] == a + [p] + b[..|b| - 1];
      SelectJoin(a, p, b[..|b| - 1]);
    }
  }

  /** The failures are exactly the runs that did not pass, each under its platform. */
  lemma {:induction false} FailuresWritten(ps: seq<PlatformReport>, f: Failure)
    ensures f in Failures(ps) <==> exists i :: 0 <= i < |ps| && FailureIn(f, ps[i])
  {
    hide FailureIn, FailedRuns;
    if ps != [] {
      var n := |ps| - 1;
      FailuresWritten(ps[..n], f);
      FailedRunsAre(ps[n], ps[n].runs, f);
      LastFailures(ps[n], f);
      assert forall i :: 0 <= i < n ==> ps[..n][i] == ps[i];
    }
  }

  lemma LastFailures(p: PlatformReport, f: Failure)
    ensures FailureIn(f, p) <==> exists k :: 0 <= k < |p.runs| && FailureOf(f, p, p.runs[k])
  {
  }

  /** What one platform's metrics add to the sums of conflicts and recoveries. */
  lemma {:induction false} CountsWritten(a: seq<Metrics>, m: Metrics, b: seq<Metrics>)
    ensures SumConflicts(a + [m] + b) == SumConflicts(a) + m.conflicts + SumConflicts(b)
    ensures SumRecoveries(a + [m] + b) == SumRecoveries(a) + m.recoveries + SumRecoveries(b)
    decreases |b|
  {
    var all := a + [m] + b;
    if b == [] {
      assert all == a + [m] && all[..|all| - 1] == a;
    } else {
      assert all[..|all| - 1] == a + [m] + b[..|b| - 1];
      CountsWritten(a, m, b[..|b| - 1]);
    }
  }

  /** The payload carries the sums, the failures and the metrics: of the platforms' values the
      upper median, the greatest and the greatest, and the sums of the counts. */
  lemma PayloadWritten(ps: seq<PlatformReport>)
    ensures var r, ms := PayloadOf(ps), Select(ps);
      && r.total == TotalRuns(ps) && r.passed == PassedRuns(ps) && r.failures == Failures(ps)
      && r.metrics.conflicts == SumConflicts(ms) && r.metrics.recoveries == SumRecoveries(ms)
      && (ms == [] ==> r.metrics == Metrics(0, 0, 0, 0, 0))
      && (ms != [] ==> MetricsOver(ms, r.metrics))
  {
    hide TotalRuns, PassedRuns, Failures, Select, SumConflicts, SumRecoveries, MetricsOver, Median, Largest, MaxOf;
    hide P50s, P95s, Maxima;
    var ms := Select(ps);
    if ms == [] {
      NothingCombined(ms);
    } else {
      CombinedOver(ms);
    }
  }

  lemma NothingCombined(ms: seq<Metrics>)
    requires ms == []
    ensures Combined(ms) == Metrics(0, 0, 0, 0, 0)
  {
  }

  predicate MetricsOver(ms: seq<Metrics>, m: Metrics) {
    && (exists i :: 0 <= i < |ms| && ms[i].p50 == m.p50)
    && 2 * AtMost(P50s(ms), m.p50) > |ms| && 2 * AtMost(P50s(ms), m.p50 - 1) <= |ms|
    && (exists i :: 0 <= i < |ms| && ms[i].p95 == m.p95) && (forall i :: 0 <= i < |ms| ==> ms[i].p95 <= m.p95)
    && (exists i :: 0 <= i < |ms| && ms[i].max == m.max) && (forall i :: 0 <= i < |ms| ==> ms[i].max <= m.max)
  }

  lemma CombinedOver(ms: seq<Metrics>)
    requires ms != []
    ensures MetricsOver(ms, Combined(ms))
  {
    hide Median, Largest, MaxOf, AtMost, SumConflicts, SumRecoveries;
    MedianSplits(P50s(ms));
    MaxIsThere(Maxima(ms));
    LargestIs(P95s(ms));
    ValuesAre(ms);
  }

  lemma ValuesAre(ms: seq<Metrics>)
    ensures |P50s(ms)| == |ms| && |P95s(ms)| == |ms| && |Maxima(ms)| == |ms|
    ensures forall i :: 0 <= i < |ms| ==> P50s(ms)[i] == ms[i].p50 && P95s(ms)[i] == ms[i].p95
    ensures forall i :: 0 <= i < |ms| ==> Maxima(ms)[i] == ms[i].max
  {
  }
}
