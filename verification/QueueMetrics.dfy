/** Queue metrics of the phase report: the nearest-rank percentiles of the waits. */
module QueueMetrics {
  import opened Prelude

  // ----- sorting and counting

  predicate Ascending(s: seq<int>) {
    forall i, j :: 0 <= i < j < |s| ==> s[i] <= s[j]
  }

  function Insert(s: seq<int>, x: int): seq<int> {
    if s == [] || x <= s[0] then [x] + s else [s[0]] + Insert(s[1..], x)
  }

  function Sorted(s: seq<int>): seq<int> {
    if s == [] then [] else Insert(Sorted(s[..|s| - 1]), s[|s| - 1])
  }

  /** How many values are at most `v`; strictly below `v` is at most `v - 1`. */
  function AtMost(s: seq<int>, v: int): (n: nat)
    ensures n <= |s|
  {
    if s == [] then 0 else (if s[0] <= v then 1 else 0) + AtMost(s[1..], v)
  }

  lemma {:induction false} InsertBag(s: seq<int>, x: int)
    ensures multiset(Insert(s, x)) == multiset(s) + multiset{x}
  {
    if s != [] && x > s[0] {
      InsertBag(s[1..], x);
      assert s == [s[0]] + s[1..];
    }
  }

  lemma FromBag(t: seq<int>, s: seq<int>, x: int, low: int)
    requires multiset(t) == multiset(s) + multiset{x}
    requires low <= x && forall i :: 0 <= i < |s| ==> low <= s[i]
    ensures forall i :: 0 <= i < |t| ==> low <= t[i]
  {
    forall i | 0 <= i < |t|
      ensures low <= t[i]
    {
      assert t[i] in multiset(t);
      assert t[i] == x || t[i] in s;
    }
  }

  lemma Prepend(low: int, t: seq<int>)
    requires Ascending(t) && forall i :: 0 <= i < |t| ==> low <= t[i]
    ensures Ascending([low] + t)
  {
  }

  lemma {:induction false} InsertAscending(s: seq<int>, x: int)
    requires Ascending(s)
    ensures Ascending(Insert(s, x))
  {
    if s == [] || x <= s[0] {
      Prepend(x, s);
    } else {
      InsertAscending(s[1..], x);
      InsertBag(s[1..], x);
      FromBag(Insert(s[1..], x), s[1..], x, s[0]);
      Prepend(s[0], Insert(s[1..], x));
    }
  }

  lemma {:induction false} InsertCounts(s: seq<int>, x: int, v: int)
    ensures AtMost(Insert(s, x), v) == AtMost(s, v) + (if x <= v then 1 else 0)
  {
    if s == [] || x <= s[0] {
      assert ([x] + s)[1..] == s;
    } else {
      InsertCounts(s[1..], x, v);
      assert ([s[0]] + Insert(s[1..], x))[1..] == Insert(s[1..], x);
    }
  }

  /** Sorting gives an ascending permutation. */
  lemma {:induction false} SortedIs(s: seq<int>)
    ensures Ascending(Sorted(s)) && multiset(Sorted(s)) == multiset(s) && |Sorted(s)| == |s|
  {
    if s != [] {
      var n := |s| - 1;
      SortedIs(s[..n]);
      InsertAscending(Sorted(s[..n]), s[n]);
      InsertBag(Sorted(s[..n]), s[n]);
      assert s == s[..n] + [s[n]];
      assert |Sorted(s)| == |multiset(Sorted(s))|;
    }
  }

  lemma {:induction false} CountsJoin(a: seq<int>, b: seq<int>, v: int)
    ensures AtMost(a + b, v) == AtMost(a, v) + AtMost(b, v)
  {
    if a == [] {
      assert a + b == b;
    } else {
      assert (a + b)[1..] == a[1..] + b;
      CountsJoin(a[1..], b, v);
    }
  }

  lemma {:induction false} SortedCounts(s: seq<int>, v: int)
    ensures AtMost(Sorted(s), v) == AtMost(s, v)
  {
    if s != [] {
      var n := |s| - 1;
      SortedCounts(s[..n], v);
      InsertCounts(Sorted(s[..n]), s[n], v);
      CountsJoin(s[..n], [s[n]], v);
      assert s == s[..n] + [s[n]];
      assert [s[n]][1..] == [];
    }
  }

  lemma {:induction false} AllAtMost(s: seq<int>, v: int)
    ensures (forall i :: 0 <= i < |s| ==> s[i] <= v) ==> AtMost(s, v) == |s|
    ensures (forall i :: 0 <= i < |s| ==> s[i] > v) ==> AtMost(s, v) == 0
  {
    if s != [] {
      AllAtMost(s[1..], v);
    }
  }

  /** In an ascending list, an element has itself and all in front of it at or below it,
      and only elements in front of it strictly below. */
  lemma RankCounts(t: seq<int>, k: nat)
    requires Ascending(t) && k < |t|
    ensures AtMost(t, t[k]) >= k + 1 && AtMost(t, t[k] - 1) <= k
  {
    hide AtMost, Ascending;
    CountsUpTo(t, k);
    CountsBelow(t, k);
  }

  lemma CountsUpTo(t: seq<int>, k: nat)
    requires Ascending(t) && k < |t|
    ensures AtMost(t, t[k]) >= k + 1
  {
    hide AtMost;
    assert t == t[..k + 1] + t[k + 1..];
    CountsJoin(t[..k + 1], t[k + 1..], t[k]);
    AllAtMost(t[..k + 1], t[k]);
  }

  lemma CountsBelow(t: seq<int>, k: nat)
    requires Ascending(t) && k < |t|
    ensures AtMost(t, t[k] - 1) <= k
  {
    hide AtMost;
    assert t == t[..k] + t[k..];
    CountsJoin(t[..k], t[k..], t[k] - 1);
    AllAtMost(t[k..], t[k] - 1);
  }

  /** There is only one ascending order. */
  lemma {:induction false} AscendingUnique(a: seq<int>, b: seq<int>)
    requires Ascending(a) && Ascending(b) && multiset(a) == multiset(b)
    ensures a == b
  {
    assert |a| == |multiset(a)| == |multiset(b)| == |b|;
    if a != [] {
      SameFirst(a, b);
      assert a == [a[0]] + a[1..] && b == [b[0]] + b[1..];
      assert multiset(a[1..]) == multiset(a) - multiset{a[0]} == multiset(b[1..]);
      AscendingUnique(a[1..], b[1..]);
    }
  }

  lemma SameFirst(a: seq<int>, b: seq<int>)
    requires Ascending(a) && Ascending(b) && multiset(a) == multiset(b) && a != [] && b != []
    ensures a[0] == b[0]
  {
    assert a[0] in multiset(a) && b[0] in multiset(b);
    var i :| 0 <= i < |b| && b[i] == a[0];
    var j :| 0 <= j < |a| && a[j] == b[0];
  }

  // ----- percentiles

  /** The rounded-up share of `n`, less one. */
  function RawIndex(n: nat, percent: nat): int {
    (n * percent + 99) / 100 - 1
  }

  function Max(a: int, b: int): int {
    if a >= b then a else b
  }

  function Min(a: int, b: int): int {
    if a <= b then a else b
  }

  function RankIndex(n: nat, percent: nat): int {
    Max(0, Min(n - 1, RawIndex(n, percent)))
  }

  /** For a list that is not empty the clamps never bind, and the index is the nearest rank. */
  lemma ClampsNeverBind(n: nat, percent: nat)
    requires n > 0 && 0 < percent <= 100
    ensures RankIndex(n, percent) == RawIndex(n, percent)
    ensures 0 <= RawIndex(n, percent) < n
    ensures 100 * (RawIndex(n, percent) + 1) >= n * percent
    ensures 100 * RawIndex(n, percent) < n * percent
  {
    Share(n, percent);
    var share := n * percent;
    assert 1 <= share <= 100 * n;
    var q := (share + 99) / 100;
    assert 100 * q <= share + 99 < 100 * q + 100;
  }

  lemma Share(n: nat, percent: nat)
    requires n > 0 && 0 < percent <= 100
    ensures 1 <= n * percent <= 100 * n
  {
    assert n * percent <= n * 100;
    assert n * percent >= n * 1;
  }

  function Percentile(waits: seq<int>, percent: nat): int {
    if waits == [] || percent == 0 || percent > 100 then 0
    else
      SortedIs(waits);
      ClampsNeverBind(|waits|, percent);
      Sorted(waits)[RankIndex(|waits|, percent)]
  }

  /** The chosen value is one of the waits; at least the given share of the waits is at or
      below it, and less than that share is strictly below it. */
  lemma PercentileIsNearestRank(waits: seq<int>, percent: nat)
    requires waits != [] && 0 < percent <= 100
    ensures Percentile(waits, percent) in waits
    ensures 100 * AtMost(waits, Percentile(waits, percent)) >= percent * |waits|
    ensures 100 * AtMost(waits, Percentile(waits, percent) - 1) < percent * |waits|
  {
    hide AtMost, Sorted, RankIndex, RawIndex;
    var t, k := Sorted(waits), RankIndex(|waits|, percent);
    SortedIs(waits);
    ClampsNeverBind(|waits|, percent);
    RankCounts(t, k);
    SortedCounts(waits, t[k]);
    SortedCounts(waits, t[k] - 1);
    assert t[k] in multiset(t) && t[k] in multiset(waits);
    assert percent * |waits| == |waits| * percent;
  }

  // ----- one platform

  /** An audit file: not readable, or with a platform and perhaps scheduler metrics. */
  datatype Audit = Unreadable | Audit(platform: string, scheduler: Option<Scheduler>)

  datatype Scheduler = Scheduler(maxWait: WaitField, conflicts: int, recoveries: int)

  /** The longest wait as read: a number, a truth value, or something else or nothing. */
  datatype WaitField = Number(x: real) | Truth(b: bool) | NoNumber

  /** What passes the number test: a truth value does too, and counts as one or zero. */
  function NumberOf(w: WaitField): Option<real> {
    match w
    case Number(x) => Some(x)
    case Truth(b) => Some(if b then 1.0 else 0.0)
    case NoNumber => None
  }

  datatype Metrics = Metrics(p50: int, p95: int, max: int, conflicts: int, recoveries: int)

  /** Conversion to an integer drops the fraction, towards zero. */
  function Truncate(x: real): int {
    if x >= 0.0 then x.Floor else -((-x).Floor)
  }

  function SchedulerOf(a: Audit, platform: string): Option<Scheduler> {
    if a.Audit? && a.platform == platform then a.scheduler else None
  }

  function WaitOf(a: Audit, platform: string): seq<int> {
    match SchedulerOf(a, platform)
    case Some(s) => if NumberOf(s.maxWait).Some? then [Truncate(NumberOf(s.maxWait).value)] else []
    case None => []
  }

  function ConflictsOf(a: Audit, platform: string): int {
    match SchedulerOf(a, platform)
    case Some(s) => s.conflicts
    case None => 0
  }

  function RecoveriesOf(a: Audit, platform: string): int {
    match SchedulerOf(a, platform)
    case Some(s) => s.recoveries
    case None => 0
  }

  function Waits(files: seq<Audit>, platform: string): seq<int> {
    if files == [] then []
    else Waits(files[..|files| - 1], platform) + WaitOf(files[|files| - 1], platform)
  }

  function Conflicts(files: seq<Audit>, platform: string): int {
    if files == [] then 0
    else Conflicts(files[..|files| - 1], platform) + ConflictsOf(files[|files| - 1], platform)
  }

  function Recoveries(files: seq<Audit>, platform: string): int {
    if files == [] then 0
    else Recoveries(files[..|files| - 1], platform) + RecoveriesOf(files[|files| - 1], platform)
  }

  function Largest(waits: seq<int>): int {
    if waits == [] then 0 else SortedIs(waits); Sorted(waits)[|waits| - 1]
  }

  function MetricsOf(files: seq<Audit>, platform: string): Metrics {
    var waits := Waits(files, platform);
    Metrics(Percentile(waits, 50), Percentile(waits, 95), Largest(waits),
            Conflicts(files, platform), Recoveries(files, platform))
  }

  method CollectSchedulerMetrics(files: seq<Audit>, platform: string) returns (m: Metrics)
    ensures m == MetricsOf(files, platform)
  {
    hide Sorted, Percentile, Largest, Truncate;
    var waits: seq<int> := [];
    var conflicts, recoveries := 0, 0;
    for i := 0 to |files|
      invariant waits == Waits(files[..i], platform)
      invariant conflicts == Conflicts(files[..i], platform)
      invariant recoveries == Recoveries(files[..i], platform)
    {
      assert files[..i + 1][..i] == files[..i];
      if files[i].Unreadable? { continue; }
      if files[i].platform != platform { continue; }
      if files[i].scheduler.None? { continue; }
      var scheduler := files[i].scheduler.value;
      var longest := NumberOf(scheduler.maxWait);
      if longest.Some? {
        waits := waits + [Truncate(longest.value)];
      }
      conflicts := conflicts + scheduler.conflicts;
      recoveries := recoveries + scheduler.recoveries;
    }
    assert files[..|files|] == files;
    m := Summarize(waits, conflicts, recoveries);
  }

  method Summarize(waits: seq<int>, conflicts: int, recoveries: int) returns (m: Metrics)
    ensures m == Metrics(Percentile(waits, 50), Percentile(waits, 95), Largest(waits), conflicts, recoveries)
  {
    hide Sorted, RankIndex, Ascending, RawIndex;
    var ordered := Sorted(waits);
    SortedIs(waits);
    if waits == [] {
      return Metrics(0, 0, 0, conflicts, recoveries);
    }
    ClampsNeverBind(|waits|, 50);
    ClampsNeverBind(|waits|, 95);
    return Metrics(ordered[RankIndex(|waits|, 50)], ordered[RankIndex(|waits|, 95)], ordered[|waits| - 1],
                   conflicts, recoveries);
  }

  predicate InOrder(m: Metrics) {
    m.p50 <= m.p95 <= m.max
  }

  lemma IndexGrows(n: nat)
    requires n > 0
    ensures RawIndex(n, 50) <= RawIndex(n, 95)
  {
  }

  lemma MetricsInOrder(files: seq<Audit>, platform: string)
    ensures InOrder(MetricsOf(files, platform))
  {
    hide Sorted, Waits, RankIndex, RawIndex, Conflicts, Recoveries;
    var waits := Waits(files, platform);
    if waits != [] {
      SortedIs(waits);
      ClampsNeverBind(|waits|, 50);
      ClampsNeverBind(|waits|, 95);
      IndexGrows(|waits|);
    }
  }

  // ----- the order of the files

  /** What a list of files contributes, apart from order. */
  datatype Totals = Totals(waits: multiset<int>, conflicts: int, recoveries: int)

  function TotalsOf(files: seq<Audit>, platform: string): Totals {
    Totals(multiset(Waits(files, platform)), Conflicts(files, platform), Recoveries(files, platform))
  }

  function Plus(a: Totals, b: Totals): Totals {
    Totals(a.waits + b.waits, a.conflicts + b.conflicts, a.recoveries + b.recoveries)
  }

  lemma {:induction false} WaitsJoin(a: seq<Audit>, b: seq<Audit>, platform: string)
    ensures Waits(a + b, platform) == Waits(a, platform) + Waits(b, platform)
  {
    hide WaitOf;
    if b == [] {
      assert a + b == a;
    } else {
      assert (a + b)[..|a + b| - 1] == a + b[..|b| - 1];
      WaitsJoin(a, b[..|b| - 1], platform);
    }
  }

  lemma {:induction false} SumsJoin(a: seq<Audit>, b: seq<Audit>, platform: string)
    ensures Conflicts(a + b, platform) == Conflicts(a, platform) + Conflicts(b, platform)
    ensures Recoveries(a + b, platform) == Recoveries(a, platform) + Recoveries(b, platform)
  {
    hide ConflictsOf, RecoveriesOf;
    if b == [] {
      assert a + b == a;
    } else {
      assert (a + b)[..|a + b| - 1] == a + b[..|b| - 1];
      SumsJoin(a, b[..|b| - 1], platform);
    }
  }

  lemma TotalsJoin(a: seq<Audit>, b: seq<Audit>, platform: string)
    ensures TotalsOf(a + b, platform) == Plus(TotalsOf(a, platform), TotalsOf(b, platform))
  {
    hide Waits, Conflicts, Recoveries;
    WaitsJoin(a, b, platform);
    SumsJoin(a, b, platform);
  }

  lemma BagOfSplit(x: Audit, front: seq<Audit>, back: seq<Audit>)
    ensures multiset(front + ([x] + back)) == multiset(front + back) + multiset{x}
  {
    assert multiset(front + ([x] + back)) == multiset(front) + multiset([x] + back);
    assert multiset([x] + back) == multiset{x} + multiset(back);
  }

  lemma CutAt(b: seq<Audit>, i: nat)
    requires i < |b|
    ensures b == b[..i] + ([b[i]] + b[i + 1..])
  {
  }

  lemma SameRest(r: multiset<Audit>, s: multiset<Audit>, x: Audit)
    requires r + multiset{x} == s + multiset{x}
    ensures r == s
  {
    assert r == (r + multiset{x}) - multiset{x};
  }

  lemma Split(a: seq<Audit>, b: seq<Audit>) returns (front: seq<Audit>, back: seq<Audit>)
    requires multiset(a) == multiset(b) && a != []
    ensures a == [a[0]] + a[1..] && b == front + ([a[0]] + back)
    ensures multiset(a[1..]) == multiset(front + back)
  {
    assert a[0] in multiset(b);
    var i :| 0 <= i < |b| && b[i] == a[0];
    front, back := b[..i], b[i + 1..];
    CutAt(a, 0);
    CutAt(b, i);
    BagOfSplit(a[0], front, back);
    BagOfSplit(a[0], a[..0], a[1..]);
    assert a[..0] + a[1..] == a[1..];
    SameRest(multiset(a[1..]), multiset(front + back), a[0]);
  }

  lemma {:induction false} TotalsIgnoreOrder(a: seq<Audit>, b: seq<Audit>, platform: string)
    requires multiset(a) == multiset(b)
    ensures TotalsOf(a, platform) == TotalsOf(b, platform)
    decreases |a|
  {
    hide TotalsOf, Plus;
    if a == [] {
      assert |multiset(b)| == |multiset(a)| == 0;
      assert a == b;
    } else {
      var front, back := Split(a, b);
      var one, rest := [a[0]], a[1..];
      TotalsIgnoreOrder(rest, front + back, platform);
      TotalsJoin(one, rest, platform);
      TotalsJoin(front, one + back, platform);
      TotalsJoin(one, back, platform);
      TotalsJoin(front, back, platform);
      PlusMoves(TotalsOf(one, platform), TotalsOf(front, platform), TotalsOf(back, platform));
    }
  }

  lemma PlusMoves(x: Totals, a: Totals, b: Totals)
    ensures Plus(x, Plus(a, b)) == Plus(a, Plus(x, b))
  {
  }

  /** The metrics do not depend on the order in which the files are found. */
  lemma FileOrderIgnored(a: seq<Audit>, b: seq<Audit>, platform: string)
    requires multiset(a) == multiset(b)
    ensures MetricsOf(a, platform) == MetricsOf(b, platform)
  {
    hide Waits, Conflicts, Recoveries, Sorted, RankIndex;
    TotalsIgnoreOrder(a, b, platform);
    var v, w := Waits(a, platform), Waits(b, platform);
    SortedIs(v);
    SortedIs(w);
    AscendingUnique(Sorted(v), Sorted(w));
    if v == [] {
      assert |multiset(w)| == |multiset(v)| == 0;
    }
  }

  // ----- the metrics, written out

  /** An integer that a number is cut off to: at most one less far from zero, on the same side. */
  lemma TruncateIs(x: real)
    ensures var n := Truncate(x);
      if x >= 0.0 then n as real <= x && x < (n + 1) as real && n >= 0
      else x <= n as real && (n - 1) as real < x && n <= 0
  {
  }

  /** One file contributes its longest wait, if that is a number, and its counts, exactly if it
      is readable, of this platform and has scheduler metrics. */
  lemma OneFileWritten(f: Audit, platform: string)
    ensures f.Unreadable? || f.platform != platform || f.scheduler.None? ==>
      Waits([f], platform) == [] && Conflicts([f], platform) == 0 && Recoveries([f], platform) == 0
    ensures f.Audit? && f.platform == platform && f.scheduler.Some? ==>
      var s := f.scheduler.value;
      && Conflicts([f], platform) == s.conflicts && Recoveries([f], platform) == s.recoveries
      && Waits([f], platform)
           == (match s.maxWait
               case Number(x) => [Truncate(x)]
               case Truth(b) => [if b then 1 else 0]
               case NoNumber => [])
  {
    hide Truncate;
    assert [f][..0] == [];
    TruncateIs(1.0);
    TruncateIs(0.0);
  }

  /** All files together contribute what they contribute one after the other. */
  lemma FilesJoin(a: seq<Audit>, b: seq<Audit>, platform: string)
    ensures Waits(a + b, platform) == Waits(a, platform) + Waits(b, platform)
    ensures Conflicts(a + b, platform) == Conflicts(a, platform) + Conflicts(b, platform)
    ensures Recoveries(a + b, platform) == Recoveries(a, platform) + Recoveries(b, platform)
  {
    WaitsJoin(a, b, platform);
    SumsJoin(a, b, platform);
  }

  /** A nearest-rank percentile of the waits. */
  predicate Ranks(waits: seq<int>, percent: nat, v: int) {
    && v in waits && 100 * AtMost(waits, v) >= percent * |waits|
    && 100 * AtMost(waits, v - 1) < percent * |waits|
  }

  /** The metrics are the nearest-rank 50th and 95th percentile and the greatest of the waits,
      and zero without a wait; the counts are the sums over the files. */
  lemma MetricsWritten(files: seq<Audit>, platform: string)
    ensures var m, waits := MetricsOf(files, platform), Waits(files, platform);
      && m.conflicts == Conflicts(files, platform) && m.recoveries == Recoveries(files, platform)
      && (if waits == [] then m.p50 == 0 && m.p95 == 0 && m.max == 0
          else && Ranks(waits, 50, m.p50) && Ranks(waits, 95, m.p95) && m.max in waits
               && forall i :: 0 <= i < |waits| ==> waits[i] <= m.max)
  {
    hide Waits, Conflicts, Recoveries, Percentile, AtMost, Largest;
    var waits := Waits(files, platform);
    if waits == [] {
      NoPercentiles(waits);
    } else {
      PercentileIsNearestRank(waits, 50);
      PercentileIsNearestRank(waits, 95);
      LargestIs(waits);
    }
  }

  lemma NoPercentiles(waits: seq<int>)
    requires waits == []
    ensures Percentile(waits, 50) == 0 && Percentile(waits, 95) == 0 && Largest(waits) == 0
  {
  }

  lemma LargestIs(waits: seq<int>)
    requires waits != []
    ensures Largest(waits) in waits && forall i :: 0 <= i < |waits| ==> waits[i] <= Largest(waits)
  {
    hide Sorted;
    SortedIs(waits);
    var t := Sorted(waits);
    assert t[|t| - 1] in multiset(t) && t[|t| - 1] in multiset(waits);
    forall i | 0 <= i < |waits|
      ensures waits[i] <= t[|t| - 1]
    {
      assert waits[i] in multiset(waits) && waits[i] in multiset(t);
    }
  }
}
