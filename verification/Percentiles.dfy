/** The load test's report: sorted durations and rank statistics. */
module Percentiles {

  ghost predicate Sorted(s: seq<int>) {
    forall i, j :: 0 <= i < j < |s| ==> s[i] <= s[j]
  }

  function InsertInt(x: int, s: seq<int>): seq<int> {
    if s == [] || x <= s[0] then [x] + s else [s[0]] + InsertInt(x, s[1..])
  }

  /** What `sort.Slice` leaves in the slice: equal durations cannot be told apart, so any
      sorting algorithm leaves the same (`SortedListsAgree`). */
  function SortInts(s: seq<int>): seq<int> {
    if s == [] then [] else InsertInt(s[0], SortInts(s[1..]))
  }

  lemma {:induction false} InsertKeepsElements(x: int, s: seq<int>)
    ensures multiset(InsertInt(x, s)) == multiset{x} + multiset(s)
  {
    if !(s == [] || x <= s[0]) {
      InsertKeepsElements(x, s[1..]);
      assert s == [s[0]] + s[1..];
    }
  }

  lemma {:induction false} InsertBound(x: int, s: seq<int>, low: int)
    requires low <= x && forall i :: 0 <= i < |s| ==> low <= s[i]
    ensures forall i :: 0 <= i < |InsertInt(x, s)| ==> low <= InsertInt(x, s)[i]
  {
    if !(s == [] || x <= s[0]) {
      InsertBound(x, s[1..], low);
    }
  }

  lemma {:induction false} InsertSorted(x: int, s: seq<int>)
    requires Sorted(s)
    ensures Sorted(InsertInt(x, s))
  {
    if !(s == [] || x <= s[0]) {
      InsertSorted(x, s[1..]);
      InsertBound(x, s[1..], s[0]);
    }
  }

  lemma {:induction false} SortIntsSorts(s: seq<int>)
    ensures Sorted(SortInts(s)) && multiset(SortInts(s)) == multiset(s)
    ensures |SortInts(s)| == |s|
  {
    if s != [] {
      SortIntsSorts(s[1..]);
      InsertSorted(s[0], SortInts(s[1..]));
      InsertKeepsElements(s[0], SortInts(s[1..]));
      assert s == [s[0]] + s[1..];
    }
    assert |multiset(SortInts(s))| == |SortInts(s)| && |multiset(s)| == |s|;
  }

  lemma HeadIsLeast(a: seq<int>, x: int)
    requires Sorted(a) && x in multiset(a)
    ensures a != [] && a[0] <= x
  {
  }

  lemma TailElements(a: seq<int>)
    requires a != []
    ensures multiset(a[1..]) == multiset(a) - multiset{a[0]}
  {
    assert a == [a[0]] + a[1..];
  }

  lemma SameSize(a: seq<int>, b: seq<int>)
    requires multiset(a) == multiset(b)
    ensures |a| == |b|
  {
    assert |multiset(a)| == |a| && |multiset(b)| == |b|;
  }

  lemma HeadsAgree(a: seq<int>, b: seq<int>)
    requires Sorted(a) && Sorted(b) && multiset(a) == multiset(b) && a != [] && b != []
    ensures a[0] == b[0] && multiset(a[1..]) == multiset(b[1..])
  {
    assert a[0] in multiset(a) && b[0] in multiset(b);
    HeadIsLeast(a, b[0]);
    HeadIsLeast(b, a[0]);
    TailElements(a);
    TailElements(b);
  }

  /** A multiset has one sorted list. */
  lemma {:induction false} SortedListsAgree(a: seq<int>, b: seq<int>)
    requires Sorted(a) && Sorted(b) && multiset(a) == multiset(b)
    ensures a == b
  {
    SameSize(a, b);
    if a != [] {
      HeadsAgree(a, b);
      SortedListsAgree(a[1..], b[1..]);
      assert a == [a[0]] + a[1..] && b == [b[0]] + b[1..];
    }
  }

  function Percentile(sorted: seq<int>, p: nat): int {
    if |sorted| == 0 then 0
    else
      var index := (p * |sorted|) / 100;
      if index >= |sorted| then sorted[|sorted| - 1] else sorted[index]
  }

  /** How many of the samples are at most, and at least, `v`. */
  function AtMost(s: seq<int>, v: int): nat {
    if s == [] then 0 else (if s[0] <= v then 1 else 0) + AtMost(s[1..], v)
  }

  function AtLeast(s: seq<int>, v: int): nat {
    if s == [] then 0 else (if s[0] >= v then 1 else 0) + AtLeast(s[1..], v)
  }

  lemma {:induction false} InsertCounts(x: int, s: seq<int>, v: int)
    ensures AtMost(InsertInt(x, s), v) == (if x <= v then 1 else 0) + AtMost(s, v)
    ensures AtLeast(InsertInt(x, s), v) == (if x >= v then 1 else 0) + AtLeast(s, v)
  {
    if !(s == [] || x <= s[0]) {
      InsertCounts(x, s[1..], v);
    }
  }

  lemma {:induction false} SortCounts(s: seq<int>, v: int)
    ensures AtMost(SortInts(s), v) == AtMost(s, v)
    ensures AtLeast(SortInts(s), v) == AtLeast(s, v)
  {
    if s != [] {
      SortCounts(s[1..], v);
      InsertCounts(s[0], SortInts(s[1..]), v);
    }
  }

  /** In a sorted list, k + 1 samples stand at or below position k, the rest at or above. */
  lemma {:induction false} SortedRank(s: seq<int>, k: nat)
    requires Sorted(s) && k < |s|
    ensures AtMost(s, s[k]) >= k + 1
    ensures AtLeast(s, s[k]) >= |s| - k
  {
    if k > 0 {
      SortedRank(s[1..], k - 1);
    } else {
      AllAtLeast(s, s[0]);
    }
  }

  lemma {:induction false} AllAtLeast(s: seq<int>, v: int)
    requires forall i :: 0 <= i < |s| ==> s[i] >= v
    ensures AtLeast(s, v) == |s|
  {
    if s != [] {
      AllAtLeast(s[1..], v);
    }
  }

  /** Below and above a sample never overlap by more than its repetitions: two samples of
      the same rank are equal. */
  lemma {:induction false} CountsCross(s: seq<int>, v: int, w: int)
    requires v < w
    ensures AtMost(s, v) + AtLeast(s, w) <= |s|
  {
    if s != [] {
      CountsCross(s[1..], v, w);
    }
  }

  /** Position `k` of the sorted samples holds the one value with that rank. */
  lemma RankIsUnique(durations: seq<int>, k: nat, v: int)
    requires k < |durations| == |SortInts(durations)|
    ensures v == SortInts(durations)[k] <==>
      (AtMost(durations, v) >= k + 1 && AtLeast(durations, v) >= |durations| - k)
  {
    hide SortInts, AtMost, AtLeast;
    var sorted := SortInts(durations);
    SortIntsSorts(durations);
    SortedRank(sorted, k);
    SortCounts(durations, sorted[k]);
    if v < sorted[k] {
      CountsCross(durations, v, sorted[k]);
    } else if v > sorted[k] {
      CountsCross(durations, sorted[k], v);
    }
  }

  /** The p-th percentile is the one value with at least floor(p * n / 100) + 1 samples at
      or below it and at least n - floor(p * n / 100) at or above it. */
  lemma PercentileRank(durations: seq<int>, p: nat, v: int)
    requires durations != [] && p < 100
    ensures var k := (p * |durations|) / 100;
      k < |durations| &&
      (v == Percentile(SortInts(durations), p) <==>
         (AtMost(durations, v) >= k + 1 && AtLeast(durations, v) >= |durations| - k))
  {
    hide SortInts, AtMost, AtLeast;
    SortIntsSorts(durations);
    RankInRange(p, |durations|);
    RankIsUnique(durations, (p * |durations|) / 100, v);
  }

  lemma RankInRange(p: nat, n: nat)
    requires p < 100 && n > 0
    ensures (p * n) / 100 < n
  {
    assert p * n <= 99 * n;
  }

  /** `v` has the rank of the p-th percentile. */
  ghost predicate HasRank(durations: seq<int>, p: nat, v: int) {
    var k := (p * |durations|) / 100;
    AtMost(durations, v) >= k + 1 && AtLeast(durations, v) >= |durations| - k
  }

  ghost predicate IsLargest(durations: seq<int>, v: int) {
    v in durations && forall i :: 0 <= i < |durations| ==> durations[i] <= v
  }

  datatype Report = Report(total: nat, errors: nat, p50: int, p90: int, p99: int, max: int)

  /** The report says of the durations what its headings promise. */
  ghost predicate Describes(r: Report, durations: seq<int>, errors: nat) {
    && r.total == |durations| && r.errors == errors
    && HasRank(durations, 50, r.p50) && HasRank(durations, 90, r.p90) && HasRank(durations, 99, r.p99)
    && IsLargest(durations, r.max)
  }

  function Summary(durations: seq<int>, errors: nat): Report
    requires durations != []
  {
    SortIntsSorts(durations);
    var sorted := SortInts(durations);
    Report(|durations|, errors,
           Percentile(sorted, 50), Percentile(sorted, 90), Percentile(sorted, 99), sorted[|sorted| - 1])
  }

  lemma LastIsLargest(durations: seq<int>, sorted: seq<int>)
    requires Sorted(sorted) && multiset(sorted) == multiset(durations) && sorted != []
    ensures IsLargest(durations, sorted[|sorted| - 1])
  {
    assert sorted[|sorted| - 1] in multiset(durations);
    forall i | 0 <= i < |durations| ensures durations[i] <= sorted[|sorted| - 1] {
      assert durations[i] in multiset(sorted);
    }
  }

  /** There is exactly one report that describes the durations, and `run` returns it. */
  lemma ReportIsExact(durations: seq<int>, errors: nat, r: Report)
    requires durations != []
    ensures Describes(r, durations, errors) <==> r == Summary(durations, errors)
  {
    hide SortInts, Percentile, AtMost, AtLeast;
    SortIntsSorts(durations);
    LastIsLargest(durations, SortInts(durations));
    PercentileRank(durations, 50, r.p50);
    PercentileRank(durations, 90, r.p90);
    PercentileRank(durations, 99, r.p99);
  }

  /** The order in which the requests happened to finish does not show in the report. */
  lemma ReportIgnoresOrder(a: seq<int>, b: seq<int>, errors: nat)
    requires a != [] && b != [] && multiset(a) == multiset(b)
    ensures Summary(a, errors) == Summary(b, errors)
  {
    SortIntsSorts(a);
    SortIntsSorts(b);
    SortedListsAgree(SortInts(a), SortInts(b));
  }

  lemma ReportIsOrdered(durations: seq<int>, errors: nat)
    requires durations != []
    ensures var r := Summary(durations, errors);
      && r.p50 <= r.p90 <= r.p99 <= r.max
      && IsLargest(durations, r.max)
  {
    hide SortInts;
    SortIntsSorts(durations);
    LastIsLargest(durations, SortInts(durations));
  }

  /** `sort.Slice` and the report over the slice the workers filled. */
  method FinishRun(durations: array<int>, errors: nat) returns (report: Report)
    requires durations.Length >= 1
    modifies durations
    ensures Sorted(durations[..]) && multiset(durations[..]) == multiset(old(durations[..]))
    ensures Describes(report, old(durations[..]), errors)
    ensures report.p50 <= report.p90 <= report.p99 <= report.max
  {
    hide SortInts, Percentile, Describes;
    ghost var before := durations[..];
    SortIntsSorts(before);
    var sorted := SortInts(durations[..]);
    forall i | 0 <= i < durations.Length {
      durations[i] := sorted[i];
    }
    assert durations[..] == sorted;
    report := Report(durations.Length, errors,
                     Percentile(durations[..], 50), Percentile(durations[..], 90), Percentile(durations[..], 99),
                     durations[durations.Length - 1]);
    ReportIsExact(before, errors, report);
    ReportIsOrdered(before, errors);
  }
}
