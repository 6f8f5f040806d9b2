/** A whole load run: the workers fill the slice, and the report is drawn from it. */
module LoadReport {
  import opened LoadTest
  import opened Percentiles

  /** Every worker has returned, so the wait has. */
  ghost predicate Complete(concurrency: nat, total: nat, sched: Schedule) {
    && concurrency >= 1 && total >= 1
    && Admissible(Start(concurrency, total), sched)
    && AllExited(Run(Start(concurrency, total), sched))
  }

  /** What the requests turned out to be, by request number. */
  ghost function Outcomes(concurrency: nat, total: nat, sched: Schedule): (outcomes: seq<Outcome>)
    requires Complete(concurrency, total, sched)
    ensures |outcomes| == total
  {
    WaitReturns(concurrency, total, sched);
    var s := Run(Start(concurrency, total), sched);
    seq(total, i requires 0 <= i < total => s.outcomes[i])
  }

  /** What `run` returns. */
  ghost function RunReport(concurrency: nat, total: nat, sched: Schedule): Report
    requires Complete(concurrency, total, sched)
  {
    WaitReturns(concurrency, total, sched);
    var s := Run(Start(concurrency, total), sched);
    Summary(s.durations, s.errors)
  }

  function Durations(outcomes: seq<Outcome>): seq<int> {
    if outcomes == [] then [] else [outcomes[0].duration] + Durations(outcomes[1..])
  }

  /** The durations of the requests that succeeded. */
  function Succeeded(outcomes: seq<Outcome>): seq<int> {
    if outcomes == [] then []
    else (if Failed(outcomes[0]) then [] else [outcomes[0].duration]) + Succeeded(outcomes[1..])
  }

  function CountFailed(outcomes: seq<Outcome>): nat {
    if outcomes == [] then 0 else (if Failed(outcomes[0]) then 1 else 0) + CountFailed(outcomes[1..])
  }

  lemma {:induction false} DurationsAt(outcomes: seq<Outcome>)
    ensures |Durations(outcomes)| == |outcomes|
    ensures forall i :: 0 <= i < |outcomes| ==> Durations(outcomes)[i] == outcomes[i].duration
  {
    if outcomes != [] {
      DurationsAt(outcomes[1..]);
    }
  }

  ghost function FailedBelow(outcomes: map<nat, Outcome>, n: nat): set<nat> {
    set i | i in outcomes && i < n && Failed(outcomes[i])
  }

  lemma CountFailedLast(outcomes: seq<Outcome>)
    requires outcomes != []
    ensures CountFailed(outcomes) ==
      CountFailed(outcomes[..|outcomes| - 1]) + if Failed(outcomes[|outcomes| - 1]) then 1 else 0
  {
    if |outcomes| > 1 {
      CountFailedLast(outcomes[1..]);
      assert outcomes[1..][..|outcomes| - 2] == outcomes[..|outcomes| - 1][1..];
    }
  }

  lemma {:induction false} FailedAreCounted(outcomes: map<nat, Outcome>, n: nat)
    requires forall i: nat :: i < n ==> i in outcomes
    ensures |FailedBelow(outcomes, n)| == CountFailed(seq(n, i requires 0 <= i < n => outcomes[i]))
  {
    if n == 0 {
      assert FailedBelow(outcomes, 0) == {};
    } else {
      FailedAreCounted(outcomes, n - 1);
      var all := seq(n, i requires 0 <= i < n => outcomes[i]);
      CountFailedLast(all);
      assert all[..n - 1] == seq(n - 1, i requires 0 <= i < n - 1 => outcomes[i]);
      assert FailedBelow(outcomes, n) ==
        FailedBelow(outcomes, n - 1) + if Failed(outcomes[n - 1]) then {n - 1} else {};
    }
  }

  /** What a run leaves behind, in terms of its outcomes alone. */
  lemma RunResult(concurrency: nat, total: nat, sched: Schedule)
    requires Complete(concurrency, total, sched)
    ensures var s := Run(Start(concurrency, total), sched);
      var outcomes := Outcomes(concurrency, total, sched);
      s.durations == Durations(outcomes) && s.errors == CountFailed(outcomes)
  {
    WaitReturns(concurrency, total, sched);
    var s := Run(Start(concurrency, total), sched);
    DurationsAt(Outcomes(concurrency, total, sched));
    FailedAreCounted(s.outcomes, total);
    assert FailedBelow(s.outcomes, total) == Failures(s);
  }

  // ----- The interleaving does not show

  /** Both totals, as far as the order of the outcomes does not matter. */
  ghost function Totals(outcomes: seq<Outcome>): (multiset<int>, nat) {
    (multiset(Durations(outcomes)), CountFailed(outcomes))
  }

  ghost function Plus(o: Outcome, totals: (multiset<int>, nat)): (multiset<int>, nat) {
    (multiset{o.duration} + totals.0, (if Failed(o) then 1 else 0) + totals.1)
  }

  lemma TotalsCons(o: Outcome, tail: seq<Outcome>)
    ensures Totals([o] + tail) == Plus(o, Totals(tail))
  {
    assert ([o] + tail)[1..] == tail;
  }

  lemma PlusCommutes(o: Outcome, p: Outcome, totals: (multiset<int>, nat))
    ensures Plus(o, Plus(p, totals)) == Plus(p, Plus(o, totals))
  {
    assert multiset{o.duration} + (multiset{p.duration} + totals.0)
        == multiset{p.duration} + (multiset{o.duration} + totals.0);
  }

  lemma {:induction false} TotalsInsert(a: seq<Outcome>, o: Outcome, b: seq<Outcome>)
    ensures Totals(a + [o] + b) == Plus(o, Totals(a + b))
  {
    hide Totals;
    if a == [] {
      assert a + [o] + b == [o] + b && a + b == b;
      TotalsCons(o, b);
    } else {
      assert a + [o] + b == [a[0]] + (a[1..] + [o] + b);
      assert a + b == [a[0]] + (a[1..] + b);
      TotalsCons(a[0], a[1..] + [o] + b);
      TotalsCons(a[0], a[1..] + b);
      TotalsInsert(a[1..], o, b);
      PlusCommutes(a[0], o, Totals(a[1..] + b));
    }
  }

  lemma MiddleElement(b: seq<Outcome>, x: Outcome, c: seq<Outcome>)
    ensures multiset(b + [x] + c) == multiset{x} + multiset(b + c)
  {
  }

  lemma Cancel<T>(x: multiset<T>, a: multiset<T>, b: multiset<T>)
    requires x + a == x + b
    ensures a == b
  {
    assert a == x + a - x && b == x + b - x;
  }

  lemma RemoveSame(a: seq<Outcome>, x: Outcome, b: seq<Outcome>, c: seq<Outcome>)
    requires multiset([x] + a) == multiset(b + [x] + c)
    ensures multiset(a) == multiset(b + c)
  {
    MiddleElement(b, x, c);
    assert multiset([x] + a) == multiset{x} + multiset(a);
    Cancel(multiset{x}, multiset(a), multiset(b + c));
  }

  lemma {:induction false} SameOutcomesSameTotals(a: seq<Outcome>, b: seq<Outcome>)
    requires multiset(a) == multiset(b)
    ensures Totals(a) == Totals(b)
  {
    hide Totals, Plus;
    if a == [] {
      assert |multiset(b)| == |b|;
    } else {
      assert a == [a[0]] + a[1..];
      assert a[0] in multiset(b);
      var i :| 0 <= i < |b| && b[i] == a[0];
      assert b == b[..i] + [a[0]] + b[i + 1..];
      RemoveSame(a[1..], a[0], b[..i], b[i + 1..]);
      SameOutcomesSameTotals(a[1..], b[..i] + b[i + 1..]);
      TotalsCons(a[0], a[1..]);
      TotalsInsert(b[..i], a[0], b[i + 1..]);
    }
  }

  /** Two runs whose requests turn out the same, whichever request and worker it was and
      however many workers there were, return the same report, errors included. */
  lemma RunsAgree(c: nat, d: nat, total: nat, sched: Schedule, other: Schedule)
    requires Complete(c, total, sched) && Complete(d, total, other)
    requires multiset(Outcomes(c, total, sched)) == multiset(Outcomes(d, total, other))
    ensures RunReport(c, total, sched) == RunReport(d, total, other)
  {
    RunResult(c, total, sched);
    RunResult(d, total, other);
    var a, b := Outcomes(c, total, sched), Outcomes(d, total, other);
    SameOutcomesSameTotals(a, b);
    assert Totals(a).0 == Totals(b).0;
    DurationsAt(a);
    DurationsAt(b);
    ReportIgnoresOrder(Durations(a), Durations(b), CountFailed(a));
  }

  // ----- The report does not only describe the requests that succeeded

  lemma {:induction false} SucceededSize(outcomes: seq<Outcome>)
    ensures |Succeeded(outcomes)| + CountFailed(outcomes) == |outcomes|
    ensures CountFailed(outcomes) == 0 ==> Succeeded(outcomes) == Durations(outcomes)
  {
    if outcomes != [] {
      SucceededSize(outcomes[1..]);
    }
  }

  /** The durations that are ranked are those of the successful requests exactly if the
      run had no errors. */
  lemma OnlySuccessesAreRanked(concurrency: nat, total: nat, sched: Schedule)
    requires Complete(concurrency, total, sched)
    ensures var s := Run(Start(concurrency, total), sched);
      multiset(s.durations) == multiset(Succeeded(Outcomes(concurrency, total, sched))) <==> s.errors == 0
  {
    RunResult(concurrency, total, sched);
    var s := Run(Start(concurrency, total), sched);
    var outcomes := Outcomes(concurrency, total, sched);
    SucceededSize(outcomes);
    DurationsAt(outcomes);
    if multiset(s.durations) == multiset(Succeeded(outcomes)) {
      SameSize(s.durations, Succeeded(outcomes));
    }
  }

  lemma OneStep(s: State, w: nat, answer: Outcome, rest: Schedule)
    requires w < |s.workers| && !s.workers[w].Exited?
    requires |s.durations| == |s.writes| == s.total
    ensures Admissible(s, [(w, answer)] + rest) == Admissible(Step(s, w, answer), rest)
    ensures Admissible(s, [(w, answer)] + rest) ==>
      Run(s, [(w, answer)] + rest) == Run(Step(s, w, answer), rest)
  {
    assert ([(w, answer)] + rest)[1..] == rest;
  }

  /** One worker, a fast answer, a slow failure, and the exit. */
  function SlowFailure(): Schedule {
    var ok, slow := Outcome(10, Status(200)), Outcome(5000, Status(500));
    [(0, ok), (0, ok), (0, ok), (0, slow), (0, slow), (0, slow), (0, slow), (0, ok)]
  }

  lemma SlowFailureRuns()
    ensures var start := Start(1, 2);
      && Admissible(start, SlowFailure())
      && var s := Run(start, SlowFailure());
      && s.workers == [Exited] && s.durations == [10, 5000] && s.errors == 1
      && 0 in s.outcomes && s.outcomes[0] == Outcome(10, Status(200))
      && 1 in s.outcomes && s.outcomes[1] == Outcome(5000, Status(500))
  {
    hide Admissible, Run;
    var ok, slow := Outcome(10, Status(200)), Outcome(5000, Status(500));
    var s0 := Start(1, 2);
    var s1 := Step(s0, 0, ok);
    var s2 := Step(s1, 0, ok);
    var s3 := Step(s2, 0, ok);
    var s4 := Step(s3, 0, slow);
    var s5 := Step(s4, 0, slow);
    var s6 := Step(s5, 0, slow);
    var s7 := Step(s6, 0, slow);
    var s8 := Step(s7, 0, ok);
    var r7: Schedule := [(0, ok)] + [];
    var r6: Schedule := [(0, slow)] + r7;
    var r5: Schedule := [(0, slow)] + r6;
    var r4: Schedule := [(0, slow)] + r5;
    var r3: Schedule := [(0, slow)] + r4;
    var r2: Schedule := [(0, ok)] + r3;
    var r1: Schedule := [(0, ok)] + r2;
    assert SlowFailure() == [(0, ok)] + r1;
    OneStep(s0, 0, ok, r1);
    OneStep(s1, 0, ok, r2);
    OneStep(s2, 0, ok, r3);
    OneStep(s3, 0, slow, r4);
    OneStep(s4, 0, slow, r5);
    OneStep(s5, 0, slow, r6);
    OneStep(s6, 0, slow, r7);
    OneStep(s7, 0, ok, []);
    RunNothing(s8);
  }

  lemma RunNothing(s: State)
    requires |s.durations| == |s.writes| == s.total
    ensures Admissible(s, []) && Run(s, []) == s
  {
  }

  /** One fast answer and one slow failure: the failure is the Max. */
  lemma SlowFailureIsTheMax()
    ensures Complete(1, 2, SlowFailure())
    ensures Outcomes(1, 2, SlowFailure()) == [Outcome(10, Status(200)), Outcome(5000, Status(500))]
    ensures RunReport(1, 2, SlowFailure()).errors == 1
    ensures RunReport(1, 2, SlowFailure()).max == 5000
  {
    hide Admissible, Run, SlowFailure, Summary;
    SlowFailureRuns();
    var durations := [10, 5000];
    assert RunReport(1, 2, SlowFailure()) == Summary(durations, 1);
    ReportIsExact(durations, 1, Summary(durations, 1));
    assert durations[1] == 5000;
  }
}
