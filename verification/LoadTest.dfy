/** The load test's workers: they claim request numbers from an atomic counter, write
    disjoint slots of one slice and share an error counter. */
module LoadTest {

  datatype Worker =
    | Claiming                                       // about to add one to the counter
    | Requesting(i: nat)                             // request i is in flight
    | Storing(i: nat, duration: int, failed: bool)   // about to write durations[i]
    | Counting(i: nat)                               // about to add one to the errors
    | Exited

  /** What request `i` turned out to be. */
  datatype Outcome = Outcome(duration: int, reply: Reply)

  /** No response at all, or one with a status. */
  datatype Reply = NoReply | Status(code: int)

  predicate Failed(o: Outcome) {
    o.reply.NoReply? || o.reply.code >= 400
  }

  datatype State = State(
    total: nat,
    index: nat,
    durations: seq<int>,
    errors: nat,
    workers: seq<Worker>,
    claims: seq<nat>,               // history: which worker drew each number
    writes: seq<nat>,               // history: how often each slot was written
    outcomes: map<nat, Outcome>,    // history: the answered requests
    counted: set<nat>)              // history: the failures counted so far

  ghost function Start(concurrency: nat, total: nat): State {
    State(total, 0, seq(total, _ => 0), 0, seq(concurrency, _ => Claiming),
          [], seq(total, _ => 0), map[], {})
  }

  /** Worker `w` takes its next step; `answer` is what its request turns out to be, if it
      is waiting for one. */
  ghost function Step(s: State, w: nat, answer: Outcome): State
    requires w < |s.workers| && !s.workers[w].Exited?
    requires |s.durations| == |s.writes| == s.total
  {
    match s.workers[w]
    case Claiming =>
      var i := s.index;
      s.(index := s.index + 1,
         claims := s.claims + [w],
         workers := s.workers[w := if i >= s.total then Exited else Requesting(i)])
    case Requesting(i) =>
      s.(workers := s.workers[w := Storing(i, answer.duration, Failed(answer))],
         outcomes := s.outcomes[i := answer])
    case Storing(i, duration, failed) =>
      if i >= s.total then s
      else
        s.(durations := s.durations[i := duration],
           writes := s.writes[i := s.writes[i] + 1],
           workers := s.workers[w := if failed then Counting(i) else Claiming])
    case Counting(i) =>
      s.(errors := s.errors + 1,
         counted := s.counted + {i},
         workers := s.workers[w := Claiming])
  }

  ghost function Exits(workers: seq<Worker>): nat {
    if workers == [] then 0 else (if workers[0].Exited? then 1 else 0) + Exits(workers[1..])
  }

  lemma {:induction false} ExitsUpdate(workers: seq<Worker>, w: nat, x: Worker)
    requires w < |workers| && !workers[w].Exited?
    ensures Exits(workers[w := x]) == Exits(workers) + if x.Exited? then 1 else 0
  {
    if w == 0 {
      assert workers[w := x][1..] == workers[1..];
    } else {
      assert workers[w := x][1..] == workers[1..][w - 1 := x];
      ExitsUpdate(workers[1..], w - 1, x);
    }
  }

  lemma {:induction false} ExitsAll(workers: seq<Worker>)
    ensures Exits(workers) <= |workers|
    ensures Exits(workers) == |workers| <==> forall w :: 0 <= w < |workers| ==> workers[w].Exited?
  {
    if workers != [] {
      ExitsAll(workers[1..]);
      assert forall w :: 0 < w < |workers| ==> workers[w] == workers[1..][w - 1];
    }
  }

  lemma {:induction false} ExitsNone(n: nat)
    ensures Exits(seq(n, _ => Claiming)) == 0
  {
    if n > 0 {
      assert seq(n, _ => Claiming)[1..] == seq(n - 1, _ => Claiming);
      ExitsNone(n - 1);
    }
  }

  /** What worker `w` holds is its own, and the slot tells how far it got. */
  ghost predicate WorkerOk(s: State, w: nat)
    requires w < |s.workers| && |s.writes| == s.total
  {
    match s.workers[w]
    case Requesting(i) =>
      i < s.total && i < |s.claims| && s.claims[i] == w && s.writes[i] == 0 && i !in s.outcomes
    case Storing(i, duration, failed) =>
      i < s.total && i < |s.claims| && s.claims[i] == w && s.writes[i] == 0
      && i in s.outcomes && s.outcomes[i].duration == duration && Failed(s.outcomes[i]) == failed
    case Counting(i) =>
      i < s.total && i < |s.claims| && s.claims[i] == w && s.writes[i] == 1
      && i in s.outcomes && Failed(s.outcomes[i]) && i !in s.counted
    case _ => true
  }

  /** Slot `i`: unclaimed, in the hands of its claimant, or written once for good. */
  ghost predicate SlotOk(s: State, i: nat)
    requires i < |s.durations| == |s.writes|
  {
    if i >= |s.claims| then
      s.writes[i] == 0 && i !in s.outcomes && i !in s.counted
    else
      var w := s.claims[i];
      && w < |s.workers|
      && s.writes[i] <= 1
      && (s.writes[i] == 0 ==>
            i !in s.counted && (s.workers[w] == Requesting(i) || (s.workers[w].Storing? && s.workers[w].i == i)))
      && (s.writes[i] == 1 ==>
            && i in s.outcomes && s.durations[i] == s.outcomes[i].duration
            && (Failed(s.outcomes[i]) ==> i in s.counted || s.workers[w] == Counting(i))
            && (i in s.counted ==> Failed(s.outcomes[i])))
  }

  ghost predicate Inv(s: State) {
    && |s.durations| == |s.writes| == s.total
    && s.index == |s.claims|
    && s.index == Exits(s.workers) + (if s.index <= s.total then s.index else s.total)
    && s.errors == |s.counted|
    && (forall i :: i in s.outcomes ==> i < s.total)
    && (forall i :: i in s.counted ==> i < s.total)
    && (forall w: nat :: w < |s.workers| ==> WorkerOk(s, w))
    && (forall i: nat :: i < s.total ==> SlotOk(s, i))
  }

  lemma StartInv(concurrency: nat, total: nat)
    ensures Inv(Start(concurrency, total))
  {
    ExitsNone(concurrency);
  }

  lemma StepKeepsWorkers(s: State, w: nat, answer: Outcome, v: nat)
    requires Inv(s) && w < |s.workers| && !s.workers[w].Exited? && v < |s.workers|
    ensures WorkerOk(Step(s, w, answer), v)
  {
    assert WorkerOk(s, w) && WorkerOk(s, v);
    if s.workers[w].Claiming? && s.index < s.total {
      assert SlotOk(s, s.index);
    }
    if s.workers[w].Storing? {
      assert SlotOk(s, s.workers[w].i);
    }
  }

  lemma StepKeepsSlots(s: State, w: nat, answer: Outcome, i: nat)
    requires Inv(s) && w < |s.workers| && !s.workers[w].Exited? && i < s.total
    ensures SlotOk(Step(s, w, answer), i)
  {
    assert WorkerOk(s, w) && SlotOk(s, i);
  }

  lemma StepKeepsInv(s: State, w: nat, answer: Outcome)
    requires Inv(s) && w < |s.workers| && !s.workers[w].Exited?
    ensures Inv(Step(s, w, answer))
    ensures Step(s, w, answer).total == s.total && |Step(s, w, answer).workers| == |s.workers|
  {
    hide SlotOk;
    var s' := Step(s, w, answer);
    assert WorkerOk(s, w);
    ExitsUpdate(s.workers, w, s'.workers[w]);
    ExitsAll(s.workers);
    hide Exits;
    forall v: nat | v < |s'.workers| ensures WorkerOk(s', v) {
      StepKeepsWorkers(s, w, answer, v);
    }
    forall i: nat | i < s'.total ensures SlotOk(s', i) {
      StepKeepsSlots(s, w, answer, i);
    }
  }

  // ----- Whole runs

  type Schedule = seq<(nat, Outcome)>

  ghost predicate Admissible(s: State, sched: Schedule)
    requires |s.durations| == |s.writes| == s.total
    decreases |sched|
  {
    sched == [] ||
    (var (w, answer) := sched[0];
     && w < |s.workers| && !s.workers[w].Exited?
     && Admissible(Step(s, w, answer), sched[1..]))
  }

  ghost function Run(s: State, sched: Schedule): State
    requires |s.durations| == |s.writes| == s.total && Admissible(s, sched)
    decreases |sched|
  {
    if sched == [] then s else Run(Step(s, sched[0].0, sched[0].1), sched[1..])
  }

  lemma {:induction false} RunKeepsInv(s: State, sched: Schedule)
    requires Inv(s) && Admissible(s, sched)
    ensures Inv(Run(s, sched)) && Run(s, sched).total == s.total && |Run(s, sched).workers| == |s.workers|
    decreases |sched|
  {
    if sched != [] {
      StepKeepsInv(s, sched[0].0, sched[0].1);
      RunKeepsInv(Step(s, sched[0].0, sched[0].1), sched[1..]);
    }
  }

  ghost predicate AllExited(s: State) {
    forall w :: 0 <= w < |s.workers| ==> s.workers[w].Exited?
  }

  ghost function Failures(s: State): set<nat> {
    set i | i in s.outcomes && (s.outcomes[i].reply == NoReply || s.outcomes[i].reply.code >= 400)
  }

  /** When the wait returns, in whatever order the workers ran: the counter stands at
      total + concurrency; every request number below the total was drawn by exactly one
      worker, answered, and stored exactly once in its own slot; and the error count is
      the number of failed requests. */
  lemma WaitReturns(concurrency: nat, total: nat, sched: Schedule)
    requires concurrency >= 1
    requires Admissible(Start(concurrency, total), sched)
    ensures var s := Run(Start(concurrency, total), sched);
      AllExited(s) ==>
        && s.index == |s.claims| == total + concurrency
        && (forall k :: 0 <= k < total ==> s.claims[k] < concurrency)
        && |s.durations| == |s.writes| == total
        && (forall i: nat :: i in s.outcomes <==> i < total)
        && (forall i :: 0 <= i < total ==> s.writes[i] == 1 && s.durations[i] == s.outcomes[i].duration)
        && s.errors == |Failures(s)|
  {
    StartInv(concurrency, total);
    RunKeepsInv(Start(concurrency, total), sched);
    var s := Run(Start(concurrency, total), sched);
    if AllExited(s) {
      ExitsAll(s.workers);
      assert s.index >= concurrency;
      forall i: nat | i < total
        ensures s.writes[i] == 1 && i in s.outcomes && s.durations[i] == s.outcomes[i].duration
        ensures i < |s.claims| && s.claims[i] < concurrency
      {
        assert SlotOk(s, i);
      }
      assert s.counted == Failures(s) by {
        forall i: nat | i < total ensures i in s.counted <==> Failed(s.outcomes[i]) { assert SlotOk(s, i); }
      }
    }
  }

  // ----- The wait does return

  function Left(w: Worker): nat {
    match w
    case Claiming => 1
    case Requesting(_) => 4
    case Storing(_, _, _) => 3
    case Counting(_) => 2
    case Exited => 0
  }

  function LeftAll(workers: seq<Worker>): nat {
    if workers == [] then 0 else Left(workers[0]) + LeftAll(workers[1..])
  }

  lemma {:induction false} LeftUpdate(workers: seq<Worker>, w: nat, x: Worker)
    requires w < |workers|
    ensures LeftAll(workers[w := x]) == LeftAll(workers) - Left(workers[w]) + Left(x)
  {
    if w == 0 {
      assert workers[w := x][1..] == workers[1..];
    } else {
      assert workers[w := x][1..] == workers[1..][w - 1 := x];
      LeftUpdate(workers[1..], w - 1, x);
    }
  }

  /** An upper bound on the steps still to be taken. */
  function Potential(s: State): nat {
    LeftAll(s.workers) + if s.index <= s.total then 4 * (s.total - s.index) else 0
  }

  lemma {:induction false} RunUsesPotential(s: State, sched: Schedule)
    requires Inv(s) && Admissible(s, sched)
    ensures |sched| + Potential(Run(s, sched)) <= Potential(s)
    decreases |sched|
  {
    if sched != [] {
      var (w, answer) := sched[0];
      var s' := Step(s, w, answer);
      assert WorkerOk(s, w);
      LeftUpdate(s.workers, w, s'.workers[w]);
      StepKeepsInv(s, w, answer);
      RunUsesPotential(s', sched[1..]);
    }
  }

  lemma {:induction false} LeftAtStart(n: nat)
    ensures LeftAll(seq(n, _ => Claiming)) == n
  {
    if n > 0 {
      assert seq(n, _ => Claiming)[1..] == seq(n - 1, _ => Claiming);
      LeftAtStart(n - 1);
    }
  }

  lemma {:induction false} RunExtends(s: State, sched: Schedule, w: nat, answer: Outcome)
    requires Inv(s) && Admissible(s, sched)
    requires w < |Run(s, sched).workers| && !Run(s, sched).workers[w].Exited?
    ensures Admissible(s, sched + [(w, answer)])
    decreases |sched|
  {
    if sched == [] {
      assert Admissible(Step(s, w, answer), []);
      assert (sched + [(w, answer)])[1..] == [];
    } else {
      StepKeepsInv(s, sched[0].0, sched[0].1);
      RunExtends(Step(s, sched[0].0, sched[0].1), sched[1..], w, answer);
      assert (sched + [(w, answer)])[1..] == sched[1..] + [(w, answer)];
    }
  }

  ghost predicate CanGoOn(s: State, sched: Schedule)
    requires |s.durations| == |s.writes| == s.total
  {
    exists w: nat, answer: Outcome :: Admissible(s, sched + [(w, answer)])
  }

  /** However the workers interleave, no run is longer than 4 * total + concurrency steps,
      and one that cannot go on has brought every worker to its exit: the wait returns. */
  lemma EveryRunEnds(concurrency: nat, total: nat, sched: Schedule)
    requires Admissible(Start(concurrency, total), sched)
    ensures |sched| <= 4 * total + concurrency
    ensures !CanGoOn(Start(concurrency, total), sched) ==> AllExited(Run(Start(concurrency, total), sched))
  {
    var start := Start(concurrency, total);
    StartInv(concurrency, total);
    LeftAtStart(concurrency);
    RunUsesPotential(start, sched);
    var s := Run(start, sched);
    if !AllExited(s) {
      var w: nat :| w < |s.workers| && !s.workers[w].Exited?;
      RunExtends(start, sched, w, Outcome(0, NoReply));
    }
  }

  /** At no moment are two workers at the same slot. */
  lemma SlotsAreDisjoint(s: State, v: nat, w: nat)
    requires Inv(s) && v < |s.workers| && w < |s.workers| && v != w
    requires var a, b := s.workers[v], s.workers[w];
      (a.Requesting? || a.Storing? || a.Counting?) && (b.Requesting? || b.Storing? || b.Counting?)
    ensures s.workers[v].i != s.workers[w].i
  {
    assert WorkerOk(s, v) && WorkerOk(s, w);
  }
}
