/** Injected faults as a plain FIFO of single faults per path: what the run-length
    encoded queues of the mocks mean, and what a history of requests makes of them. */
module FaultPlan {
  import opened Text

  const MATCH_ALL: string := "*"

  /** A fault as callers add it and as the queues store it. */
  datatype Fault = Fault(path: string, status: int, body: string, delayMs: int, remaining: int)

  /** One request's worth of a fault. */
  datatype Single = Single(status: int, body: string, delayMs: int)

  /** The single faults waiting for each path, first come first served. */
  type Plan = map<string, seq<Single>>

  function Waiting(plan: Plan, path: string): seq<Single> {
    if path in plan then plan[path] else []
  }

  // ----- Adding

  function Normalize(f: Fault): Fault {
    var path := TrimSpace(f.path);
    f.(path := if path == [] then MATCH_ALL else path,
       remaining := if f.remaining <= 0 then 1 else f.remaining)
  }

  predicate Acceptable(f: Fault) {
    && !(f.status == 0 && f.delayMs == 0)
    && (f.status != 0 ==> 100 <= f.status <= 599)
    && f.delayMs >= 0
  }

  function Copies(f: Fault): seq<Single> {
    if f.remaining <= 0 then [] else seq(f.remaining, _ => Single(f.status, f.body, f.delayMs))
  }

  function AddPlan(plan: Plan, f: Fault): Plan {
    var g := Normalize(f);
    if Acceptable(f) then plan[g.path := Waiting(plan, g.path) + Copies(g)] else plan
  }

  // ----- Taking

  /** The queue a request to `path` draws from: its own one if anything waits there. */
  function Source(plan: Plan, path: string): string {
    if Waiting(plan, path) != [] then path else MATCH_ALL
  }

  function Next(plan: Plan, path: string): Option<Single> {
    var queue := Waiting(plan, Source(plan, path));
    if queue == [] then None else Some(queue[0])
  }

  function TakePlan(plan: Plan, path: string): Plan {
    var key := Source(plan, path);
    var queue := Waiting(plan, key);
    if queue == [] then plan else plan[key := queue[1..]]
  }

  // ----- Requests

  /** Requests the fault injection leaves alone. */
  predicate Exempt(path: string) {
    "/__mock/" <= path || path == "/health"
  }

  datatype Response =
    | Real
    | Injected(status: int, body: Option<string>, retryAfter: bool)   // no body: the generic one
    | Abandoned                                                      // the client left during the delay

  /** What the client sees of fault `f`: a delay it does not wait for; else the real response
      if there is no status; else the status, with the given or a generic body, and a
      Retry-After header exactly with 429. */
  predicate Answers(response: Response, f: Single, leaves: bool) {
    if f.delayMs > 0 && leaves then response.Abandoned?
    else if f.status == 0 then response.Real?
    else
      && response.Injected?
      && response.status == f.status
      && (response.body.Some? <==> f.body != "")
      && (response.body.Some? ==> response.body.value == f.body)
      && (response.retryAfter <==> f.status == 429)
  }

  function Served(plan: Plan, path: string): Option<Single> {
    if Exempt(path) then None else Next(plan, path)
  }

  function AfterRequest(plan: Plan, path: string): Plan {
    if Exempt(path) then plan else TakePlan(plan, path)
  }

  // ----- Histories: the mutex makes every operation atomic

  datatype Op = Add(fault: Fault) | Request(path: string)

  function Apply(plan: Plan, op: Op): Plan {
    match op
    case Add(f) => AddPlan(plan, f)
    case Request(path) => AfterRequest(plan, path)
  }

  function Run(plan: Plan, ops: seq<Op>): Plan
    decreases |ops|
  {
    if ops == [] then plan else Run(Apply(plan, ops[0]), ops[1..])
  }

  /** Requests that got a fault. */
  function Faulted(plan: Plan, ops: seq<Op>): nat
    decreases |ops|
  {
    if ops == [] then 0
    else
      (if ops[0].Request? && Served(plan, ops[0].path).Some? then 1 else 0)
      + Faulted(Apply(plan, ops[0]), ops[1..])
  }

  /** The `Remaining` counts of the faults that were accepted. */
  function Accepted(ops: seq<Op>): nat {
    if ops == [] then 0
    else
      (if ops[0].Add? && Acceptable(ops[0].fault) then Normalize(ops[0].fault).remaining else 0)
      + Accepted(ops[1..])
  }

  /** All faults waiting, over every path. */
  ghost function Total(plan: Plan): nat
    decreases |plan|
  {
    if plan == map[] then 0
    else
      var k :| k in plan;
      |plan[k]| + Total(plan - {k})
  }

  lemma {:induction false} TotalWithout(plan: Plan, k: string)
    requires k in plan
    ensures Total(plan) == |plan[k]| + Total(plan - {k})
    decreases |plan|
  {
    var j :| j in plan && Total(plan) == |plan[j]| + Total(plan - {j});
    if j != k {
      TotalWithout(plan - {j}, k);
      TotalWithout(plan - {k}, j);
      assert plan - {j} - {k} == plan - {k} - {j};
    }
  }

  lemma TotalUpdate(plan: Plan, k: string, queue: seq<Single>)
    ensures Total(plan[k := queue]) == Total(plan) - |Waiting(plan, k)| + |queue|
  {
    TotalWithout(plan[k := queue], k);
    assert plan[k := queue] - {k} == plan - {k};
    if k in plan {
      TotalWithout(plan, k);
    } else {
      assert plan - {k} == plan;
    }
  }

  lemma AddAddsToTotal(plan: Plan, f: Fault)
    ensures Total(AddPlan(plan, f)) == Total(plan) + if Acceptable(f) then Normalize(f).remaining else 0
  {
    hide Total, Acceptable;
    var g := Normalize(f);
    TotalUpdate(plan, g.path, Waiting(plan, g.path) + Copies(g));
  }

  lemma RequestTakesFromTotal(plan: Plan, path: string)
    ensures Total(AfterRequest(plan, path)) + (if Served(plan, path).Some? then 1 else 0) == Total(plan)
  {
    hide Total;
    var key := Source(plan, path);
    if Waiting(plan, key) != [] {
      TotalUpdate(plan, key, Waiting(plan, key)[1..]);
    }
  }

  /** Between two resets nothing is lost or invented: over any history of adds and
      requests, what was served plus what waits is what was accepted and waited before. */
  lemma {:induction false} FaultsAreConserved(plan: Plan, ops: seq<Op>)
    ensures Faulted(plan, ops) + Total(Run(plan, ops)) == Accepted(ops) + Total(plan)
    decreases |ops|
  {
    hide Total, Acceptable, Normalize, AddPlan, AfterRequest, Served;
    if ops != [] {
      match ops[0] {
        case Add(f) => AddAddsToTotal(plan, f);
        case Request(path) => RequestTakesFromTotal(plan, path);
      }
      FaultsAreConserved(Apply(plan, ops[0]), ops[1..]);
    }
  }

  /** What a request to `path` is served, and what it leaves behind: nothing for the control
      plane and the health check; otherwise the first of its own faults, or else the first of
      the catch-all ones. */
  lemma RequestIsExact(plan: Plan, path: string)
    ensures "/__mock/" <= path || path == "/health" ==>
      Served(plan, path) == None && AfterRequest(plan, path) == plan
    ensures !("/__mock/" <= path) && path != "/health" ==>
      var own, any := Waiting(plan, path), Waiting(plan, "*");
      if own != [] then Served(plan, path) == Some(own[0]) && AfterRequest(plan, path) == plan[path := own[1..]]
      else if any != [] then Served(plan, path) == Some(any[0]) && AfterRequest(plan, path) == plan["*" := any[1..]]
      else Served(plan, path) == None && AfterRequest(plan, path) == plan
  {
  }

  /** What an added fault becomes: nothing if it has neither status nor delay, an impossible
      status, or a negative delay; else its repetitions, one at least, behind those waiting for
      its path, or for every path if it names none. */
  lemma AddIsExact(plan: Plan, f: Fault)
    ensures var path := if TrimSpace(f.path) == "" then "*" else TrimSpace(f.path);
      var times := if f.remaining < 1 then 1 else f.remaining;
      if (f.status != 0 || f.delayMs != 0) && (f.status == 0 || 100 <= f.status < 600) && f.delayMs >= 0
      then AddPlan(plan, f) ==
        plan[path := Waiting(plan, path) + seq(times, _ => Single(f.status, f.body, f.delayMs))]
      else AddPlan(plan, f) == plan
  {
    hide TrimSpace;
  }

  /** What `n` uninterrupted requests to `path` are served. */
  function Serve(plan: Plan, path: string, n: nat): seq<Option<Single>> {
    if n == 0 then [] else [Served(plan, path)] + Serve(AfterRequest(plan, path), path, n - 1)
  }

  /** Everything that applies to `path`: its own faults, then the catch-all ones. */
  function Applicable(plan: Plan, path: string): seq<Single> {
    if path == MATCH_ALL then Waiting(plan, path) else Waiting(plan, path) + Waiting(plan, MATCH_ALL)
  }

  lemma TakeShiftsApplicable(plan: Plan, path: string)
    ensures Applicable(TakePlan(plan, path), path) ==
      if Applicable(plan, path) == [] then [] else Applicable(plan, path)[1..]
    ensures Next(plan, path) ==
      if Applicable(plan, path) == [] then None else Some(Applicable(plan, path)[0])
  {
    var own, rest := Waiting(plan, path), Waiting(plan, MATCH_ALL);
    if path != MATCH_ALL && own != [] {
      assert (own + rest)[1..] == own[1..] + rest;
    }
  }

  /** Requests to one path see exactly its own faults in order, then the catch-all faults
      in order, then only real responses; exempt requests see only real responses. */
  lemma {:induction false} RequestsDrainInOrder(plan: Plan, path: string, n: nat)
    ensures |Serve(plan, path, n)| == n
    ensures "/__mock/" <= path || path == "/health" ==> forall i :: 0 <= i < n ==> Serve(plan, path, n)[i] == None
    ensures !("/__mock/" <= path) && path != "/health" ==>
      var faults := Waiting(plan, path) + if path == "*" then [] else Waiting(plan, "*");
      forall i :: 0 <= i < n ==> Serve(plan, path, n)[i] == if i < |faults| then Some(faults[i]) else None
    decreases n
  {
    hide TakePlan, Next;
    RequestIsExact(plan, path);
    DrainInOrder(plan, path, n);
    AppendNothing(Waiting(plan, path));
  }

  lemma {:induction false} DrainInOrder(plan: Plan, path: string, n: nat)
    ensures |Serve(plan, path, n)| == n
    ensures forall i :: 0 <= i < n ==>
      Serve(plan, path, n)[i] ==
        if !Exempt(path) && i < |Applicable(plan, path)| then Some(Applicable(plan, path)[i]) else None
    decreases n
  {
    hide Applicable, TakePlan, Next, Exempt;
    if n > 0 {
      TakeShiftsApplicable(plan, path);
      DrainInOrder(AfterRequest(plan, path), path, n - 1);
    }
  }
}
