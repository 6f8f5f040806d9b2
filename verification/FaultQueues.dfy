/** The mocks' fault controller: run-length encoded queues in a map, changed in place. */
module FaultQueues {
  import opened Text
  import opened FaultPlan
  import opened PathOrder

  /** The single faults a queue stands for. */
  function Units(queue: seq<Fault>): seq<Single> {
    if queue == [] then [] else Copies(queue[0]) + Units(queue[1..])
  }

  lemma {:induction false} UnitsAppend(queue: seq<Fault>, f: Fault)
    ensures Units(queue + [f]) == Units(queue) + Copies(f)
  {
    if queue == [] {
      assert Units([f]) == Copies(f);
    } else {
      UnitsAppend(queue[1..], f);
      assert (queue + [f])[1..] == queue[1..] + [f];
    }
  }

  lemma CopiesTake(f: Fault)
    requires f.remaining >= 1
    ensures Copies(f) == [Single(f.status, f.body, f.delayMs)] + Copies(f.(remaining := f.remaining - 1))
  {
  }

  /** Using up one repetition of the first fault drops the first single fault. */
  lemma UnitsTake(queue: seq<Fault>)
    requires queue != [] && forall i :: 0 <= i < |queue| ==> queue[i].remaining >= 1
    ensures var f := queue[0];
      && Units(queue) != []
      && Units(queue)[0] == Single(f.status, f.body, f.delayMs)
      && Units(queue)[1..] ==
           if f.remaining <= 1 then Units(queue[1..])
           else Units(queue[0 := f.(remaining := f.remaining - 1)])
  {
    var f := queue[0];
    var g := f.(remaining := f.remaining - 1);
    CopiesTake(f);
    hide Copies;
    var x := Single(f.status, f.body, f.delayMs);
    assert queue[0 := g][1..] == queue[1..];
    assert ([x] + Copies(g) + Units(queue[1..]))[1..] == Copies(g) + Units(queue[1..]);
    if f.remaining == 1 {
      NoCopies(g);
      assert [] + Units(queue[1..]) == Units(queue[1..]);
    }
  }

  lemma NoCopies(f: Fault)
    requires f.remaining == 0
    ensures Copies(f) == []
  {
  }

  /** A queue only holds faults of its own path that still apply to some request. */
  predicate Stored(key: string, f: Fault) {
    f.path == key && f.remaining >= 1 && Acceptable(f)
  }

  ghost predicate WellStored(queues: map<string, seq<Fault>>) {
    forall key :: key in queues ==> forall i :: 0 <= i < |queues[key]| ==> Stored(key, queues[key][i])
  }

  ghost function Meaning(queues: map<string, seq<Fault>>): Plan {
    map key | key in queues :: Units(queues[key])
  }

  lemma StoreAt(queues: map<string, seq<Fault>>, key: string, queue: seq<Fault>)
    requires WellStored(queues)
    requires forall i :: 0 <= i < |queue| ==> Stored(key, queue[i])
    ensures WellStored(queues[key := queue])
    ensures Meaning(queues[key := queue]) == Meaning(queues)[key := Units(queue)]
  {
  }

  /** A queue without its first single fault. */
  function Popped(queue: seq<Fault>): seq<Fault>
    requires queue != []
  {
    var f := queue[0].(remaining := queue[0].remaining - 1);
    if f.remaining <= 0 then queue[1..] else queue[0 := f]
  }

  lemma PoppedIsStored(key: string, queue: seq<Fault>)
    requires queue != [] && forall i :: 0 <= i < |queue| ==> Stored(key, queue[i])
    ensures forall i :: 0 <= i < |Popped(queue)| ==> Stored(key, Popped(queue)[i])
    ensures Units(queue) != [] && Units(Popped(queue)) == Units(queue)[1..]
    ensures var f := queue[0]; Units(queue)[0] == Single(f.status, f.body, f.delayMs)
  {
    assert Stored(key, queue[0]);
    UnitsTake(queue);
  }

  /** Taking from a stored queue, in the map. */
  lemma TakeAt(queues: map<string, seq<Fault>>, key: string)
    requires WellStored(queues) && key in queues && queues[key] != []
    ensures var f := queues[key][0];
      && WellStored(queues[key := Popped(queues[key])])
      && Waiting(Meaning(queues), key) != []
      && Waiting(Meaning(queues), key)[0] == Single(f.status, f.body, f.delayMs)
      && Meaning(queues[key := Popped(queues[key])]) == Meaning(queues)[key := Waiting(Meaning(queues), key)[1..]]
  {
    hide Units, Stored, Popped;
    PoppedIsStored(key, queues[key]);
    StoreAt(queues, key, Popped(queues[key]));
  }

  lemma StoreMore(queues: map<string, seq<Fault>>, key: string, f: Fault)
    requires WellStored(queues) && Stored(key, f)
    ensures var queue := if key in queues then queues[key] else [];
      && WellStored(queues[key := queue + [f]])
      && Meaning(queues[key := queue + [f]]) == Meaning(queues)[key := Waiting(Meaning(queues), key) + Copies(f)]
  {
    hide Units, Stored, Copies;
    var queue := if key in queues then queues[key] else [];
    UnitsAppend(queue, f);
    NoUnits();
    StoreAt(queues, key, queue + [f]);
  }

  lemma NoUnits()
    ensures Units([]) == []
  {
  }

  class Faults {
    var queues: map<string, seq<Fault>>

    ghost predicate Valid()
      reads this
    {
      WellStored(queues)
    }

    ghost function Plan(): Plan
      reads this
    {
      Meaning(queues)
    }

    constructor ()
      ensures Valid() && Plan() == map[]
    {
      queues := map[];
    }

    method Add(fault: Fault) returns (ok: bool)
      requires Valid()
      modifies this
      ensures Valid()
      ensures ok <==>
        && (fault.status != 0 || fault.delayMs != 0)
        && (fault.status == 0 || 100 <= fault.status <= 599)
        && fault.delayMs >= 0
      ensures Plan() == AddPlan(old(Plan()), fault)
    {
      hide WellStored, Meaning, TrimSpace, Copies;
      var f := fault.(path := TrimSpace(fault.path));
      if f.path == "" {
        f := f.(path := MATCH_ALL);
      }
      if f.status == 0 && f.delayMs == 0 {
        return false;
      }
      if f.status != 0 && (f.status < 100 || f.status > 599) {
        return false;
      }
      if f.delayMs < 0 {
        return false;
      }
      if f.remaining <= 0 {
        f := f.(remaining := 1);
      }
      assert f == Normalize(fault);
      StoreMore(queues, f.path, f);
      var queue := if f.path in queues then queues[f.path] else [];
      queues := queues[f.path := queue + [f]];
      ok := true;
    }

    method Reset()
      modifies this
      ensures Valid() && Plan() == map[]
    {
      queues := map[];
    }

    /** Consumes the next fault that applies to `path`; what it returns already has one
        repetition less. */
    method Take(path: string) returns (taken: Option<Fault>)
      requires Valid()
      modifies this
      ensures Valid()
      ensures Plan() == TakePlan(old(Plan()), path)
      ensures match Next(old(Plan()), path)
              case None => taken == None
              case Some(f) => taken.Some? && Single(taken.value.status, taken.value.body, taken.value.delayMs) == f
    {
      hide WellStored, Units;
      NoUnits();
      var keys := [path, MATCH_ALL];
      ghost var plan := Plan();
      var i := 0;
      while i < 2
        invariant 0 <= i <= 2
        invariant Valid() && Plan() == plan && queues == old(queues)
        invariant i > 0 ==> Waiting(plan, path) == []
        invariant i > 1 ==> Waiting(plan, MATCH_ALL) == []
      {
        var key := keys[i];
        if key in queues && queues[key] != [] {
          TakeAt(queues, key);
          assert Source(plan, path) == key;
          assert old(queues)[key := Popped(queues[key])].Keys == queues.Keys;
          var queue := queues[key];
          var fault := queue[0].(remaining := queue[0].remaining - 1);
          if fault.remaining <= 0 {
            queues := queues[key := queue[1..]];
          } else {
            queue := queue[0 := fault];
            queues := queues[key := queue];
          }
          return Some(fault);
        }
        i := i + 1;
      }
      taken := None;
    }

    /** The middleware: what a request to `path` gets, and the fault it uses up. */
    method InjectFaults(path: string, leaves: bool) returns (response: Response)
      requires Valid()
      modifies this
      ensures Valid()
      ensures "/__mock/" <= path || path == "/health" ==> response == Real && Plan() == old(Plan())
      ensures !("/__mock/" <= path) && path != "/health" ==>
        var own, any := Waiting(old(Plan()), path), Waiting(old(Plan()), "*");
        if own != [] then Answers(response, own[0], leaves) && Plan() == old(Plan())[path := own[1..]]
        else if any != [] then Answers(response, any[0], leaves) && Plan() == old(Plan())["*" := any[1..]]
        else response == Real && Plan() == old(Plan())
    {
      RequestIsExact(Plan(), path);
      if "/__mock/" <= path || path == "/health" {
        return Real;
      }
      var fault := Take(path);
      if fault.None? {
        return Real;
      }
      var f := fault.value;
      if f.delayMs > 0 {
        if leaves {
          return Abandoned;
        }
      }
      if f.status == 0 {
        return Real;
      }
      var retryAfter := f.status == 429;
      if f.body != "" {
        return Injected(f.status, Some(f.body), retryAfter);
      }
      response := Injected(f.status, None, retryAfter);
    }

    /** All queued faults; the map is walked in an arbitrary order. */
    method Pending() returns (result: seq<Fault>)
      requires Valid()
      ensures IsListing(result, queues)
    {
      hide IsListing, StableSort, WellStored, OfPath;
      result := [];
      var keys := queues.Keys;
      HoldsNothing(queues);
      assert queues.Keys - keys == {};
      while keys != {}
        invariant keys <= queues.Keys
        invariant Holds(result, queues, queues.Keys - keys)
        decreases |keys|
      {
        var key :| key in keys;
        HoldMore(result, queues, queues.Keys - keys, key);
        assert queues.Keys - (keys - {key}) == queues.Keys - keys + {key};
        result := result + queues[key];
        keys := keys - {key};
      }
      SortListing(result, queues);
      result := StableSort(result);
    }
  }

  /** `s` holds the queues of `keys`, each in its order. */
  ghost predicate Holds(s: seq<Fault>, queues: map<string, seq<Fault>>, keys: set<string>) {
    forall path :: OfPath(s, path) == if path in keys && path in queues then queues[path] else []
  }

  lemma HoldsNothing(queues: map<string, seq<Fault>>)
    ensures Holds([], queues, {})
  {
  }

  lemma HoldMore(s: seq<Fault>, queues: map<string, seq<Fault>>, keys: set<string>, key: string)
    requires WellStored(queues) && Holds(s, queues, keys) && key in queues && key !in keys
    ensures Holds(s + queues[key], queues, keys + {key})
  {
    var queue := queues[key];
    forall i | 0 <= i < |queue| ensures queue[i].path == key { assert Stored(key, queue[i]); }
    forall path ensures OfPath(s + queue, path) == if path in keys + {key} && path in queues then queues[path] else [] {
      OfPathConcat(s, queue, path);
      OfPathUniform(queue, key, path);
    }
  }

  lemma SortListing(s: seq<Fault>, queues: map<string, seq<Fault>>)
    requires Holds(s, queues, queues.Keys)
    ensures IsListing(StableSort(s), queues)
  {
    StableSortSorts(s);
    forall path ensures OfPath(StableSort(s), path) == Queue(queues, path) {
      StableSortIsStable(s, path);
    }
  }
}
