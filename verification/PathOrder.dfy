/** Listing the queued faults by path. */
module PathOrder {
  import opened Text
  import opened FaultPlan

  /** The faults of one path, in their order in `s`. */
  function OfPath(s: seq<Fault>, path: string): seq<Fault> {
    if s == [] then []
    else (if s[0].path == path then [s[0]] else []) + OfPath(s[1..], path)
  }

  lemma {:induction false} OfPathConcat(a: seq<Fault>, b: seq<Fault>, path: string)
    ensures OfPath(a + b, path) == OfPath(a, path) + OfPath(b, path)
  {
    if a == [] {
      assert a + b == b;
    } else {
      OfPathConcat(a[1..], b, path);
      assert (a + b)[1..] == a[1..] + b;
      Assoc(if a[0].path == path then [a[0]] else [], OfPath(a[1..], path), OfPath(b, path));
    }
  }

  lemma {:induction false} OfPathUniform(s: seq<Fault>, key: string, path: string)
    requires forall i :: 0 <= i < |s| ==> s[i].path == key
    ensures OfPath(s, path) == if path == key then s else []
  {
    if s != [] {
      OfPathUniform(s[1..], key, path);
    }
  }

  function Queue(queues: map<string, seq<Fault>>, path: string): seq<Fault> {
    if path in queues then queues[path] else []
  }

  ghost predicate ByPath(s: seq<Fault>) {
    forall i, j :: 0 <= i < j < |s| ==> Le(s[i].path, s[j].path)
  }

  /** All queued faults and nothing else, ordered by path, each path's faults in queue order. */
  ghost predicate IsListing(s: seq<Fault>, queues: map<string, seq<Fault>>) {
    ByPath(s) && forall path :: OfPath(s, path) == Queue(queues, path)
  }

  lemma {:induction false} OfPathMember(s: seq<Fault>, path: string)
    requires OfPath(s, path) != []
    ensures exists i :: 0 <= i < |s| && s[i].path == path
  {
    if s[0].path != path {
      OfPathMember(s[1..], path);
      var i :| 0 <= i < |s[1..]| && s[1..][i].path == path;
      assert s[i + 1].path == path;
    }
  }

  lemma HeadIsListed(s: seq<Fault>)
    requires s != []
    ensures OfPath(s, s[0].path) != [] && OfPath(s, s[0].path)[0] == s[0]
  {
  }

  /** Two lists ordered by path that agree on every path's faults are the same list. */
  lemma {:induction false} OrderedListsAgree(a: seq<Fault>, b: seq<Fault>)
    requires ByPath(a) && ByPath(b)
    requires forall path :: OfPath(a, path) == OfPath(b, path)
    ensures a == b
  {
    if a == [] || b == [] {
      if a != [] { HeadIsListed(a); }
      if b != [] { HeadIsListed(b); }
    } else {
      var p, q := a[0].path, b[0].path;
      HeadIsListed(a);
      HeadIsListed(b);
      OfPathMember(b, p);
      OfPathMember(a, q);
      LeReflexive(p);
      LeAntisymmetric(p, q);
      forall path ensures OfPath(a[1..], path) == OfPath(b[1..], path) {
        assert OfPath(a, path) == OfPath(b, path);
        if path == p {
          assert OfPath(a, p)[1..] == OfPath(a[1..], p) && OfPath(b, p)[1..] == OfPath(b[1..], p);
        } else {
          assert OfPath(a, path) == [] + OfPath(a[1..], path) == OfPath(a[1..], path);
          assert OfPath(b, path) == [] + OfPath(b[1..], path) == OfPath(b[1..], path);
        }
      }
      OrderedListsAgree(a[1..], b[1..]);
    }
  }

  /** The listing does not depend on the order in which the map is walked. */
  lemma ListingIsUnique(a: seq<Fault>, b: seq<Fault>, queues: map<string, seq<Fault>>)
    requires IsListing(a, queues) && IsListing(b, queues)
    ensures a == b
  {
    OrderedListsAgree(a, b);
  }

  // ----- A stable sort

  function InsertByPath(f: Fault, s: seq<Fault>): seq<Fault> {
    if s == [] || Le(f.path, s[0].path) then [f] + s else [s[0]] + InsertByPath(f, s[1..])
  }

  function StableSort(s: seq<Fault>): seq<Fault> {
    if s == [] then [] else InsertByPath(s[0], StableSort(s[1..]))
  }

  lemma {:induction false} InsertKeepsFirst(f: Fault, s: seq<Fault>)
    ensures forall i :: 0 <= i < |InsertByPath(f, s)| ==> InsertByPath(f, s)[i] == f || InsertByPath(f, s)[i] in s
  {
    if !(s == [] || Le(f.path, s[0].path)) {
      InsertKeepsFirst(f, s[1..]);
    }
  }

  lemma {:induction false} InsertSorts(f: Fault, s: seq<Fault>)
    requires ByPath(s)
    ensures ByPath(InsertByPath(f, s))
  {
    if s == [] {
    } else if Le(f.path, s[0].path) {
      forall j | 0 <= j < |s| ensures Le(f.path, s[j].path) {
        if j > 0 { LeTransitive(f.path, s[0].path, s[j].path); }
      }
    } else {
      LeTotal(f.path, s[0].path);
      InsertSorts(f, s[1..]);
      InsertKeepsFirst(f, s[1..]);
      var t := InsertByPath(f, s[1..]);
      forall j | 0 <= j < |t| ensures Le(s[0].path, t[j].path) {
        if t[j] != f {
          var k :| 0 <= k < |s[1..]| && s[1..][k] == t[j];
          assert s[k + 1] == t[j];
        }
      }
    }
  }

  lemma {:induction false} StableSortSorts(s: seq<Fault>)
    ensures ByPath(StableSort(s))
  {
    if s != [] {
      StableSortSorts(s[1..]);
      InsertSorts(s[0], StableSort(s[1..]));
    }
  }

  lemma {:induction false} InsertIsStable(f: Fault, s: seq<Fault>, path: string)
    ensures OfPath(InsertByPath(f, s), path) == OfPath([f] + s, path)
  {
    if s == [] || Le(f.path, s[0].path) {
    } else {
      LeReflexive(f.path);
      InsertIsStable(f, s[1..], path);
      var t := InsertByPath(f, s[1..]);
      assert ([s[0]] + t)[1..] == t && ([f] + s)[1..] == s && ([f] + s[1..])[1..] == s[1..];
    }
  }

  lemma {:induction false} StableSortIsStable(s: seq<Fault>, path: string)
    ensures OfPath(StableSort(s), path) == OfPath(s, path)
  {
    if s != [] {
      StableSortIsStable(s[1..], path);
      InsertIsStable(s[0], StableSort(s[1..]), path);
      assert ([s[0]] + StableSort(s[1..]))[1..] == StableSort(s[1..]);
    }
  }
}
