/** Python's `sorted` over distinct names. */
module Names {
  import opened Text

  /** All names, each once, in ascending order. */
  ghost predicate SortedNames(names: seq<string>, all: set<string>) {
    && (forall i, j :: 0 <= i < j < |names| ==> Le(names[i], names[j]) && names[i] != names[j])
    && (forall name :: name in names <==> name in all)
  }

  method Sort(all: set<string>) returns (names: seq<string>)
    ensures SortedNames(names, all)
  {
    names := [];
    var left := all;
    while left != {}
      invariant left <= all
      invariant SortedNames(names, all - left)
      decreases |left|
    {
      var name :| name in left;
      var k := 0;
      while k < |names| && Le(names[k], name)
        invariant 0 <= k <= |names|
        invariant forall i :: 0 <= i < k ==> Le(names[i], name)
      {
        k := k + 1;
      }
      InsertName(names, all - left, name, k);
      names := names[..k] + [name] + names[k..];
      left := left - {name};
      assert all - left == all - (left + {name}) + {name};
    }
  }

  lemma InsertName(names: seq<string>, all: set<string>, name: string, k: nat)
    requires SortedNames(names, all) && name !in all && k <= |names|
    requires forall i :: 0 <= i < k ==> Le(names[i], name)
    requires k < |names| ==> !Le(names[k], name)
    ensures SortedNames(names[..k] + [name] + names[k..], all + {name})
  {
    forall i | k <= i < |names| ensures Le(name, names[i]) {
      LeTotal(name, names[k]);
      if i > k { LeTransitive(name, names[k], names[i]); }
    }
  }
}
