/** The mocks' page window, and the Redmine mock's issue listing on top of it. */
module Paging {
  import opened Text

  /** The limit a window is cut to. */
  function EffectiveLimit(limit: int, defaultLimit: int, maxLimit: int): int {
    var l := if limit <= 0 then defaultLimit else limit;
    if l > maxLimit then maxLimit else l
  }

  method Page(total: nat, requested: int, size: int, defaultLimit: int, maxLimit: int)
    returns (start: int, end: int)
    ensures start == if requested < 0 then 0 else if requested <= total then requested else total
    ensures var wanted := if size <= 0 then defaultLimit else size;
      var limit := if wanted <= maxLimit then wanted else maxLimit;
      end == if start + limit <= total then start + limit else total
    ensures 0 <= start <= total && end <= total
    ensures defaultLimit > 0 && maxLimit > 0 ==>
      && start <= end <= start + maxLimit
      && (start < total ==> start < end)
  {
    var offset, limit := requested, size;
    if limit <= 0 {
      limit := defaultLimit;
    }
    if limit > maxLimit {
      limit := maxLimit;
    }
    if offset < 0 {
      offset := 0;
    }
    if offset > total {
      offset := total;
    }
    end := offset + limit;
    if end > total {
      end := total;
    }
    start := offset;
  }

  /** Full pages, of which the last one may be short: as many as `total` items need. */
  ghost predicate PagesFor<T>(pages: seq<seq<T>>, total: nat, l: int)
    requires l > 0
  {
    && |pages| == (total + l - 1) / l
    && forall i :: 0 <= i < |pages| ==> 0 < |pages[i]| <= l && (i < |pages| - 1 ==> |pages[i]| == l)
  }

  /** The pages up to `offset`: all full, unless they reach the total. */
  ghost predicate PagesUpTo<T>(pages: seq<seq<T>>, offset: nat, total: nat, l: int)
    requires l > 0
  {
    if offset == total then PagesFor(pages, total, l)
    else offset == |pages| * l && forall i :: 0 <= i < |pages| ==> |pages[i]| == l
  }

  lemma NoPages<T>(total: nat, l: int)
    requires l > 0
    ensures PagesUpTo<T>([], 0, total, l)
  {
    if total == 0 {
      assert (l - 1) / l == 0;
    }
  }

  lemma AddPage<T>(pages: seq<seq<T>>, page: seq<T>, offset: nat, total: nat, l: int)
    requires l > 0 && offset < total && PagesUpTo(pages, offset, total, l)
    requires |page| == if offset + l > total then total - offset else l
    ensures PagesUpTo(pages + [page], offset + |page|, total, l)
  {
    if offset + |page| == total {
      LastPage(total, |pages|, l);
    }
  }

  /** A client that starts at offset 0 and asks again from each returned end, until a
      window ends at the total. */
  method Walk<T>(items: seq<T>, limit: int, defaultLimit: int, maxLimit: int) returns (pages: seq<seq<T>>)
    requires defaultLimit > 0 && maxLimit > 0
    ensures Flatten(pages) == items
    ensures PagesFor(pages, |items|, EffectiveLimit(limit, defaultLimit, maxLimit))
  {
    pages := [];
    ghost var l := EffectiveLimit(limit, defaultLimit, maxLimit);
    var offset := 0;
    NoPages<T>(|items|, l);
    while offset < |items|
      invariant 0 <= offset <= |items|
      invariant Flatten(pages) == items[..offset]
      invariant PagesUpTo(pages, offset, |items|, l)
      decreases |items| - offset
    {
      hide PagesUpTo, PagesFor;
      var start, end := Page(|items|, offset, limit, defaultLimit, maxLimit);
      var page := items[start..end];
      FlattenAppend(pages, page);
      assert items[..start] + page == items[..end];
      AddPage(pages, page, offset, |items|, l);
      pages := pages + [page];
      offset := end;
    }
    assert items[..offset] == items;
  }

  lemma LastPage(n: nat, k: nat, l: int)
    requires l > 0 && k * l < n <= k * l + l
    ensures (n + l - 1) / l == k + 1
  {
    var q := (n + l - 1) / l;
    assert q * l <= n + l - 1 < q * l + l;
    if q < k + 1 { Scale(q, k, l); }
    if q > k + 1 { Scale(k + 2, q, l); }
  }

  lemma Scale(a: int, b: int, l: int)
    requires a <= b && l > 0
    ensures a * l <= b * l
  {
  }

  function Flatten<T>(pages: seq<seq<T>>): seq<T> {
    if pages == [] then [] else pages[0] + Flatten(pages[1..])
  }

  lemma {:induction false} FlattenAppend<T>(pages: seq<seq<T>>, page: seq<T>)
    ensures Flatten(pages + [page]) == Flatten(pages) + page
  {
    if pages == [] {
      assert pages + [page] == [page];
    } else {
      assert (pages + [page])[1..] == pages[1..] + [page];
      FlattenAppend(pages[1..], page);
    }
  }

  // ----- Issues

  const DEFAULT_LIMIT := 25
  const MAX_LIMIT := 100

  datatype Project = Project(id: nat, identifier: string)
  datatype Issue = Issue(id: nat, project: nat, statusId: nat, statusName: string)

  lemma StatusFilter(issue: Issue, filter: string)
    ensures MatchesStatus(issue, filter) <==>
      || filter == "" || filter == "*"
      || (filter == "open" && issue.statusName != "Closed" && issue.statusName != "Rejected")
      || (filter == "closed" && (issue.statusName == "Closed" || issue.statusName == "Rejected"))
      || (filter != "open" && filter != "closed" && Itoa(issue.statusId) == filter)
  {
  }

  /** A number selects exactly the issues of that status. */
  lemma StatusById(issue: Issue, id: nat)
    ensures MatchesStatus(issue, Itoa(id)) <==> issue.statusId == id
  {
    assert IsDigit(Itoa(id)[0]);
    if Itoa(issue.statusId) == Itoa(id) {
      ItoaIsInjective(issue.statusId, id);
    }
  }

  /** A number selects the issues of that project and of one with that identifier. */
  lemma ProjectById(projects: seq<Project>, issue: Issue, id: nat)
    ensures MatchesProject(projects, issue, Itoa(id)) <==>
      issue.project == id || Project(issue.project, Itoa(id)) in projects
  {
    if Itoa(issue.project) == Itoa(id) {
      ItoaIsInjective(issue.project, id);
    }
  }

  /** Any other text selects the issues of the projects with that identifier, no text all. */
  lemma ProjectByIdentifier(projects: seq<Project>, issue: Issue, filter: string)
    requires filter == "" || exists i :: 0 <= i < |filter| && !IsDigit(filter[i])
    ensures MatchesProject(projects, issue, filter) <==>
      filter == "" || Project(issue.project, filter) in projects
  {
    if filter != "" {
      var i :| 0 <= i < |filter| && !IsDigit(filter[i]);
      assert Itoa(issue.project) != filter;
    }
  }

  /** A numeric project id, or the identifier of the issue's project. */
  predicate MatchesProject(projects: seq<Project>, issue: Issue, filter: string) {
    || filter == ""
    || Itoa(issue.project) == filter
    || exists i :: 0 <= i < |projects| && projects[i].id == issue.project && projects[i].identifier == filter
  }

  predicate MatchesStatus(issue: Issue, filter: string) {
    var done := issue.statusName == "Closed" || issue.statusName == "Rejected";
    if filter == "" || filter == "*" then true
    else if filter == "open" then !done
    else if filter == "closed" then done
    else Itoa(issue.statusId) == filter
  }

  predicate Matches(projects: seq<Project>, issue: Issue, project: string, status: string) {
    MatchesProject(projects, issue, project) && MatchesStatus(issue, status)
  }

  function Matching(projects: seq<Project>, issues: seq<Issue>, project: string, status: string): seq<Issue> {
    if issues == [] then []
    else
      Matching(projects, issues[..|issues| - 1], project, status)
      + (if Matches(projects, issues[|issues| - 1], project, status) then [issues[|issues| - 1]] else [])
  }

  method FilterIssues(projects: seq<Project>, issues: seq<Issue>, project: string, status: string)
    returns (filtered: seq<Issue>)
    ensures filtered == Matching(projects, issues, project, status)
    ensures forall issue :: issue in filtered <==> issue in issues && Matches(projects, issue, project, status)
  {
    filtered := [];
    for n := 0 to |issues|
      invariant filtered == Matching(projects, issues[..n], project, status)
      invariant forall issue :: issue in filtered <==> issue in issues[..n] && Matches(projects, issue, project, status)
    {
      assert issues[..n + 1][..n] == issues[..n];
      if Matches(projects, issues[n], project, status) {
        filtered := filtered + [issues[n]];
      }
    }
    assert issues[..|issues|] == issues;
  }

  /** `indices` are the places of exactly the matching issues, in ascending order. */
  ghost predicate Places(
      projects: seq<Project>, issues: seq<Issue>, project: string, status: string, indices: seq<nat>)
  {
    && (forall i, j :: 0 <= i < j < |indices| ==> indices[i] < indices[j])
    && (forall n: nat :: n in indices <==> n < |issues| && Matches(projects, issues[n], project, status))
  }

  /** `part` is what stands at these places. */
  ghost predicate At(issues: seq<Issue>, indices: seq<nat>, part: seq<Issue>) {
    |part| == |indices| && forall k :: 0 <= k < |indices| ==> indices[k] < |issues| && part[k] == issues[indices[k]]
  }

  lemma PlaceNext(
      projects: seq<Project>, issues: seq<Issue>, last: Issue, project: string, status: string, indices: seq<nat>)
    requires Places(projects, issues, project, status, indices)
    ensures Places(projects, issues + [last], project, status,
                   if Matches(projects, last, project, status) then indices + [|issues|] else indices)
  {
    hide Matches;
    assert forall k :: 0 <= k < |indices| ==> indices[k] in indices;
    var indices' := if Matches(projects, last, project, status) then indices + [|issues|] else indices;
    forall n: nat
      ensures n in indices' <==>
        n < |issues + [last]| && Matches(projects, (issues + [last])[n], project, status)
    {
      assert n in indices' <==> n in indices || (n == |issues| && Matches(projects, last, project, status));
    }
  }

  /** The listing holds the matching issues in their order. */
  lemma {:induction false} MatchingKeepsOrder(
      projects: seq<Project>, issues: seq<Issue>, project: string, status: string)
    returns (indices: seq<nat>)
    ensures Places(projects, issues, project, status, indices)
    ensures At(issues, indices, Matching(projects, issues, project, status))
  {
    hide Matches, Places;
    if issues == [] {
      indices := NoPlaces(projects, project, status);
    } else {
      var n := |issues| - 1;
      indices := MatchingKeepsOrder(projects, issues[..n], project, status);
      PlaceNext(projects, issues[..n], issues[n], project, status, indices);
      assert issues[..n] + [issues[n]] == issues;
      if Matches(projects, issues[n], project, status) {
        indices := indices + [n];
      }
    }
  }

  lemma NoPlaces(projects: seq<Project>, project: string, status: string) returns (indices: seq<nat>)
    ensures indices == [] && Places(projects, [], project, status, indices)
  {
    indices := [];
  }

  /** Every listing can be walked: the pages of any filter, put together, are exactly the
      matching issues in their order. */
  method WalkIssues(projects: seq<Project>, issues: seq<Issue>, project: string, status: string, limit: int)
    returns (pages: seq<seq<Issue>>)
    ensures Flatten(pages) == Matching(projects, issues, project, status)
    ensures var l := if limit <= 0 then 25 else if limit <= 100 then limit else 100;
      |pages| == (|Matching(projects, issues, project, status)| + l - 1) / l
  {
    var filtered := FilterIssues(projects, issues, project, status);
    pages := Walk(filtered, limit, DEFAULT_LIMIT, MAX_LIMIT);
  }

  /** `rest` is what remains of `all` when `part` is taken out, both in their order. */
  ghost predicate Interleaves(all: seq<Issue>, part: seq<Issue>, rest: seq<Issue>)
    decreases |all|
  {
    if all == [] then part == [] && rest == []
    else
      var last := all[|all| - 1];
      var before := all[..|all| - 1];
      || (part != [] && part[|part| - 1] == last && Interleaves(before, part[..|part| - 1], rest))
      || (rest != [] && rest[|rest| - 1] == last && Interleaves(before, part, rest[..|rest| - 1]))
  }

  lemma MergeStep(all: seq<Issue>, part: seq<Issue>, rest: seq<Issue>, x: Issue)
    requires Interleaves(all, part, rest)
    ensures Interleaves(all + [x], part + [x], rest)
    ensures Interleaves(all + [x], part, rest + [x])
  {
    assert (all + [x])[..|all|] == all;
    assert (part + [x])[..|part|] == part && (rest + [x])[..|rest|] == rest;
  }

  /** For every project filter, "open" and "closed" split the unfiltered result in two:
      no issue is in both, and merging them in order gives the whole result back. */
  lemma {:induction false} OpenAndClosedPartition(projects: seq<Project>, issues: seq<Issue>, project: string)
    ensures Interleaves(Matching(projects, issues, project, ""),
                        Matching(projects, issues, project, "open"),
                        Matching(projects, issues, project, "closed"))
    ensures forall issue :: !(MatchesStatus(issue, "open") && MatchesStatus(issue, "closed"))
  {
    if issues != [] {
      var n := |issues| - 1;
      var last := issues[n];
      OpenAndClosedPartition(projects, issues[..n], project);
      var all := Matching(projects, issues[..n], project, "");
      var open := Matching(projects, issues[..n], project, "open");
      var closed := Matching(projects, issues[..n], project, "closed");
      assert all + [] == all && open + [] == open && closed + [] == closed;
      MergeStep(all, open, closed, last);
      StatusIsOpenOrClosed(last);
    }
  }

  lemma StatusIsOpenOrClosed(issue: Issue)
    ensures MatchesStatus(issue, "")
    ensures MatchesStatus(issue, "open") <==> !MatchesStatus(issue, "closed")
  {
  }
}
