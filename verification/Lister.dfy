/** The list of workflows the handlers read: filtered, newest first, cut at a limit. */
module Lister {
  import opened Wrappers
  import opened Argo
  import opened Sorting

  /** Empty strings, a missing instant and a limit below one put no restriction. */
  datatype Query = Query(scenario: string, target: string, status: string, since: Option<int>, limit: int)

  const EVERYTHING := Query("", "", "", None, 0)

  predicate Passes(w: Workflow, q: Query) {
    && (q.scenario != "" ==> LabelOr(w.labels, "dlh.scenario", "") == q.scenario || w.template == Some(q.scenario))
    && (q.target != "" ==> LabelOr(w.labels, "dlh.target", "") == q.target)
    && (q.status != "" ==> w.phase == q.status)
    && (q.since.Some? ==> w.created >= q.since.value)
  }

  predicate IsNewer(x: Workflow, y: Workflow) {
    x.created > y.created
  }

  ghost predicate IsArrangement(s: seq<Workflow>, all: multiset<Workflow>) {
    multiset(s) == all && IsSorted(IsNewer, s)
  }

  /** `page` is the beginning of some newest-first arrangement of `all`, cut at the limit if there is one. */
  ghost predicate IsPage(page: seq<Workflow>, all: multiset<Workflow>, limit: int) {
    exists rest: seq<Workflow> :: IsArrangement(page + rest, all) && IsCut(page, rest, limit)
  }

  predicate IsCut(page: seq<Workflow>, rest: seq<Workflow>, limit: int) {
    if 0 < limit < |page + rest| then |page| == limit else rest == []
  }

  lemma {:induction false} SomeNewest(items: seq<Workflow>) returns (i: nat)
    requires items != []
    ensures i < |items| && forall j :: 0 <= j < |items| ==> !IsNewer(items[j], items[i])
  {
    var n := |items| - 1;
    i := n;
    if n > 0 {
      var k := SomeNewest(items[..n]);
      assert forall j :: 0 <= j < n ==> items[..n][j] == items[j];
      if !IsNewer(items[n], items[k]) {
        i := k;
      }
    }
  }

  lemma TakeOne(items: seq<Workflow>, i: nat)
    requires i < |items|
    ensures multiset(items) == multiset(items[..i] + items[i + 1..]) + multiset{items[i]}
  {
    assert items == items[..i] + [items[i]] + items[i + 1..];
  }

  lemma NewestNext(out: seq<Workflow>, left: seq<Workflow>, i: nat)
    requires i < |left| && forall j :: 0 <= j < |left| ==> !IsNewer(left[j], left[i])
    requires IsSorted(IsNewer, out)
    requires forall k, j :: 0 <= k < |out| && 0 <= j < |left| ==> !IsNewer(left[j], out[k])
    ensures var out', left' := out + [left[i]], left[..i] + left[i + 1..];
      && multiset(out') + multiset(left') == multiset(out) + multiset(left)
      && IsSorted(IsNewer, out')
      && forall k, j :: 0 <= k < |out'| && 0 <= j < |left'| ==> !IsNewer(left'[j], out'[k])
  {
    TakeOne(left, i);
  }

  /** An unstable sort: workflows of equal age may come in any order. */
  method SortNewestFirst(items: seq<Workflow>) returns (out: seq<Workflow>)
    ensures IsArrangement(out, multiset(items))
  {
    var left := items;
    out := [];
    while left != []
      invariant multiset(out) + multiset(left) == multiset(items)
      invariant IsSorted(IsNewer, out)
      invariant forall i, j :: 0 <= i < |out| && 0 <= j < |left| ==> !IsNewer(left[j], out[i])
      decreases |left|
    {
      ghost var some := SomeNewest(left);
      var i :| 0 <= i < |left| && forall j :: 0 <= j < |left| ==> !IsNewer(left[j], left[i]);
      NewestNext(out, left, i);
      out, left := out + [left[i]], left[..i] + left[i + 1..];
    }
  }

  method FilterWorkflows(items: seq<Workflow>, q: Query) returns (page: seq<Workflow>)
    ensures IsPage(page, multiset(Filter(items, w => Passes(w, q))), q.limit)
  {
    var passes := w => Passes(w, q);
    var filtered: seq<Workflow> := [];
    for i := 0 to |items|
      invariant filtered == Filter(items[..i], passes)
    {
      assert items[..i + 1] == items[..i] + [items[i]];
      FilterSnoc(items[..i], items[i], passes);
      if Passes(items[i], q) {
        filtered := filtered + [items[i]];
      }
    }
    assert items[..|items|] == items;
    page := SortNewestFirst(filtered);
    ghost var all := page;
    if 0 < q.limit < |page| {
      page := page[..q.limit];
    }
    ghost var rest := all[|page|..];
    assert page + rest == all;
    assert IsArrangement(page + rest, multiset(filtered)) && IsCut(page, rest, q.limit);
  }

  /** The workflow is of the wanted scenario, by its label or its template, aims at the wanted target, is in the wanted
      phase and is not too old; what is not asked for does not matter. */
  ghost predicate IsWanted(w: Workflow, q: Query) {
    && (q.scenario == "" || w.template == Some(q.scenario) ||
        ("dlh.scenario" in w.labels && w.labels["dlh.scenario"] == q.scenario))
    && (q.target == "" || ("dlh.target" in w.labels && w.labels["dlh.target"] == q.target))
    && (q.status == "" || w.phase == q.status)
    && (q.since == None || w.created >= q.since.value)
  }

  /** A page holds wanted workflows only, newest first and not more than the limit, and without a limit all of them. */
  lemma PageIsExact(items: seq<Workflow>, q: Query, page: seq<Workflow>)
    requires IsPage(page, multiset(Filter(items, w => Passes(w, q))), q.limit)
    ensures forall w :: w in page ==> w in items && IsWanted(w, q)
    ensures forall i, j :: 0 <= i < j < |page| ==> page[i].created >= page[j].created
    ensures q.limit > 0 ==> |page| <= q.limit
    ensures q.limit <= 0 || |page| < q.limit ==> forall w :: w in items && IsWanted(w, q) ==> w in page
  {
    var passes := w => Passes(w, q);
    var rest: seq<Workflow> :| IsArrangement(page + rest, multiset(Filter(items, passes)))
        && IsCut(page, rest, q.limit);
    forall w ensures w in page + rest <==> w in items && IsWanted(w, q) {
      FilterMember(items, passes, w);
      assert w in page + rest <==> w in multiset(page + rest);
      assert w in Filter(items, passes) <==> w in multiset(Filter(items, passes));
    }
    forall i, j | 0 <= i < j < |page| ensures page[i].created >= page[j].created {
      assert (page + rest)[i] == page[i] && (page + rest)[j] == page[j];
      assert !IsNewer((page + rest)[j], (page + rest)[i]);
    }
    if rest == [] {
      assert page + rest == page;
    }
  }

  /** What the limit cuts off is not newer than anything that stays. */
  lemma PageHasTheNewest(page: seq<Workflow>, all: multiset<Workflow>, limit: int, kept: Workflow, left: Workflow)
    requires IsPage(page, all, limit)
    requires kept in page && left in all && left !in page
    ensures left.created <= kept.created && |page| == limit
  {
    var rest: seq<Workflow> :| IsArrangement(page + rest, all) && IsCut(page, rest, limit);
    assert left in multiset(page + rest);
    var i :| 0 <= i < |page| && page[i] == kept;
    var j :| 0 <= j < |rest| && rest[j] == left;
    assert (page + rest)[i] == kept && (page + rest)[|page| + j] == left;
  }

  /** An answer to the query for everything: the cached workflows, each once, newest first. */
  ghost predicate IsView(wfs: seq<Workflow>, cache: Cache) {
    IsListing(wfs, cache.Values) && IsSorted(IsNewer, wfs)
  }

  /** The cached workflows in the order of a walk over the cache. */
  method Walk(cache: Cache) returns (items: seq<Workflow>)
    requires IsKeyed(cache)
    ensures IsListing(items, cache.Values)
  {
    items := [];
    var left := cache.Keys;
    ghost var done: set<string> := {};
    while left != {}
      invariant left !! done && left + done == cache.Keys
      invariant IsListing(items, set name | name in done :: cache[name])
      decreases left
    {
      var name :| name in left;
      items := items + [cache[name]];
      left, done := left - {name}, done + {name};
    }
    assert done == cache.Keys;
    assert (set name | name in done :: cache[name]) == cache.Values;
  }

  method List(cache: Cache, q: Query) returns (page: seq<Workflow>)
    requires IsKeyed(cache)
    ensures exists items | IsListing(items, cache.Values) ::
              IsPage(page, multiset(Filter(items, w => Passes(w, q))), q.limit)
    ensures q == EVERYTHING ==> IsView(page, cache)
  {
    var items := Walk(cache);
    page := FilterWorkflows(items, q);
    if q == EVERYTHING {
      EverythingIsView(items, page, cache);
    }
  }

  lemma EverythingIsView(items: seq<Workflow>, page: seq<Workflow>, cache: Cache)
    requires IsListing(items, cache.Values)
    requires IsPage(page, multiset(Filter(items, w => Passes(w, EVERYTHING))), EVERYTHING.limit)
    ensures IsView(page, cache)
  {
    var passes := w => Passes(w, EVERYTHING);
    FilterKeepsAll(items, passes);
    var rest: seq<Workflow> :| IsArrangement(page + rest, multiset(Filter(items, passes))) && IsCut(page, rest, 0);
    assert page + rest == page;
    PermutedListing(items, page, cache.Values);
  }

  lemma SomeView(cache: Cache) returns (wfs: seq<Workflow>)
    ensures IsView(wfs, cache)
  {
    var items := SomeListing(cache.Values);
    wfs := StableSort(IsNewer, items);
    StableSortSorts(IsNewer, items);
    PermutedListing(items, wfs, cache.Values);
  }
}
