/** The queue is built from a fresh list every time, and workflows of equal age may come in another order then. What
    that does to the lanes, and to the effect of a new priority. */
module Relisting {
  import opened Wrappers
  import opened Argo
  import opened Sorting
  import opened Lister
  import opened Queue

  function Wrapped(wfs: seq<Workflow>): seq<Option<Workflow>> {
    seq(|wfs|, i requires 0 <= i < |wfs| => Some(wfs[i]))
  }

  function LineOf(less: (Entry, Entry) -> bool, wfs: seq<Workflow>, key: string, side: Side): seq<Entry> {
    StableSort(less, Members(Wrapped(wfs), key, side))
  }

  /** The two orders of a lane; both only tie workflows of equal age. */
  ghost predicate IsLaneOrder(less: (Entry, Entry) -> bool) {
    IsWeakOrder(less) && forall x, y :: Tied(less, x, y) ==> x.submittedAt == y.submittedAt
  }

  lemma LaneOrders()
    ensures IsLaneOrder(SubmittedBefore) && IsLaneOrder(ReleasedBefore)
  {
    OrdersAreWeak();
  }

  predicate IsContender(cache: Cache, w: Workflow, key: string, side: Side, among: Entry -> bool) {
    w in cache.Values && Contends(Some(w), key, side) && among(EntryOf(w))
  }

  /** No two contenders among these tie. */
  ghost predicate AreApart(less: (Entry, Entry) -> bool, cache: Cache, key: string, side: Side, among: Entry -> bool) {
    forall v, w | IsContender(cache, v, key, side, among) && IsContender(cache, w, key, side, among) ::
      Tied(less, EntryOf(v), EntryOf(w)) ==> v == w
  }

  lemma ViewsHaveDistinctNames(wfs: seq<Workflow>, cache: Cache)
    requires IsKeyed(cache) && IsView(wfs, cache)
    ensures HasDistinctNames(Wrapped(wfs))
  {
  }

  /** Who stands in a line does not depend on the list. */
  lemma ViewMembers(wfs: seq<Workflow>, cache: Cache, key: string, side: Side, e: Entry)
    requires IsKeyed(cache) && IsView(wfs, cache)
    ensures HasDistinctIds(Members(Wrapped(wfs), key, side))
    ensures e in Members(Wrapped(wfs), key, side)
        <==> e.id in cache && Contends(Some(cache[e.id]), key, side) && e == EntryOf(cache[e.id])
  {
    var all := Wrapped(wfs);
    ViewsHaveDistinctNames(wfs, cache);
    MembersAreContenders(all, key, side);
    if Comes(all, key, side, e) {
      var i :| 0 <= i < |all| && Contends(all[i], key, side) && e == EntryOf(all[i].value);
      assert wfs[i] in cache.Values;
    }
    if e.id in cache && Contends(Some(cache[e.id]), key, side) && e == EntryOf(cache[e.id]) {
      assert cache[e.id] in cache.Values;
      var i :| 0 <= i < |wfs| && wfs[i] == cache[e.id];
      assert all[i] == Some(cache[e.id]);
    }
  }

  lemma SameMembers(a: seq<Workflow>, b: seq<Workflow>, cache: Cache, key: string, side: Side)
    requires IsKeyed(cache) && IsView(a, cache) && IsView(b, cache)
    ensures multiset(Members(Wrapped(a), key, side)) == multiset(Members(Wrapped(b), key, side))
  {
    var ma, mb := Members(Wrapped(a), key, side), Members(Wrapped(b), key, side);
    forall e ensures multiset(ma)[e] == multiset(mb)[e] {
      ViewMembers(a, cache, key, side, e);
      ViewMembers(b, cache, key, side, e);
      CountsOnce(ma, e);
      CountsOnce(mb, e);
    }
  }

  /** Without ties among them, these contenders stand in the same order for every list. */
  lemma ApartMeansSameLine(less: (Entry, Entry) -> bool, a: seq<Workflow>, b: seq<Workflow>, cache: Cache, key: string,
                           side: Side,
                           among: Entry -> bool)
    requires IsLaneOrder(less) && IsKeyed(cache) && IsView(a, cache) && IsView(b, cache)
    requires AreApart(less, cache, key, side, among)
    ensures Filter(LineOf(less, a, key, side), among) == Filter(LineOf(less, b, key, side), among)
  {
    var ma, mb := Members(Wrapped(a), key, side), Members(Wrapped(b), key, side);
    var fa, fb := Filter(ma, among), Filter(mb, among);
    SortFilter(less, ma, among);
    SortFilter(less, mb, among);
    StableSortSorts(less, fa);
    StableSortSorts(less, fb);
    SameMembers(a, b, cache, key, side);
    forall e ensures multiset(fa)[e] == multiset(fb)[e] {
      FilterCounts(ma, among, e);
      FilterCounts(mb, among, e);
    }
    assert multiset(fa) == multiset(fb);
    forall x, y | x in StableSort(less, fa) && y in StableSort(less, fa) && Tied(less, x, y) ensures x == y {
      SortedMemberContends(less, a, cache, key, side, among, x);
      SortedMemberContends(less, a, cache, key, side, among, y);
    }
    UntiedSortedIsUnique(less, StableSort(less, fa), StableSort(less, fb));
  }

  lemma SortedMemberContends(less: (Entry, Entry) -> bool, wfs: seq<Workflow>, cache: Cache, key: string, side: Side,
                             among: Entry -> bool, x: Entry)
    requires IsLaneOrder(less) && IsKeyed(cache) && IsView(wfs, cache)
    requires x in StableSort(less, Filter(Members(Wrapped(wfs), key, side), among))
    ensures x.id in cache && x == EntryOf(cache[x.id]) && IsContender(cache, cache[x.id], key, side, among)
  {
    var ms := Members(Wrapped(wfs), key, side);
    StableSortSorts(less, Filter(ms, among));
    SameMultiset(StableSort(less, Filter(ms, among)), Filter(ms, among), x);
    FilterMember(ms, among, x);
    ViewMembers(wfs, cache, key, side, x);
  }

  /** Contenders become members in the order they are listed. */
  lemma {:induction false} MembersInOrder(wfs: seq<Option<Workflow>>, i: nat, j: nat, key: string, side: Side)
    requires i < j < |wfs| && HasDistinctNames(wfs) && Contends(wfs[i], key, side) && Contends(wfs[j], key, side)
    ensures IsBefore(Members(wfs, key, side), EntryOf(wfs[i].value), EntryOf(wfs[j].value))
  {
    var n := |wfs| - 1;
    var front, ms := wfs[..n], Members(wfs[..n], key, side);
    assert wfs == front + [wfs[n]];
    if j < n {
      MembersInOrder(front, i, j, key, side);
      if Contends(wfs[n], key, side) {
        BeforeSnoc(ms, EntryOf(wfs[n].value), EntryOf(wfs[i].value), EntryOf(wfs[j].value));
      }
    } else {
      assert front[i] == wfs[i];
      assert Comes(front, key, side, EntryOf(wfs[i].value));
      ComesIsMember(front, key, side, EntryOf(wfs[i].value));
      NewNameIsNew(front, wfs[n].value, key, side);
      assert Members(wfs, key, side) == ms + [EntryOf(wfs[n].value)];
      BeforeSnoc(ms, EntryOf(wfs[n].value), EntryOf(wfs[i].value), EntryOf(wfs[j].value));
    }
  }

  function Swapped<T>(s: seq<T>, i: nat, j: nat): seq<T>
    requires i < |s| && j < |s|
  {
    s[i := s[j]][j := s[i]]
  }

  lemma SwappedIsPermuted<T>(s: seq<T>, i: nat, j: nat)
    requires i < j < |s|
    ensures multiset(Swapped(s, i, j)) == multiset(s)
  {
  }

  lemma SwappedIsSorted(wfs: seq<Workflow>, i: nat, j: nat)
    requires IsSorted(IsNewer, wfs) && i < j < |wfs| && wfs[i].created == wfs[j].created
    ensures IsSorted(IsNewer, Swapped(wfs, i, j))
  {
    var s := Swapped(wfs, i, j);
    forall a, b | 0 <= a < b < |s| ensures !IsNewer(s[b], s[a]) {
      assert !IsNewer(wfs[b], wfs[a]);
    }
  }

  /** Workflows of equal age may change places in a list. */
  lemma SwappedIsView(wfs: seq<Workflow>, i: nat, j: nat, cache: Cache)
    requires IsView(wfs, cache) && i < j < |wfs| && wfs[i].created == wfs[j].created
    ensures IsView(Swapped(wfs, i, j), cache)
  {
    SwappedIsPermuted(wfs, i, j);
    SwappedIsSorted(wfs, i, j);
    PermutedListing(wfs, Swapped(wfs, i, j), cache.Values);
  }

  lemma ListedFirstStandsFirst(less: (Entry, Entry) -> bool, wfs: seq<Workflow>, i: nat, j: nat, cache: Cache,
                               key: string, side: Side,
                               among: Entry -> bool)
    requires IsLaneOrder(less) && IsKeyed(cache) && IsView(wfs, cache) && i < j < |wfs|
    requires Contends(Some(wfs[i]), key, side) && Contends(Some(wfs[j]), key, side)
    requires among(EntryOf(wfs[i])) && among(EntryOf(wfs[j])) && Tied(less, EntryOf(wfs[i]), EntryOf(wfs[j]))
    ensures IsBefore(Filter(LineOf(less, wfs, key, side), among), EntryOf(wfs[i]), EntryOf(wfs[j]))
  {
    var x, y := EntryOf(wfs[i]), EntryOf(wfs[j]);
    ViewsHaveDistinctNames(wfs, cache);
    MembersInOrder(Wrapped(wfs), i, j, key, side);
    SortKeepsBefore(less, Members(Wrapped(wfs), key, side), x, y);
    FilterKeepsBefore(LineOf(less, wfs, key, side), among, x, y);
  }

  lemma OneWay(s: seq<Entry>, x: Entry, y: Entry)
    requires HasDistinctIds(s) && IsBefore(s, x, y)
    ensures !IsBefore(s, y, x)
  {
    var i, j :| 0 <= i < j < |s| && s[i] == x && s[j] == y;
    forall k, m | 0 <= k < m < |s| && s[k] == y ensures s[m] != x {
      assert s[k].id == s[j].id;
    }
  }

  lemma LineIdsAreDistinct(less: (Entry, Entry) -> bool, wfs: seq<Workflow>, key: string, side: Side)
    requires IsLaneOrder(less)
    ensures HasDistinctIds(LineOf(less, wfs, key, side))
  {
    MembersAreDistinct(Wrapped(wfs), key, side);
    SortedIdsAreDistinct(less, Members(Wrapped(wfs), key, side));
  }

  /** Two tied contenders change places with the list. */
  lemma TiesChangePlaces(less: (Entry, Entry) -> bool, cache: Cache, key: string, side: Side, among: Entry -> bool)
    returns (a: seq<Workflow>, b: seq<Workflow>)
    requires IsLaneOrder(less) && IsKeyed(cache) && !AreApart(less, cache, key, side, among)
    ensures IsView(a, cache) && IsView(b, cache)
    ensures Filter(LineOf(less, a, key, side), among) != Filter(LineOf(less, b, key, side), among)
  {
    var v, w :| IsContender(cache, v, key, side, among) && IsContender(cache, w, key, side, among)
      && Tied(less, EntryOf(v), EntryOf(w)) && v != w;
    a := SomeView(cache);
    var i :| 0 <= i < |a| && a[i] == v;
    var j :| 0 <= j < |a| && a[j] == w;
    if j < i {
      i, j := j, i;
    }
    b := Swapped(a, i, j);
    SwappedLine(less, a, i, j, cache, key, side, among);
  }

  lemma SwappedLine(less: (Entry, Entry) -> bool, a: seq<Workflow>, i: nat, j: nat, cache: Cache, key: string,
                    side: Side,
                    among: Entry -> bool)
    requires IsLaneOrder(less) && IsKeyed(cache) && IsView(a, cache) && i < j < |a|
    requires Contends(Some(a[i]), key, side) && Contends(Some(a[j]), key, side)
    requires among(EntryOf(a[i])) && among(EntryOf(a[j])) && Tied(less, EntryOf(a[i]), EntryOf(a[j]))
    ensures IsView(Swapped(a, i, j), cache)
    ensures Filter(LineOf(less, a, key, side), among) != Filter(LineOf(less, Swapped(a, i, j), key, side), among)
  {
    var line, x, y := LineOf(less, a, key, side), EntryOf(a[i]), EntryOf(a[j]);
    SwappedIsView(a, i, j, cache);
    ListedFirstStandsFirst(less, a, i, j, cache, key, side, among);
    ListedFirstStandsFirst(less, Swapped(a, i, j), i, j, cache, key, side, among);
    LineIdsAreDistinct(less, a, key, side);
    FilterKeepsBefore(line, among, x, y);
    FilterKeepsBefore(line, among, y, x);
    OneWay(line, x, y);
  }

  ghost predicate IsCanonicalLine(less: (Entry, Entry) -> bool, cache: Cache, key: string, side: Side,
                                  among: Entry -> bool) {
    forall a, b :: IsView(a, cache) && IsView(b, cache) ==> IsSameLine(less, a, b, key, side, among)
  }

  /** Two lists put these contenders into one order. */
  predicate IsSameLine(less: (Entry, Entry) -> bool, a: seq<Workflow>, b: seq<Workflow>, key: string, side: Side,
                       among: Entry -> bool) {
    Filter(LineOf(less, a, key, side), among) == Filter(LineOf(less, b, key, side), among)
  }

  /** These contenders stand in the same order for every list if and only if no two of them tie. */
  lemma LineIsCanonicalIff(less: (Entry, Entry) -> bool, cache: Cache, key: string, side: Side, among: Entry -> bool)
    requires IsLaneOrder(less) && IsKeyed(cache)
    ensures IsCanonicalLine(less, cache, key, side, among) <==> AreApart(less, cache, key, side, among)
  {
    if AreApart(less, cache, key, side, among) {
      forall a, b | IsView(a, cache) && IsView(b, cache)
        ensures IsSameLine(less, a, b, key, side, among)
      {
        ApartMeansSameLine(less, a, b, cache, key, side, among);
      }
    } else {
      var a, b := TiesChangePlaces(less, cache, key, side, among);
      assert !IsSameLine(less, a, b, key, side, among);
    }
  }

  lemma WholeLines(wfs: seq<Workflow>, k: LockKey)
    ensures Filter(LineOf(SubmittedBefore, wfs, k.key, Holding), Anyone()) == LaneOf(Wrapped(wfs), k).running
    ensures Filter(LineOf(ReleasedBefore, wfs, k.key, Waiting), Anyone()) == LaneOf(Wrapped(wfs), k).pending
  {
    FilterKeepsAll(LineOf(SubmittedBefore, wfs, k.key, Holding), Anyone());
    FilterKeepsAll(LineOf(ReleasedBefore, wfs, k.key, Waiting), Anyone());
  }

  function Anyone(): Entry -> bool {
    (e: Entry) => true
  }

  ghost predicate IsCanonicalLane(cache: Cache, k: LockKey) {
    forall a, b :: IsView(a, cache) && IsView(b, cache) ==> LaneOf(Wrapped(a), k) == LaneOf(Wrapped(b), k)
  }

  lemma LanesByLines(cache: Cache, k: LockKey)
    ensures IsCanonicalLane(cache, k)
        <==> (IsCanonicalLine(SubmittedBefore, cache, k.key, Holding, Anyone()) &&
            IsCanonicalLine(ReleasedBefore, cache, k.key, Waiting, Anyone()))
  {
    forall a, b
      ensures LaneOf(Wrapped(a), k) == LaneOf(Wrapped(b), k)
          <==> (IsSameLine(SubmittedBefore, a, b, k.key, Holding, Anyone()) &&
                IsSameLine(ReleasedBefore, a, b, k.key, Waiting, Anyone()))
    {
      WholeLines(a, k);
      WholeLines(b, k);
    }
  }

  /** No two workflows that hold the key are of one age. */
  ghost predicate AreHoldersApart(cache: Cache, key: string) {
    forall v, w | v in cache.Values && w in cache.Values && Holds(Some(v), key) && Holds(Some(w), key) ::
      v.created == w.created ==> v == w
  }

  /** No two workflows that wait for the key, leaving `but` aside, are of one age and one priority. */
  ghost predicate AreWaitersApart(cache: Cache, key: string, but: Option<string>) {
    forall v, w | v in cache.Values && w in cache.Values && Waits(Some(v), key) && Waits(Some(w), key)
                  && Some(v.name) != but && Some(w.name) != but ::
      v.created == w.created
      && (if v.priority.Some? then v.priority.value else 0) == (if w.priority.Some? then w.priority.value else 0)
      ==> v == w
  }

  lemma TiedHolders(v: Workflow, w: Workflow)
    ensures Tied(SubmittedBefore, EntryOf(v), EntryOf(w)) <==> v.created == w.created
  {
  }

  lemma TiedWaiters(v: Workflow, w: Workflow)
    ensures Tied(ReleasedBefore, EntryOf(v), EntryOf(w))
        <==> (v.created == w.created &&
              (if v.priority.Some? then v.priority.value else 0) == (if w.priority.Some? then w.priority.value else 0))
  {
  }

  lemma HoldersApart(cache: Cache, key: string)
    ensures AreApart(SubmittedBefore, cache, key, Holding, Anyone()) <==> AreHoldersApart(cache, key)
  {
    forall v ensures IsContender(cache, v, key, Holding, Anyone()) <==> v in cache.Values && Holds(Some(v), key) {
      ContendersHoldOrWait(Some(v), key);
    }
    forall v, w ensures Tied(SubmittedBefore, EntryOf(v), EntryOf(w)) <==> v.created == w.created {
      TiedHolders(v, w);
    }
  }

  lemma WaitersApart(cache: Cache, key: string, among: Entry -> bool, but: Option<string>)
    requires forall w: Workflow :: among(EntryOf(w)) <==> Some(w.name) != but
    ensures AreApart(ReleasedBefore, cache, key, Waiting, among) <==> AreWaitersApart(cache, key, but)
  {
    forall v
      ensures IsContender(cache, v, key, Waiting, among)
          <==> v in cache.Values && Waits(Some(v), key) && Some(v.name) != but
    {
      ContendersHoldOrWait(Some(v), key);
    }
    forall v, w
      ensures Tied(ReleasedBefore, EntryOf(v), EntryOf(w))
          <==> (v.created == w.created &&
                (if v.priority.Some? then v.priority.value else 0)
                == (if w.priority.Some? then w.priority.value else 0))
    {
      TiedWaiters(v, w);
    }
  }

  /** A lane does not depend on the list if and only if no two of its holders are of one age and no two of its
      waiters have one priority and one age. */
  lemma LaneIsCanonicalIff(cache: Cache, k: LockKey)
    requires IsKeyed(cache)
    ensures IsCanonicalLane(cache, k) <==> AreHoldersApart(cache, k.key) && AreWaitersApart(cache, k.key, None)
  {
    LaneOrders();
    HoldersApart(cache, k.key);
    WaitersApart(cache, k.key, Anyone(), None);
    LanesByLines(cache, k);
    LineIsCanonicalIff(SubmittedBefore, cache, k.key, Holding, Anyone());
    LineIsCanonicalIff(ReleasedBefore, cache, k.key, Waiting, Anyone());
  }

  /** The cache after run `id` got priority `p`. */
  function Raised(cache: Cache, id: string, p: Int32): Cache
    requires id in cache
  {
    cache[id := cache[id].(priority := Some(p))]
  }

  /** A workflow that changes but keeps its name and age keeps its place in a list. */
  lemma ViewReplaced(b: seq<Workflow>, cache: Cache, id: string, w: Workflow) returns (j: nat)
    requires IsKeyed(cache) && id in cache && IsView(b, cache)
    requires w.name == id && w.created == cache[id].created
    ensures j < |b| && b[j] == cache[id] && IsView(b[j := w], cache[id := w])
  {
    assert cache[id] in cache.Values;
    j :| 0 <= j < |b| && b[j] == cache[id];
    var b', cache' := b[j := w], cache[id := w];
    forall x | x in cache'.Values ensures x in b' {
      if x.name == id {
        assert b'[j] == x;
      } else {
        assert cache[x.name] == x;
        assert x in cache.Values;
        var k :| 0 <= k < |b| && b[k] == x;
        assert b'[k] == x;
      }
    }
    forall k | 0 <= k < |b'| ensures b'[k] in cache'.Values && (k != j ==> b'[k].name != id) {
      assert cache'[id] in cache'.Values;
      if k != j {
        assert b[k] in cache.Values && b[k] != b[j];
        var n :| n in cache && cache[n] == b[k];
        assert n != id && cache'[n] in cache'.Values;
      }
    }
    forall k, m | 0 <= k < m < |b'| ensures b'[k] != b'[m] && !IsNewer(b'[m], b'[k]) {
      assert b[k] != b[m] && !IsNewer(b[m], b[k]);
    }
  }

  /** The lists of the changed cache are the lists of the old one with one workflow changed in its place. */
  ghost predicate IsRaisedView(b: seq<Workflow>, b0: seq<Workflow>, j: int, cache: Cache, id: string, p: Int32)
    requires id in cache
  {
    && IsView(b0, cache) && IsView(b, Raised(cache, id, p))
    && 0 <= j < |b0| && b0[j] == cache[id] && Wrapped(b) == WithPriority(Wrapped(b0), j, p)
  }

  lemma ViewBefore(b: seq<Workflow>, cache: Cache, id: string, p: Int32) returns (b0: seq<Workflow>, j: nat)
    requires IsKeyed(cache) && id in cache && IsView(b, Raised(cache, id, p))
    ensures IsRaisedView(b, b0, j, cache, id, p)
  {
    var cache' := Raised(cache, id, p);
    j := ViewReplaced(b, cache', id, cache[id]);
    b0 := b[j := cache[id]];
    assert cache'[id := cache[id]] == cache;
    assert Wrapped(b) == WithPriority(Wrapped(b0), j, p);
  }

  lemma ViewAfter(b0: seq<Workflow>, cache: Cache, id: string, p: Int32) returns (b: seq<Workflow>, j: nat)
    requires IsKeyed(cache) && id in cache && IsView(b0, cache)
    ensures IsRaisedView(b, b0, j, cache, id, p)
  {
    var w := cache[id].(priority := Some(p));
    j := ViewReplaced(b0, cache, id, w);
    b := b0[j := w];
    assert Wrapped(b) == WithPriority(Wrapped(b0), j, p);
  }

  lemma LineMembers(less: (Entry, Entry) -> bool, wfs: seq<Workflow>, cache: Cache, key: string, side: Side, e: Entry)
    requires IsLaneOrder(less) && IsKeyed(cache) && IsView(wfs, cache)
    ensures e in LineOf(less, wfs, key, side)
        <==> e.id in cache && Contends(Some(cache[e.id]), key, side) && e == EntryOf(cache[e.id])
  {
    var ms := Members(Wrapped(wfs), key, side);
    StableSortSorts(less, ms);
    SameMultiset(StableSort(less, ms), ms, e);
    ViewMembers(wfs, cache, key, side, e);
  }

  /** Showing another priority hides nothing: the lists before can be told from the lists after. */
  lemma SameBeforeRaise(x: seq<Entry>, y: seq<Entry>, cache: Cache, id: string, p: int)
    requires forall e :: e in x || e in y ==> e.id in cache && e == EntryOf(cache[e.id])
    requires Map(Reprioritized(id, p), x) == Map(Reprioritized(id, p), y)
    ensures x == y
  {
    var f := Reprioritized(id, p);
    assert |x| == |Map(f, x)| == |Map(f, y)| == |y|;
    forall i | 0 <= i < |x| ensures x[i] == y[i] {
      assert f(x[i]) == Map(f, x)[i] == Map(f, y)[i] == f(y[i]);
      assert x[i] in x && y[i] in y;
    }
  }

  /** The lanes of two lists of one cache agree as far as a move of run `id` shows. */
  ghost predicate AgreeBut(a: Lane, b: Lane, id: string) {
    a.running == b.running && Filter(a.pending, Other(id)) == Filter(b.pending, Other(id))
  }

  lemma RunningAgrees(a: seq<Workflow>, b: seq<Workflow>, b0: seq<Workflow>, j: nat, cache: Cache, id: string, p: Int32,
                      k: LockKey)
    requires IsKeyed(cache) && id in cache && IsView(a, cache) && IsRaisedView(b, b0, j, cache, id, p)
    requires LaneOf(Wrapped(b), k).running == Map(Reprioritized(id, p), LaneOf(Wrapped(b0), k).running)
    ensures LaneOf(Wrapped(b), k).running == Map(Reprioritized(id, p), LaneOf(Wrapped(a), k).running)
        <==> LaneOf(Wrapped(a), k).running == LaneOf(Wrapped(b0), k).running
  {
    var x, y := LaneOf(Wrapped(a), k).running, LaneOf(Wrapped(b0), k).running;
    LaneOrders();
    forall e | e in x || e in y ensures e.id in cache && e == EntryOf(cache[e.id]) {
      LineMembers(SubmittedBefore, a, cache, k.key, Holding, e);
      LineMembers(SubmittedBefore, b0, cache, k.key, Holding, e);
    }
    if Map(Reprioritized(id, p), x) == Map(Reprioritized(id, p), y) {
      SameBeforeRaise(x, y, cache, id, p);
    }
  }

  /** A line and a line after a raise: the second is the first with the run reinserted just when the others stand
      the same. */
  lemma ReinsertedIff(line: seq<Entry>, line': seq<Entry>, w: Workflow, p: Int32)
    requires HasDistinctIds(line) && HasDistinctIds(line')
    requires EntryOf(w) in line && EntryOf(w.(priority := Some(p))) in line'
    ensures IsReinserted(line, line', w, p) <==> Filter(line, Other(w.name)) == Filter(line', Other(w.name))
  {
    var e, e' := EntryOf(w), EntryOf(w.(priority := Some(p)));
    if IsReinserted(line, line', w, p) {
      var rest: seq<Entry>, q, q' :| IsInserted(line, rest, q, e) && IsInserted(line', rest, q', e');
      InsertedTakenOut(line, rest, q, e);
      InsertedTakenOut(line', rest, q', e');
    }
    if Filter(line, Other(w.name)) == Filter(line', Other(w.name)) {
      var q := SitsAmongOthers(line, e);
      var q' := SitsAmongOthers(line', e');
    }
  }

  lemma InsertedTakenOut(line: seq<Entry>, rest: seq<Entry>, q: int, e: Entry)
    requires HasDistinctIds(line) && IsInserted(line, rest, q, e)
    ensures Filter(line, Other(e.id)) == rest
  {
    var a, b := rest[..q], rest[q..];
    assert line == a + ([e] + b) && rest == a + b;
    assert line[q] == e;
    forall i | 0 <= i < |a| ensures a[i].id != e.id {
      assert line[i] == a[i];
    }
    forall i | 0 <= i < |b| ensures b[i].id != e.id {
      assert line[q + 1 + i] == b[i];
    }
    TakenOut(a, e, b);
  }

  lemma LineWithoutRun(less: (Entry, Entry) -> bool, wfs: seq<Workflow>, cache: Cache, key: string, side: Side,
                       id: string)
    requires IsLaneOrder(less) && IsKeyed(cache) && IsView(wfs, cache)
    requires id in cache && !Contends(Some(cache[id]), key, side)
    ensures Filter(LineOf(less, wfs, key, side), Other(id)) == LineOf(less, wfs, key, side)
  {
    var line := LineOf(less, wfs, key, side);
    forall e | e in line ensures e.id != id {
      LineMembers(less, wfs, cache, key, side, e);
    }
    FilterKeepsAll(line, Other(id));
  }

  lemma PendingAgrees(a: seq<Workflow>, b: seq<Workflow>, b0: seq<Workflow>, j: nat, cache: Cache, id: string, p: Int32,
                      k: LockKey)
    requires IsKeyed(cache) && id in cache && IsView(a, cache) && IsRaisedView(b, b0, j, cache, id, p)
    ensures var w, x, y := cache[id], LaneOf(Wrapped(a), k).pending, LaneOf(Wrapped(b0), k).pending;
      var z := LaneOf(Wrapped(b), k).pending;
      (if Contends(Some(w), k.key, Waiting) then IsReinserted(x, z, w, p) else x == z)
      <==> Filter(x, Other(id)) == Filter(y, Other(id))
  {
    var w, x, y := cache[id], LaneOf(Wrapped(a), k).pending, LaneOf(Wrapped(b0), k).pending;
    var z := LaneOf(Wrapped(b), k).pending;
    var cache' := Raised(cache, id, p);
    LaneOrders();
    ViewsHaveDistinctNames(b0, cache);
    OthersKeepTheirLine(Wrapped(b0), j, p, k);
    assert Filter(z, Other(id)) == Filter(y, Other(id));
    if Contends(Some(w), k.key, Waiting) {
      LineIdsAreDistinct(ReleasedBefore, a, k.key, Waiting);
      LineIdsAreDistinct(ReleasedBefore, b, k.key, Waiting);
      LineMembers(ReleasedBefore, a, cache, k.key, Waiting, EntryOf(w));
      LineMembers(ReleasedBefore, b, cache', k.key, Waiting, EntryOf(cache'[id]));
      ReinsertedIff(x, z, w, p);
    } else {
      LineWithoutRun(ReleasedBefore, a, cache, k.key, Waiting, id);
      LineWithoutRun(ReleasedBefore, b, cache', k.key, Waiting, id);
    }
  }

  lemma MoveOfOneIff(a: seq<Workflow>, b: seq<Workflow>, b0: seq<Workflow>, j: nat, cache: Cache, id: string, p: Int32,
                     k: LockKey)
    requires IsKeyed(cache) && id in cache && IsView(a, cache) && IsRaisedView(b, b0, j, cache, id, p)
    ensures IsMoveOfOne(LaneOf(Wrapped(a), k), LaneOf(Wrapped(b), k), cache[id], p,
        Contends(Some(cache[id]), k.key, Waiting))
        <==> AgreeBut(LaneOf(Wrapped(a), k), LaneOf(Wrapped(b0), k), id)
  {
    ViewsHaveDistinctNames(b0, cache);
    ReprioritizeMovesOne(Wrapped(b0), j, p, k);
    RunningAgrees(a, b, b0, j, cache, id, p, k);
    PendingAgrees(a, b, b0, j, cache, id, p, k);
    OrdersAreWeak();
    StableSortSorts(ReleasedBefore, Members(Wrapped(b), k.key, Waiting));
  }

  /** A new priority moves one entry, whatever lists the two builds get. */
  ghost predicate AlwaysMovesOne(cache: Cache, id: string, p: Int32, k: LockKey)
    requires id in cache
  {
    forall a, b :: IsView(a, cache) && IsView(b, Raised(cache, id, p)) ==>
      IsMoveOfOne(LaneOf(Wrapped(a), k), LaneOf(Wrapped(b), k), cache[id], p, Contends(Some(cache[id]), k.key, Waiting))
  }

  ghost predicate AlwaysAgreeBut(cache: Cache, id: string, k: LockKey) {
    forall a, b :: IsView(a, cache) && IsView(b, cache) ==> AgreeBut(LaneOf(Wrapped(a), k), LaneOf(Wrapped(b), k), id)
  }

  lemma MovesOneIfAgree(cache: Cache, id: string, p: Int32, k: LockKey)
    requires IsKeyed(cache) && id in cache
    ensures AlwaysMovesOne(cache, id, p, k) <==> AlwaysAgreeBut(cache, id, k)
  {
    if AlwaysMovesOne(cache, id, p, k) {
      forall a, b0 | IsView(a, cache) && IsView(b0, cache)
        ensures AgreeBut(LaneOf(Wrapped(a), k), LaneOf(Wrapped(b0), k), id)
      {
        var b, j := ViewAfter(b0, cache, id, p);
        MoveOfOneIff(a, b, b0, j, cache, id, p, k);
      }
    }
    if AlwaysAgreeBut(cache, id, k) {
      forall a, b | IsView(a, cache) && IsView(b, Raised(cache, id, p))
        ensures IsMoveOfOne(LaneOf(Wrapped(a), k), LaneOf(Wrapped(b), k), cache[id], p,
            Contends(Some(cache[id]), k.key, Waiting))
      {
        var b0, j := ViewBefore(b, cache, id, p);
        MoveOfOneIff(a, b, b0, j, cache, id, p, k);
      }
    }
  }

  lemma AgreeByLines(cache: Cache, id: string, k: LockKey)
    ensures AlwaysAgreeBut(cache, id, k)
        <==> (IsCanonicalLine(SubmittedBefore, cache, k.key, Holding, Anyone()) &&
            IsCanonicalLine(ReleasedBefore, cache, k.key, Waiting, Other(id)))
  {
    forall a, b
      ensures AgreeBut(LaneOf(Wrapped(a), k), LaneOf(Wrapped(b), k), id)
          <==> (IsSameLine(SubmittedBefore, a, b, k.key, Holding, Anyone()) &&
                IsSameLine(ReleasedBefore, a, b, k.key, Waiting, Other(id)))
    {
      WholeLines(a, k);
      WholeLines(b, k);
    }
  }

  /** A new priority moves one entry of a lane, for whatever lists the queue is built from before and after, if and
      only if no two holders are of one age and no two of the other waiters have one priority and one age. */
  lemma MovesOneIffApart(cache: Cache, id: string, p: Int32, k: LockKey)
    requires IsKeyed(cache) && id in cache
    ensures AlwaysMovesOne(cache, id, p, k)
        <==> AreHoldersApart(cache, k.key) && AreWaitersApart(cache, k.key, Some(id))
  {
    LaneOrders();
    HoldersApart(cache, k.key);
    WaitersApart(cache, k.key, Other(id), Some(id));
    MovesOneIfAgree(cache, id, p, k);
    AgreeByLines(cache, id, k);
    LineIsCanonicalIff(SubmittedBefore, cache, k.key, Holding, Anyone());
    LineIsCanonicalIff(ReleasedBefore, cache, k.key, Waiting, Other(id));
  }
}
