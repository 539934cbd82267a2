/** The semaphore view: one lane per lock key, its holders and its waiting line in release order. */
module Queue {
  import opened Wrappers
  import opened Argo
  import opened Sorting

  datatype LockKey = LockKey(key: string, slots: int)

  datatype Entry = Entry(id: string, scenario: string, priority: Option<int>, submittedAt: int)

  datatype Lane = Lane(key: string, slots: int, running: seq<Entry>, pending: seq<Entry>)

  predicate IsTerminal(phase: string) {
    phase == "Succeeded" || phase == "Failed" || phase == "Error"
  }

  function EntryOf(w: Workflow): Entry {
    Entry(w.name,
          if w.template.Some? then w.template.value else LabelOr(w.labels, "dlh.scenario", ""),
          if w.priority.Some? then Some(w.priority.value) else None,
          w.created)
  }

  function PrioVal(e: Entry): int {
    if e.priority.Some? then e.priority.value else 0
  }

  /** The last path segment of a semaphore name. */
  function LockKeyOf(semaphore: string): (key: string)
    ensures '/' !in key
    ensures key == semaphore || exists prefix: string :: semaphore == prefix + "/" + key
  {
    if semaphore == "" then ""
    else
      var n := |semaphore| - 1;
      if semaphore[n] == '/' then
        assert semaphore == semaphore[..n] + "/" + "";
        ""
      else
        var front := LockKeyOf(semaphore[..n]);
        var key := front + [semaphore[n]];
        assert key == semaphore || exists prefix: string :: semaphore == prefix + "/" + key by {
          if front != semaphore[..n] {
            var prefix: string :| semaphore[..n] == prefix + "/" + front;
            assert semaphore == prefix + "/" + key;
          } else {
            assert key == semaphore;
          }
        }
        key
  }

  predicate SubmittedBefore(x: Entry, y: Entry) {
    x.submittedAt < y.submittedAt
  }

  /** Higher priority first, then the older one. */
  predicate ReleasedBefore(x: Entry, y: Entry) {
    if PrioVal(x) != PrioVal(y) then PrioVal(x) > PrioVal(y) else x.submittedAt < y.submittedAt
  }

  /** Higher priority first, none counting as zero, and among equals the older one first. */
  predicate IsReleaseOrder(line: seq<Entry>) {
    forall i, j :: 0 <= i < j < |line| ==>
      var p := if line[i].priority.Some? then line[i].priority.value else 0;
      var q := if line[j].priority.Some? then line[j].priority.value else 0;
      p > q || (p == q && line[i].submittedAt <= line[j].submittedAt)
  }

  predicate IsAgeOrder(line: seq<Entry>) {
    forall i, j :: 0 <= i < j < |line| ==> line[i].submittedAt <= line[j].submittedAt
  }

  lemma SortedMeansOrdered(line: seq<Entry>)
    ensures IsSorted(ReleasedBefore, line) <==> IsReleaseOrder(line)
    ensures IsSorted(SubmittedBefore, line) <==> IsAgeOrder(line)
  {
  }

  lemma OrdersAreWeak()
    ensures IsWeakOrder(SubmittedBefore) && IsWeakOrder(ReleasedBefore)
  {
  }

  /** Which list of its semaphore status puts a workflow into a lane. */
  datatype Side = Holding | Waiting

  function LocksOf(s: Semaphore, side: Side): seq<string> {
    if side.Holding? then s.holding else s.waiting
  }

  predicate Names(locks: seq<string>, key: string) {
    exists i :: 0 <= i < |locks| && LockKeyOf(locks[i]) == key
  }

  /** `w` is not finished and lists the lock `key` on this side. */
  predicate Contends(w: Option<Workflow>, key: string, side: Side) {
    && w.Some? && !IsTerminal(w.value.phase) && w.value.semaphore.Some?
    && Names(LocksOf(w.value.semaphore.value, side), key)
  }

  function AddOnce(es: seq<Entry>, e: Entry): seq<Entry> {
    if exists i :: 0 <= i < |es| && es[i].id == e.id then es else es + [e]
  }

  /** The entries of a lane in the order the workflows come, one per id. */
  function Members(wfs: seq<Option<Workflow>>, key: string, side: Side): seq<Entry> {
    if wfs == [] then []
    else
      var w, before := wfs[|wfs| - 1], Members(wfs[..|wfs| - 1], key, side);
      if Contends(w, key, side) then AddOnce(before, EntryOf(w.value)) else before
  }

  function LaneOf(wfs: seq<Option<Workflow>>, k: LockKey): Lane {
    Lane(k.key, k.slots,
         StableSort(SubmittedBefore, Members(wfs, k.key, Holding)),
         StableSort(ReleasedBefore, Members(wfs, k.key, Waiting)))
  }

  type Table = map<string, seq<Entry>>

  function Get(m: Table, key: string): seq<Entry> {
    if key in m then m[key] else []
  }

  method AddEntry(m: Table, key: string, e: Entry) returns (r: Table)
    ensures forall k :: Get(r, k) == if k == key then AddOnce(Get(m, k), e) else Get(m, k)
  {
    var es := Get(m, key);
    for i := 0 to |es|
      invariant forall j :: 0 <= j < i ==> es[j].id != e.id
    {
      if es[i].id == e.id {
        return m;
      }
    }
    r := m[key := es + [e]];
  }

  lemma NamesSnoc(locks: seq<string>, lock: string)
    ensures forall k :: Names(locks + [lock], k) <==> Names(locks, k) || k == LockKeyOf(lock)
  {
    forall k ensures Names(locks + [lock], k) <==> Names(locks, k) || k == LockKeyOf(lock) {
      assert (locks + [lock])[|locks|] == lock;
      assert forall j :: 0 <= j < |locks| ==> (locks + [lock])[j] == locks[j];
    }
  }

  /** Files `e` under every known key among `locks`. */
  method AddAll(m: Table, locks: seq<string>, known: set<string>, e: Entry) returns (r: Table)
    ensures forall k :: k in known ==> Get(r, k) == if Names(locks, k) then AddOnce(Get(m, k), e) else Get(m, k)
  {
    r := m;
    for i := 0 to |locks|
      invariant forall k :: k in known ==>
          Get(r, k) == if Names(locks[..i], k) then AddOnce(Get(m, k), e) else Get(m, k)
    {
      var key := LockKeyOf(locks[i]);
      assert locks[..i + 1] == locks[..i] + [locks[i]];
      NamesSnoc(locks[..i], locks[i]);
      AddOnceTwice(Get(m, key), e);
      if key in known {
        r := AddEntry(r, key, e);
      }
    }
    assert locks[..|locks|] == locks;
  }

  lemma AddOnceTwice(es: seq<Entry>, e: Entry)
    ensures AddOnce(AddOnce(es, e), e) == AddOnce(es, e)
  {
    if !exists i :: 0 <= i < |es| && es[i].id == e.id {
      assert (es + [e])[|es|].id == e.id;
    }
  }

  lemma LaneIsOrdered(wfs: seq<Option<Workflow>>, k: LockKey)
    ensures IsReleaseOrder(LaneOf(wfs, k).pending) && IsAgeOrder(LaneOf(wfs, k).running)
  {
    OrdersAreWeak();
    StableSortSorts(SubmittedBefore, Members(wfs, k.key, Holding));
    StableSortSorts(ReleasedBefore, Members(wfs, k.key, Waiting));
    SortedMeansOrdered(LaneOf(wfs, k).running);
    SortedMeansOrdered(LaneOf(wfs, k).pending);
  }

  /** The lanes as the page shows them: one per key in the order of the keys, holders by age, waiters by priority
      and age. */
  ghost predicate AreOrderedLanes(lanes: seq<Lane>, keys: seq<LockKey>) {
    |lanes| == |keys| && forall i :: 0 <= i < |keys| ==>
      && lanes[i].key == keys[i].key && lanes[i].slots == keys[i].slots
      && IsReleaseOrder(lanes[i].pending) && IsAgeOrder(lanes[i].running)
  }

  lemma LanesAreOrdered(wfs: seq<Option<Workflow>>, keys: seq<LockKey>)
    ensures AreOrderedLanes(Map(k => LaneOf(wfs, k), keys), keys)
  {
    forall i | 0 <= i < |keys|
      ensures IsReleaseOrder(LaneOf(wfs, keys[i]).pending) && IsAgeOrder(LaneOf(wfs, keys[i]).running)
    {
      LaneIsOrdered(wfs, keys[i]);
    }
  }

  /** Whether an entry runs or waits is read off its semaphore status, never off its phase. */
  method BuildLanes(wfs: seq<Option<Workflow>>, keys: seq<LockKey>) returns (lanes: seq<Lane>)
    ensures lanes == Map(k => LaneOf(wfs, k), keys)
    ensures AreOrderedLanes(lanes, keys)
  {
    var known: set<string> := {};
    for i := 0 to |keys|
      invariant forall j :: 0 <= j < i ==> keys[j].key in known
    {
      known := known + {keys[i].key};
    }
    var running: Table, pending: Table := map[], map[];
    for i := 0 to |wfs|
      invariant forall k :: k in known ==> Get(running, k) == Members(wfs[..i], k, Holding)
      invariant forall k :: k in known ==> Get(pending, k) == Members(wfs[..i], k, Waiting)
    {
      running, pending := AddWorkflow(wfs[..i], running, pending, known, wfs[i]);
      assert wfs[..i + 1] == wfs[..i] + [wfs[i]];
    }
    assert wfs[..|wfs|] == wfs;
    lanes := [];
    for i := 0 to |keys|
      invariant |lanes| == i && forall j :: 0 <= j < i ==> lanes[j] == LaneOf(wfs, keys[j])
    {
      var k := keys[i];
      var holders := StableSort(SubmittedBefore, Get(running, k.key));
      var waiters := StableSort(ReleasedBefore, Get(pending, k.key));
      lanes := lanes + [Lane(k.key, k.slots, holders, waiters)];
    }
    LanesAreOrdered(wfs, keys);
  }

  method AddWorkflow(ghost before: seq<Option<Workflow>>, running: Table, pending: Table, known: set<string>,
                     w: Option<Workflow>)
    returns (running': Table, pending': Table)
    requires forall k :: k in known ==> Get(running, k) == Members(before, k, Holding)
    requires forall k :: k in known ==> Get(pending, k) == Members(before, k, Waiting)
    ensures forall k :: k in known ==> Get(running', k) == Members(before + [w], k, Holding)
    ensures forall k :: k in known ==> Get(pending', k) == Members(before + [w], k, Waiting)
  {
    running', pending' := running, pending;
    assert (before + [w])[..|before|] == before;
    if w.None? || IsTerminal(w.value.phase) || w.value.semaphore.None? {
      return;
    }
    var e := EntryOf(w.value);
    running' := AddAll(running, w.value.semaphore.value.holding, known, e);
    pending' := AddAll(pending, w.value.semaphore.value.waiting, known, e);
  }

  ghost predicate HasDistinctNames(wfs: seq<Option<Workflow>>) {
    forall i, j :: 0 <= i < j < |wfs| && wfs[i].Some? && wfs[j].Some? ==> wfs[i].value.name != wfs[j].value.name
  }

  ghost predicate HasDistinctIds(es: seq<Entry>) {
    forall i, j :: 0 <= i < j < |es| ==> es[i].id != es[j].id
  }

  /** Some contending workflow gives this entry. */
  ghost predicate Comes(wfs: seq<Option<Workflow>>, key: string, side: Side, e: Entry) {
    exists i :: 0 <= i < |wfs| && Contends(wfs[i], key, side) && e == EntryOf(wfs[i].value)
  }

  lemma ComesSnoc(wfs: seq<Option<Workflow>>, w: Option<Workflow>, key: string, side: Side, e: Entry)
    ensures Comes(wfs + [w], key, side, e)
        <==> Comes(wfs, key, side, e) || (Contends(w, key, side) && e == EntryOf(w.value))
  {
    var more := wfs + [w];
    assert more[|wfs|] == w;
    if Comes(wfs, key, side, e) {
      var i :| 0 <= i < |wfs| && Contends(wfs[i], key, side) && e == EntryOf(wfs[i].value);
      assert more[i] == wfs[i];
    }
  }

  lemma {:induction false} MembersAreDistinct(wfs: seq<Option<Workflow>>, key: string, side: Side)
    ensures HasDistinctIds(Members(wfs, key, side))
  {
    if wfs != [] {
      MembersAreDistinct(wfs[..|wfs| - 1], key, side);
    }
  }

  lemma {:induction false} MemberComes(wfs: seq<Option<Workflow>>, key: string, side: Side, e: Entry)
    requires e in Members(wfs, key, side)
    ensures Comes(wfs, key, side, e)
  {
    var n := |wfs| - 1;
    if e in Members(wfs[..n], key, side) {
      MemberComes(wfs[..n], key, side, e);
    }
    ComesSnoc(wfs[..n], wfs[n], key, side, e);
    assert wfs == wfs[..n] + [wfs[n]];
  }

  lemma {:induction false} ComesIsMember(wfs: seq<Option<Workflow>>, key: string, side: Side, e: Entry)
    requires HasDistinctNames(wfs) && Comes(wfs, key, side, e)
    ensures e in Members(wfs, key, side)
  {
    var n := |wfs| - 1;
    var before, w := wfs[..n], wfs[n];
    assert wfs == before + [w];
    ComesSnoc(before, w, key, side, e);
    if Comes(before, key, side, e) {
      ComesIsMember(before, key, side, e);
    } else {
      NewNameIsNew(before, w.value, key, side);
    }
  }

  lemma NewNameIsNew(before: seq<Option<Workflow>>, w: Workflow, key: string, side: Side)
    requires HasDistinctNames(before + [Some(w)])
    ensures forall i :: 0 <= i < |Members(before, key, side)| ==> Members(before, key, side)[i].id != w.name
  {
    var ms, all := Members(before, key, side), before + [Some(w)];
    forall i | 0 <= i < |ms| ensures ms[i].id != w.name {
      EntryHasSource(before, key, side, i);
      var k :| 0 <= k < |before| && before[k].Some? && before[k].value.name == ms[i].id;
      assert all[k] == before[k] && all[|before|] == Some(w);
    }
  }

  lemma {:induction false} EntryHasSource(wfs: seq<Option<Workflow>>, key: string, side: Side, i: nat)
    requires i < |Members(wfs, key, side)|
    ensures exists k :: 0 <= k < |wfs| && wfs[k].Some? && wfs[k].value.name == Members(wfs, key, side)[i].id
  {
    var n := |wfs| - 1;
    if i < |Members(wfs[..n], key, side)| {
      EntryHasSource(wfs[..n], key, side, i);
      var k :| 0 <= k < n && wfs[..n][k].Some? && wfs[..n][k].value.name == Members(wfs[..n], key, side)[i].id;
      assert wfs[k] == wfs[..n][k];
    } else {
      assert wfs[n].Some? && wfs[n].value.name == Members(wfs, key, side)[i].id;
    }
  }

  lemma MembersAreContenders(wfs: seq<Option<Workflow>>, key: string, side: Side)
    ensures HasDistinctIds(Members(wfs, key, side))
    ensures forall e :: e in Members(wfs, key, side) ==> Comes(wfs, key, side, e)
    ensures HasDistinctNames(wfs) ==> forall e :: Comes(wfs, key, side, e) ==> e in Members(wfs, key, side)
  {
    MembersAreDistinct(wfs, key, side);
    forall e | e in Members(wfs, key, side) ensures Comes(wfs, key, side, e) {
      MemberComes(wfs, key, side, e);
    }
    if HasDistinctNames(wfs) {
      forall e | Comes(wfs, key, side, e) ensures e in Members(wfs, key, side) {
        ComesIsMember(wfs, key, side, e);
      }
    }
  }

  lemma SameMultiset<T>(a: seq<T>, b: seq<T>, x: T)
    requires multiset(a) == multiset(b)
    ensures x in a <==> x in b
  {
    assert x in a <==> x in multiset(a);
    assert x in b <==> x in multiset(b);
  }

  predicate IsUnfinished(w: Option<Workflow>) {
    w.Some? && w.value.phase != "Succeeded" && w.value.phase != "Failed" && w.value.phase != "Error"
  }

  /** `w` has not finished and its status lists a lock on `key` as held. */
  predicate Holds(w: Option<Workflow>, key: string) {
    && IsUnfinished(w) && w.value.semaphore.Some?
    && var locks := w.value.semaphore.value.holding; exists i :: 0 <= i < |locks| && LockKeyOf(locks[i]) == key
  }

  /** `w` has not finished and its status lists a lock on `key` as waited for. */
  predicate Waits(w: Option<Workflow>, key: string) {
    && IsUnfinished(w) && w.value.semaphore.Some?
    && var locks := w.value.semaphore.value.waiting; exists i :: 0 <= i < |locks| && LockKeyOf(locks[i]) == key
  }

  lemma ContendersHoldOrWait(w: Option<Workflow>, key: string)
    ensures Contends(w, key, Holding) <==> Holds(w, key)
    ensures Contends(w, key, Waiting) <==> Waits(w, key)
  {
  }

  /** The entry tells the workflow's name, age and priority, and its scenario from the template or else from the
      label. */
  predicate StandsFor(e: Entry, w: Workflow) {
    && e.id == w.name && e.submittedAt == w.created
    && (if w.priority.Some? then e.priority == Some(w.priority.value as int) else e.priority == None)
    && (if w.template.Some? then e.scenario == w.template.value
        else if "dlh.scenario" in w.labels then e.scenario == w.labels["dlh.scenario"]
        else e.scenario == "")
  }

  lemma OnlyEntryStandsFor(e: Entry, w: Workflow)
    ensures e == EntryOf(w) <==> StandsFor(e, w)
  {
  }

  /** Lanes are exact: with distinct workflow names, the running list holds the entry of every unfinished workflow
      that holds the key, the pending list that of every one that waits for it, each exactly once and nothing else,
      in order. */
  lemma LanesAreExact(wfs: seq<Option<Workflow>>, k: LockKey, e: Entry)
    requires HasDistinctNames(wfs)
    ensures multiset(LaneOf(wfs, k).running)[e]
         == (if exists i :: 0 <= i < |wfs| && Holds(wfs[i], k.key) && StandsFor(e, wfs[i].value) then 1 else 0)
    ensures multiset(LaneOf(wfs, k).pending)[e]
         == (if exists i :: 0 <= i < |wfs| && Waits(wfs[i], k.key) && StandsFor(e, wfs[i].value) then 1 else 0)
    ensures IsAgeOrder(LaneOf(wfs, k).running) && IsReleaseOrder(LaneOf(wfs, k).pending)
  {
    OrdersAreWeak();
    CountsContenders(wfs, k.key, Holding, SubmittedBefore, e);
    CountsContenders(wfs, k.key, Waiting, ReleasedBefore, e);
    LaneIsOrdered(wfs, k);
    forall i | 0 <= i < |wfs| && wfs[i].Some?
      ensures Contends(wfs[i], k.key, Holding) && e == EntryOf(wfs[i].value)
          <==> Holds(wfs[i], k.key) && StandsFor(e, wfs[i].value)
      ensures Contends(wfs[i], k.key, Waiting) && e == EntryOf(wfs[i].value)
          <==> Waits(wfs[i], k.key) && StandsFor(e, wfs[i].value)
    {
      ContendersHoldOrWait(wfs[i], k.key);
      OnlyEntryStandsFor(e, wfs[i].value);
    }
  }

  lemma CountsContenders(wfs: seq<Option<Workflow>>, key: string, side: Side, less: (Entry, Entry) -> bool, e: Entry)
    requires HasDistinctNames(wfs) && IsWeakOrder(less)
    ensures multiset(StableSort(less, Members(wfs, key, side)))[e] == if Comes(wfs, key, side, e) then 1 else 0
  {
    MembersAreContenders(wfs, key, side);
    StableSortSorts(less, Members(wfs, key, side));
    CountsOnce(Members(wfs, key, side), e);
  }

  lemma {:induction false} CountsOnce(es: seq<Entry>, e: Entry)
    requires HasDistinctIds(es)
    ensures multiset(es)[e] == if e in es then 1 else 0
  {
    if es != [] {
      var n := |es| - 1;
      CountsOnce(es[..n], e);
      assert es == es[..n] + [es[n]];
    }
  }

  /** The head of a waiting line is one that the documented release rule may pick: no waiting workflow has a higher
      priority, and none of the same priority is older. Among equals the line keeps the order the workflows came in.
      */
  lemma HeadIsReleasable(wfs: seq<Option<Workflow>>, k: LockKey)
    requires LaneOf(wfs, k).pending != []
    ensures forall e :: e in Members(wfs, k.key, Waiting) ==> IsReleaseOrder([LaneOf(wfs, k).pending[0], e])
    ensures forall x ::
              Class(ReleasedBefore, LaneOf(wfs, k).pending, x) == Class(ReleasedBefore, Members(wfs, k.key, Waiting), x)
  {
    OrdersAreWeak();
    var ms, line := Members(wfs, k.key, Waiting), LaneOf(wfs, k).pending;
    StableSortSorts(ReleasedBefore, ms);
    forall e | e in ms ensures IsReleaseOrder([line[0], e]) {
      SameMultiset(line, ms, e);
      var i :| 0 <= i < |line| && line[i] == e;
      assert IsAsymmetricAt(ReleasedBefore, e, e);
      assert !ReleasedBefore(e, line[0]);
    }
    forall x ensures Class(ReleasedBefore, line, x) == Class(ReleasedBefore, ms, x) {
      SortKeepsTies(ReleasedBefore, ms, x);
    }
  }

  /** The entry of run `id` gets priority `p`; all others stay. */
  function Reprioritized(id: string, p: int): Entry -> Entry {
    (e: Entry) => if e.id == id then e.(priority := Some(p)) else e
  }

  /** Workflow `j` gets priority `p` in its spec. */
  function WithPriority(wfs: seq<Option<Workflow>>, j: nat, p: Int32): seq<Option<Workflow>>
    requires j < |wfs| && wfs[j].Some?
  {
    wfs[j := Some(wfs[j].value.(priority := Some(p)))]
  }

  lemma {:induction false} MembersReprioritized(wfs: seq<Option<Workflow>>, j: nat, p: Int32, key: string, side: Side)
    requires j < |wfs| && wfs[j].Some? && HasDistinctNames(wfs)
    ensures Members(WithPriority(wfs, j, p), key, side)
        == Map(Reprioritized(wfs[j].value.name, p), Members(wfs, key, side))
  {
    var n := |wfs| - 1;
    var f, wfs' := Reprioritized(wfs[j].value.name, p), WithPriority(wfs, j, p);
    var ms, ms' := Members(wfs[..n], key, side), Members(wfs'[..n], key, side);
    if j < n {
      assert wfs'[..n] == WithPriority(wfs[..n], j, p);
      MembersReprioritized(wfs[..n], j, p, key, side);
    } else {
      assert wfs'[..n] == wfs[..n];
      MembersAreContenders(wfs[..n], key, side);
      forall i | 0 <= i < |ms| ensures f(ms[i]) == ms[i] {
        assert ms[i] in ms;
        var k :| 0 <= k < |wfs[..n]| && Contends(wfs[..n][k], key, side) && ms[i] == EntryOf(wfs[..n][k].value);
        assert wfs[k] == wfs[..n][k];
      }
      assert Map(f, ms) == ms;
    }
    assert Contends(wfs'[n], key, side) <==> Contends(wfs[n], key, side);
    if Contends(wfs[n], key, side) {
      assert EntryOf(wfs'[n].value) == f(EntryOf(wfs[n].value));
      AddOnceMaps(f, ms, EntryOf(wfs[n].value), wfs[j].value.name, p);
    }
  }

  lemma AddOnceMaps(f: Entry -> Entry, es: seq<Entry>, e: Entry, id: string, p: int)
    requires f == Reprioritized(id, p)
    ensures AddOnce(Map(f, es), f(e)) == Map(f, AddOnce(es, e))
  {
    assert forall i :: 0 <= i < |es| ==> Map(f, es)[i].id == es[i].id;
    if i :| 0 <= i < |es| && es[i].id == e.id {
      assert Map(f, es)[i].id == f(e).id;
    }
  }

  function Named(id: string): Entry -> bool {
    (e: Entry) => e.id == id
  }

  function Other(id: string): Entry -> bool {
    (e: Entry) => e.id != id
  }

  lemma {:induction false} OthersUnchanged(es: seq<Entry>, id: string, p: int)
    ensures Filter(Map(Reprioritized(id, p), es), Other(id)) == Filter(es, Other(id))
  {
    if es != [] {
      var n := |es| - 1;
      OthersUnchanged(es[..n], id, p);
      assert Map(Reprioritized(id, p), es)[..n] == Map(Reprioritized(id, p), es[..n]);
    }
  }

  lemma {:induction false} KeepsAllOthers(es: seq<Entry>, id: string)
    requires forall i :: 0 <= i < |es| ==> es[i].id != id
    ensures Filter(es, Other(id)) == es
  {
    if es != [] {
      KeepsAllOthers(es[..|es| - 1], id);
    }
  }

  /** `line` is `rest` with `e` put in at position `q`. */
  predicate IsInserted(line: seq<Entry>, rest: seq<Entry>, q: int, e: Entry) {
    0 <= q <= |rest| && line == rest[..q] + [e] + rest[q..]
  }

  lemma TakenOut(a: seq<Entry>, e: Entry, b: seq<Entry>)
    requires forall i :: 0 <= i < |a| ==> a[i].id != e.id
    requires forall i :: 0 <= i < |b| ==> b[i].id != e.id
    ensures Filter(a + ([e] + b), Other(e.id)) == a + b
  {
    var p := Other(e.id);
    FilterConcat(a, [e] + b, p);
    FilterConcat([e], b, p);
    KeepsAllOthers(a, e.id);
    KeepsAllOthers(b, e.id);
    FilterSnoc([], e, p);
    assert [] + [e] == [e];
    assert Filter([e] + b, p) == b;
  }

  lemma InsertedBetween(a: seq<Entry>, e: Entry, b: seq<Entry>)
    ensures IsInserted(a + ([e] + b), a + b, |a|, e)
  {
    assert (a + b)[..|a|] == a && (a + b)[|a|..] == b;
    assert a + ([e] + b) == a + [e] + b;
  }

  /** One entry with this id sits somewhere among the others. */
  lemma SitsAmongOthers(line: seq<Entry>, e: Entry) returns (q: int)
    requires HasDistinctIds(line) && e in line
    ensures IsInserted(line, Filter(line, Other(e.id)), q, e)
  {
    q :| 0 <= q < |line| && line[q] == e;
    var a, b := line[..q], line[q + 1..];
    TakenOut(a, e, b);
    InsertedBetween(a, e, b);
    assert line == a + ([e] + b);
  }

  /** From `lane` to `lane'` only the entry of `w` changed: it shows priority `p`, and where it waits it was taken
      out and put back at its place. */
  ghost predicate IsMoveOfOne(lane: Lane, lane': Lane, w: Workflow, p: Int32, waits: bool) {
    && lane'.running == Map(Reprioritized(w.name, p), lane.running)
    && (!waits ==> lane'.pending == lane.pending)
    && (waits ==> IsReleaseOrder(lane'.pending) && IsReinserted(lane.pending, lane'.pending, w, p))
  }

  ghost predicate IsReinserted(line: seq<Entry>, line': seq<Entry>, w: Workflow, p: Int32) {
    exists rest: seq<Entry>, q, q' ::
      IsInserted(line, rest, q, EntryOf(w)) && IsInserted(line', rest, q', EntryOf(w.(priority := Some(p))))
  }

  /** A new priority for one workflow moves one entry: a running list only shows the new number; a lane the workflow
      does not wait in keeps its line; in a lane it waits in, the others keep their line and the entry is taken out
      and put back where the release order wants it. */
  lemma ReprioritizeMovesOne(wfs: seq<Option<Workflow>>, j: nat, p: Int32, k: LockKey)
    requires j < |wfs| && wfs[j].Some? && HasDistinctNames(wfs)
    ensures IsMoveOfOne(LaneOf(wfs, k), LaneOf(WithPriority(wfs, j, p), k), wfs[j].value, p,
        Contends(wfs[j], k.key, Waiting))
  {
    var w, wfs' := wfs[j].value, WithPriority(wfs, j, p);
    var lane, lane' := LaneOf(wfs, k), LaneOf(wfs', k);
    OrdersAreWeak();
    LaneIsOrdered(wfs', k);
    MembersReprioritized(wfs, j, p, k.key, Holding);
    SortMap(SubmittedBefore, SubmittedBefore, Reprioritized(w.name, p), Members(wfs, k.key, Holding));
    MembersReprioritized(wfs, j, p, k.key, Waiting);
    if Contends(wfs[j], k.key, Waiting) {
      WaiterMoves(wfs, j, p, k);
    } else {
      OthersOnly(wfs, j, p, k.key);
    }
  }

  lemma OthersOnly(wfs: seq<Option<Workflow>>, j: nat, p: Int32, key: string)
    requires j < |wfs| && wfs[j].Some? && HasDistinctNames(wfs) && !Contends(wfs[j], key, Waiting)
    ensures Members(WithPriority(wfs, j, p), key, Waiting) == Members(wfs, key, Waiting)
  {
    var ms, f := Members(wfs, key, Waiting), Reprioritized(wfs[j].value.name, p);
    MembersReprioritized(wfs, j, p, key, Waiting);
    MembersAreContenders(wfs, key, Waiting);
    forall i | 0 <= i < |ms| ensures f(ms[i]) == ms[i] {
      assert ms[i] in ms;
      var m :| 0 <= m < |wfs| && Contends(wfs[m], key, Waiting) && ms[i] == EntryOf(wfs[m].value);
    }
    assert Map(f, ms) == ms;
  }

  /** Apart from the workflow itself, a waiting line is the same as before. */
  lemma OthersKeepTheirLine(wfs: seq<Option<Workflow>>, j: nat, p: Int32, k: LockKey)
    requires j < |wfs| && wfs[j].Some? && HasDistinctNames(wfs)
    ensures var other := Other(wfs[j].value.name);
      Filter(LaneOf(WithPriority(wfs, j, p), k).pending, other) == Filter(LaneOf(wfs, k).pending, other)
  {
    var w, wfs' := wfs[j].value, WithPriority(wfs, j, p);
    var ms, ms' := Members(wfs, k.key, Waiting), Members(wfs', k.key, Waiting);
    OrdersAreWeak();
    MembersReprioritized(wfs, j, p, k.key, Waiting);
    OthersUnchanged(ms, w.name, p);
    SortFilter(ReleasedBefore, ms, Other(w.name));
    SortFilter(ReleasedBefore, ms', Other(w.name));
  }

  lemma WaiterMoves(wfs: seq<Option<Workflow>>, j: nat, p: Int32, k: LockKey)
    requires j < |wfs| && wfs[j].Some? && HasDistinctNames(wfs) && Contends(wfs[j], k.key, Waiting)
    ensures IsSorted(ReleasedBefore, LaneOf(WithPriority(wfs, j, p), k).pending)
    ensures IsReinserted(LaneOf(wfs, k).pending, LaneOf(WithPriority(wfs, j, p), k).pending, wfs[j].value, p)
  {
    var wfs' := WithPriority(wfs, j, p);
    OrdersAreWeak();
    StableSortSorts(ReleasedBefore, Members(wfs', k.key, Waiting));
    assert HasDistinctNames(wfs');
    WaiterIsInLine(wfs, j, k);
    WaiterIsInLine(wfs', j, k);
    OthersKeepTheirLine(wfs, j, p, k);
    var q := SitsAmongOthers(LaneOf(wfs, k).pending, EntryOf(wfs[j].value));
    var q' := SitsAmongOthers(LaneOf(wfs', k).pending, EntryOf(wfs'[j].value));
  }

  lemma WaiterIsInLine(wfs: seq<Option<Workflow>>, j: nat, k: LockKey)
    requires j < |wfs| && HasDistinctNames(wfs) && Contends(wfs[j], k.key, Waiting)
    ensures HasDistinctIds(LaneOf(wfs, k).pending) && EntryOf(wfs[j].value) in LaneOf(wfs, k).pending
  {
    var ms, line := Members(wfs, k.key, Waiting), LaneOf(wfs, k).pending;
    OrdersAreWeak();
    MembersAreContenders(wfs, k.key, Waiting);
    SortedIdsAreDistinct(ReleasedBefore, ms);
    StableSortSorts(ReleasedBefore, ms);
    assert Comes(wfs, k.key, Waiting, EntryOf(wfs[j].value));
    SameMultiset(line, ms, EntryOf(wfs[j].value));
  }

  lemma SortedIdsAreDistinct(less: (Entry, Entry) -> bool, ms: seq<Entry>)
    requires IsWeakOrder(less) && HasDistinctIds(ms)
    ensures HasDistinctIds(StableSort(less, ms))
  {
    var line := StableSort(less, ms);
    forall a, b | 0 <= a < b < |line| ensures line[a].id != line[b].id {
      var id := line[a].id;
      if line[b].id == id {
        TwoInFilter(line, a, b, Named(id));
        SortFilter(less, ms, Named(id));
        StableSortSorts(less, Filter(ms, Named(id)));
        AtMostOne(ms, id);
      }
    }
  }

  lemma TwoInFilter(s: seq<Entry>, a: nat, b: nat, p: Entry -> bool)
    requires a < b < |s| && p(s[a]) && p(s[b])
    ensures |Filter(s, p)| >= 2
  {
    var x, y := s[..b], s[b..];
    assert s == x + y;
    FilterConcat(x, y, p);
    FilterMember(x, p, s[a]);
    FilterMember(y, p, s[b]);
    assert x[a] == s[a] && y[0] == s[b];
  }

  lemma {:induction false} AtMostOne(es: seq<Entry>, id: string)
    requires HasDistinctIds(es)
    ensures |Filter(es, Named(id))| <= 1
    ensures (forall i :: 0 <= i < |es| ==> es[i].id != id) ==> Filter(es, Named(id)) == []
  {
    if es != [] {
      AtMostOne(es[..|es| - 1], id);
    }
  }
}
