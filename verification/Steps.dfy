/** The step timeline of a run: nodes of an unordered map, shown in one order. */
module Steps {
  import opened Wrappers
  import opened Sorting

  datatype Node = Node(displayName: string, phase: string, started: Option<int>, finished: Option<int>, message: string)

  datatype Step = Step(
    name: string, phase: string, started: Option<int>, finished: Option<int>, message: Option<string>)

  function StepOf(n: Node): Step {
    Step(n.displayName, n.phase, n.started, n.finished, if n.message != "" then Some(n.message) else None)
  }

  /** The order of strings in Go: by code points, a prefix first. */
  predicate StringBefore(a: string, b: string) {
    b != "" && (a == "" || a[0] < b[0] || (a[0] == b[0] && StringBefore(a[1..], b[1..])))
  }

  datatype Key = Key(started: Option<int>, name: string)

  /** A missing start comes last; then the start decides, then the name. */
  predicate KeyBefore(x: Key, y: Key) {
    if x.started.None? && y.started.None? then StringBefore(x.name, y.name)
    else if x.started.None? then false
    else if y.started.None? then true
    else if x.started == y.started then StringBefore(x.name, y.name)
    else x.started.value < y.started.value
  }

  function KeyOf(s: Step): Key {
    Key(s.started, s.name)
  }

  predicate StepBefore(x: Step, y: Step) {
    KeyBefore(KeyOf(x), KeyOf(y))
  }

  lemma {:induction false} StringsAsymmetric(a: string, b: string)
    ensures StringBefore(a, b) ==> !StringBefore(b, a)
    decreases |a|
  {
    if a != "" && b != "" && a[0] == b[0] {
      StringsAsymmetric(a[1..], b[1..]);
    }
  }

  lemma {:induction false} StringsSplit(a: string, b: string, c: string)
    ensures StringBefore(a, c) ==> StringBefore(a, b) || StringBefore(b, c)
    decreases |a|
  {
    if a != "" && b != "" && c != "" && a[0] == b[0] == c[0] {
      StringsSplit(a[1..], b[1..], c[1..]);
    }
  }

  lemma {:induction false} StringsTotal(a: string, b: string)
    requires !StringBefore(a, b) && !StringBefore(b, a)
    ensures a == b
    decreases |a|
  {
    if a != "" && b != "" {
      StringsTotal(a[1..], b[1..]);
      assert a == [a[0]] + a[1..] && b == [b[0]] + b[1..];
    }
  }

  /** The comparator is a strict weak order on steps, and on their keys a total one. */
  lemma ComparatorIsWeakOrder()
    ensures IsWeakOrder(KeyBefore) && IsWeakOrder(StepBefore)
    ensures forall x, y :: Tied(KeyBefore, x, y) ==> x == y
  {
    forall x: Key, y: Key
      ensures IsAsymmetricAt(KeyBefore, x, y)
      ensures Tied(KeyBefore, x, y) ==> x == y
    {
      StringsAsymmetric(x.name, y.name);
      if Tied(KeyBefore, x, y) {
        StringsTotal(x.name, y.name);
      }
    }
    forall x: Key, y: Key, z: Key ensures IsSplitAt(KeyBefore, x, y, z) {
      StringsSplit(x.name, y.name, z.name);
    }
    forall x, y ensures IsAsymmetricAt(StepBefore, x, y) {
      assert IsAsymmetricAt(KeyBefore, KeyOf(x), KeyOf(y));
    }
    forall x, y, z ensures IsSplitAt(StepBefore, x, y, z) {
      assert IsSplitAt(KeyBefore, KeyOf(x), KeyOf(y), KeyOf(z));
    }
  }

  type Nodes = map<string, Node>

  /** The steps in the order a walk over the map happens to visit them. */
  function Visited(order: seq<string>, nodes: Nodes): seq<Step>
    requires forall i :: 0 <= i < |order| ==> order[i] in nodes
  {
    seq(|order|, i requires 0 <= i < |order| => StepOf(nodes[order[i]]))
  }

  /** A step shows its node's name, phase, start and finish, and its message unless that is empty. */
  predicate Shows(s: Step, n: Node) {
    && s.name == n.displayName && s.phase == n.phase && s.started == n.started && s.finished == n.finished
    && (if n.message == "" then s.message == None else s.message == Some(n.message))
  }

  /** The first string is not the later one: it is the beginning of the other, or smaller where they first differ. */
  ghost predicate IsNotAfter(a: string, b: string) {
    exists k :: 0 <= k <= |a| && k <= |b| && a[..k] == b[..k] && (k == |a| || (k < |b| && a[k] < b[k]))
  }

  lemma {:induction false} StringBeforeIff(a: string, b: string)
    ensures !StringBefore(b, a) <==> IsNotAfter(a, b)
    decreases |a|
  {
    if a == "" {
      assert a[..0] == b[..0];
    } else if b == "" || a[0] != b[0] {
      if a != "" && b != "" && a[0] < b[0] {
        assert a[..0] == b[..0];
      }
      forall k | 0 < k <= |a| && k <= |b| ensures a[..k] != b[..k] {
        assert a[..k][0] == a[0] && b[..k][0] == b[0];
      }
    } else {
      StringBeforeIff(a[1..], b[1..]);
      OneLetterMore(a, b);
    }
  }

  lemma OneLetterMore(a: string, b: string)
    requires a != "" && b != "" && a[0] == b[0]
    ensures IsNotAfter(a, b) <==> IsNotAfter(a[1..], b[1..])
  {
    var c, d := a[1..], b[1..];
    if IsNotAfter(c, d) {
      var k :| 0 <= k <= |c| && k <= |d| && c[..k] == d[..k] && (k == |c| || (k < |d| && c[k] < d[k]));
      assert a[..k + 1] == [a[0]] + c[..k] && b[..k + 1] == [b[0]] + d[..k];
    }
    if IsNotAfter(a, b) {
      var k :| 0 <= k <= |a| && k <= |b| && a[..k] == b[..k] && (k == |a| || (k < |b| && a[k] < b[k]));
      assert k > 0;
      assert c[..k - 1] == a[..k][1..] && d[..k - 1] == b[..k][1..];
    }
  }

  /** Earlier starts first, steps without a start last, and steps of one start, or of none, by name. */
  ghost predicate IsTimeline(steps: seq<Step>) {
    forall i, j :: 0 <= i < j < |steps| ==>
      var x, y := steps[i], steps[j];
      && (x.started.None? ==> y.started.None?)
      && (x.started.Some? && y.started.Some? ==> x.started.value <= y.started.value)
      && (x.started == y.started ==> IsNotAfter(x.name, y.name))
  }

  lemma SortedIsTimeline(steps: seq<Step>)
    requires IsSorted(StepBefore, steps)
    ensures IsTimeline(steps)
  {
    forall i, j | 0 <= i < j < |steps| ensures !StepBefore(steps[j], steps[i])
      && (!StringBefore(steps[j].name, steps[i].name) <==> IsNotAfter(steps[i].name, steps[j].name))
    {
      StringBeforeIff(steps[i].name, steps[j].name);
    }
  }

  ghost predicate IsTimelineOf(steps: seq<Step>, nodes: Nodes) {
    && IsTimeline(steps) && |steps| == |nodes|
    && (forall id :: id in nodes ==> IsShown(nodes[id], steps))
    && (forall step :: step in steps ==> HasNode(step, nodes))
  }

  predicate IsShown(n: Node, steps: seq<Step>) {
    exists step :: step in steps && Shows(step, n)
  }

  predicate HasNode(step: Step, nodes: Nodes) {
    exists id :: id in nodes && Shows(step, nodes[id])
  }

  lemma SortedSteps(order: seq<string>, nodes: Nodes)
    requires IsListing(order, nodes.Keys)
    ensures var steps := StableSort(StepBefore, Visited(order, nodes));
      IsTimeline(steps) && multiset(steps) == multiset(Visited(order, nodes)) && |steps| == |nodes|
  {
    var visited := Visited(order, nodes);
    ComparatorIsWeakOrder();
    StableSortSorts(StepBefore, visited);
    SortedIsTimeline(StableSort(StepBefore, visited));
    ListingLength(order, nodes.Keys);
    SameLength(StableSort(StepBefore, visited), visited);
  }

  lemma SameLength<T>(a: seq<T>, b: seq<T>)
    requires multiset(a) == multiset(b)
    ensures |a| == |b|
  {
    assert |a| == |multiset(a)| == |multiset(b)| == |b|;
  }

  lemma StepHasNode(order: seq<string>, nodes: Nodes, steps: seq<Step>, step: Step)
    requires IsListing(order, nodes.Keys) && step in steps && multiset(steps) == multiset(Visited(order, nodes))
    ensures HasNode(step, nodes)
  {
    var visited := Visited(order, nodes);
    assert step in multiset(visited);
    var k :| 0 <= k < |visited| && visited[k] == step;
    assert order[k] in nodes.Keys && Shows(step, nodes[order[k]]);
  }

  lemma NodeIsShown(order: seq<string>, nodes: Nodes, steps: seq<Step>, id: string)
    requires IsListing(order, nodes.Keys) && id in nodes && multiset(steps) == multiset(Visited(order, nodes))
    ensures IsShown(nodes[id], steps)
  {
    var visited := Visited(order, nodes);
    var k :| 0 <= k < |order| && order[k] == id;
    assert visited[k] in multiset(steps) && Shows(visited[k], nodes[id]);
  }

  /** The timeline is in order, and it shows every node and nothing else, one step a node. */
  lemma TimelineIsExact(order: seq<string>, nodes: Nodes, steps: seq<Step>)
    requires IsListing(order, nodes.Keys) && steps == StableSort(StepBefore, Visited(order, nodes))
    ensures IsTimelineOf(steps, nodes)
  {
    SortedSteps(order, nodes);
    forall id | id in nodes ensures IsShown(nodes[id], steps) {
      NodeIsShown(order, nodes, steps, id);
    }
    forall step | step in steps ensures HasNode(step, nodes) {
      StepHasNode(order, nodes, steps, step);
    }
  }

  method Timeline(nodes: Nodes) returns (steps: seq<Step>, ghost order: seq<string>)
    ensures IsListing(order, nodes.Keys)
    ensures steps == StableSort(StepBefore, Visited(order, nodes))
    ensures IsTimelineOf(steps, nodes)
  {
    steps, order := Collect(nodes);
    steps := StableSort(StepBefore, steps);
    TimelineIsExact(order, nodes, steps);
  }

  /** The steps in the order of a walk over the nodes. */
  method Collect(nodes: Nodes) returns (steps: seq<Step>, ghost order: seq<string>)
    ensures IsListing(order, nodes.Keys) && steps == Visited(order, nodes)
  {
    steps, order := [], [];
    var left := nodes.Keys;
    while left != {}
      invariant left <= nodes.Keys
      invariant IsListing(order, nodes.Keys - left)
      invariant steps == Visited(order, nodes)
      decreases left
    {
      var id :| id in left;
      var n := nodes[id];
      var step := Step(n.displayName, n.phase, n.started, n.finished, None);
      if n.message != "" {
        step := step.(message := Some(n.message));
      }
      steps, order := steps + [step], order + [id];
      left := left - {id};
    }
    assert nodes.Keys - left == nodes.Keys;
  }

  lemma VisitedConcat(a: seq<string>, b: seq<string>, nodes: Nodes)
    requires forall i :: 0 <= i < |a| ==> a[i] in nodes
    requires forall i :: 0 <= i < |b| ==> b[i] in nodes
    ensures forall i :: 0 <= i < |a + b| ==> (a + b)[i] in nodes
    ensures Visited(a + b, nodes) == Visited(a, nodes) + Visited(b, nodes)
  {
  }

  lemma ListingWithout(b: seq<string>, i: nat, s: set<string>)
    requires IsListing(b, s) && i < |b|
    ensures IsListing(b[..i] + b[i + 1..], s - {b[i]})
  {
    var c := b[..i] + b[i + 1..];
    forall x | x in s - {b[i]} ensures x in c {
      var k :| 0 <= k < |b| && b[k] == x;
      assert if k < i then c[k] == x else c[k - 1] == x;
    }
  }

  lemma {:induction false} ListingLength(a: seq<string>, s: set<string>)
    requires IsListing(a, s)
    ensures |a| == |s|
  {
    if a == [] {
      assert s == {};
    } else {
      var n := |a| - 1;
      ListingWithout(a, n, s);
      assert a[..n] + a[n + 1..] == a[..n];
      ListingLength(a[..n], s - {a[n]});
    }
  }

  /** Two walks over the same keys visit the same steps. */
  lemma {:induction false} SameSteps(a: seq<string>, b: seq<string>, s: set<string>, nodes: Nodes)
    requires IsListing(a, s) && IsListing(b, s) && s <= nodes.Keys
    ensures multiset(Visited(a, nodes)) == multiset(Visited(b, nodes))
  {
    ListingLength(a, s);
    ListingLength(b, s);
    if a != [] {
      var n := |a| - 1;
      assert a[n] in s;
      var i :| 0 <= i < |b| && b[i] == a[n];
      assert forall k :: 0 <= k < |b| ==> b[k] in nodes;
      ListingWithout(a, n, s);
      ListingWithout(b, i, s);
      assert a[..n] + a[n + 1..] == a[..n];
      SameSteps(a[..n], b[..i] + b[i + 1..], s - {a[n]}, nodes);
      VisitedSplit(a, n, nodes);
      VisitedSplit(b, i, nodes);
    }
  }

  lemma VisitedSplit(b: seq<string>, i: nat, nodes: Nodes)
    requires i < |b| && forall k :: 0 <= k < |b| ==> b[k] in nodes
    ensures multiset(Visited(b, nodes)) == multiset(Visited(b[..i] + b[i + 1..], nodes)) + multiset{StepOf(nodes[b[i]])}
  {
    VisitedConcat(b[..i], b[i + 1..], nodes);
    VisitedConcat([b[i]], b[i + 1..], nodes);
    VisitedConcat(b[..i], [b[i]] + b[i + 1..], nodes);
    assert b == b[..i] + ([b[i]] + b[i + 1..]);
    assert Visited([b[i]], nodes) == [StepOf(nodes[b[i]])];
  }

  /** The order of the timeline is canonical: any two walks over the same nodes show the same starts and names in
      the same order. */
  lemma OrderIsCanonical(a: seq<string>, b: seq<string>, nodes: Nodes)
    requires IsListing(a, nodes.Keys) && IsListing(b, nodes.Keys)
    ensures Map(KeyOf, StableSort(StepBefore, Visited(a, nodes)))
        == Map(KeyOf, StableSort(StepBefore, Visited(b, nodes)))
  {
    var sa, sb := Visited(a, nodes), Visited(b, nodes);
    ComparatorIsWeakOrder();
    SameSteps(a, b, nodes.Keys, nodes);
    SortMap(StepBefore, KeyBefore, KeyOf, sa);
    SortMap(StepBefore, KeyBefore, KeyOf, sb);
    MapMultiset(KeyOf, sa, sb);
    StableSortSorts(KeyBefore, Map(KeyOf, sa));
    StableSortSorts(KeyBefore, Map(KeyOf, sb));
    UntiedSortedIsUnique(KeyBefore, StableSort(KeyBefore, Map(KeyOf, sa)), StableSort(KeyBefore, Map(KeyOf, sb)));
  }

  /** Nodes that cannot be told apart by start and name look the same altogether. */
  ghost predicate HasNoTwins(nodes: Nodes) {
    forall i, j :: i in nodes && j in nodes && KeyOf(StepOf(nodes[i])) == KeyOf(StepOf(nodes[j])) ==>
      StepOf(nodes[i]) == StepOf(nodes[j])
  }

  ghost predicate IsCanonical(nodes: Nodes) {
    forall a, b :: IsListing(a, nodes.Keys) && IsListing(b, nodes.Keys)
      ==> StableSort(StepBefore, Visited(a, nodes)) == StableSort(StepBefore, Visited(b, nodes))
  }

  lemma NoTwinsSameTimeline(a: seq<string>, b: seq<string>, nodes: Nodes)
    requires IsListing(a, nodes.Keys) && IsListing(b, nodes.Keys) && HasNoTwins(nodes)
    ensures StableSort(StepBefore, Visited(a, nodes)) == StableSort(StepBefore, Visited(b, nodes))
  {
    var ta, tb := StableSort(StepBefore, Visited(a, nodes)), StableSort(StepBefore, Visited(b, nodes));
    OrderIsCanonical(a, b, nodes);
    assert |ta| == |Map(KeyOf, ta)| == |Map(KeyOf, tb)| == |tb|;
    forall i | 0 <= i < |ta| ensures ta[i] == tb[i] {
      assert Map(KeyOf, ta)[i] == KeyOf(ta[i]) && Map(KeyOf, tb)[i] == KeyOf(tb[i]);
      var x := ComesFrom(a, nodes, ta[i]);
      var y := ComesFrom(b, nodes, tb[i]);
    }
  }

  lemma ComesFrom(order: seq<string>, nodes: Nodes, step: Step) returns (id: string)
    requires IsListing(order, nodes.Keys) && step in StableSort(StepBefore, Visited(order, nodes))
    ensures id in nodes && StepOf(nodes[id]) == step
  {
    var steps := Visited(order, nodes);
    ComparatorIsWeakOrder();
    StableSortSorts(StepBefore, steps);
    assert step in multiset(steps);
    var i :| 0 <= i < |steps| && steps[i] == step;
    id := order[i];
    assert id in nodes.Keys;
  }

  lemma FirstOfClass(s: seq<Step>, x: Step)
    requires s != [] && Tied(StepBefore, x, s[0])
    ensures Class(StepBefore, s, x) != [] && Class(StepBefore, s, x)[0] == s[0]
  {
    ClassHead(StepBefore, s, x);
  }

  lemma TwoMoreListed(i: string, j: string, rest: seq<string>, s: set<string>)
    requires i != j && i in s && j in s && IsListing(rest, s - {i, j})
    ensures IsListing([i, j] + rest, s)
  {
  }

  /** Of two tied nodes at the front of a walk the first stays first. */
  lemma FirstTwinFirst(i: string, j: string, rest: seq<string>, nodes: Nodes, x: Step)
    requires IsListing([i, j] + rest, nodes.Keys) && i in nodes && Tied(StepBefore, x, StepOf(nodes[i]))
    ensures var tied := Class(StepBefore, StableSort(StepBefore, Visited([i, j] + rest, nodes)), x);
      tied != [] && tied[0] == StepOf(nodes[i])
  {
    ComparatorIsWeakOrder();
    SortKeepsTies(StepBefore, Visited([i, j] + rest, nodes), x);
    FirstOfClass(Visited([i, j] + rest, nodes), x);
  }

  /** Twins do change places with the walk. */
  lemma TwinsSwap(i: string, j: string, nodes: Nodes)
    requires i in nodes && j in nodes
    requires KeyOf(StepOf(nodes[i])) == KeyOf(StepOf(nodes[j])) && StepOf(nodes[i]) != StepOf(nodes[j])
    ensures !IsCanonical(nodes)
  {
    var rest := SomeListing(nodes.Keys - {i, j});
    var x := StepOf(nodes[i]);
    ComparatorIsWeakOrder();
    assert IsAsymmetricAt(StepBefore, x, x);
    TwoMoreListed(i, j, rest, nodes.Keys);
    TwoMoreListed(j, i, rest, nodes.Keys);
    FirstTwinFirst(i, j, rest, nodes, x);
    FirstTwinFirst(j, i, rest, nodes, x);
  }

  /** The whole timeline is the same for every walk if and only if nodes with equal start and name show equal steps. */
  lemma TimelineIsCanonicalIff(nodes: Nodes)
    ensures IsCanonical(nodes) <==> HasNoTwins(nodes)
  {
    if HasNoTwins(nodes) {
      forall a, b | IsListing(a, nodes.Keys) && IsListing(b, nodes.Keys)
        ensures StableSort(StepBefore, Visited(a, nodes)) == StableSort(StepBefore, Visited(b, nodes))
      {
        NoTwinsSameTimeline(a, b, nodes);
      }
    } else {
      var i, j :| i in nodes && j in nodes
        && KeyOf(StepOf(nodes[i])) == KeyOf(StepOf(nodes[j])) && StepOf(nodes[i]) != StepOf(nodes[j]);
      TwinsSwap(i, j, nodes);
    }
  }
}
