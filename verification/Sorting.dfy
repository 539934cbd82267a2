/** Stable sorting by a strict weak order. */
module Sorting {
  predicate IsAsymmetricAt<T>(less: (T, T) -> bool, x: T, y: T) {
    less(x, y) ==> !less(y, x)
  }

  predicate IsSplitAt<T>(less: (T, T) -> bool, x: T, y: T, z: T) {
    less(x, z) ==> less(x, y) || less(y, z)
  }

  /** A strict weak order: asymmetric, and with transitive incomparability. */
  ghost predicate IsWeakOrder<T(!new)>(less: (T, T) -> bool) {
    && (forall x, y :: IsAsymmetricAt(less, x, y))
    && (forall x, y, z :: IsSplitAt(less, x, y, z))
  }

  ghost predicate IsSorted<T>(less: (T, T) -> bool, s: seq<T>) {
    forall i, j :: 0 <= i < j < |s| ==> !less(s[j], s[i])
  }

  /** Moves `x` left past everything it must precede, and no further. */
  function Insert<T>(less: (T, T) -> bool, s: seq<T>, x: T): seq<T> {
    if s == [] || !less(x, s[|s| - 1]) then s + [x]
    else Insert(less, s[..|s| - 1], x) + [s[|s| - 1]]
  }

  function StableSort<T>(less: (T, T) -> bool, s: seq<T>): seq<T> {
    if s == [] then [] else Insert(less, StableSort(less, s[..|s| - 1]), s[|s| - 1])
  }

  function Filter<T>(s: seq<T>, p: T -> bool): seq<T> {
    if s == [] then []
    else if p(s[|s| - 1]) then Filter(s[..|s| - 1], p) + [s[|s| - 1]]
    else Filter(s[..|s| - 1], p)
  }

  function Map<T, U>(f: T -> U, s: seq<T>): (r: seq<U>)
    ensures |r| == |s| && forall i :: 0 <= i < |s| ==> r[i] == f(s[i])
  {
    seq(|s|, i requires 0 <= i < |s| => f(s[i]))
  }

  lemma FilterSnoc<T>(s: seq<T>, x: T, p: T -> bool)
    ensures Filter(s + [x], p) == if p(x) then Filter(s, p) + [x] else Filter(s, p)
  {
    assert (s + [x])[..|s|] == s;
  }

  lemma {:induction false} FilterConcat<T>(a: seq<T>, b: seq<T>, p: T -> bool)
    ensures Filter(a + b, p) == Filter(a, p) + Filter(b, p)
  {
    if b == [] {
      assert a + b == a;
    } else {
      var n := |b| - 1;
      assert (a + b)[..|a + b| - 1] == a + b[..n];
      FilterConcat(a, b[..n], p);
    }
  }

  lemma {:induction false} FilterMember<T>(s: seq<T>, p: T -> bool, x: T)
    ensures x in Filter(s, p) <==> x in s && p(x)
  {
    if s != [] {
      FilterMember(s[..|s| - 1], p, x);
      assert s == s[..|s| - 1] + [s[|s| - 1]];
    }
  }

  lemma {:induction false} InsertAdds<T>(less: (T, T) -> bool, s: seq<T>, x: T)
    ensures multiset(Insert(less, s, x)) == multiset(s) + multiset{x}
  {
    if s != [] && less(x, s[|s| - 1]) {
      InsertAdds(less, s[..|s| - 1], x);
      assert s == s[..|s| - 1] + [s[|s| - 1]];
    }
  }

  /** What is inserted into was there before, or is the new element. */
  lemma {:induction false} InsertMember<T>(less: (T, T) -> bool, s: seq<T>, x: T, i: nat)
    requires i < |Insert(less, s, x)|
    ensures Insert(less, s, x)[i] == x || Insert(less, s, x)[i] in s
  {
    if s != [] && less(x, s[|s| - 1]) && i < |Insert(less, s[..|s| - 1], x)| {
      InsertMember(less, s[..|s| - 1], x, i);
    }
  }

  lemma AppendSorted<T(!new)>(less: (T, T) -> bool, s: seq<T>, x: T)
    requires IsSorted(less, s) && forall i :: 0 <= i < |s| ==> !less(x, s[i])
    ensures IsSorted(less, s + [x])
  {
  }

  lemma {:induction false} InsertSorted<T(!new)>(less: (T, T) -> bool, s: seq<T>, x: T)
    requires IsWeakOrder(less) && IsSorted(less, s)
    ensures IsSorted(less, Insert(less, s, x))
  {
    if s == [] || !less(x, s[|s| - 1]) {
      forall i | 0 <= i < |s| ensures !less(x, s[i]) {
        assert IsSplitAt(less, x, s[|s| - 1], s[i]);
      }
      AppendSorted(less, s, x);
    } else {
      var front, last := s[..|s| - 1], s[|s| - 1];
      InsertSorted(less, front, x);
      var r := Insert(less, front, x);
      assert IsAsymmetricAt(less, x, last);
      forall i | 0 <= i < |r| ensures !less(last, r[i]) {
        InsertMember(less, front, x, i);
      }
      AppendSorted(less, r, last);
    }
  }

  lemma InsertPermutes<T>(less: (T, T) -> bool, s: seq<T>, sorted: seq<T>, x: T)
    requires multiset(sorted) == multiset(s)
    ensures multiset(Insert(less, sorted, x)) == multiset(s + [x])
  {
    InsertAdds(less, sorted, x);
  }

  lemma {:induction false} StableSortSorts<T(!new)>(less: (T, T) -> bool, s: seq<T>)
    requires IsWeakOrder(less)
    ensures IsSorted(less, StableSort(less, s))
    ensures multiset(StableSort(less, s)) == multiset(s)
  {
    if s != [] {
      var front, last := s[..|s| - 1], s[|s| - 1];
      StableSortSorts(less, front);
      InsertSorted(less, StableSort(less, front), last);
      InsertPermutes(less, front, StableSort(less, front), last);
      assert s == front + [last];
    }
  }

  lemma InsertSnoc<T>(less: (T, T) -> bool, s: seq<T>, last: T, x: T)
    ensures Insert(less, s + [last], x) == if less(x, last) then Insert(less, s, x) + [last] else s + [last] + [x]
  {
    assert (s + [last])[..|s|] == s;
  }

  lemma SortSnoc<T>(less: (T, T) -> bool, s: seq<T>, x: T)
    ensures StableSort(less, s + [x]) == Insert(less, StableSort(less, s), x)
  {
    assert (s + [x])[..|s|] == s;
  }

  lemma BeforeNone<T(!new)>(less: (T, T) -> bool, s: seq<T>, x: T, i: nat)
    requires IsWeakOrder(less) && IsSorted(less, s) && i < |s|
    requires !less(x, s[|s| - 1])
    ensures !less(x, s[i])
  {
    assert IsSplitAt(less, x, s[|s| - 1], s[i]);
  }

  lemma {:induction false} InsertAtEnd<T(!new)>(less: (T, T) -> bool, s: seq<T>, x: T, p: T -> bool)
    requires IsWeakOrder(less) && IsSorted(less, s)
    requires s == [] || !less(x, s[|s| - 1])
    ensures Insert(less, Filter(s, p), x) == Filter(s, p) + [x]
  {
    var kept := Filter(s, p);
    if kept != [] {
      var y := kept[|kept| - 1];
      FilterMember(s, p, y);
      var i :| 0 <= i < |s| && s[i] == y;
      BeforeNone(less, s, x, i);
    }
  }

  lemma InsertFilterLast<T(!new)>(less: (T, T) -> bool, s: seq<T>, x: T, p: T -> bool)
    requires IsWeakOrder(less) && IsSorted(less, s)
    requires s == [] || !less(x, s[|s| - 1])
    ensures Filter(Insert(less, s, x), p) == if p(x) then Insert(less, Filter(s, p), x) else Filter(s, p)
  {
    FilterSnoc(s, x, p);
    InsertAtEnd(less, s, x, p);
  }

  lemma InsertFilterStep<T>(less: (T, T) -> bool, s: seq<T>, last: T, x: T, p: T -> bool)
    requires less(x, last)
    requires Filter(Insert(less, s, x), p) == if p(x) then Insert(less, Filter(s, p), x) else Filter(s, p)
    ensures Filter(Insert(less, s + [last], x), p)
         == if p(x) then Insert(less, Filter(s + [last], p), x) else Filter(s + [last], p)
  {
    InsertSnoc(less, s, last, x);
    FilterSnoc(Insert(less, s, x), last, p);
    FilterSnoc(s, last, p);
    if p(last) {
      InsertSnoc(less, Filter(s, p), last, x);
    }
  }

  lemma {:induction false} InsertFilter<T(!new)>(less: (T, T) -> bool, s: seq<T>, x: T, p: T -> bool)
    requires IsWeakOrder(less) && IsSorted(less, s)
    ensures Filter(Insert(less, s, x), p) == if p(x) then Insert(less, Filter(s, p), x) else Filter(s, p)
  {
    if s == [] || !less(x, s[|s| - 1]) {
      InsertFilterLast(less, s, x, p);
    } else {
      var front, last := s[..|s| - 1], s[|s| - 1];
      assert s == front + [last];
      InsertFilter(less, front, x, p);
      InsertFilterStep(less, front, last, x, p);
    }
  }

  lemma SortFilterStep<T(!new)>(less: (T, T) -> bool, s: seq<T>, x: T, p: T -> bool)
    requires IsWeakOrder(less)
    requires Filter(StableSort(less, s), p) == StableSort(less, Filter(s, p))
    ensures Filter(StableSort(less, s + [x]), p) == StableSort(less, Filter(s + [x], p))
  {
    StableSortSorts(less, s);
    InsertFilter(less, StableSort(less, s), x, p);
    SortSnoc(less, s, x);
    FilterSnoc(s, x, p);
    if p(x) {
      SortSnoc(less, Filter(s, p), x);
    }
  }

  /** Stability in its strongest form: sorting commutes with leaving elements out. */
  lemma {:induction false} SortFilter<T(!new)>(less: (T, T) -> bool, s: seq<T>, p: T -> bool)
    requires IsWeakOrder(less)
    ensures Filter(StableSort(less, s), p) == StableSort(less, Filter(s, p))
  {
    if s != [] {
      SortFilter(less, s[..|s| - 1], p);
      SortFilterStep(less, s[..|s| - 1], s[|s| - 1], p);
      assert s == s[..|s| - 1] + [s[|s| - 1]];
    }
  }

  lemma {:induction false} InsertMap<T, U>(lessT: (T, T) -> bool, lessU: (U, U) -> bool, f: T -> U, s: seq<T>, x: T)
    requires forall i :: 0 <= i < |s| ==> lessT(x, s[i]) == lessU(f(x), f(s[i]))
    ensures Map(f, Insert(lessT, s, x)) == Insert(lessU, Map(f, s), f(x))
  {
    if s != [] && lessT(x, s[|s| - 1]) {
      var n := |s| - 1;
      InsertMap(lessT, lessU, f, s[..n], x);
      assert Map(f, s)[..n] == Map(f, s[..n]);
    }
  }

  /** Sorting commutes with renaming elements when the order cannot see the difference. */
  lemma {:induction false} SortMap<T(!new), U>(lessT: (T, T) -> bool, lessU: (U, U) -> bool, f: T -> U, s: seq<T>)
    requires forall x, y :: lessT(x, y) == lessU(f(x), f(y))
    ensures Map(f, StableSort(lessT, s)) == StableSort(lessU, Map(f, s))
  {
    if s != [] {
      var n := |s| - 1;
      SortMap(lessT, lessU, f, s[..n]);
      assert Map(f, s)[..n] == Map(f, s[..n]);
      InsertMap(lessT, lessU, f, StableSort(lessT, s[..n]), s[n]);
    }
  }

  predicate Tied<T>(less: (T, T) -> bool, x: T, y: T) {
    !less(x, y) && !less(y, x)
  }

  function Class<T>(less: (T, T) -> bool, s: seq<T>, x: T): seq<T> {
    Filter(s, y => Tied(less, x, y))
  }

  lemma ClassHead<T(!new)>(less: (T, T) -> bool, a: seq<T>, x: T)
    requires a != []
    ensures Class(less, a, x) == (if Tied(less, x, a[0]) then [a[0]] else []) + Class(less, a[1..], x)
  {
    FilterConcat([a[0]], a[1..], y => Tied(less, x, y));
    assert a == [a[0]] + a[1..];
    assert Filter([a[0]], y => Tied(less, x, y)) == if Tied(less, x, a[0]) then [a[0]] else [];
  }

  lemma SortedHead<T(!new)>(less: (T, T) -> bool, a: seq<T>, b: seq<T>)
    requires IsWeakOrder(less) && IsSorted(less, a) && IsSorted(less, b) && a != []
    requires forall x :: Class(less, a, x) == Class(less, b, x)
    ensures b != [] && !less(b[0], a[0])
  {
    assert IsAsymmetricAt(less, a[0], a[0]);
    ClassHead(less, a, a[0]);
    assert a[0] in Class(less, b, a[0]);
    FilterMember(b, y => Tied(less, a[0], y), a[0]);
    if less(b[0], a[0]) {
      assert IsAsymmetricAt(less, b[0], b[0]);
      ClassHead(less, b, b[0]);
      assert b[0] in Class(less, a, b[0]);
      FilterMember(a, y => Tied(less, b[0], y), b[0]);
    }
  }

  /** There is only one stable sorted arrangement: any algorithm for it gives the same result. */
  lemma {:induction false} StableSortedIsUnique<T(!new)>(less: (T, T) -> bool, a: seq<T>, b: seq<T>)
    requires IsWeakOrder(less) && IsSorted(less, a) && IsSorted(less, b)
    requires forall x :: Class(less, a, x) == Class(less, b, x)
    ensures a == b
  {
    if a == [] {
      if b != [] {
        SortedHead(less, b, a);
      }
    } else {
      SortedHead(less, a, b);
      SortedHead(less, b, a);
      assert IsAsymmetricAt(less, a[0], a[0]);
      assert Tied(less, a[0], b[0]) && Tied(less, a[0], a[0]);
      ClassHead(less, a, a[0]);
      ClassHead(less, b, a[0]);
      assert a[0] == Class(less, a, a[0])[0] == b[0];
      forall x ensures Class(less, a[1..], x) == Class(less, b[1..], x) {
        ClassHead(less, a, x);
        ClassHead(less, b, x);
        var head := if Tied(less, x, a[0]) then [a[0]] else [];
        assert head + Class(less, a[1..], x) == head + Class(less, b[1..], x);
        assert Class(less, a[1..], x) == (head + Class(less, a[1..], x))[|head|..];
        assert Class(less, b[1..], x) == (head + Class(less, b[1..], x))[|head|..];
      }
      StableSortedIsUnique(less, a[1..], b[1..]);
    }
  }

  /** Ties keep the order they came in. */
  lemma SortKeepsTies<T(!new)>(less: (T, T) -> bool, s: seq<T>, x: T)
    requires IsWeakOrder(less)
    ensures Class(less, StableSort(less, s), x) == Class(less, s, x)
  {
    SortFilter(less, s, y => Tied(less, x, y));
    var c := Class(less, s, x);
    forall i, j | 0 <= i < j < |c| ensures !less(c[j], c[i]) {
      FilterMember(s, y => Tied(less, x, y), c[i]);
      FilterMember(s, y => Tied(less, x, y), c[j]);
      assert IsSplitAt(less, c[j], x, c[i]);
    }
    SortedStays(less, c);
  }

  /** `StableSort` is that arrangement: whatever is sorted and keeps every tie in its given order equals it. */
  lemma StableSortIsTheOne<T(!new)>(less: (T, T) -> bool, s: seq<T>, r: seq<T>)
    requires IsWeakOrder(less) && IsSorted(less, r)
    requires forall x :: Class(less, r, x) == Class(less, s, x)
    ensures r == StableSort(less, s)
  {
    StableSortSorts(less, s);
    forall x ensures Class(less, r, x) == Class(less, StableSort(less, s), x) {
      SortKeepsTies(less, s, x);
    }
    StableSortedIsUnique(less, r, StableSort(less, s));
  }

  lemma {:induction false} SortedStays<T(!new)>(less: (T, T) -> bool, s: seq<T>)
    requires IsSorted(less, s)
    ensures StableSort(less, s) == s
  {
    if s != [] {
      var n := |s| - 1;
      SortedStays(less, s[..n]);
    }
  }

  lemma MultisetSplit<T>(b: seq<T>, i: nat)
    requires i < |b|
    ensures multiset(b) == multiset(b[..i] + b[i + 1..]) + multiset{b[i]}
    ensures multiset(b[..i] + b[i + 1..]) == multiset(b) - multiset{b[i]}
  {
    assert b == b[..i] + ([b[i]] + b[i + 1..]);
  }

  lemma MapSplit<T, U>(f: T -> U, b: seq<T>, i: nat)
    requires i < |b|
    ensures multiset(Map(f, b)) == multiset(Map(f, b[..i] + b[i + 1..])) + multiset{f(b[i])}
  {
    MultisetSplit(Map(f, b), i);
    assert Map(f, b)[..i] + Map(f, b)[i + 1..] == Map(f, b[..i] + b[i + 1..]);
  }

  lemma {:induction false} MapMultiset<T, U>(f: T -> U, a: seq<T>, b: seq<T>)
    requires multiset(a) == multiset(b)
    ensures multiset(Map(f, a)) == multiset(Map(f, b))
  {
    if a == [] {
      assert |multiset(b)| == 0;
    } else {
      var n := |a| - 1;
      assert a[n] in multiset(b);
      var i :| 0 <= i < |b| && b[i] == a[n];
      var c := b[..i] + b[i + 1..];
      MultisetSplit(a, n);
      MultisetSplit(b, i);
      assert a[..n] + a[n + 1..] == a[..n];
      MapMultiset(f, a[..n], c);
      MapSplit(f, a, n);
      MapSplit(f, b, i);
    }
  }

  lemma HeadsTie<T(!new)>(less: (T, T) -> bool, a: seq<T>, b: seq<T>)
    requires IsSorted(less, a) && IsSorted(less, b) && multiset(a) == multiset(b) && a != [] && b != []
    requires IsAsymmetricAt(less, a[0], a[0])
    ensures Tied(less, a[0], b[0])
  {
    assert a[0] in multiset(b) && b[0] in multiset(a);
    var i :| 0 <= i < |b| && b[i] == a[0];
    var j :| 0 <= j < |a| && a[j] == b[0];
  }

  lemma MultisetTail<T>(a: seq<T>)
    requires a != []
    ensures multiset(a[1..]) == multiset(a) - multiset{a[0]}
  {
    assert a == [a[0]] + a[1..];
  }

  lemma TailsMatch<T>(a: seq<T>, b: seq<T>)
    requires a != [] && b != [] && a[0] == b[0] && multiset(a) == multiset(b)
    ensures multiset(a[1..]) == multiset(b[1..])
  {
    MultisetTail(a);
    MultisetTail(b);
  }

  /** Without ties between different elements the sorted arrangement depends on the multiset alone. */
  lemma {:induction false} UntiedSortedIsUnique<T(!new)>(less: (T, T) -> bool, a: seq<T>, b: seq<T>)
    requires IsSorted(less, a) && IsSorted(less, b) && multiset(a) == multiset(b)
    requires forall x, y :: x in a && y in a && Tied(less, x, y) ==> x == y
    requires forall x, y :: IsAsymmetricAt(less, x, y)
    ensures a == b
  {
    assert |a| == |multiset(a)| == |multiset(b)| == |b|;
    if a != [] {
      HeadsTie(less, a, b);
      assert a[0] in a && b[0] in multiset(a);
      TailsMatch(a, b);
      UntiedSortedIsUnique(less, a[1..], b[1..]);
    }
  }

  /** `x` comes before `y` in `s`. */
  ghost predicate IsBefore<T>(s: seq<T>, x: T, y: T) {
    exists i, j :: 0 <= i < j < |s| && s[i] == x && s[j] == y
  }

  lemma BeforeSnoc<T>(s: seq<T>, last: T, x: T, y: T)
    ensures IsBefore(s + [last], x, y) <==> IsBefore(s, x, y) || (x in s && y == last)
  {
    var more := s + [last];
    if IsBefore(s, x, y) {
      var i, j :| 0 <= i < j < |s| && s[i] == x && s[j] == y;
      assert more[i] == x && more[j] == y;
    }
    if x in s && y == last {
      var i :| 0 <= i < |s| && s[i] == x;
      assert more[i] == x && more[|s|] == y;
    }
    if IsBefore(more, x, y) {
      var i, j :| 0 <= i < j < |more| && more[i] == x && more[j] == y;
      assert s[i] == x && (j < |s| ==> s[j] == y);
    }
  }

  /** Leaving others out does not change who comes first. */
  lemma {:induction false} FilterKeepsBefore<T>(s: seq<T>, p: T -> bool, x: T, y: T)
    requires p(x) && p(y)
    ensures IsBefore(Filter(s, p), x, y) <==> IsBefore(s, x, y)
  {
    if s != [] {
      var front, last := s[..|s| - 1], s[|s| - 1];
      FilterKeepsBefore(front, p, x, y);
      assert s == front + [last];
      FilterSnoc(front, last, p);
      FilterMember(front, p, x);
      BeforeSnoc(front, last, x, y);
      BeforeSnoc(Filter(front, p), last, x, y);
    }
  }

  /** A stable sort does not change which of two tied elements comes first. */
  lemma SortKeepsBefore<T(!new)>(less: (T, T) -> bool, s: seq<T>, x: T, y: T)
    requires IsWeakOrder(less) && Tied(less, x, y)
    ensures IsBefore(StableSort(less, s), x, y) <==> IsBefore(s, x, y)
  {
    assert IsAsymmetricAt(less, x, x);
    SortKeepsTies(less, s, x);
    FilterKeepsBefore(s, z => Tied(less, x, z), x, y);
    FilterKeepsBefore(StableSort(less, s), z => Tied(less, x, z), x, y);
  }

  lemma {:induction false} FilterCounts<T>(s: seq<T>, p: T -> bool, x: T)
    ensures multiset(Filter(s, p))[x] == if p(x) then multiset(s)[x] else 0
  {
    if s != [] {
      FilterCounts(s[..|s| - 1], p, x);
      assert s == s[..|s| - 1] + [s[|s| - 1]];
    }
  }

  lemma {:induction false} FilterKeepsAll<T>(s: seq<T>, p: T -> bool)
    requires forall x :: x in s ==> p(x)
    ensures Filter(s, p) == s
  {
    if s != [] {
      FilterKeepsAll(s[..|s| - 1], p);
      assert s == s[..|s| - 1] + [s[|s| - 1]];
    }
  }
}
