/** Optional values and results, shared by every module. */
module Wrappers {
  datatype Option<+T> = None | Some(value: T)

  datatype Result<+T, +E> = Success(value: T) | Failure(error: E)

  /** `xs` enumerates exactly the elements of `s`, each once, in some order. */
  predicate IsListing<T(==)>(xs: seq<T>, s: set<T>) {
    && (forall i, j :: 0 <= i < j < |xs| ==> xs[i] != xs[j])
    && (forall x :: x in s ==> x in xs)
    && (forall i :: 0 <= i < |xs| ==> xs[i] in s)
  }

  /** `err` is the first error in `errs`, or None when there is none. */
  predicate IsFirst<E(==)>(err: Option<E>, errs: seq<Option<E>>) {
    match err
    case None => forall i :: 0 <= i < |errs| ==> errs[i].None?
    case Some(_) => exists i :: 0 <= i < |errs| && errs[i] == err && forall j :: 0 <= j < i ==> errs[j].None?
  }

  /** No error comes before it, and there is none only if nothing failed. */
  lemma FirstIsFirst<E>(err: Option<E>, errs: seq<Option<E>>, i: nat)
    requires IsFirst(err, errs) && i < |errs|
    ensures errs[i].Some? && (forall j :: 0 <= j < i ==> errs[j].None?) ==> err == errs[i]
    ensures err.None? ==> errs[i].None?
  {
  }

  /** Keeping the earlier error, as the loops that gather errors do. */
  lemma FirstStep<E>(err: Option<E>, errs: seq<Option<E>>, e: Option<E>)
    requires IsFirst(err, errs)
    ensures IsFirst(if e.Some? && err.None? then e else err, errs + [e])
  {
    var more := errs + [e];
    if err.Some? {
      var i :| 0 <= i < |errs| && errs[i] == err && forall j :: 0 <= j < i ==> errs[j].None?;
      assert more[i] == err;
    } else if e.Some? {
      assert more[|errs|] == e;
    }
  }

  lemma {:induction false} SomeListing<T>(s: set<T>) returns (order: seq<T>)
    ensures IsListing(order, s)
  {
    if s == {} {
      order := [];
    } else {
      var x :| x in s;
      order := SomeListing(s - {x});
      order := order + [x];
    }
  }

  lemma {:induction false} ListingCounts<T>(xs: seq<T>, s: set<T>, x: T)
    requires IsListing(xs, s)
    ensures multiset(xs)[x] == if x in s then 1 else 0
  {
    if xs != [] {
      var n := |xs| - 1;
      assert xs == xs[..n] + [xs[n]];
      assert IsListing(xs[..n], s - {xs[n]});
      ListingCounts(xs[..n], s - {xs[n]}, x);
    }
  }

  lemma TwiceCounts<T>(xs: seq<T>, i: nat, j: nat)
    requires i < j < |xs|
    ensures xs[i] == xs[j] ==> multiset(xs)[xs[i]] >= 2
  {
    var a, b := xs[..j], xs[j..];
    assert xs == a + b;
    assert a[i] in a && b[0] in b;
  }

  /** Being a listing is a matter of the multiset alone. */
  lemma ListingByCounts<T>(xs: seq<T>, s: set<T>)
    requires forall x :: multiset(xs)[x] == if x in s then 1 else 0
    ensures IsListing(xs, s)
  {
    forall i, j | 0 <= i < j < |xs| ensures xs[i] != xs[j] {
      TwiceCounts(xs, i, j);
      assert multiset(xs)[xs[i]] <= 1;
    }
    forall x | x in s ensures x in xs {
      assert multiset(xs)[x] == 1;
    }
    forall i | 0 <= i < |xs| ensures xs[i] in s {
      assert xs[i] in multiset(xs);
    }
  }

  lemma PermutedListing<T>(xs: seq<T>, ys: seq<T>, s: set<T>)
    requires IsListing(xs, s) && multiset(ys) == multiset(xs)
    ensures IsListing(ys, s)
  {
    forall x ensures multiset(ys)[x] == if x in s then 1 else 0 {
      ListingCounts(xs, s, x);
    }
    ListingByCounts(ys, s);
  }
}
