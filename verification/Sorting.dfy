/** Python's sorted, on a set of distinct keys. */
module Sorting {

  ghost predicate StrictTotal<T(!new)>(less: (T, T) -> bool) {
    && (forall x, y, z :: less(x, y) && less(y, z) ==> less(x, z))
    && (forall x, y :: x != y ==> less(x, y) || less(y, x))
  }

  ghost predicate Ascends<T>(r: seq<T>, less: (T, T) -> bool) {
    forall i, j :: 0 <= i < j < |r| ==> less(r[i], r[j])
  }

  function Elements<T>(r: seq<T>): set<T> { set x | x in r }

  lemma {:induction false} InsertAscends<T(!new)>(r: seq<T>, x: T, k: nat, less: (T, T) -> bool)
    requires StrictTotal(less) && Ascends(r, less) && x !in r && k <= |r|
    requires forall i :: 0 <= i < k ==> less(r[i], x)
    requires k < |r| ==> !less(r[k], x)
    ensures Ascends(r[..k] + [x] + r[k..], less)
  {
    var s := r[..k] + [x] + r[k..];
    forall i, j | 0 <= i < j < |s|
      ensures less(s[i], s[j])
    {
      if k < |r| {
        assert less(x, r[k]);
      }
      if i == k {
        assert s[j] == r[j - 1];
        assert j - 1 == k || less(r[k], r[j - 1]);
      }
    }
  }

  method Sorted<T(!new, ==)>(s: set<T>, less: (T, T) -> bool) returns (r: seq<T>)
    requires StrictTotal(less)
    ensures Ascends(r, less)
    ensures Elements(r) == s
  {
    r := [];
    var rest := s;
    while rest != {}
      invariant rest <= s
      invariant Elements(r) == s - rest
      invariant Ascends(r, less)
      decreases rest
    {
      var x :| x in rest;
      var k := 0;
      while k < |r| && less(r[k], x)
        invariant 0 <= k <= |r|
        invariant forall i :: 0 <= i < k ==> less(r[i], x)
      {
        k := k + 1;
      }
      assert x !in Elements(r);
      InsertAscends(r, x, k, less);
      InsertElements(r, x, k);
      r := r[..k] + [x] + r[k..];
      rest := rest - {x};
    }
  }

  lemma {:induction false} InsertElements<T>(r: seq<T>, x: T, k: nat)
    requires k <= |r|
    ensures Elements(r[..k] + [x] + r[k..]) == Elements(r) + {x}
  {
    var s := r[..k] + [x] + r[k..];
    assert forall y :: y in s <==> y in r[..k] || y == x || y in r[k..];
    assert r == r[..k] + r[k..];
  }

  /** No element is out of place; equal elements may repeat. */
  ghost predicate InOrder<T>(r: seq<T>, less: (T, T) -> bool) {
    forall i, j :: 0 <= i < j < |r| ==> !less(r[j], r[i])
  }

  ghost predicate Asymmetric<T(!new)>(less: (T, T) -> bool) {
    forall x, y :: less(x, y) ==> !less(y, x)
  }

  lemma {:induction false} InsertInOrder<T(!new)>(r: seq<T>, x: T, k: nat, less: (T, T) -> bool)
    requires StrictTotal(less) && Asymmetric(less) && InOrder(r, less) && k <= |r|
    requires forall i :: 0 <= i < k ==> less(r[i], x)
    requires k < |r| ==> !less(r[k], x)
    ensures InOrder(r[..k] + [x] + r[k..], less)
  {
    var s := r[..k] + [x] + r[k..];
    forall i, j | 0 <= i < j < |s|
      ensures !less(s[j], s[i])
    {
      if i == k {
        assert s[j] == r[j - 1];
        assert j - 1 == k || !less(r[j - 1], r[k]);
      }
    }
  }

  /** Python's sorted on a list: the same elements, in order. */
  method SortedList<T(!new, ==)>(s: seq<T>, less: (T, T) -> bool) returns (r: seq<T>)
    requires StrictTotal(less) && Asymmetric(less)
    ensures InOrder(r, less)
    ensures multiset(r) == multiset(s)
  {
    r := [];
    for n := 0 to |s|
      invariant InOrder(r, less)
      invariant multiset(r) == multiset(s[..n])
    {
      var k := 0;
      while k < |r| && less(r[k], s[n])
        invariant 0 <= k <= |r|
        invariant forall i :: 0 <= i < k ==> less(r[i], s[n])
      {
        k := k + 1;
      }
      InsertInOrder(r, s[n], k, less);
      assert r == r[..k] + r[k..];
      assert s[..n + 1] == s[..n] + [s[n]];
      r := r[..k] + [s[n]] + r[k..];
    }
    assert s[..|s|] == s;
  }
}
