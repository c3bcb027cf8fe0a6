/** The sort the adapter gets from Go's `sort` package: some sorted permutation, ties in any order. */
module Sorting {

  /** What `sort.Slice` asks of its comparison. */
  ghost predicate StrictWeakOrder<T(!new)>(less: (T, T) -> bool) {
    && (forall x, y :: less(x, y) ==> !less(y, x))
    && (forall x, y, z :: less(x, z) ==> less(x, y) || less(y, z))
  }

  ghost predicate SortedBy<T>(less: (T, T) -> bool, s: seq<T>) {
    forall i, j :: 0 <= i < j < |s| ==> !less(s[j], s[i])
  }

  /** Where a value goes: behind all that are not above it. */
  method Place<T(!new)>(less: (T, T) -> bool, r: seq<T>, x: T) returns (k: nat)
    ensures k <= |r| && (forall i :: 0 <= i < k ==> !less(x, r[i])) && (k < |r| ==> less(x, r[k]))
  {
    k := 0;
    while k < |r| && !less(x, r[k])
      invariant 0 <= k <= |r|
      invariant forall i :: 0 <= i < k ==> !less(x, r[i])
    {
      k := k + 1;
    }
  }

  lemma InsertedBag<T>(r: seq<T>, k: nat, x: T)
    requires k <= |r|
    ensures multiset(r[..k] + [x] + r[k..]) == multiset(r) + multiset{x}
  {
    assert r == r[..k] + r[k..];
  }

  lemma PrefixBag<T>(s: seq<T>, n: nat)
    requires n < |s|
    ensures multiset(s[..n + 1]) == multiset(s[..n]) + multiset{s[n]}
  {
    assert s[..n + 1] == s[..n] + [s[n]];
  }

  /** `sort.Slice`, `sort.Strings`: by insertion here, since only the outcome is promised. */
  method Sort<T(!new)>(less: (T, T) -> bool, s: seq<T>) returns (r: seq<T>)
    requires StrictWeakOrder(less)
    ensures SortedBy(less, r)
    ensures multiset(r) == multiset(s)
  {
    r := [];
    for n := 0 to |s|
      invariant SortedBy(less, r)
      invariant multiset(r) == multiset(s[..n])
    {
      var k := Place(less, r, s[n]);
      InsertSorted(less, r, k, s[n]);
      InsertedBag(r, k, s[n]);
      PrefixBag(s, n);
      r := r[..k] + [s[n]] + r[k..];
    }
    assert s[..|s|] == s;
  }

  lemma InsertSorted<T(!new)>(less: (T, T) -> bool, r: seq<T>, k: nat, x: T)
    requires StrictWeakOrder(less) && SortedBy(less, r)
    requires k <= |r| && (forall i :: 0 <= i < k ==> !less(x, r[i])) && (k < |r| ==> less(x, r[k]))
    ensures SortedBy(less, r[..k] + [x] + r[k..])
  {
    var t := r[..k] + [x] + r[k..];
    forall i, j | 0 <= i < j < |t|
      ensures !less(t[j], t[i])
    {
      if i == k {
        assert t[j] == r[j - 1];
      } else if j == k {
      } else {
        var i' := if i < k then i else i - 1;
        var j' := if j < k then j else j - 1;
        assert t[i] == r[i'] && t[j] == r[j'];
      }
    }
  }

  /** A weak order that tells any two different values apart. */
  ghost predicate TotalOrder<T(!new)>(less: (T, T) -> bool) {
    StrictWeakOrder(less) && forall x, y :: less(x, y) || x == y || less(y, x)
  }

  lemma MultisetOfTail<T>(s: seq<T>)
    requires s != []
    ensures multiset(s[1..]) == multiset(s) - multiset{s[0]}
  {
    assert s == [s[0]] + s[1..];
  }

  lemma HeadsAgree<T(!new)>(less: (T, T) -> bool, s: seq<T>, t: seq<T>)
    requires TotalOrder(less) && SortedBy(less, s) && SortedBy(less, t)
    requires multiset(s) == multiset(t) && s != []
    ensures t != [] && s[0] == t[0]
  {
    assert s[0] in multiset(s);
    var j :| 0 <= j < |t| && t[j] == s[0];
    assert t[0] in multiset(t);
    var i :| 0 <= i < |s| && s[i] == t[0];
    assert i == 0 || !less(s[i], s[0]);
    assert j == 0 || !less(t[j], t[0]);
  }

  lemma TailSorted<T>(less: (T, T) -> bool, s: seq<T>)
    requires SortedBy(less, s) && s != []
    ensures SortedBy(less, s[1..]) && s == [s[0]] + s[1..]
  {
  }

  /** Under a total order, sorting a bag of values has one outcome. */
  lemma {:induction false} SortedBagUnique<T(!new)>(less: (T, T) -> bool, s: seq<T>, t: seq<T>)
    requires TotalOrder(less) && SortedBy(less, s) && SortedBy(less, t) && multiset(s) == multiset(t)
    ensures s == t
  {
    if s == [] {
      assert |multiset(t)| == 0;
    } else {
      HeadsAgree(less, s, t);
      MultisetOfTail(s);
      MultisetOfTail(t);
      TailSorted(less, s);
      TailSorted(less, t);
      SortedBagUnique(less, s[1..], t[1..]);
    }
  }

  lemma SmallerOfTwo<T(!new)>(less: (T, T) -> bool, x: T, other: T, y: T)
    requires TotalOrder(less) && (y == x || !less(y, other))
    ensures !less(y, if less(x, other) then x else other)
  {
  }

  lemma {:induction false} LeastOfBag<T(!new)>(less: (T, T) -> bool, bag: multiset<T>) returns (least: T)
    requires TotalOrder(less) && bag != multiset{}
    ensures least in bag && forall x :: x in bag ==> !less(x, least)
    decreases |bag|
  {
    var x :| x in bag;
    var others := bag - multiset{x};
    least := x;
    if others != multiset{} {
      var other := LeastOfBag(less, others);
      least := if less(x, other) then x else other;
      forall y | y in bag
        ensures !less(y, least)
      {
        assert y == x || y in others;
        SmallerOfTwo(less, x, other, y);
      }
    } else {
      forall y | y in bag
        ensures !less(y, x)
      {
        assert y == x || y in others;
      }
    }
  }

  lemma LeastThere<T(!new)>(less: (T, T) -> bool, bag: multiset<T>)
    requires TotalOrder(less) && bag != multiset{}
    ensures exists least :: least in bag && forall x :: x in bag ==> !less(x, least)
  {
    var _ := LeastOfBag(less, bag);
  }

  /** The sorted sequence of a bag. */
  ghost function Arranged<T(!new)>(less: (T, T) -> bool, bag: multiset<T>): (s: seq<T>)
    requires TotalOrder(less)
    ensures SortedBy(less, s) && multiset(s) == bag
    decreases |bag|
  {
    if bag == multiset{} then []
    else
      LeastThere(less, bag);
      var first :| first in bag && forall x :: x in bag ==> !less(x, first);
      var rest := Arranged(less, bag - multiset{first});
      ArrangeCons(less, first, rest, bag);
      [first] + rest
  }

  lemma ArrangeCons<T(!new)>(less: (T, T) -> bool, first: T, rest: seq<T>, bag: multiset<T>)
    requires SortedBy(less, rest) && first in bag && multiset(rest) == bag - multiset{first}
    requires forall x :: x in bag ==> !less(x, first)
    ensures SortedBy(less, [first] + rest) && multiset([first] + rest) == bag
  {
    assert multiset([first] + rest) == multiset{first} + multiset(rest);
    forall j | 0 <= j < |rest|
      ensures rest[j] in bag
    {
      assert rest[j] in multiset(rest);
    }
  }
}
