/** Sequences counted as bags: what is left of a list when its order does not matter. */
module Bags {
  ghost predicate Distinct<T>(s: seq<T>) {
    forall i, j :: 0 <= i < j < |s| ==> s[i] != s[j]
  }

  /** The bag of what a list shows, of its elements that are kept. */
  ghost function Kept<A, B>(keep: A -> bool, show: A -> B, s: seq<A>): multiset<B> {
    if s == [] then multiset{}
    else Kept(keep, show, s[..|s| - 1]) + if keep(s[|s| - 1]) then multiset{show(s[|s| - 1])} else multiset{}
  }

  ghost function Sum<I, B>(part: I -> multiset<B>, ids: seq<I>): multiset<B> {
    if ids == [] then multiset{} else part(ids[0]) + Sum(part, ids[1..])
  }

  /** The part of a list that belongs to an id. */
  ghost function Part<A, I, B>(key: A -> I, show: A -> B, s: seq<A>): I -> multiset<B> {
    id => Kept(a => key(a) == id, show, s)
  }

  ghost function All<A, B>(show: A -> B, s: seq<A>): multiset<B> {
    Kept(_ => true, show, s)
  }

  lemma KeptGrows<A, B>(keep: A -> bool, show: A -> B, s: seq<A>, x: A)
    ensures Kept(keep, show, s + [x]) == Kept(keep, show, s) + if keep(x) then multiset{show(x)} else multiset{}
  {
    assert (s + [x])[..|s|] == s;
  }

  /** Two ways of choosing and showing that agree on every element. */
  lemma {:induction false} KeptAlike<A, B>(keep: A -> bool, show: A -> B, also: A -> bool, as_: A -> B, s: seq<A>)
    requires forall i :: 0 <= i < |s| ==> keep(s[i]) == also(s[i]) && (keep(s[i]) ==> show(s[i]) == as_(s[i]))
    ensures Kept(keep, show, s) == Kept(also, as_, s)
  {
    if s != [] {
      assert s[|s| - 1] == s[|s| - 1];
      KeptAlike(keep, show, also, as_, s[..|s| - 1]);
    }
  }

  lemma {:induction false} SumGrows<I, B>(before: I -> multiset<B>, after: I -> multiset<B>, ids: seq<I>, at: I,
          extra: multiset<B>)
    requires Distinct(ids)
    requires forall id :: id in ids ==> after(id) == before(id) + if id == at then extra else multiset{}
    ensures Sum(after, ids) == Sum(before, ids) + if at in ids then extra else multiset{}
  {
    if ids != [] {
      assert forall id :: id in ids <==> id == ids[0] || id in ids[1..];
      assert ids[0] !in ids[1..];
      SumGrows(before, after, ids[1..], at, extra);
    }
  }

  lemma {:induction false} SumOfNothing<I, B>(part: I -> multiset<B>, ids: seq<I>)
    requires forall id :: id in ids ==> part(id) == multiset{}
    ensures Sum(part, ids) == multiset{}
  {
    if ids != [] {
      SumOfNothing(part, ids[1..]);
    }
  }

  lemma PartGrows<A, I, B>(key: A -> I, show: A -> B, s: seq<A>, x: A, id: I)
    ensures Part(key, show, s + [x])(id) ==
            Part(key, show, s)(id) + if id == key(x) then multiset{show(x)} else multiset{}
  {
    KeptGrows(a => key(a) == id, show, s, x);
  }

  /** Cut by id, a list has every element in one part. */
  lemma {:induction false} PartsMakeAll<A, I, B>(key: A -> I, show: A -> B, s: seq<A>, ids: seq<I>)
    requires Distinct(ids) && forall i :: 0 <= i < |s| ==> key(s[i]) in ids
    ensures Sum(Part(key, show, s), ids) == All(show, s)
    decreases |s|
  {
    if s == [] {
      SumOfNothing(Part(key, show, s), ids);
    } else {
      var before, x := s[..|s| - 1], s[|s| - 1];
      PartsMakeAll(key, show, before, ids);
      assert s == before + [x];
      forall id | id in ids
        ensures Part(key, show, s)(id) ==
                Part(key, show, before)(id) + if id == key(x) then multiset{show(x)} else multiset{}
      {
        PartGrows(key, show, before, x, id);
      }
      SumGrows(Part(key, show, before), Part(key, show, s), ids, key(x), multiset{show(x)});
    }
  }

  /* ---- lists and bags of lists ---- */

  function Without<T>(s: seq<T>, i: nat): seq<T>
    requires i < |s|
  {
    s[..i] + s[i + 1..]
  }

  lemma WithoutBag<T>(s: seq<T>, i: nat)
    requires i < |s|
    ensures multiset(Without(s, i)) == multiset(s) - multiset{s[i]}
  {
    assert s == s[..i] + [s[i]] + s[i + 1..];
  }

  lemma {:induction false} KeptOfBoth<A, B>(keep: A -> bool, show: A -> B, s: seq<A>, t: seq<A>)
    ensures Kept(keep, show, s + t) == Kept(keep, show, s) + Kept(keep, show, t)
    decreases |t|
  {
    if t == [] {
      assert s + t == s;
    } else {
      var before, x := t[..|t| - 1], t[|t| - 1];
      KeptOfBoth(keep, show, s, before);
      KeptGrows(keep, show, s + before, x);
      KeptGrows(keep, show, before, x);
      LastOfBoth(s, t);
      AddInAnyOrder(Kept(keep, show, s), Kept(keep, show, before), if keep(x) then multiset{show(x)} else multiset{});
    }
  }

  lemma LastOfBoth<A>(s: seq<A>, t: seq<A>)
    requires t != []
    ensures s + t == (s + t[..|t| - 1]) + [t[|t| - 1]] && t == t[..|t| - 1] + [t[|t| - 1]]
  {
  }

  lemma AddInAnyOrder<B>(a: multiset<B>, b: multiset<B>, c: multiset<B>)
    ensures a + b + c == a + (b + c)
  {
  }

  lemma AllAround<A, B>(show: A -> B, before: seq<A>, x: A, after: seq<A>)
    ensures All(show, before + [x] + after) == All(show, before + after) + multiset{show(x)}
  {
    KeptGrows(_ => true, show, before, x);
    KeptOfBoth(_ => true, show, before + [x], after);
    KeptOfBoth(_ => true, show, before, after);
  }

  lemma AllWithout<A, B>(show: A -> B, s: seq<A>, i: nat)
    requires i < |s|
    ensures All(show, s) == All(show, Without(s, i)) + multiset{show(s[i])}
  {
    AllAround(show, s[..i], s[i], s[i + 1..]);
    assert s == s[..i] + [s[i]] + s[i + 1..];
  }

  /** Showing in two steps. */
  lemma {:induction false} AllOfKept<A, B, C>(keep: A -> bool, first: A -> B, second: B -> C, both: A -> C, s: seq<A>,
          shown: seq<B>)
    requires multiset(shown) == Kept(keep, first, s)
    requires forall a :: a in s ==> both(a) == second(first(a))
    ensures All(second, shown) == Kept(keep, both, s)
    decreases |s|
  {
    if s == [] {
      assert |multiset(shown)| == 0;
    } else {
      var before, x := s[..|s| - 1], s[|s| - 1];
      assert x in s && forall a :: a in before ==> a in s;
      if keep(x) {
        var i := ShownAt(shown, Kept(keep, first, before), first(x));
        AllWithout(second, shown, i);
        AllOfKept(keep, first, second, both, before, Without(shown, i));
      } else {
        AllOfKept(keep, first, second, both, before, shown);
      }
    }
  }

  /** A list shown element by element. */
  lemma {:induction false} ShownOneByOne<A, B>(show: A -> B, s: seq<A>, shown: seq<B>)
    requires |shown| == |s| && forall i :: 0 <= i < |s| ==> shown[i] == show(s[i])
    ensures multiset(shown) == All(show, s)
  {
    if s != [] {
      var n := |s| - 1;
      ShownOneByOne(show, s[..n], shown[..n]);
      assert shown == shown[..n] + [shown[n]];
    }
  }

  lemma ShownAt<B>(shown: seq<B>, others: multiset<B>, y: B) returns (i: nat)
    requires multiset(shown) == others + multiset{y}
    ensures i < |shown| && shown[i] == y && multiset(Without(shown, i)) == others
  {
    assert y in multiset(shown);
    i :| 0 <= i < |shown| && shown[i] == y;
    WithoutBag(shown, i);
  }

  lemma {:induction false} KeptFrom<A, B>(keep: A -> bool, show: A -> B, s: seq<A>, y: B)
    requires y in Kept(keep, show, s)
    ensures exists i :: 0 <= i < |s| && keep(s[i]) && show(s[i]) == y
  {
    if keep(s[|s| - 1]) && show(s[|s| - 1]) == y {
    } else {
      KeptFrom(keep, show, s[..|s| - 1], y);
      var i :| 0 <= i < |s| - 1 && keep(s[..|s| - 1][i]) && show(s[..|s| - 1][i]) == y;
      assert s[i] == s[..|s| - 1][i];
    }
  }

  lemma {:induction false} NothingKept<A, B>(keep: A -> bool, show: A -> B, s: seq<A>)
    requires forall i :: 0 <= i < |s| ==> !keep(s[i])
    ensures Kept(keep, show, s) == multiset{}
  {
    if s != [] {
      NothingKept(keep, show, s[..|s| - 1]);
    }
  }

  lemma {:induction false} KeptHas<A, B>(keep: A -> bool, show: A -> B, s: seq<A>, x: A)
    requires x in s && keep(x)
    ensures show(x) in Kept(keep, show, s)
  {
    if s[|s| - 1] != x {
      assert x in s[..|s| - 1];
      KeptHas(keep, show, s[..|s| - 1], x);
    }
  }

  /** Of one element at most. */
  lemma {:induction false} KeptOnly<A, B>(keep: A -> bool, show: A -> B, s: seq<A>, i: nat)
    requires i < |s| && forall j :: 0 <= j < |s| && j != i ==> !keep(s[j])
    ensures Kept(keep, show, s) == if keep(s[i]) then multiset{show(s[i])} else multiset{}
  {
    if i < |s| - 1 {
      KeptOnly(keep, show, s[..|s| - 1], i);
    } else {
      NothingKept(keep, show, s[..|s| - 1]);
    }
  }
}
