/** Text as the adapter handles it: valid UTF-8, seen as a sequence of Unicode scalar values.
    Go orders strings byte by byte, which for valid UTF-8 is the order of the code points. */
module Text {

  /** The strict order of `sort.Strings` and of the C collation. */
  predicate Below(a: string, b: string) {
    b != [] && (a == [] || a[0] < b[0] || (a[0] == b[0] && Below(a[1..], b[1..])))
  }

  lemma {:induction false} BelowAsymmetric(a: string, b: string)
    requires Below(a, b)
    ensures !Below(b, a)
  {
    if a != [] && a[0] == b[0] {
      BelowAsymmetric(a[1..], b[1..]);
    }
  }

  lemma {:induction false} BelowTotal(a: string, b: string)
    ensures Below(a, b) || a == b || Below(b, a)
  {
    if a != [] && b != [] && a[0] == b[0] {
      BelowTotal(a[1..], b[1..]);
      assert a == [a[0]] + a[1..] && b == [b[0]] + b[1..];
    }
  }

  lemma {:induction false} BelowTransitive(a: string, b: string, c: string)
    requires Below(a, b) && Below(b, c)
    ensures Below(a, c)
  {
    if a != [] && a[0] == b[0] && b[0] == c[0] {
      BelowTransitive(a[1..], b[1..], c[1..]);
    }
  }

  ghost predicate Ascending(s: seq<string>) {
    forall i, j :: 0 <= i < j < |s| ==> Below(s[i], s[j])
  }

  /** Every element is found at some position. */
  ghost predicate Lists<T>(s: seq<T>, elements: set<T>) {
    (forall i :: 0 <= i < |s| ==> s[i] in elements) && (forall x :: x in elements ==> x in s)
  }

  /** A set of strings has one strictly ascending listing. */
  lemma {:induction false} AscendingListUnique(s: seq<string>, t: seq<string>, elements: set<string>)
    requires Ascending(s) && Ascending(t) && Lists(s, elements) && Lists(t, elements)
    ensures s == t
    decreases |s|
  {
    if s == [] {
      assert forall x :: x !in elements;
      assert elements == {};
    } else {
      assert s[0] in elements && s[0] in t;
      assert t != [];
      assert t[0] in elements && t[0] in s;
      if s[0] != t[0] {
        var i :| 0 <= i < |s| && s[i] == t[0];
        var j :| 0 <= j < |t| && t[j] == s[0];
        assert Below(s[0], s[i]) && Below(t[0], t[j]);
        BelowAsymmetric(s[0], t[0]);
      }
      TailLists(s, elements);
      TailLists(t, elements);
      AscendingListUnique(s[1..], t[1..], elements - {s[0]});
      assert s == [s[0]] + s[1..] && t == [t[0]] + t[1..];
    }
  }

  lemma TailLists(s: seq<string>, elements: set<string>)
    requires s != [] && Ascending(s) && Lists(s, elements)
    ensures Ascending(s[1..]) && Lists(s[1..], elements - {s[0]})
  {
    forall i | 0 <= i < |s[1..]|
      ensures s[1..][i] in elements - {s[0]}
    {
      assert Below(s[0], s[i + 1]);
      if s[i + 1] == s[0] {
        BelowAsymmetric(s[0], s[0]);
      }
    }
    forall x | x in elements - {s[0]}
      ensures x in s[1..]
    {
      var i :| 0 <= i < |s| && s[i] == x;
      assert s[1..][i - 1] == x;
    }
  }

  lemma {:induction false} LeastExists(elements: set<string>) returns (least: string)
    requires elements != {}
    ensures least in elements && forall x :: x in elements && x != least ==> Below(least, x)
  {
    var x :| x in elements;
    if elements == {x} {
      least := x;
    } else {
      var other := LeastExists(elements - {x});
      BelowTotal(x, other);
      least := if Below(x, other) then x else other;
      forall y | y in elements && y != least
        ensures Below(least, y)
      {
        if least == x && y != other {
          BelowTransitive(x, other, y);
        }
      }
    }
  }

  ghost function Least(elements: set<string>): (least: string)
    requires elements != {}
    ensures least in elements && forall x :: x in elements && x != least ==> Below(least, x)
  {
    LeastIn(elements);
    var least :| least in elements && forall x :: x in elements && x != least ==> Below(least, x);
    least
  }

  lemma LeastIn(elements: set<string>)
    requires elements != {}
    ensures exists least :: least in elements && forall x :: x in elements && x != least ==> Below(least, x)
  {
    var _ := LeastExists(elements);
  }

  /** The strictly ascending listing of a set, which AscendingListUnique shows to be the only one. */
  ghost function Sorted(elements: set<string>): (s: seq<string>)
    ensures Ascending(s) && Lists(s, elements) && |s| == |elements|
  {
    if elements == {} then []
    else
      var least := Least(elements);
      var rest := Sorted(elements - {least});
      ConsAscending(least, rest, elements);
      [least] + rest
  }

  lemma ConsAscending(least: string, rest: seq<string>, elements: set<string>)
    requires least in elements && forall x :: x in elements && x != least ==> Below(least, x)
    requires Ascending(rest) && Lists(rest, elements - {least})
    ensures Ascending([least] + rest) && Lists([least] + rest, elements)
  {
    var s := [least] + rest;
    forall i, j | 0 <= i < j < |s|
      ensures Below(s[i], s[j])
    {
      assert s[j] == rest[j - 1] && rest[j - 1] in elements - {least};
      if i > 0 {
        assert Below(rest[i - 1], rest[j - 1]);
      }
    }
    forall x | x in elements
      ensures x in s
    {
      if x != least {
        assert x in rest;
      }
    }
  }

  /** `strings.Join`. */
  function Join<T>(pieces: seq<seq<T>>, separator: seq<T>): seq<T> {
    if pieces == [] then []
    else if |pieces| == 1 then pieces[0]
    else pieces[0] + separator + Join(pieces[1..], separator)
  }

  /** `strings.Index(s, c)` for one character, None standing for -1. */
  function IndexOf(s: string, c: char): (index: Option<nat>)
    ensures index.None? <==> c !in s
    ensures index.Some? ==> index.value < |s| && s[index.value] == c && c !in s[..index.value]
  {
    if s == [] then None
    else if s[0] == c then Some(0)
    else
      match IndexOf(s[1..], c)
      case None => None
      case Some(i) => assert s[..i + 1] == [s[0]] + s[1..][..i]; Some(i + 1)
  }

  lemma {:induction false} IndexOfFirst(before: string, c: char, after: string)
    requires c !in before
    ensures IndexOf(before + ([c] + after), c) == Some(|before|)
  {
    if before != [] {
      assert before[0] in before && forall d :: d in before[1..] ==> d in before;
      IndexOfFirst(before[1..], c, after);
      assert (before + ([c] + after))[1..] == before[1..] + ([c] + after);
    }
  }

  datatype Option<+T> = None | Some(value: T)
}
