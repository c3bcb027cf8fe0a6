/** Label sets as Prometheus lists them: sorted by name, compared pair by pair. */
module LabelSets {
  import opened Text
  import opened Utf8
  import Sorting
  import Domain

  datatype Label = Label(name: string, value: string)

  type Labels = seq<Label>

  /* ---- the order of labels.Compare ---- */

  predicate PairBelow(x: Label, y: Label) {
    Below(x.name, y.name) || (x.name == y.name && Below(x.value, y.value))
  }

  predicate LabelsBelow(a: Labels, b: Labels) {
    b != [] && (a == [] || PairBelow(a[0], b[0]) || (a[0] == b[0] && LabelsBelow(a[1..], b[1..])))
  }

  lemma PairAsymmetric(x: Label, y: Label)
    requires PairBelow(x, y)
    ensures !PairBelow(y, x) && x != y
  {
    if Below(x.name, y.name) {
      BelowAsymmetric(x.name, y.name);
    } else {
      BelowAsymmetric(x.value, y.value);
    }
  }

  lemma PairTotal(x: Label, y: Label)
    ensures PairBelow(x, y) || x == y || PairBelow(y, x)
  {
    BelowTotal(x.name, y.name);
    BelowTotal(x.value, y.value);
  }

  lemma PairTransitive(x: Label, y: Label, z: Label)
    requires PairBelow(x, y) && PairBelow(y, z)
    ensures PairBelow(x, z)
  {
    if Below(x.name, y.name) && Below(y.name, z.name) {
      BelowTransitive(x.name, y.name, z.name);
    } else if x.name == y.name == z.name && !Below(x.name, y.name) && !Below(y.name, z.name) {
      BelowTransitive(x.value, y.value, z.value);
    }
  }

  lemma {:induction false} LabelsAsymmetric(a: Labels, b: Labels)
    requires LabelsBelow(a, b)
    ensures !LabelsBelow(b, a)
  {
    if a != [] {
      if PairBelow(a[0], b[0]) {
        PairAsymmetric(a[0], b[0]);
      } else {
        LabelsAsymmetric(a[1..], b[1..]);
      }
    }
  }

  lemma {:induction false} LabelsTotal(a: Labels, b: Labels)
    ensures LabelsBelow(a, b) || a == b || LabelsBelow(b, a)
  {
    if a != [] && b != [] {
      PairTotal(a[0], b[0]);
      if a[0] == b[0] {
        LabelsTotal(a[1..], b[1..]);
        assert a == [a[0]] + a[1..] && b == [b[0]] + b[1..];
      }
    }
  }

  lemma {:induction false} LabelsTransitive(a: Labels, b: Labels, c: Labels)
    requires LabelsBelow(a, b) && LabelsBelow(b, c)
    ensures LabelsBelow(a, c)
  {
    if a != [] {
      if a[0] == b[0] && b[0] == c[0] {
        if !PairBelow(a[0], c[0]) {
          if PairBelow(a[0], b[0]) || PairBelow(b[0], c[0]) {
          } else {
            LabelsTransitive(a[1..], b[1..], c[1..]);
          }
        }
      } else if PairBelow(a[0], b[0]) && PairBelow(b[0], c[0]) {
        PairTransitive(a[0], b[0], c[0]);
      }
    }
  }

  /** The order the StoreAPI wants its series in is total. */
  lemma LabelsBelowIsTotalOrder()
    ensures Sorting.TotalOrder(LabelsBelow)
  {
    forall x: Labels, y: Labels
      ensures LabelsBelow(x, y) ==> !LabelsBelow(y, x)
      ensures LabelsBelow(x, y) || x == y || LabelsBelow(y, x)
    {
      LabelsTotal(x, y);
      if LabelsBelow(x, y) {
        LabelsAsymmetric(x, y);
      }
    }
    forall x: Labels, y: Labels, z: Labels | LabelsBelow(x, z)
      ensures LabelsBelow(x, y) || LabelsBelow(y, z)
    {
      LabelsTotal(x, y);
      if LabelsBelow(y, x) {
        LabelsTransitive(y, x, z);
      }
    }
  }

  /** A pair is before another by the bytes of its name, or of its value when the names are the same. */
  ghost predicate PairBefore(x: Label, y: Label) {
    BytesBefore(Encode(x.name), Encode(y.name)) ||
    (x.name == y.name && BytesBefore(Encode(x.value), Encode(y.value)))
  }

  ghost predicate BeforeAt(a: Labels, b: Labels, k: nat) {
    k <= |a| && k < |b| && a[..k] == b[..k] && (k == |a| || PairBefore(a[k], b[k]))
  }

  lemma PairBelowIsBefore(x: Label, y: Label)
    ensures PairBelow(x, y) <==> PairBefore(x, y)
  {
    BelowIsByteOrder(x.name, y.name);
    BelowIsByteOrder(x.value, y.value);
  }

  lemma {:induction false} BelowIsBeforeAt(a: Labels, b: Labels) returns (k: nat)
    requires LabelsBelow(a, b)
    ensures BeforeAt(a, b, k)
  {
    if a == [] {
      k := 0;
    } else if PairBelow(a[0], b[0]) {
      PairBelowIsBefore(a[0], b[0]);
      k := 0;
    } else {
      var j := BelowIsBeforeAt(a[1..], b[1..]);
      k := j + 1;
      assert a[..k] == [a[0]] + a[1..][..j] && b[..k] == [b[0]] + b[1..][..j];
    }
  }

  lemma {:induction false} BeforeAtIsBelow(a: Labels, b: Labels, k: nat)
    requires BeforeAt(a, b, k)
    ensures LabelsBelow(a, b)
    decreases k
  {
    if k == 0 {
      if a != [] {
        PairBelowIsBefore(a[0], b[0]);
      }
    } else {
      assert a[..k][0] == a[0] && b[..k][0] == b[0];
      assert a[1..][..k - 1] == a[..k][1..] && b[1..][..k - 1] == b[..k][1..];
      BeforeAtIsBelow(a[1..], b[1..], k - 1);
    }
  }

  /** One label set is below another exactly when, at the first pair in which they differ, its name comes
      first byte by byte, or its value under the same name; or when it is a proper prefix. */
  lemma LabelsBelowExactly(a: Labels, b: Labels)
    ensures LabelsBelow(a, b) <==> exists k: nat :: BeforeAt(a, b, k)
  {
    if LabelsBelow(a, b) {
      var k := BelowIsBeforeAt(a, b);
    }
    if k: nat :| BeforeAt(a, b, k) {
      BeforeAtIsBelow(a, b, k);
    }
  }

  /* ---- a map as a label set ---- */

  ghost predicate NamesAscend(lset: Labels) {
    forall i, j :: 0 <= i < j < |lset| ==> Below(lset[i].name, lset[j].name)
  }

  /** `labels.FromMap`: the pairs of the map, by strictly ascending name. */
  ghost predicate Spells(lset: Labels, m: map<string, string>) {
    && NamesAscend(lset)
    && (forall i :: 0 <= i < |lset| ==> lset[i].name in m && m[lset[i].name] == lset[i].value)
    && (forall name :: name in m ==> exists i :: 0 <= i < |lset| && lset[i].name == name)
  }

  method FromMap(m: map<string, string>) returns (lset: Labels)
    ensures Spells(lset, m)
  {
    var keys := Domain.CreateOrderedKeys(m);
    lset := [];
    for n := 0 to |keys|
      invariant |lset| == n
      invariant forall i :: 0 <= i < n ==> lset[i] == Label(keys[i], m[keys[i]])
    {
      lset := lset + [Label(keys[n], m[keys[n]])];
    }
    forall name | name in m
      ensures exists i :: 0 <= i < |lset| && lset[i].name == name
    {
      var i :| 0 <= i < |keys| && keys[i] == name;
      assert lset[i].name == name;
    }
  }

  function NamesIn(lset: Labels): seq<string> { seq(|lset|, i requires 0 <= i < |lset| => lset[i].name) }

  /** One map has one spelling, and one spelling one map. */
  lemma SpellingUnique(a: Labels, m: map<string, string>, b: Labels, n: map<string, string>)
    requires Spells(a, m) && Spells(b, n)
    ensures a == b <==> m == n
  {
    if m == n {
      SpelledNames(a, m);
      SpelledNames(b, m);
      AscendingListUnique(NamesIn(a), NamesIn(b), m.Keys);
      assert |a| == |NamesIn(a)| == |b|;
      forall i | 0 <= i < |a|
        ensures a[i] == b[i]
      {
        assert NamesIn(a)[i] == NamesIn(b)[i];
      }
    }
    if a == b {
      forall name
        ensures name in m <==> name in n
        ensures name in m ==> m[name] == n[name]
      {
        if name in m {
          var i :| 0 <= i < |a| && a[i].name == name;
        }
        if name in n {
          var i :| 0 <= i < |b| && b[i].name == name;
        }
      }
      assert m == n;
    }
  }

  lemma LabelSpelled(lset: Labels, m: map<string, string>, name: string)
    requires Spells(lset, m) && name in m
    ensures Label(name, m[name]) in lset
  {
    var i :| 0 <= i < |lset| && lset[i].name == name;
    assert lset[i] == Label(name, m[name]);
  }

  lemma SpelledNames(a: Labels, m: map<string, string>)
    requires Spells(a, m)
    ensures Ascending(NamesIn(a)) && Lists(NamesIn(a), m.Keys)
  {
    forall name | name in m
      ensures name in NamesIn(a)
    {
      var i :| 0 <= i < |a| && a[i].name == name;
      assert NamesIn(a)[i] == name;
    }
  }

  ghost function Spelling(m: map<string, string>): (lset: Labels)
    ensures Spells(lset, m)
  {
    var keys := Sorted(m.Keys);
    assert forall name :: name in m ==> name in keys;
    var lset := seq(|keys|, i requires 0 <= i < |keys| => Label(keys[i], if keys[i] in m then m[keys[i]] else ""));
    SpellsItself(lset, keys, m);
    lset
  }

  lemma SpellsItself(lset: Labels, keys: seq<string>, m: map<string, string>)
    requires Ascending(keys) && Lists(keys, m.Keys) && |lset| == |keys|
    requires forall i :: 0 <= i < |lset| ==> lset[i].name == keys[i] && (keys[i] in m ==> lset[i].value == m[keys[i]])
    ensures Spells(lset, m)
  {
    forall name | name in m
      ensures exists i :: 0 <= i < |lset| && lset[i].name == name
    {
      var i :| 0 <= i < |keys| && keys[i] == name;
      assert lset[i].name == name;
    }
  }
}
