/** The rows the read paths get from the database, and the key that tells their series apart. */
module Domain {
  import opened Text
  import opened Utf8
  import Sorting
  import MetricString

  /** A jsonb value under a label name. */
  datatype JsonValue = JsonNull | JsonString(s: string)

  /** The metric_labels column: SQL NULL or an object of strings and nulls. */
  type LabelsColumn = Option<map<string, JsonValue>>

  /** `SampleLabels`, without the raw JSON. */
  datatype SampleLabels = SampleLabels(map_: map<string, string>, orderedKeys: seq<string>)

  /** `SamplesReadFromDatabase`; `timestamp` is an instant, `value` the bits of a float64. */
  datatype SampleRow = SampleRow(timestamp: int, value: int, name: string, labels: SampleLabels)

  /** Decoding into a map of strings: a JSON null leaves the empty string. */
  function Decoded(column: LabelsColumn): map<string, string> {
    match column
    case None => map[]
    case Some(labels) => map name | name in labels :: match labels[name] { case JsonNull => "" case JsonString(s) => s }
  }

  ghost predicate WellScanned(labels: SampleLabels) {
    Ascending(labels.orderedKeys) && Lists(labels.orderedKeys, labels.map_.Keys)
  }

  lemma SortedDistinctAscends(s: seq<string>)
    requires Sorting.SortedBy(Below, s) && forall i, j :: 0 <= i < j < |s| ==> s[i] != s[j]
    ensures Ascending(s)
  {
    forall i, j | 0 <= i < j < |s|
      ensures Below(s[i], s[j])
    {
      BelowTotal(s[i], s[j]);
    }
  }

  lemma TwiceInMultiset<T>(s: seq<T>, i: int, j: int)
    requires 0 <= i < j < |s| && s[i] == s[j]
    ensures multiset(s)[s[i]] >= 2
  {
    assert s == s[..j] + [s[j]] + s[j + 1..];
    assert multiset(s) == multiset(s[..j]) + multiset{s[j]} + multiset(s[j + 1..]);
    assert s[..j][i] in multiset(s[..j]);
  }

  lemma OnceEach<T>(s: seq<T>, keys: set<T>)
    requires multiset(s) == multiset(keys)
    ensures forall x :: x in s <==> x in keys
    ensures forall i, j :: 0 <= i < j < |s| ==> s[i] != s[j]
  {
    forall x
      ensures x in s <==> x in keys
    {
      assert x in s <==> x in multiset(s);
    }
    forall i, j | 0 <= i < j < |s|
      ensures s[i] != s[j]
    {
      if s[i] == s[j] {
        TwiceInMultiset(s, i, j);
      }
    }
  }

  /** `createOrderedKeys`: the keys of a map come in any order, and are sorted. */
  method CreateOrderedKeys(m: map<string, string>) returns (keys: seq<string>)
    ensures Ascending(keys) && Lists(keys, m.Keys)
  {
    keys := [];
    var pending := m.Keys;
    ghost var seen: set<string> := {};
    while pending != {}
      invariant pending + seen == m.Keys && pending !! seen
      invariant multiset(keys) == multiset(seen)
      decreases pending
    {
      var key :| key in pending;
      pending := pending - {key};
      seen := seen + {key};
      keys := keys + [key];
    }
    MetricString.BelowIsTotalOrder();
    keys := Sorting.Sort(Below, keys);
    OnceEach(keys, m.Keys);
    SortedDistinctAscends(keys);
  }

  /** A value as the driver hands it to `Scan`: NULL, a text with what it decodes to as a map of strings, none
      when it does not, or a value of another type. */
  datatype ColumnValue = NullValue | TextValue(decoded: Option<map<string, JsonValue>>) | OtherValue

  datatype Scanned = Labels(labels: SampleLabels) | InvalidLabelsType | UnmarshalLabels

  /** The column a value is read from, when it is one. */
  function ColumnOf(value: ColumnValue): LabelsColumn { if value.TextValue? then value.decoded else None }

  /** The label names it holds. */
  function Names(value: ColumnValue): set<string> {
    if value.TextValue? && value.decoded.Some? then value.decoded.value.Keys else {}
  }

  /** `Scan`. A NULL leaves the receiver as it was created, with no map and no keys. */
  method Scan(value: ColumnValue) returns (r: Scanned)
    ensures r.InvalidLabelsType? <==> value.OtherValue?
    ensures r.UnmarshalLabels? <==> value.TextValue? && value.decoded.None?
    ensures r.Labels? ==> WellScanned(r.labels) && r.labels.map_.Keys == Names(value)
    ensures r.Labels? ==> forall name :: name in Names(value) ==>
              r.labels.map_[name] == if value.decoded.value[name].JsonString? then value.decoded.value[name].s else ""
    ensures r.Labels? ==> r.labels.map_ == Decoded(ColumnOf(value))
  {
    if value.NullValue? {
      return Labels(SampleLabels(map[], []));
    }
    if value.OtherValue? {
      return InvalidLabelsType;
    }
    if value.decoded.None? {
      return UnmarshalLabels;
    }
    var keys := CreateOrderedKeys(Decoded(value.decoded));
    return Labels(SampleLabels(Decoded(value.decoded), keys));
  }

  /* ---- the series key ---- */

  /** `Key` on bytes: the name and its separator, then each key, separator and value, all joined by the
      separator. */
  function KeyPieces(pairs: seq<(Bytes, Bytes)>): seq<Bytes> {
    seq(|pairs|, i requires 0 <= i < |pairs| => pairs[i].0 + [SEPARATOR] + pairs[i].1)
  }

  function KeyBytes(name: Bytes, pairs: seq<(Bytes, Bytes)>): Bytes {
    Join([name + [SEPARATOR]] + KeyPieces(pairs), [SEPARATOR])
  }

  ghost predicate NoSeparator(pairs: seq<(Bytes, Bytes)>) {
    forall i :: 0 <= i < |pairs| ==> SEPARATOR !in pairs[i].0 && SEPARATOR !in pairs[i].1
  }

  /** The same key with a separator before every piece instead of between them. */
  function Trail(pairs: seq<(Bytes, Bytes)>): Bytes {
    if pairs == [] then [] else [SEPARATOR] + (pairs[0].0 + ([SEPARATOR] + (pairs[0].1 + Trail(pairs[1..]))))
  }

  lemma TrailNested(first: Bytes, k: Bytes, v: Bytes, rest: Bytes)
    ensures first + [SEPARATOR] + (k + [SEPARATOR] + v + rest) ==
            first + ([SEPARATOR] + (k + ([SEPARATOR] + (v + rest))))
  {
  }

  lemma KeyPiecesSplit(pairs: seq<(Bytes, Bytes)>)
    requires pairs != []
    ensures KeyPieces(pairs) == [pairs[0].0 + [SEPARATOR] + pairs[0].1] + KeyPieces(pairs[1..])
  {
  }

  lemma {:induction false} JoinIsTrail(first: Bytes, pairs: seq<(Bytes, Bytes)>)
    ensures Join([first] + KeyPieces(pairs), [SEPARATOR]) == first + Trail(pairs)
    decreases |pairs|
  {
    var pieces := [first] + KeyPieces(pairs);
    if pairs == [] {
      assert pieces == [first] && first + [] == first;
    } else {
      KeyPiecesSplit(pairs);
      assert pieces[1..] == KeyPieces(pairs);
      JoinIsTrail(pairs[0].0 + [SEPARATOR] + pairs[0].1, pairs[1..]);
      TrailNested(first, pairs[0].0, pairs[0].1, Trail(pairs[1..]));
    }
  }

  /** What stands before the first separator, and what after it, are both settled. */
  lemma CutAtSeparator(a: Bytes, x: Bytes, b: Bytes, y: Bytes)
    requires SEPARATOR !in a && SEPARATOR !in b && a + ([SEPARATOR] + x) == b + ([SEPARATOR] + y)
    ensures a == b && x == y
  {
    var s, t := a + ([SEPARATOR] + x), b + ([SEPARATOR] + y);
    assert s[|a|] == SEPARATOR && forall k :: 0 <= k < |a| ==> s[k] != SEPARATOR;
    assert t[|b|] == SEPARATOR && forall k :: 0 <= k < |b| ==> t[k] != SEPARATOR;
    assert |a| == |b|;
    assert a == s[..|a|] && b == t[..|b|];
    assert x == s[|a| + 1..] && y == t[|b| + 1..];
  }

  lemma {:induction false} TrailInjective(a: seq<(Bytes, Bytes)>, b: seq<(Bytes, Bytes)>)
    requires NoSeparator(a) && NoSeparator(b) && Trail(a) == Trail(b)
    ensures a == b
    decreases |a|
  {
    if a == [] || b == [] {
      assert |Trail(a)| == 0 <==> a == [];
      assert |Trail(b)| == 0 <==> b == [];
    } else {
      var restA, restB := [SEPARATOR] + (a[0].1 + Trail(a[1..])), [SEPARATOR] + (b[0].1 + Trail(b[1..]));
      assert Trail(a)[1..] == a[0].0 + restA && Trail(b)[1..] == b[0].0 + restB;
      CutAtSeparator(a[0].0, a[0].1 + Trail(a[1..]), b[0].0, b[0].1 + Trail(b[1..]));
      ValuesAndTrails(a[0].1, a[1..], b[0].1, b[1..]);
      TrailInjective(a[1..], b[1..]);
      assert a == [a[0]] + a[1..] && b == [b[0]] + b[1..];
    }
  }

  lemma ValuesAndTrails(v: Bytes, a: seq<(Bytes, Bytes)>, w: Bytes, b: seq<(Bytes, Bytes)>)
    requires SEPARATOR !in v && SEPARATOR !in w && v + Trail(a) == w + Trail(b)
    ensures v == w && Trail(a) == Trail(b)
  {
    var s, t := Trail(a) + [SEPARATOR], Trail(b) + [SEPARATOR];
    assert s == [SEPARATOR] + s[1..] && t == [SEPARATOR] + t[1..];
    assert v + s == (v + Trail(a)) + [SEPARATOR] && w + t == (w + Trail(b)) + [SEPARATOR];
    CutAtSeparator(v, s[1..], w, t[1..]);
    assert Trail(a) == s[..|s| - 1] && Trail(b) == t[..|t| - 1];
  }

  /** Keys are equal exactly for the same name and the same list of labels, when no string holds byte 0xFF. */
  lemma KeyBytesInjective(name: Bytes, a: seq<(Bytes, Bytes)>, other: Bytes, b: seq<(Bytes, Bytes)>)
    requires SEPARATOR !in name && SEPARATOR !in other && NoSeparator(a) && NoSeparator(b)
    ensures KeyBytes(name, a) == KeyBytes(other, b) <==> name == other && a == b
  {
    JoinIsTrail(name + [SEPARATOR], a);
    JoinIsTrail(other + [SEPARATOR], b);
    if KeyBytes(name, a) == KeyBytes(other, b) {
      assert name + [SEPARATOR] + Trail(a) == name + ([SEPARATOR] + Trail(a));
      assert other + [SEPARATOR] + Trail(b) == other + ([SEPARATOR] + Trail(b));
      CutAtSeparator(name, Trail(a), other, Trail(b));
      TrailInjective(a, b);
    }
  }

  /** Without that condition two different series can share a key: a label value may hold the next label. */
  lemma SeparatorInValueCollides(name: Bytes, k: Bytes, v: Bytes, l: Bytes, w: Bytes)
    ensures KeyBytes(name, [(k, v), (l, w)]) == KeyBytes(name, [(k, v + [SEPARATOR] + l + [SEPARATOR] + w)])
  {
    var one := [(k, v + [SEPARATOR] + l + [SEPARATOR] + w)];
    var two := [(k, v), (l, w)];
    JoinIsTrail(name + [SEPARATOR], two);
    JoinIsTrail(name + [SEPARATOR], one);
    assert two[1..] == [(l, w)] && one[1..] == [] && two[1..][1..] == [];
    assert Trail(two) == Trail(one);
  }

  function EncodedPairs(keys: seq<string>, m: map<string, string>): seq<(Bytes, Bytes)> {
    seq(|keys|, i requires 0 <= i < |keys| => (Encode(keys[i]), if keys[i] in m then Encode(m[keys[i]]) else []))
  }

  /** `SampleLabels.Key`. */
  function Key(labels: SampleLabels, name: string): Bytes {
    KeyBytes(Encode(name), EncodedPairs(labels.orderedKeys, labels.map_))
  }

  lemma EncodedPairsClean(keys: seq<string>, m: map<string, string>)
    ensures NoSeparator(EncodedPairs(keys, m))
  {
    forall i | 0 <= i < |keys|
      ensures SEPARATOR !in EncodedPairs(keys, m)[i].0 && SEPARATOR !in EncodedPairs(keys, m)[i].1
    {
      TextHasNoSeparator(keys[i]);
      if keys[i] in m {
        TextHasNoSeparator(m[keys[i]]);
      }
    }
  }

  lemma EncodedPairsSettle(a: SampleLabels, b: SampleLabels)
    requires WellScanned(a) && WellScanned(b)
    requires EncodedPairs(a.orderedKeys, a.map_) == EncodedPairs(b.orderedKeys, b.map_)
    ensures a == b
  {
    var p, q := EncodedPairs(a.orderedKeys, a.map_), EncodedPairs(b.orderedKeys, b.map_);
    assert |a.orderedKeys| == |p| == |b.orderedKeys|;
    forall i | 0 <= i < |p|
      ensures a.orderedKeys[i] == b.orderedKeys[i]
      ensures a.map_[a.orderedKeys[i]] == b.map_[a.orderedKeys[i]]
    {
      assert p[i] == q[i];
      EncodeInjective(a.orderedKeys[i], b.orderedKeys[i]);
      EncodeInjective(a.map_[a.orderedKeys[i]], b.map_[b.orderedKeys[i]]);
    }
    assert a.orderedKeys == b.orderedKeys;
    forall key
      ensures key in a.map_ <==> key in b.map_
      ensures key in a.map_ ==> a.map_[key] == b.map_[key]
    {
      if key in a.map_ {
        assert key in a.orderedKeys;
      }
      if key in b.map_ {
        assert key in b.orderedKeys;
      }
    }
    assert a.map_ == b.map_;
  }

  lemma OrderedKeysSettled(a: SampleLabels, b: SampleLabels)
    requires WellScanned(a) && WellScanned(b) && a.map_ == b.map_
    ensures a == b
  {
    AscendingListUnique(a.orderedKeys, b.orderedKeys, a.map_.Keys);
  }

  /** Grouping by key is grouping by metric name and label map. */
  lemma KeyIdentifiesSeries(a: SampleLabels, name: string, b: SampleLabels, other: string)
    requires WellScanned(a) && WellScanned(b)
    ensures Key(a, name) == Key(b, other) <==> name == other && a.map_ == b.map_
  {
    TextHasNoSeparator(name);
    TextHasNoSeparator(other);
    EncodedPairsClean(a.orderedKeys, a.map_);
    EncodedPairsClean(b.orderedKeys, b.map_);
    KeyBytesInjective(Encode(name), EncodedPairs(a.orderedKeys, a.map_), Encode(other),
                      EncodedPairs(b.orderedKeys, b.map_));
    if Key(a, name) == Key(b, other) {
      EncodeInjective(name, other);
      EncodedPairsSettle(a, b);
    } else if name == other && a.map_ == b.map_ {
      OrderedKeysSettled(a, b);
    }
  }
}
