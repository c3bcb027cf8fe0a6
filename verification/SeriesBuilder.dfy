/** The series builder of the StoreAPI: rows are grouped by key, merged with the external labels, sorted,
    and cut into chunks. */
module SeriesBuilder {
  import opened Utf8
  import opened MetricString
  import opened Domain
  import opened LabelSets
  import opened Timestamps
  import opened Bags
  import Sorting

  datatype TimedValue = TimedValue(timestamp: int, value: int)

  datatype Accumulator = Accumulator(lset: Labels, samples: seq<TimedValue>)

  /** What a row's series is: the metric name and the stored labels. */
  datatype SeriesId = SeriesId(name: string, labels: map<string, string>)

  function IdOf(row: SampleRow): SeriesId { SeriesId(row.name, row.labels.map_) }

  function SampleOf(row: SampleRow): TimedValue { TimedValue(UnixMilli(row.timestamp), row.value) }

  predicate Earlier(a: TimedValue, b: TimedValue) { a.timestamp < b.timestamp }

  predicate SeriesBelow(a: Accumulator, b: Accumulator) { LabelsBelow(a.lset, b.lset) }

  /* ---- merged labels ---- */

  /** What the store exposes for a series: stored labels, overridden by the external ones, and the metric
      name over both. */
  function Merged(id: SeriesId, external: map<string, string>): map<string, string> {
    map name | name in id.labels.Keys + external.Keys + {METRIC_NAME_LABEL} ::
      if name == METRIC_NAME_LABEL then id.name else if name in external then external[name] else id.labels[name]
  }

  /** `promLabels`. */
  method PromLabels(name: string, stored: map<string, string>, external: map<string, string>) returns (lset: Labels)
    ensures Spells(lset, Merged(SeriesId(name, stored), external))
  {
    var merged: map<string, string> := map[];
    merged := merged + stored;
    merged := merged + external;
    merged := merged[METRIC_NAME_LABEL := name];
    assert merged == Merged(SeriesId(name, stored), external);
    lset := FromMap(merged);
  }

  /** The names under which a stored label is not what the merged series shows. */
  function Overridden(external: map<string, string>): set<string> { external.Keys + {METRIC_NAME_LABEL} }

  /** Two series are merged into one label set exactly when they differ in overridden labels only. */
  lemma MergedAlike(a: SeriesId, b: SeriesId, external: map<string, string>)
    ensures Merged(a, external) == Merged(b, external) <==>
            a.name == b.name && a.labels - Overridden(external) == b.labels - Overridden(external)
  {
    var ma, mb := Merged(a, external), Merged(b, external);
    var la, lb := a.labels - Overridden(external), b.labels - Overridden(external);
    assert ma[METRIC_NAME_LABEL] == a.name && mb[METRIC_NAME_LABEL] == b.name;
    if ma == mb {
      forall name
        ensures name in la <==> name in lb
        ensures name in la ==> la[name] == lb[name]
      {
        assert name in la ==> ma[name] == la[name];
        assert name in lb ==> mb[name] == lb[name];
        assert name !in Overridden(external) ==> (name in ma <==> name in la) && (name in mb <==> name in lb);
      }
      assert la == lb;
    }
    if a.name == b.name && la == lb {
      forall name
        ensures name in ma <==> name in mb
        ensures name in ma ==> ma[name] == mb[name]
      {
        assert name !in Overridden(external) ==> (name in ma <==> name in la) && (name in mb <==> name in lb);
        assert name in la ==> ma[name] == la[name];
        assert name in lb ==> mb[name] == lb[name];
      }
      assert ma == mb;
    }
  }

  ghost predicate NamesWithin(id: SeriesId, names: set<string>) { id.labels.Keys <= names }

  /** Whatever is stored under these label names, different series keep different label sets. */
  ghost predicate AlwaysApart(names: set<string>, external: map<string, string>) {
    forall a: SeriesId, b: SeriesId :: NamesWithin(a, names) && NamesWithin(b, names) && a != b ==>
      Merged(a, external) != Merged(b, external)
  }

  /** Label sets stay apart exactly when no external label name, nor the metric name's, occurs among the
      stored label names. */
  lemma ApartExactly(names: set<string>, external: map<string, string>)
    ensures AlwaysApart(names, external) <==> names !! Overridden(external)
  {
    if names !! Overridden(external) {
      forall a: SeriesId, b: SeriesId | NamesWithin(a, names) && NamesWithin(b, names) && a != b
        ensures Merged(a, external) != Merged(b, external)
      {
        assert a.labels - Overridden(external) == a.labels && b.labels - Overridden(external) == b.labels;
        MergedAlike(a, b, external);
      }
    } else {
      var name :| name in names && name in Overridden(external);
      var a, b := SeriesId("", map[name := ""]), SeriesId("", map[]);
      assert name in a.labels && name !in b.labels;
      assert a.labels - Overridden(external) == map[] == b.labels - Overridden(external);
      MergedAlike(a, b, external);
      assert NamesWithin(a, names) && NamesWithin(b, names);
    }
  }

  /* ---- grouping ---- */

  /** The samples of one series, in the order of the rows. */
  function SamplesOf(rows: seq<SampleRow>, id: SeriesId): seq<TimedValue> {
    if rows == [] then []
    else
      var last := rows[|rows| - 1];
      SamplesOf(rows[..|rows| - 1], id) + if IdOf(last) == id then [SampleOf(last)] else []
  }

  /** The ids of the series that occur, each once. */
  ghost predicate SeriesIn(rows: seq<SampleRow>, ids: seq<SeriesId>) {
    && Distinct(ids)
    && (forall i :: 0 <= i < |rows| ==> IdOf(rows[i]) in ids)
    && (forall k :: 0 <= k < |ids| ==> Occurs(rows, ids[k]))
  }

  ghost predicate Occurs(rows: seq<SampleRow>, id: SeriesId) {
    exists i :: 0 <= i < |rows| && IdOf(rows[i]) == id
  }

  /** An accumulator holding one series: its merged labels and all its samples, by time. */
  ghost predicate Holds(rows: seq<SampleRow>, external: map<string, string>, id: SeriesId, acc: Accumulator) {
    && Spells(acc.lset, Merged(id, external))
    && multiset(acc.samples) == multiset(SamplesOf(rows, id))
    && Sorting.SortedBy(Earlier, acc.samples)
  }

  ghost predicate AllHold(rows: seq<SampleRow>, external: map<string, string>, ids: seq<SeriesId>,
          accumulators: seq<Accumulator>) {
    |accumulators| == |ids| && forall k :: 0 <= k < |ids| ==> Holds(rows, external, ids[k], accumulators[k])
  }

  ghost predicate Groups(rows: seq<SampleRow>, external: map<string, string>, ids: seq<SeriesId>,
          accumulators: seq<Accumulator>) {
    && SeriesIn(rows, ids)
    && AllHold(rows, external, ids, accumulators)
  }

  ghost predicate AllScanned(rows: seq<SampleRow>) {
    forall i :: 0 <= i < |rows| ==> WellScanned(rows[i].labels)
  }

  function KeyOf(row: SampleRow): Bytes { Key(row.labels, row.name) }

  /** What a group holds after some rows, under the key of the series with this id. */
  ghost predicate Gathering(rows: seq<SampleRow>, external: map<string, string>, key: Bytes, id: SeriesId,
          acc: Accumulator) {
    Keyed(rows, key, id) && acc.samples == SamplesOf(rows, id) && Spells(acc.lset, Merged(id, external))
  }

  /** The map of groups after some rows; `who` remembers whose key each one is. */
  ghost predicate Gathered(rows: seq<SampleRow>, external: map<string, string>, groups: map<Bytes, Accumulator>,
          who: map<Bytes, SeriesId>) {
    && groups.Keys == who.Keys
    && (forall i :: 0 <= i < |rows| ==> KeyOf(rows[i]) in who)
    && (forall key :: key in who && key in groups ==> Gathering(rows, external, key, who[key], groups[key]))
  }

  ghost predicate Keyed(rows: seq<SampleRow>, key: Bytes, id: SeriesId) {
    exists i :: 0 <= i < |rows| && KeyOf(rows[i]) == key && IdOf(rows[i]) == id
  }

  lemma SameKeySameSeries(a: SampleRow, b: SampleRow)
    requires WellScanned(a.labels) && WellScanned(b.labels)
    ensures KeyOf(a) == KeyOf(b) <==> IdOf(a) == IdOf(b)
  {
    KeyIdentifiesSeries(a.labels, a.name, b.labels, b.name);
  }

  lemma {:induction false} NoSampleYet(rows: seq<SampleRow>, id: SeriesId)
    requires forall i :: 0 <= i < |rows| ==> IdOf(rows[i]) != id
    ensures SamplesOf(rows, id) == []
  {
    if rows != [] {
      NoSampleYet(rows[..|rows| - 1], id);
    }
  }

  lemma SamplesGrow(rows: seq<SampleRow>, row: SampleRow, id: SeriesId)
    ensures SamplesOf(rows + [row], id) == SamplesOf(rows, id) + if IdOf(row) == id then [SampleOf(row)] else []
  {
    assert (rows + [row])[..|rows|] == rows;
  }

  lemma KeyedGrows(rows: seq<SampleRow>, row: SampleRow, key: Bytes, id: SeriesId)
    requires Keyed(rows, key, id)
    ensures Keyed(rows + [row], key, id)
  {
    var i :| 0 <= i < |rows| && KeyOf(rows[i]) == key && IdOf(rows[i]) == id;
    assert (rows + [row])[i] == rows[i];
  }

  lemma KeyTellsSeries(rows: seq<SampleRow>, row: SampleRow, key: Bytes, id: SeriesId)
    requires AllScanned(rows) && WellScanned(row.labels) && Keyed(rows, key, id)
    ensures key == KeyOf(row) <==> id == IdOf(row)
  {
    var i :| 0 <= i < |rows| && KeyOf(rows[i]) == key && IdOf(rows[i]) == id;
    SameKeySameSeries(rows[i], row);
  }

  lemma OtherGroupStays(rows: seq<SampleRow>, row: SampleRow, external: map<string, string>, key: Bytes, id: SeriesId,
          acc: Accumulator)
    requires AllScanned(rows) && WellScanned(row.labels) && Gathering(rows, external, key, id, acc) && key != KeyOf(row)
    ensures Gathering(rows + [row], external, key, id, acc)
  {
    KeyTellsSeries(rows, row, key, id);
    KeyedGrows(rows, row, key, id);
    SamplesGrow(rows, row, id);
  }

  lemma OwnGroupGrows(rows: seq<SampleRow>, row: SampleRow, external: map<string, string>, id: SeriesId,
          acc: Accumulator)
    requires AllScanned(rows) && WellScanned(row.labels) && Gathering(rows, external, KeyOf(row), id, acc)
    ensures id == IdOf(row)
    ensures Gathering(rows + [row], external, KeyOf(row), id, acc.(samples := acc.samples + [SampleOf(row)]))
  {
    KeyTellsSeries(rows, row, KeyOf(row), id);
    KeyedGrows(rows, row, KeyOf(row), id);
    SamplesGrow(rows, row, id);
  }

  lemma NewGroup(rows: seq<SampleRow>, row: SampleRow, external: map<string, string>, lset: Labels)
    requires AllScanned(rows) && WellScanned(row.labels) && Spells(lset, Merged(IdOf(row), external))
    requires forall i :: 0 <= i < |rows| ==> KeyOf(rows[i]) != KeyOf(row)
    ensures Gathering(rows + [row], external, KeyOf(row), IdOf(row), Accumulator(lset, [SampleOf(row)]))
  {
    forall i | 0 <= i < |rows|
      ensures IdOf(rows[i]) != IdOf(row)
    {
      SameKeySameSeries(rows[i], row);
    }
    NoSampleYet(rows, IdOf(row));
    SamplesGrow(rows, row, IdOf(row));
    assert (rows + [row])[|rows|] == row;
  }

  ghost predicate OthersGather(rows: seq<SampleRow>, external: map<string, string>, groups: map<Bytes, Accumulator>,
          who: map<Bytes, SeriesId>, own: Bytes) {
    forall key :: key in who && key in groups && key != own ==> Gathering(rows, external, key, who[key], groups[key])
  }

  lemma OthersStay(rows: seq<SampleRow>, row: SampleRow, external: map<string, string>,
          groups: map<Bytes, Accumulator>, who: map<Bytes, SeriesId>)
    requires AllScanned(rows) && WellScanned(row.labels) && Gathered(rows, external, groups, who)
    ensures OthersGather(rows + [row], external, groups, who, KeyOf(row))
  {
    forall key | key in who && key in groups && key != KeyOf(row)
      ensures Gathering(rows + [row], external, key, who[key], groups[key])
    {
      OtherGroupStays(rows, row, external, key, who[key], groups[key]);
    }
  }

  lemma MapGrows(rows: seq<SampleRow>, external: map<string, string>, groups: map<Bytes, Accumulator>,
          who: map<Bytes, SeriesId>, own: Bytes, id: SeriesId, acc: Accumulator)
    requires groups.Keys == who.Keys && OthersGather(rows, external, groups, who, own)
    requires Gathering(rows, external, own, id, acc)
    requires forall i :: 0 <= i < |rows| ==> KeyOf(rows[i]) == own || KeyOf(rows[i]) in who
    ensures Gathered(rows, external, groups[own := acc], who[own := id])
  {
  }

  /** One turn of the loop over the rows. */
  lemma GatherOne(rows: seq<SampleRow>, row: SampleRow, external: map<string, string>,
                  groups: map<Bytes, Accumulator>, who: map<Bytes, SeriesId>, acc: Accumulator)
    requires AllScanned(rows) && WellScanned(row.labels) && Gathered(rows, external, groups, who)
    requires KeyOf(row) in groups ==> acc == groups[KeyOf(row)]
    requires KeyOf(row) !in groups ==> acc.samples == [] && Spells(acc.lset, Merged(IdOf(row), external))
    ensures Gathered(rows + [row], external, groups[KeyOf(row) := acc.(samples := acc.samples + [SampleOf(row)])],
                     who[KeyOf(row) := IdOf(row)])
  {
    var own, more := KeyOf(row), acc.(samples := acc.samples + [SampleOf(row)]);
    if own in who {
      OwnGroupGrows(rows, row, external, who[own], acc);
    } else {
      NewGroup(rows, row, external, acc.lset);
      assert more == Accumulator(acc.lset, [SampleOf(row)]);
    }
    OthersStay(rows, row, external, groups, who);
    MapGrows(rows + [row], external, groups, who, own, IdOf(row), more);
  }

  /* ---- putting the groups in order ---- */

  /** The same elements, in another order, can carry the same tags along. */
  ghost predicate Carries<A, B>(a: seq<A>, ids: seq<B>, b: seq<A>, moved: seq<B>) {
    && |moved| == |b| && |ids| == |a| && multiset(moved) == multiset(ids)
    && (forall k :: 0 <= k < |b| ==> Tags(a, ids, b[k], moved[k]))
  }

  ghost predicate Tags<A, B>(a: seq<A>, ids: seq<B>, x: A, id: B)
    requires |ids| == |a|
  {
    exists i :: 0 <= i < |a| && a[i] == x && ids[i] == id
  }

  lemma {:induction false} TagsFollow<A, B>(a: seq<A>, ids: seq<B>, b: seq<A>) returns (moved: seq<B>)
    requires |ids| == |a| && multiset(a) == multiset(b)
    ensures Carries(a, ids, b, moved)
    decreases |b|
  {
    if b == [] {
      assert |multiset(a)| == 0;
      moved := [];
    } else {
      assert b[0] in multiset(b);
      var i :| 0 <= i < |a| && a[i] == b[0];
      WithoutBag(a, i);
      WithoutBag(ids, i);
      Sorting.MultisetOfTail(b);
      var rest := TagsFollow(Without(a, i), Without(ids, i), b[1..]);
      moved := [ids[i]] + rest;
      TagBack(a, ids, b, i, rest);
    }
  }

  lemma TagStays<A, B>(a: seq<A>, ids: seq<B>, i: nat, x: A, id: B)
    requires |ids| == |a| && i < |a| && Tags(Without(a, i), Without(ids, i), x, id)
    ensures Tags(a, ids, x, id)
  {
    var j :| 0 <= j < |Without(a, i)| && Without(a, i)[j] == x && Without(ids, i)[j] == id;
    var j' := if j < i then j else j + 1;
    assert a[j'] == x && ids[j'] == id;
  }

  lemma TagBack<A, B>(a: seq<A>, ids: seq<B>, b: seq<A>, i: nat, rest: seq<B>)
    requires |ids| == |a| && i < |a| && b != [] && a[i] == b[0]
    requires Carries(Without(a, i), Without(ids, i), b[1..], rest)
    ensures Carries(a, ids, b, [ids[i]] + rest)
  {
    WithoutBag(ids, i);
    assert multiset([ids[i]] + rest) == multiset{ids[i]} + multiset(rest);
    assert Tags(a, ids, b[0], ids[i]);
    forall k | 0 < k < |b|
      ensures Tags(a, ids, b[k], rest[k - 1])
    {
      assert b[1..][k - 1] == b[k];
      TagStays(a, ids, i, b[k], rest[k - 1]);
    }
  }

  lemma DistinctBag<T>(s: seq<T>, t: seq<T>)
    requires Distinct(s) && multiset(s) == multiset(t)
    ensures Distinct(t)
    ensures forall x :: x in s <==> x in t
  {
    forall x
      ensures x in s <==> x in t
    {
      assert x in s <==> x in multiset(s);
      assert x in t <==> x in multiset(t);
    }
    forall i, j | 0 <= i < j < |t|
      ensures t[i] != t[j]
    {
      if t[i] == t[j] {
        TwiceInMultiset(t, i, j);
        DistinctOnce(s, t[i]);
      }
    }
  }

  lemma {:induction false} DistinctOnce<T>(s: seq<T>, x: T)
    requires Distinct(s)
    ensures multiset(s)[x] <= 1
  {
    if s != [] {
      DistinctOnce(s[1..], x);
      assert s == [s[0]] + s[1..];
      assert x == s[0] ==> x !in s[1..];
    }
  }

  /* ---- groupRowsIntoSeries ---- */

  /** One row goes to the group of its key, created on its first row. */
  method AddRow(ghost rows: seq<SampleRow>, row: SampleRow, external: map<string, string>,
          groups: map<Bytes, Accumulator>, ghost who: map<Bytes, SeriesId>)
    returns (more: map<Bytes, Accumulator>, ghost whose: map<Bytes, SeriesId>)
    requires AllScanned(rows) && WellScanned(row.labels) && Gathered(rows, external, groups, who)
    ensures Gathered(rows + [row], external, more, whose)
  {
    var key := KeyOf(row);
    var acc;
    if key in groups {
      acc := groups[key];
    } else {
      var lset := PromLabels(row.name, row.labels.map_, external);
      acc := Accumulator(lset, []);
    }
    GatherOne(rows, row, external, groups, who, acc);
    more := groups[key := acc.(samples := acc.samples + [SampleOf(row)])];
    whose := who[key := IdOf(row)];
  }

  /** The first loop. */

  method Gather(rows: seq<SampleRow>, external: map<string, string>) returns (groups: map<Bytes, Accumulator>)
    requires AllScanned(rows)
    ensures exists who :: Gathered(rows, external, groups, who)
  {
    groups := map[];
    ghost var who: map<Bytes, SeriesId> := map[];
    ghost var seen: seq<SampleRow> := [];
    for n := 0 to |rows|
      invariant seen == rows[..n] && AllScanned(seen)
      invariant Gathered(seen, external, groups, who)
    {
      groups, who := AddRow(seen, rows[n], external, groups, who);
      PrefixGrows(rows, n);
      seen := seen + [rows[n]];
    }
    assert seen == rows;
  }

  lemma PrefixGrows<T>(s: seq<T>, n: nat)
    requires n < |s|
    ensures s[..n + 1] == s[..n] + [s[n]]
  {
  }

  lemma EarlierIsWeakOrder()
    ensures Sorting.StrictWeakOrder(Earlier)
  {
  }

  lemma SeriesBelowIsWeakOrder()
    ensures Sorting.StrictWeakOrder(SeriesBelow)
  {
    LabelsBelowIsTotalOrder();
    forall x: Accumulator, y: Accumulator, z: Accumulator | SeriesBelow(x, z)
      ensures SeriesBelow(x, y) || SeriesBelow(y, z)
    {
      assert LabelsBelow(x.lset, z.lset);
    }
  }

  lemma OneKeyPerSeries(rows: seq<SampleRow>, key: Bytes, other: Bytes, id: SeriesId)
    requires AllScanned(rows) && Keyed(rows, key, id) && Keyed(rows, other, id)
    ensures key == other
  {
    var i :| 0 <= i < |rows| && KeyOf(rows[i]) == other && IdOf(rows[i]) == id;
    KeyTellsSeries(rows, rows[i], key, id);
  }

  /** The groups already moved to the list. */
  ghost predicate Moved(who: map<Bytes, SeriesId>, moved: seq<Bytes>, pending: set<Bytes>, ids: seq<SeriesId>) {
    && Distinct(moved) && |moved| == |ids|
    && (forall key :: key in who <==> key in pending || key in moved)
    && (forall k :: 0 <= k < |moved| ==> moved[k] !in pending && moved[k] in who && who[moved[k]] == ids[k])
  }

  lemma MoveOne(who: map<Bytes, SeriesId>, moved: seq<Bytes>, pending: set<Bytes>, ids: seq<SeriesId>, key: Bytes)
    requires Moved(who, moved, pending, ids) && key in pending && key in who
    ensures Moved(who, moved + [key], pending - {key}, ids + [who[key]])
  {
    assert forall other :: other in moved + [key] <==> other in moved || other == key;
  }

  /** Every key is that of a series that occurs, and every series that occurs has one. */
  ghost predicate Keying(rows: seq<SampleRow>, who: map<Bytes, SeriesId>) {
    (forall i :: 0 <= i < |rows| ==> KeyOf(rows[i]) in who) && (forall key :: key in who ==> Keyed(rows, key, who[key]))
  }

  lemma GatheredKeys(rows: seq<SampleRow>, external: map<string, string>, groups: map<Bytes, Accumulator>,
          who: map<Bytes, SeriesId>)
    requires Gathered(rows, external, groups, who)
    ensures Keying(rows, who)
  {
    forall key | key in who
      ensures Keyed(rows, key, who[key])
    {
      assert Gathering(rows, external, key, who[key], groups[key]);
    }
  }

  lemma AllMoved(rows: seq<SampleRow>, who: map<Bytes, SeriesId>, moved: seq<Bytes>, ids: seq<SeriesId>)
    requires AllScanned(rows) && Keying(rows, who) && Moved(who, moved, {}, ids)
    ensures SeriesIn(rows, ids)
  {
    forall i, j | 0 <= i < j < |ids|
      ensures ids[i] != ids[j]
    {
      if ids[i] == ids[j] {
        OneKeyPerSeries(rows, moved[i], moved[j], ids[i]);
      }
    }
    forall i | 0 <= i < |rows|
      ensures IdOf(rows[i]) in ids
    {
      var key := KeyOf(rows[i]);
      assert key in moved;
      var k :| 0 <= k < |moved| && moved[k] == key;
      KeyTellsSeries(rows, rows[i], key, who[key]);
      assert ids[k] == IdOf(rows[i]);
    }
    forall k | 0 <= k < |ids|
      ensures Occurs(rows, ids[k])
    {
      var key := moved[k];
      var i :| 0 <= i < |rows| && KeyOf(rows[i]) == key && IdOf(rows[i]) == who[key];
      assert IdOf(rows[i]) == ids[k];
    }
  }

  lemma HoldOneMore(rows: seq<SampleRow>, external: map<string, string>, ids: seq<SeriesId>,
          accumulators: seq<Accumulator>, id: SeriesId, acc: Accumulator)
    requires AllHold(rows, external, ids, accumulators) && Holds(rows, external, id, acc)
    ensures AllHold(rows, external, ids + [id], accumulators + [acc])
  {
  }

  /** The second loop: Go visits the groups in any order, and sorts the samples of each. */
  method Collect(ghost rows: seq<SampleRow>, ghost external: map<string, string>, groups: map<Bytes, Accumulator>,
          ghost who: map<Bytes, SeriesId>)
    returns (accumulators: seq<Accumulator>)
    requires AllScanned(rows) && Gathered(rows, external, groups, who)
    ensures exists ids :: Groups(rows, external, ids, accumulators)
  {
    accumulators := [];
    ghost var ids: seq<SeriesId>, moved: seq<Bytes> := [], [];
    var pending := groups.Keys;
    EarlierIsWeakOrder();
    while pending != {}
      invariant pending <= groups.Keys && Moved(who, moved, pending, ids)
      invariant AllHold(rows, external, ids, accumulators)
      decreases pending
    {
      var key :| key in pending;
      var acc := groups[key];
      assert Gathering(rows, external, key, who[key], acc);
      var samples := Sorting.Sort(Earlier, acc.samples);
      acc := acc.(samples := samples);
      MoveOne(who, moved, pending, ids, key);
      HoldOneMore(rows, external, ids, accumulators, who[key], acc);
      accumulators, ids, moved := accumulators + [acc], ids + [who[key]], moved + [key];
      pending := pending - {key};
    }
    GatheredKeys(rows, external, groups, who);
    AllMoved(rows, who, moved, ids);
    assert Groups(rows, external, ids, accumulators);
  }

  lemma GroupsReordered(rows: seq<SampleRow>, external: map<string, string>, ids: seq<SeriesId>,
          before: seq<Accumulator>, after: seq<Accumulator>)
    requires Groups(rows, external, ids, before) && multiset(before) == multiset(after)
    ensures exists moved :: Groups(rows, external, moved, after)
  {
    var moved := TagsFollow(before, ids, after);
    DistinctBag(ids, moved);
    forall k | 0 <= k < |moved|
      ensures Holds(rows, external, moved[k], after[k])
      ensures Occurs(rows, moved[k])
    {
      assert Tags(before, ids, after[k], moved[k]);
      var j :| 0 <= j < |before| && before[j] == after[k] && ids[j] == moved[k];
      assert Holds(rows, external, ids[j], before[j]);
    }
    assert Groups(rows, external, moved, after);
  }

  /** `groupRowsIntoSeries`: one accumulator per series that occurs, with its merged labels and all its
      samples by time, in the order of the label sets. */
  method GroupRowsIntoSeries(rows: seq<SampleRow>, external: map<string, string>)
    returns (accumulators: seq<Accumulator>)
    requires AllScanned(rows)
    ensures exists ids :: Groups(rows, external, ids, accumulators)
    ensures Sorting.SortedBy(SeriesBelow, accumulators)
  {
    var groups := Gather(rows, external);
    ghost var who :| Gathered(rows, external, groups, who);
    var unsorted := Collect(rows, external, groups, who);
    ghost var ids :| Groups(rows, external, ids, unsorted);
    SeriesBelowIsWeakOrder();
    accumulators := Sorting.Sort(SeriesBelow, unsorted);
    GroupsReordered(rows, external, ids, unsorted, accumulators);
  }

  /* ---- nothing lost, nothing made up ---- */

  /** A sample with the label set it is served under. */
  datatype Point = Point(lset: Labels, sample: TimedValue)

  function Tagged(lset: Labels, samples: seq<TimedValue>): multiset<Point> {
    if samples == [] then multiset{} else multiset{Point(lset, samples[0])} + Tagged(lset, samples[1..])
  }

  function Points(accumulators: seq<Accumulator>): multiset<Point> {
    if accumulators == [] then multiset{}
    else Tagged(accumulators[0].lset, accumulators[0].samples) + Points(accumulators[1..])
  }

  ghost function PointOf(row: SampleRow, external: map<string, string>): Point {
    Point(Spelling(Merged(IdOf(row), external)), SampleOf(row))
  }

  ghost function Shown(external: map<string, string>): SampleRow -> Point { row => PointOf(row, external) }

  /** What the rows say, each sample under the merged labels of its series. */
  ghost function RowPoints(rows: seq<SampleRow>, external: map<string, string>): multiset<Point> {
    All(Shown(external), rows)
  }

  lemma {:induction false} TaggedCount(lset: Labels, samples: seq<TimedValue>, p: Point)
    ensures Tagged(lset, samples)[p] == if p.lset == lset then multiset(samples)[p.sample] else 0
  {
    if samples != [] {
      TaggedCount(lset, samples[1..], p);
      assert samples == [samples[0]] + samples[1..];
    }
  }

  lemma TaggedAlike(lset: Labels, samples: seq<TimedValue>, others: seq<TimedValue>)
    requires multiset(samples) == multiset(others)
    ensures Tagged(lset, samples) == Tagged(lset, others)
  {
    forall p: Point
      ensures Tagged(lset, samples)[p] == Tagged(lset, others)[p]
    {
      TaggedCount(lset, samples, p);
      TaggedCount(lset, others, p);
    }
  }

  lemma TaggedGrows(lset: Labels, samples: seq<TimedValue>, x: TimedValue)
    ensures Tagged(lset, samples + [x]) == Tagged(lset, samples) + multiset{Point(lset, x)}
  {
    forall p: Point
      ensures Tagged(lset, samples + [x])[p] == (Tagged(lset, samples) + multiset{Point(lset, x)})[p]
    {
      TaggedCount(lset, samples + [x], p);
      TaggedCount(lset, samples, p);
    }
  }

  ghost function PointsPart(rows: seq<SampleRow>, external: map<string, string>): SeriesId -> multiset<Point> {
    Part(IdOf, Shown(external), rows)
  }

  lemma PointShown(row: SampleRow, external: map<string, string>, lset: Labels)
    requires Spells(lset, Merged(IdOf(row), external))
    ensures Shown(external)(row) == Point(lset, SampleOf(row))
  {
    var m := Merged(IdOf(row), external);
    SpellingUnique(lset, m, Spelling(m), m);
  }

  /** The samples of a series, tagged, are its part of the rows under any way of showing rows that tags so. */
  lemma {:induction false} TaggedIsShown(rows: seq<SampleRow>, shown: SampleRow -> Point, id: SeriesId, lset: Labels)
    requires forall row :: row in rows && IdOf(row) == id ==> shown(row) == Point(lset, SampleOf(row))
    ensures Tagged(lset, SamplesOf(rows, id)) == Part(IdOf, shown, rows)(id)
    decreases |rows|
  {
    if rows != [] {
      var before, row := rows[..|rows| - 1], rows[|rows| - 1];
      assert forall r :: r in before ==> r in rows;
      TaggedIsShown(before, shown, id, lset);
      assert rows == before + [row] && row in rows;
      PartGrows(IdOf, shown, before, row, id);
      SamplesGrow(before, row, id);
      if IdOf(row) == id {
        TaggedGrows(lset, SamplesOf(before, id), SampleOf(row));
      } else {
        assert SamplesOf(before, id) + [] == SamplesOf(before, id);
      }
    }
  }

  lemma TaggedIsPart(rows: seq<SampleRow>, external: map<string, string>, id: SeriesId, lset: Labels)
    requires Spells(lset, Merged(id, external))
    ensures Tagged(lset, SamplesOf(rows, id)) == PointsPart(rows, external)(id)
  {
    forall row | row in rows && IdOf(row) == id
      ensures Shown(external)(row) == Point(lset, SampleOf(row))
    {
      PointShown(row, external, lset);
    }
    TaggedIsShown(rows, Shown(external), id, lset);
  }

  lemma {:induction false} PointsAreParts(rows: seq<SampleRow>, external: map<string, string>, ids: seq<SeriesId>,
          accumulators: seq<Accumulator>)
    requires AllHold(rows, external, ids, accumulators)
    ensures Points(accumulators) == Sum(PointsPart(rows, external), ids)
    decreases |ids|
  {
    if ids != [] {
      var acc := accumulators[0];
      assert Holds(rows, external, ids[0], acc);
      TaggedAlike(acc.lset, acc.samples, SamplesOf(rows, ids[0]));
      TaggedIsPart(rows, external, ids[0], acc.lset);
      PointsAreParts(rows, external, ids[1..], accumulators[1..]);
    }
  }

  /** Every row lands in one accumulator, and the accumulators hold nothing else. */
  lemma GroupsLoseNothing(rows: seq<SampleRow>, external: map<string, string>, ids: seq<SeriesId>,
          accumulators: seq<Accumulator>)
    requires Groups(rows, external, ids, accumulators)
    ensures Points(accumulators) == RowPoints(rows, external)
  {
    PointsAreParts(rows, external, ids, accumulators);
    PartsMakeAll(IdOf, Shown(external), rows, ids);
  }

  /** The series list is strictly ascending, so without duplicate label sets, when stored label names keep
      clear of the overridden ones. ApartExactly says nothing weaker would do. */
  lemma StrictWhenApart(rows: seq<SampleRow>, external: map<string, string>, ids: seq<SeriesId>,
          accumulators: seq<Accumulator>)
    requires Groups(rows, external, ids, accumulators) && Sorting.SortedBy(SeriesBelow, accumulators)
    requires forall i :: 0 <= i < |rows| ==> rows[i].labels.map_.Keys !! Overridden(external)
    ensures forall i, j :: 0 <= i < j < |accumulators| ==> LabelsBelow(accumulators[i].lset, accumulators[j].lset)
  {
    forall i, j | 0 <= i < j < |accumulators|
      ensures LabelsBelow(accumulators[i].lset, accumulators[j].lset)
    {
      DifferentSets(rows, external, ids, accumulators, i, j);
      LabelsTotal(accumulators[i].lset, accumulators[j].lset);
      assert !SeriesBelow(accumulators[j], accumulators[i]);
    }
  }

  lemma DifferentSets(rows: seq<SampleRow>, external: map<string, string>, ids: seq<SeriesId>,
          accumulators: seq<Accumulator>, i: nat, j: nat)
    requires Groups(rows, external, ids, accumulators) && i < j < |accumulators|
    requires forall k :: 0 <= k < |rows| ==> rows[k].labels.map_.Keys !! Overridden(external)
    ensures accumulators[i].lset != accumulators[j].lset
  {
    var a, b := ids[i], ids[j];
    assert Occurs(rows, a) && Occurs(rows, b);
    assert a.labels.Keys !! Overridden(external) && b.labels.Keys !! Overridden(external);
    ApartExactly(a.labels.Keys + b.labels.Keys, external);
    assert NamesWithin(a, a.labels.Keys + b.labels.Keys) && NamesWithin(b, a.labels.Keys + b.labels.Keys);
    assert Holds(rows, external, a, accumulators[i]) && Holds(rows, external, b, accumulators[j]);
    SpellingUnique(accumulators[i].lset, Merged(a, external), accumulators[j].lset, Merged(b, external));
  }
}
