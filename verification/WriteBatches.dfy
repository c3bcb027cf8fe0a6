/** A batch in closed form: which of its samples are stored, under which ids, and which label rows are buffered
    for them, said of positions in the batch. */
module WriteBatches {
  import opened MetricString
  import opened WritePath
  import opened WriteInvariant
  import opened WriteRuns
  import Timestamps

  /** A sample with what is derived from it: its series' text, the instant it is stored at, and whether its values
      print as JSON. */
  datatype Item = Item(sample: Sample, text: string, time: int, safe: bool)

  ghost function ItemOf(sample: Sample): Item {
    Item(sample, MetricText(sample.metric), Timestamps.StoredInstant(sample.timestamp),
         SafeValues(LabelsOf(sample.metric)))
  }

  ghost function Items(batch: seq<Sample>): (items: seq<Item>)
    ensures |items| == |batch|
  {
    if batch == [] then [] else [ItemOf(batch[0])] + Items(batch[1..])
  }

  lemma {:induction false} ItemsAt(batch: seq<Sample>, i: nat)
    requires i < |batch|
    ensures Items(batch)[i] == ItemOf(batch[i])
  {
    if i > 0 {
      ItemsAt(batch[1..], i - 1);
    }
  }

  /** One of the first samples is of this series. */
  predicate Seen(items: seq<Item>, n: nat, text: string)
    requires n <= |items|
  {
    n > 0 && (items[n - 1].text == text || Seen(items, n - 1, text))
  }

  lemma {:induction false} SeenExactly(items: seq<Item>, n: nat, text: string)
    requires n <= |items|
    ensures Seen(items, n, text) <==> exists i :: 0 <= i < n && items[i].text == text
  {
    if n > 0 {
      SeenExactly(items, n - 1, text);
    }
  }

  /** The first sample of a series not known before the batch. */
  ghost predicate NewAt(ids: map<string, int>, items: seq<Item>, i: nat)
    requires i < |items|
  {
    items[i].text !in ids && !Seen(items, i, items[i].text)
  }

  /** How many new series the first samples bring. */
  ghost function NewUpTo(ids: map<string, int>, items: seq<Item>, n: nat): nat
    requires n <= |items|
  {
    if n == 0 then 0 else NewUpTo(ids, items, n - 1) + if NewAt(ids, items, n - 1) then 1 else 0
  }

  /** A sample is left out exactly when it is the first of its series and its values do not print as JSON. */
  ghost predicate KeptAt(ids: map<string, int>, items: seq<Item>, i: nat)
    requires i < |items|
  {
    !NewAt(ids, items, i) || items[i].safe
  }

  ghost predicate CoversUpTo(ids: map<string, int>, items: seq<Item>, n: nat)
    requires n <= |items|
  {
    forall i :: 0 <= i < n ==> items[i].text in ids
  }

  /** The row of a sample that is kept, with its series' id, its time and its value. */
  ghost function RowAt(before: map<string, int>, after: map<string, int>, items: seq<Item>, i: nat): seq<Origin>
    requires i < |items| && items[i].text in after
  {
    if KeptAt(before, items, i)
    then [Origin(ValueRow(after[items[i].text], items[i].time, items[i].sample.value), items[i].sample)]
    else []
  }

  /** The label row of a new series whose values print as JSON. */
  ghost function LabelAt(before: map<string, int>, after: map<string, int>, items: seq<Item>, i: nat): seq<LabelRow>
    requires i < |items| && items[i].text in after
  {
    var metric := items[i].sample.metric;
    if NewAt(before, items, i) && items[i].safe
    then [LabelRow(after[items[i].text], NameOf(metric), items[i].text, LabelsOf(metric))]
    else []
  }

  ghost function RowsUpTo(before: map<string, int>, after: map<string, int>, items: seq<Item>, n: nat): seq<Origin>
    requires n <= |items| && CoversUpTo(after, items, n)
  {
    if n == 0 then [] else RowsUpTo(before, after, items, n - 1) + RowAt(before, after, items, n - 1)
  }

  ghost function LabelsUpTo(before: map<string, int>, after: map<string, int>, items: seq<Item>, n: nat)
    : seq<LabelRow>
    requires n <= |items| && CoversUpTo(after, items, n)
  {
    if n == 0 then [] else LabelsUpTo(before, after, items, n - 1) + LabelAt(before, after, items, n - 1)
  }

  /** What the first samples do to map and counter: ids one after another for the new series, and none changed. */
  ghost predicate Numbers(before: Known, items: seq<Item>, n: nat, ids: map<string, int>, next: int)
    requires n <= |items|
  {
    && Extends(before.ids, ids) && CoversUpTo(ids, items, n)
    && (forall text :: text in ids ==> text in before.ids || Seen(items, n, text))
    && (forall i :: 0 <= i < n && NewAt(before.ids, items, i) ==>
          ids[items[i].text] == before.next + NewUpTo(before.ids, items, i))
    && next == before.next + NewUpTo(before.ids, items, n)
  }

  /** What they come to in all. */
  ghost predicate Brings(before: Known, items: seq<Item>, n: nat, after: Known, rows: seq<Origin>)
    requires n <= |items|
  {
    && Numbers(before, items, n, after.ids, after.next)
    && rows == RowsUpTo(before.ids, after.ids, items, n)
    && after.labelRows == before.labelRows + LabelsUpTo(before.ids, after.ids, items, n)
  }

  lemma {:induction false} RowsStay(before: map<string, int>, after: map<string, int>, later: map<string, int>,
          items: seq<Item>, n: nat)
    requires n <= |items| && CoversUpTo(after, items, n) && CoversUpTo(later, items, n) && Extends(after, later)
    ensures RowsUpTo(before, later, items, n) == RowsUpTo(before, after, items, n)
  {
    if n > 0 {
      RowsStay(before, after, later, items, n - 1);
      assert Maps(later, items[n - 1].text, after[items[n - 1].text]);
    }
  }

  lemma {:induction false} LabelsStay(before: map<string, int>, after: map<string, int>, later: map<string, int>,
          items: seq<Item>, n: nat)
    requires n <= |items| && CoversUpTo(after, items, n) && CoversUpTo(later, items, n) && Extends(after, later)
    ensures LabelsUpTo(before, later, items, n) == LabelsUpTo(before, after, items, n)
  {
    if n > 0 {
      LabelsStay(before, after, later, items, n - 1);
      assert Maps(later, items[n - 1].text, after[items[n - 1].text]);
    }
  }

  lemma KnownIsNotNew(before: Known, items: seq<Item>, n: nat, ids: map<string, int>, next: int)
    requires n < |items| && Numbers(before, items, n, ids, next)
    ensures items[n].text in ids <==> !NewAt(before.ids, items, n)
  {
    SeenExactly(items, n, items[n].text);
  }

  lemma KnownNumbers(before: Known, items: seq<Item>, n: nat, ids: map<string, int>, next: int)
    requires n < |items| && Numbers(before, items, n, ids, next) && items[n].text in ids
    ensures Numbers(before, items, n + 1, ids, next) && !NewAt(before.ids, items, n)
  {
    KnownIsNotNew(before, items, n, ids, next);
  }

  lemma NewTexts(before: Known, items: seq<Item>, n: nat, ids: map<string, int>, id: int)
    requires n < |items|
    requires forall text :: text in ids ==> text in before.ids || Seen(items, n, text)
    ensures forall text :: text in ids[items[n].text := id] ==> text in before.ids || Seen(items, n + 1, text)
  {
  }

  lemma NewIds(before: Known, items: seq<Item>, n: nat, ids: map<string, int>)
    requires n < |items| && CoversUpTo(ids, items, n) && items[n].text !in ids
    requires forall i :: 0 <= i < n && NewAt(before.ids, items, i) ==>
               ids[items[i].text] == before.next + NewUpTo(before.ids, items, i)
    ensures var later := ids[items[n].text := before.next + NewUpTo(before.ids, items, n)];
            CoversUpTo(later, items, n + 1) &&
            forall i :: 0 <= i < n + 1 && NewAt(before.ids, items, i) ==>
              later[items[i].text] == before.next + NewUpTo(before.ids, items, i)
  {
    var later := ids[items[n].text := before.next + NewUpTo(before.ids, items, n)];
    forall i | 0 <= i < n + 1
      ensures items[i].text in later
      ensures NewAt(before.ids, items, i) ==> later[items[i].text] == before.next + NewUpTo(before.ids, items, i)
    {
      if i < n {
        assert items[i].text in ids;
      }
    }
  }

  lemma NewNumbers(before: Known, items: seq<Item>, n: nat, ids: map<string, int>, next: int)
    requires n < |items| && Numbers(before, items, n, ids, next) && items[n].text !in ids
    ensures Numbers(before, items, n + 1, ids[items[n].text := next], next + 1) && NewAt(before.ids, items, n)
    ensures Extends(ids, ids[items[n].text := next])
  {
    KnownIsNotNew(before, items, n, ids, next);
    NewTexts(before, items, n, ids, next);
    NewIds(before, items, n, ids);
  }

  /** One item absorbed. */
  ghost function Taken(known: Known, item: Item): (Known, seq<Origin>) {
    var (sample, metric) := (item.sample, item.sample.metric);
    if item.text in known.ids then
      (known, [Origin(ValueRow(known.ids[item.text], item.time, sample.value), sample)])
    else
      var id := known.next;
      var ids := known.ids[item.text := id];
      if item.safe then
        (Known(ids, id + 1, known.labelRows + [LabelRow(id, NameOf(metric), item.text, LabelsOf(metric))]),
         [Origin(ValueRow(id, item.time, sample.value), sample)])
      else
        (Known(ids, id + 1, known.labelRows), [])
  }

  lemma ItemTaken(known: Known, sample: Sample)
    requires PlainNames(sample.metric) && !Bare(sample.metric)
    ensures Absorb(known, sample) == Lives(Taken(known, ItemOf(sample)).0, Taken(known, ItemOf(sample)).1)
  {
    DecodeExact(sample.metric);
    AbsorbByText(known, sample, MetricText(sample.metric), Decode(MetricText(sample.metric)));
  }

  lemma KnownBrings(before: Known, items: seq<Item>, n: nat, after: Known, rows: seq<Origin>)
    requires n < |items| && Brings(before, items, n, after, rows) && items[n].text in after.ids
    ensures Brings(before, items, n + 1, Taken(after, items[n]).0, rows + Taken(after, items[n]).1)
  {
    KnownNumbers(before, items, n, after.ids, after.next);
    assert RowAt(before.ids, after.ids, items, n) == Taken(after, items[n]).1;
    assert LabelAt(before.ids, after.ids, items, n) == [];
  }

  lemma NewBrings(before: Known, items: seq<Item>, n: nat, after: Known, rows: seq<Origin>)
    requires n < |items| && Brings(before, items, n, after, rows) && items[n].text !in after.ids
    ensures Brings(before, items, n + 1, Taken(after, items[n]).0, rows + Taken(after, items[n]).1)
  {
    NewNumbers(before, items, n, after.ids, after.next);
    var (last, more) := Taken(after, items[n]);
    RowsStay(before.ids, after.ids, last.ids, items, n);
    LabelsStay(before.ids, after.ids, last.ids, items, n);
    assert RowAt(before.ids, last.ids, items, n) == more;
    assert last.labelRows == after.labelRows + LabelAt(before.ids, last.ids, items, n);
  }

  lemma ItemBrings(before: Known, items: seq<Item>, n: nat, after: Known, rows: seq<Origin>)
    requires n < |items| && Brings(before, items, n, after, rows)
    ensures Brings(before, items, n + 1, Taken(after, items[n]).0, rows + Taken(after, items[n]).1)
  {
    if items[n].text in after.ids {
      KnownBrings(before, items, n, after, rows);
    } else {
      NewBrings(before, items, n, after, rows);
    }
  }

  /** The first items taken one after another. */
  ghost function TakeAll(known: Known, items: seq<Item>, n: nat): (Known, seq<Origin>)
    requires n <= |items|
  {
    if n == 0 then (known, [])
    else
      var (next, rows) := TakeAll(known, items, n - 1);
      (Taken(next, items[n - 1]).0, rows + Taken(next, items[n - 1]).1)
  }

  lemma NothingBrought(before: Known, items: seq<Item>)
    ensures Brings(before, items, 0, before, [])
  {
  }

  lemma {:induction false} TakingBrings(before: Known, items: seq<Item>, n: nat)
    requires n <= |items|
    ensures Brings(before, items, n, TakeAll(before, items, n).0, TakeAll(before, items, n).1)
  {
    if n == 0 {
      NothingBrought(before, items);
    } else {
      TakingBrings(before, items, n - 1);
      ItemBrings(before, items, n - 1, TakeAll(before, items, n - 1).0, TakeAll(before, items, n - 1).1);
    }
  }

  /** Taken from the front. */
  ghost function TakeRest(known: Known, items: seq<Item>): (Known, seq<Origin>)
    decreases |items|
  {
    if items == [] then (known, [])
    else
      var (next, rows) := Taken(known, items[0]);
      (TakeRest(next, items[1..]).0, rows + TakeRest(next, items[1..]).1)
  }

  lemma {:induction false} RestOneMore(known: Known, items: seq<Item>, item: Item)
    ensures var (next, rows) := TakeRest(known, items);
            TakeRest(known, items + [item]) == (Taken(next, item).0, rows + Taken(next, item).1)
    decreases |items|
  {
    var all := items + [item];
    if items == [] {
      assert all[0] == item && all[1..] == [];
      assert Taken(known, item).1 + [] == Taken(known, item).1 == [] + Taken(known, item).1;
    } else {
      var (next, rows) := Taken(known, items[0]);
      assert all[0] == items[0] && all[1..] == items[1..] + [item];
      RestOneMore(next, items[1..], item);
      var (last, more) := TakeRest(next, items[1..]);
      assert rows + (more + Taken(last, item).1) == rows + more + Taken(last, item).1;
    }
  }

  lemma {:induction false} RestIsAll(known: Known, items: seq<Item>, n: nat)
    requires n <= |items|
    ensures TakeRest(known, items[..n]) == TakeAll(known, items, n)
  {
    if n > 0 {
      RestIsAll(known, items, n - 1);
      assert items[..n] == items[..n - 1] + [items[n - 1]];
      RestOneMore(known, items[..n - 1], items[n - 1]);
    }
  }

  lemma PlainSplits(batch: seq<Sample>)
    requires batch != [] && PlainBatch(batch) && !SomeBare(batch)
    ensures PlainNames(batch[0].metric) && !Bare(batch[0].metric) && PlainBatch(batch[1..]) && !SomeBare(batch[1..])
  {
    SomeBareSplits(batch);
  }

  lemma ItemsSplit(batch: seq<Sample>, head: Item, tail: seq<Item>)
    requires batch != [] && head == ItemOf(batch[0]) && tail == Items(batch[1..])
    ensures Items(batch) == [head] + tail
  {
  }

  lemma RestSplits(known: Known, head: Item, tail: seq<Item>)
    ensures var (next, rows) := Taken(known, head);
            TakeRest(known, [head] + tail) == (TakeRest(next, tail).0, rows + TakeRest(next, tail).1)
  {
    assert ([head] + tail)[1..] == tail;
  }

  lemma AbsorbCons(known: Known, batch: seq<Sample>, next: Known, rows: seq<Origin>, last: Known, more: seq<Origin>)
    requires batch != [] && Absorb(known, batch[0]) == Lives(next, rows)
    requires AbsorbAll(next, batch[1..]) == Lives(last, more)
    ensures AbsorbAll(known, batch) == Lives(last, rows + more)
  {
  }

  lemma {:induction false} AbsorbingTakes(known: Known, batch: seq<Sample>)
    requires PlainBatch(batch) && !SomeBare(batch)
    ensures AbsorbAll(known, batch) == Lives(TakeRest(known, Items(batch)).0, TakeRest(known, Items(batch)).1)
    decreases |batch|
  {
    if batch != [] {
      PlainSplits(batch);
      var head := ItemOf(batch[0]);
      ItemsSplit(batch, head, Items(batch[1..]));
      ItemTaken(known, batch[0]);
      var (next, rows) := Taken(known, head);
      AbsorbingTakes(next, batch[1..]);
      RestSplits(known, head, Items(batch[1..]));
      var (last, more) := TakeRest(next, Items(batch[1..]));
      AbsorbCons(known, batch, next, rows, last, more);
    }
  }

  /** After a batch: the fields and what has joined the value rows. */
  ghost predicate BatchDone(before: Known, batch: seq<Sample>, after: Known, joined: seq<ValueRow>) {
    exists rows: seq<Origin> :: AreRowsOf(joined, rows) && Brings(before, Items(batch), |batch|, after, rows)
  }

  ghost predicate AreRowsOf(joined: seq<ValueRow>, rows: seq<Origin>) {
    |joined| == |rows| && forall i :: 0 <= i < |rows| ==> joined[i] == rows[i].row
  }

  /** A batch of plain names without a bare metric, whatever is known before it: ids for its new series one after
      another, a label row for each of them that can be taken apart, and a value row for every sample but the
      first of each series that cannot. */
  lemma AbsorbsExactly(known: Known, batch: seq<Sample>)
    requires PlainBatch(batch) && !SomeBare(batch)
    ensures var absorbed := AbsorbAll(known, batch);
            absorbed.Lives? && Brings(known, Items(batch), |batch|, absorbed.known, absorbed.rows)
  {
    AbsorbingTakes(known, batch);
    RestIsAll(known, Items(batch), |batch|);
    TakingBrings(known, Items(batch), |batch|);
    assert Items(batch)[..|batch|] == Items(batch);
  }
}
