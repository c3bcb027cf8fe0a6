/** The metric writer as an object: the fields its goroutines share, and its three bodies, startup, parsing
    a batch and saving. Each method is proved against the functions whose interleavings WritePath studies:
    WriteRuns shows that a batch parsed and a save made without disturbance are runs of that system. */
module MetricWriter {
  import opened Text
  import opened MetricString
  import opened WritePath
  import opened WriteInvariant
  import opened WriteRuns
  import opened WriteBatches
  import Timestamps

  /* ---- the database ---- */

  datatype InsertOutcome = Inserted | Kept | DuplicateKey | InsertFailed

  /** The two tables. `fault` marks a call that ends in an error other than a duplicate. */
  class Database {
    var labels: seq<LabelRow>
    var values: seq<ValueRow>

    /** INSERT ... WHERE NOT EXISTS, on a table whose key is the id and whose name and labels are unique. */
    method InsertLabel(row: LabelRow, fault: bool) returns (outcome: InsertOutcome)
      modifies this`labels
      ensures outcome == InsertFailed <==> fault
      ensures outcome == Kept <==> !fault && SameText(old(labels), row)
      ensures outcome == DuplicateKey <==>
              !fault && !SameText(old(labels), row) && (SameId(old(labels), row) || SameSeries(old(labels), row))
      ensures labels == if outcome == Inserted then old(labels) + [row] else old(labels)
      ensures !fault ==> labels == Insert(old(labels), row)
    {
      if fault {
        return InsertFailed;
      }
      var clash := false;
      for i := 0 to |labels|
        invariant labels == old(labels)
        invariant clash <==> exists j :: 0 <= j < i && Conflicts(labels[j], row)
        invariant forall j :: 0 <= j < i ==> labels[j].text != row.text
      {
        if labels[i].text == row.text {
          assert Conflicts(labels[i], row);
          return Kept;
        }
        clash := clash || Conflicts(labels[i], row);
      }
      if clash {
        return DuplicateKey;
      }
      labels := labels + [row];
      return Inserted;
    }

    /** COPY in a transaction. `committed` is what the server has stored once the commit is through, none
        when an error comes first. The rows are counted after the commit only, so that a server storing
        fewer makes this an error with rows stored. */
    method CopyRows(rows: seq<ValueRow>, committed: Option<seq<ValueRow>>) returns (outcome: CopyOutcome)
      requires Credible(rows, committed)
      modifies this`values
      ensures outcome == Copied ==> values == old(values) + rows
      ensures outcome == CopyFailed <==> committed.None?
      ensures outcome == NotAllRowsCopied <==> committed.Some? && |committed.value| != |rows|
      ensures values == if committed.Some? then old(values) + committed.value else old(values)
    {
      if committed.None? {
        return CopyFailed;
      }
      var copyCount := |committed.value|;
      values := values + committed.value;
      if copyCount != |rows| {
        return NotAllRowsCopied;
      }
      return Copied;
    }
  }

  predicate SameText(labels: seq<LabelRow>, row: LabelRow) {
    exists i :: 0 <= i < |labels| && labels[i].text == row.text
  }

  predicate SameId(labels: seq<LabelRow>, row: LabelRow) {
    exists i :: 0 <= i < |labels| && labels[i].id == row.id
  }

  predicate SameSeries(labels: seq<LabelRow>, row: LabelRow) {
    exists i :: 0 <= i < |labels| && labels[i].name == row.name && labels[i].labels == row.labels
  }

  datatype CopyOutcome = Copied | CopyFailed | NotAllRowsCopied

  /** A server that counts all the rows has stored these rows. */
  predicate Credible(rows: seq<ValueRow>, committed: Option<seq<ValueRow>>) {
    Counted(rows, committed) ==> committed.value == rows
  }

  predicate Counted(rows: seq<ValueRow>, committed: Option<seq<ValueRow>>) {
    committed.Some? && |committed.value| == |rows|
  }

  /* ---- startup ---- */

  /** A column value as the driver hands it over, with its dynamic type. */
  datatype Cell = Int64Cell(i: int) | IntCell(i: int) | TextCell(s: string) | OtherCell

  datatype ResultRow = ResultRow(metricID: Cell, metricNameLabel: Cell)

  datatype RegisterError = CastMetricID | CastMetricNameLabel

  predicate HasId(row: ResultRow) { row.metricID.Int64Cell? || row.metricID.IntCell? }

  predicate Readable(row: ResultRow) { HasId(row) && row.metricNameLabel.TextCell? }

  predicate FirstUnreadable(rows: seq<ResultRow>, i: int) {
    0 <= i < |rows| && !Readable(rows[i]) && forall j :: 0 <= j < i ==> Readable(rows[j])
  }

  function ReadRow(row: ResultRow): LabelRow {
    if Readable(row) then LabelRow(row.metricID.i, "", row.metricNameLabel.s, map[]) else LabelRow(0, "", "", map[])
  }

  function ReadRows(rows: seq<ResultRow>): seq<LabelRow> {
    seq(|rows|, i requires 0 <= i < |rows| => ReadRow(rows[i]))
  }

  /** The rows the select brings back from a label table. */
  predicate Selected(rows: seq<ResultRow>, labels: seq<LabelRow>) {
    |rows| == |labels| && forall i :: 0 <= i < |rows| ==>
      Readable(rows[i]) && rows[i].metricID.i == labels[i].id && rows[i].metricNameLabel.s == labels[i].text
  }

  /** The row reads as this id and this text. */
  predicate Says(row: ResultRow, id: int, text: string) {
    Readable(row) && row.metricID.i == id && row.metricNameLabel.s == text
  }

  /** The last row that reads as this text has this id. */
  predicate LastSays(rows: seq<ResultRow>, i: int, id: int, text: string) {
    && 0 <= i < |rows| && Says(rows[i], id, text)
    && forall j :: i < j < |rows| ==> rows[j].metricNameLabel != TextCell(text)
  }

  /** Every text read is known under the id of its last row, and nothing else is known. */
  ghost predicate KnowsTexts(ids: map<string, int>, rows: seq<ResultRow>) {
    && (forall i, id, text :: 0 <= i < |rows| && Says(rows[i], id, text) ==> text in ids)
    && (forall text :: text in ids ==> exists i :: LastSays(rows, i, ids[text], text))
  }

  /** The highest of zero and the ids read. */
  ghost predicate HighestId(highest: int, rows: seq<ResultRow>) {
    && highest >= 0
    && (forall i, id, text :: 0 <= i < |rows| && Says(rows[i], id, text) ==> id <= highest)
    && (highest == 0 || exists i, text :: 0 <= i < |rows| && Says(rows[i], highest, text))
  }

  lemma RowsSay(rows: seq<ResultRow>)
    requires forall i :: 0 <= i < |rows| ==> Readable(rows[i])
    ensures |ReadRows(rows)| == |rows|
    ensures forall i :: 0 <= i < |rows| ==> Says(rows[i], ReadRows(rows)[i].id, ReadRows(rows)[i].text)
  {
  }

  lemma TextsKnown(rows: seq<ResultRow>)
    requires forall i :: 0 <= i < |rows| ==> Readable(rows[i])
    ensures KnowsTexts(Registered(ReadRows(rows)), rows)
  {
    var labels := ReadRows(rows);
    RowsSay(rows);
    RegisteredTakesLast(labels);
    forall text | text in Registered(labels)
      ensures exists i :: LastSays(rows, i, Registered(labels)[text], text)
    {
      var i :| LastOfText(labels, i, text, Registered(labels)[text]);
      assert forall j :: i < j < |rows| ==> rows[j].metricNameLabel == TextCell(labels[j].text);
      assert LastSays(rows, i, Registered(labels)[text], text);
    }
  }

  lemma HighestRead(rows: seq<ResultRow>)
    requires forall i :: 0 <= i < |rows| ==> Readable(rows[i])
    ensures HighestId(MaxId(ReadRows(rows)), rows)
  {
    var labels := ReadRows(rows);
    RowsSay(rows);
    MaxIdBounds(labels);
    MaxIdAttained(labels);
    if MaxId(labels) != 0 {
      var i :| 0 <= i < |labels| && labels[i].id == MaxId(labels);
      assert Says(rows[i], MaxId(labels), labels[i].text);
    }
  }

  lemma {:induction false} OnlyIdAndTextMatter(a: seq<LabelRow>, b: seq<LabelRow>)
    requires |a| == |b| && forall i :: 0 <= i < |a| ==> a[i].id == b[i].id && a[i].text == b[i].text
    ensures Registered(a) == Registered(b) && MaxId(a) == MaxId(b)
  {
    if a != [] {
      OnlyIdAndTextMatter(a[..|a| - 1], b[..|b| - 1]);
    }
  }

  lemma AllRead(rows: seq<ResultRow>)
    requires forall i :: 0 <= i < |rows| ==> Readable(rows[i])
    ensures KnowsTexts(Registered(ReadRows(rows)), rows) && HighestId(MaxId(ReadRows(rows)), rows)
    ensures forall labels :: Selected(rows, labels) ==>
              Registered(ReadRows(rows)) == Registered(labels) && MaxId(ReadRows(rows)) == MaxId(labels)
  {
    TextsKnown(rows);
    HighestRead(rows);
    forall labels | Selected(rows, labels)
      ensures Registered(ReadRows(rows)) == Registered(labels) && MaxId(ReadRows(rows)) == MaxId(labels)
    {
      OnlyIdAndTextMatter(ReadRows(rows), labels);
    }
  }

  /* ---- the writer ---- */

  function RowsOf(origins: seq<Origin>): seq<ValueRow> {
    seq(|origins|, i requires 0 <= i < |origins| => origins[i].row)
  }

  lemma RowsOfMore(origins: seq<Origin>, more: seq<Origin>)
    ensures RowsOf(origins + more) == RowsOf(origins) + RowsOf(more)
  {
  }

  lemma RowsOfNoneOrOne(origin: Origin)
    ensures RowsOf([]) == [] && RowsOf([origin]) == [origin.row]
  {
  }

  datatype SaveError = SaveLabels | SaveValues

  function FirstFault(faults: seq<bool>): (k: nat)
    ensures k <= |faults| && (forall i :: 0 <= i < k ==> !faults[i]) && (k < |faults| ==> faults[k])
  {
    if faults == [] || faults[0] then 0 else 1 + FirstFault(faults[1..])
  }

  lemma {:induction false} InsertAllOneMore(labels: seq<LabelRow>, rows: seq<LabelRow>, row: LabelRow)
    ensures InsertAll(labels, rows + [row]) == Insert(InsertAll(labels, rows), row)
    decreases |rows|
  {
    if rows == [] {
      assert [] + [row] == [row] && [row][1..] == [];
      assert InsertAll(Insert(labels, row), []) == Insert(labels, row);
    } else {
      assert (rows + [row])[1..] == rows[1..] + [row];
      InsertAllOneMore(Insert(labels, rows[0]), rows[1..], row);
    }
  }

  lemma InsertAllPrefix(labels: seq<LabelRow>, rows: seq<LabelRow>, n: nat)
    requires n < |rows|
    ensures InsertAll(labels, rows[..n + 1]) == Insert(InsertAll(labels, rows[..n]), rows[n])
  {
    InsertAllOneMore(labels, rows[..n], rows[n]);
    assert rows[..n + 1] == rows[..n] + [rows[n]];
  }

  /** What is left to absorb, put behind the rows absorbed so far. */
  ghost function Behind(rows: seq<Origin>, rest: Absorbed): Absorbed {
    match rest
    case Died => Died
    case Lives(known, more) => Lives(known, rows + more)
  }

  lemma AbsorbHead(known: Known, batch: seq<Sample>, rows: seq<Origin>)
    requires batch != []
    ensures Behind(rows, AbsorbAll(known, batch)) ==
            match Absorb(known, batch[0])
            case Died => Died
            case Lives(next, more) => Behind(rows + more, AbsorbAll(next, batch[1..]))
  {
    match Absorb(known, batch[0])
    case Died =>
    case Lives(next, more) =>
      var rest := AbsorbAll(next, batch[1..]);
      if rest.Lives? {
        assert rows + (more + rest.rows) == rows + more + rest.rows;
      }
  }

  lemma AbsorbNone(known: Known, rows: seq<Origin>)
    ensures Behind(rows, AbsorbAll(known, [])) == Lives(known, rows)
  {
    assert rows + [] == rows;
  }

  lemma BatchDeath(known: Known, samples: seq<Sample>)
    ensures Braces(known.ids) && PlainBatch(samples) ==> (AbsorbAll(known, samples).Died? <==> SomeBare(samples))
  {
    if Braces(known.ids) && PlainBatch(samples) {
      DiesExactly(known, samples);
    }
  }

  /** The state of the transition system that these tables and buffers are, `stored` being the value rows of
      its table in their order. */
  ghost predicate Shows(s: State, stored: seq<Origin>, labels: seq<LabelRow>, values: seq<ValueRow>,
          labelRows: seq<LabelRow>, valuesRows: seq<ValueRow>) {
    && s.memory.Some?
    && s.tables.labels == labels && s.tables.values == multiset(stored) && RowsOf(stored) == values
    && s.memory.value.labelRows == labelRows && RowsOf(s.memory.value.valueRows) == valuesRows
  }

  /** These tables, with the buffers empty, are what a save with these faults leaves. */
  ghost predicate SavesAs(s: State, stored: seq<Origin>, faults: Faults, labels: seq<LabelRow>, values: seq<ValueRow>)
    requires s.memory.Some?
  {
    var memory := s.memory.value;
    && faults.inserted <= |memory.labelRows|
    && var t := Saved(s, memory.labelRows, memory.valueRows, faults);
       Shows(t, stored + (if Succeeds(memory.labelRows, faults) then memory.valueRows else []), labels, values, [], [])
  }

  lemma SaveRefines(s: State, stored: seq<Origin>, faults: Faults, rows: seq<ValueRow>, before: seq<ValueRow>,
          after: seq<ValueRow>)
    requires s.memory.Some? && s.tables.values == multiset(stored) && RowsOf(stored) == before
    requires RowsOf(s.memory.value.valueRows) == rows && faults.inserted <= |s.memory.value.labelRows|
    requires after == if Succeeds(s.memory.value.labelRows, faults) then before + rows else before
    ensures SavesAs(s, stored, faults, InsertAll(s.tables.labels, s.memory.value.labelRows[..faults.inserted]), after)
  {
    var more := if Succeeds(s.memory.value.labelRows, faults) then s.memory.value.valueRows else [];
    RowsOfMore(stored, more);
    assert RowsOf([]) == [] && before + [] == before;
    assert multiset(stored + more) == multiset(stored) + multiset(more);
    assert stored + [] == stored;
  }

  lemma BatchBrings(known: Known, samples: seq<Sample>)
    ensures var absorbed := AbsorbAll(known, samples);
            PlainBatch(samples) && !SomeBare(samples) ==>
              absorbed.Lives? && BatchDone(known, samples, absorbed.known, RowsOf(absorbed.rows))
  {
    if PlainBatch(samples) && !SomeBare(samples) {
      AbsorbsExactly(known, samples);
      assert AreRowsOf(RowsOf(AbsorbAll(known, samples).rows), AbsorbAll(known, samples).rows);
    }
  }

  class Writer {
    var labelRows: seq<LabelRow>
    var valuesRows: seq<ValueRow>
    var syncMap: map<string, int>
    var nextMetricID: int

    ghost function Knows(): Known
      reads this
    {
      Known(syncMap, nextMetricID, labelRows)
    }

    constructor ()
      ensures labelRows == [] && valuesRows == [] && syncMap == map[] && nextMetricID == 0
    {
      labelRows, valuesRows, syncMap, nextMetricID := [], [], map[], 0;
    }

    /** `registerExistingMetrics`: the map and the counter from the label table, or the error of the first
        row that cannot be read. */
    method RegisterExistingMetrics(results: seq<ResultRow>) returns (err: Option<RegisterError>)
      requires syncMap == map[]
      modifies this`syncMap, this`nextMetricID
      ensures err.None? <==> forall i :: 0 <= i < |results| ==> Readable(results[i])
      ensures err.None? ==> KnowsTexts(syncMap, results) && HighestId(nextMetricID - 1, results)
      ensures err.Some? ==>
              exists i :: FirstUnreadable(results, i) && (err.value == CastMetricID <==> !HasId(results[i]))
      ensures forall labels :: Selected(results, labels) ==>
              syncMap == Registered(labels) && nextMetricID == MaxId(labels) + 1
    {
      var maxMetricID := 0;
      for n := 0 to |results|
        invariant forall i :: 0 <= i < n ==> Readable(results[i])
        invariant syncMap == Registered(ReadRows(results[..n])) && maxMetricID == MaxId(ReadRows(results[..n]))
        invariant nextMetricID == old(nextMetricID)
      {
        var result := results[n];
        assert !Readable(result) ==> FirstUnreadable(results, n);
        if !HasId(result) {
          return Some(CastMetricID);
        }
        if !result.metricNameLabel.TextCell? {
          return Some(CastMetricNameLabel);
        }
        var upTo := ReadRows(results[..n + 1]);
        assert upTo[..n] == ReadRows(results[..n]) && upTo[n] == ReadRow(result);
        syncMap := syncMap[result.metricNameLabel.s := result.metricID.i];
        if result.metricID.i > maxMetricID {
          maxMetricID := result.metricID.i;
        }
      }
      assert results[..|results|] == results;
      nextMetricID := maxMetricID + 1;
      AllRead(results);
      return None;
    }

    /** A new text: the counter's id for it, stored before the text is taken apart. None for a text that
        cannot be, whose sample is skipped when the process lives on. */
    method Announce(metricString: string, decoded: Decoded) returns (died: bool, id: Option<int>)
      modifies this`labelRows, this`syncMap, this`nextMetricID
      ensures died == decoded.NoBrace? && id == if decoded.Series? then Some(old(nextMetricID)) else None
      ensures syncMap == old(syncMap)[metricString := old(nextMetricID)] && nextMetricID == old(nextMetricID) + 1
      ensures labelRows ==
              if decoded.Series?
              then old(labelRows) + [LabelRow(old(nextMetricID), decoded.name, metricString, decoded.labels)]
              else old(labelRows)
    {
      var nextID := nextMetricID;
      nextMetricID := nextMetricID + 1;
      syncMap := syncMap[metricString := nextID];
      match decoded
      case NoBrace => return true, None;
      case Refused => return false, None;
      case Series(name, labels) =>
        labelRows := labelRows + [LabelRow(nextID, name, metricString, labels)];
        return false, Some(nextID);
    }

    /** The id a sample is stored under, if it is. */
    method Resolve(sample: Sample, metricString: string, decoded: Decoded) returns (died: bool, id: Option<int>)
      requires metricString == MetricText(sample.metric) && decoded == Decode(metricString)
      modifies this`labelRows, this`syncMap, this`nextMetricID
      ensures var absorbed := Absorb(old(Knows()), sample);
              && (died <==> absorbed.Died?)
              && (!died ==>
                    Knows() == absorbed.known &&
                    absorbed.rows == if id.Some? then [OriginOf(id.value, sample)] else [])
    {
      if metricString in syncMap {
        return false, Some(syncMap[metricString]);
      }
      assert Absorb(Knows(), sample) == AbsorbNew(Knows(), sample, metricString, decoded);
      died, id := Announce(metricString, decoded);
    }

    method ValueRowOf(id: int, sample: Sample) returns (row: ValueRow)
      ensures row == OriginOf(id, sample).row
    {
      var milliseconds := Timestamps.Quotient(Timestamps.UnixNano(sample.timestamp), Timestamps.NANOS_PER_MILLI);
      row := ValueRow(id, Timestamps.ToTimestamp(milliseconds), sample.value);
    }

    /** One turn of the sample loop: the row to store, none for a new text that cannot be taken apart. */
    method ParseSample(sample: Sample) returns (died: bool, row: Option<ValueRow>)
      modifies this`labelRows, this`syncMap, this`nextMetricID
      ensures died <==> Absorb(old(Knows()), sample).Died?
      ensures !died ==> Knows() == Absorb(old(Knows()), sample).known
      ensures !died ==> (if row.Some? then [row.value] else []) == RowsOf(Absorb(old(Knows()), sample).rows)
    {
      var metricString := TransformToMetricString(sample.metric);
      var id;
      died, id := Resolve(sample, metricString, Decode(metricString));
      if died || id.None? {
        assert RowsOf([]) == [];
        return died, None;
      }
      var valueRow := ValueRowOf(id.value, sample);
      RowsOfNoneOrOne(OriginOf(id.value, sample));
      return false, Some(valueRow);
    }

    /** The sample loop of `parser`. */
    method ParseSamples(samples: seq<Sample>) returns (died: bool, parsedSamples: seq<ValueRow>)
      modifies this`labelRows, this`syncMap, this`nextMetricID
      ensures var absorbed := AbsorbAll(old(Knows()), samples);
              && (died <==> absorbed.Died?)
              && (!died ==> Knows() == absorbed.known && parsedSamples == RowsOf(absorbed.rows))
    {
      parsedSamples := [];
      ghost var origins: seq<Origin> := [];
      assert Behind([], AbsorbAll(Knows(), samples)) == AbsorbAll(Knows(), samples);
      var n := 0;
      while n < |samples|
        invariant 0 <= n <= |samples|
        invariant Behind(origins, AbsorbAll(Knows(), samples[n..])) == AbsorbAll(old(Knows()), samples)
        invariant parsedSamples == RowsOf(origins)
      {
        ghost var before := Knows();
        AbsorbHead(before, samples[n..], origins);
        var row;
        died, row := ParseSample(samples[n]);
        if died {
          return true, [];
        }
        if row.Some? {
          parsedSamples := parsedSamples + [row.value];
        }
        ghost var more := Absorb(before, samples[n]).rows;
        RowsOfMore(origins, more);
        origins := origins + more;
        assert samples[n..][1..] == samples[n + 1..];
        n := n + 1;
      }
      assert samples[n..] == [];
      AbsorbNone(Knows(), origins);
      return false, parsedSamples;
    }

    /** `parser` on one batch from the queue. The value rows join the buffer at the end, all at once. */
    method ParseBatch(samples: seq<Sample>) returns (died: bool)
      modifies this
      ensures var absorbed := AbsorbAll(old(Knows()), samples);
              && (died <==> absorbed.Died?)
              && (!died ==> Knows() == absorbed.known && valuesRows == old(valuesRows) + RowsOf(absorbed.rows))
      ensures Braces(old(syncMap)) && PlainBatch(samples) ==> (died <==> SomeBare(samples))
      ensures PlainBatch(samples) && !SomeBare(samples) ==>
              !died && old(valuesRows) <= valuesRows &&
              BatchDone(old(Knows()), samples, Knows(), valuesRows[|old(valuesRows)|..])
    {
      BatchDeath(Knows(), samples);
      BatchBrings(Knows(), samples);
      var parsedSamples;
      died, parsedSamples := ParseSamples(samples);
      if !died {
        valuesRows := valuesRows + parsedSamples;
        assert valuesRows[|old(valuesRows)|..] == parsedSamples;
      }
    }

    /** The label half of `save`: inserts up to the first real error. */
    method SaveLabelRows(database: Database, rows: seq<LabelRow>, faults: seq<bool>) returns (ok: bool)
      requires |faults| == |rows|
      modifies database`labels
      ensures database.labels == InsertAll(old(database.labels), rows[..FirstFault(faults)])
      ensures ok <==> FirstFault(faults) == |faults|
    {
      var n := 0;
      while n < |rows|
        invariant 0 <= n <= FirstFault(faults)
        invariant database.labels == InsertAll(old(database.labels), rows[..n])
      {
        var outcome := database.InsertLabel(rows[n], faults[n]);
        if outcome == InsertFailed {
          return false;
        }
        InsertAllPrefix(old(database.labels), rows, n);
        n := n + 1;
      }
      return true;
    }

    /** `save`. Label `i` of the buffer meets a real error when `labelFaults[i]`; the copy commits `committed`.
        Both buffers end empty whatever happens. A copy that stores all or nothing makes this the save of the
        transition system, which SaveReaches shows to be a run. */
    method Save(database: Database, labelFaults: seq<bool>, committed: Option<seq<ValueRow>>)
      returns (err: Option<SaveError>)
      requires |labelFaults| == |labelRows| && Credible(valuesRows, committed)
      modifies this`labelRows, this`valuesRows, database
      ensures labelRows == [] && valuesRows == []
      ensures database.labels == InsertAll(old(database.labels), old(labelRows)[..FirstFault(labelFaults)])
      ensures err == Some(SaveLabels) <==> exists i :: 0 <= i < |labelFaults| && labelFaults[i]
      ensures err == Some(SaveValues) <==>
              (forall i :: 0 <= i < |labelFaults| ==> !labelFaults[i]) &&
              old(valuesRows) != [] && committed != Some(old(valuesRows))
      ensures err.None? ==> database.values == old(database.values) + old(valuesRows)
      ensures err == Some(SaveLabels) ==> database.values == old(database.values)
      ensures err == Some(SaveValues) ==>
              database.values == old(database.values) + if committed.Some? then committed.value else []
      ensures committed.None? || committed.value == old(valuesRows) ==>
              forall s: State, stored: seq<Origin> ::
                Shows(s, stored, old(database.labels), old(database.values), old(labelRows), old(valuesRows)) ==>
                  SavesAs(s, stored, Faults(FirstFault(labelFaults), committed.None?),
                          database.labels, database.values)
    {
      var labelRowsCopy, valuesRowsCopy := labelRows, valuesRows;
      err := None;
      var ok := SaveLabelRows(database, labelRowsCopy, labelFaults);
      if !ok {
        err := Some(SaveLabels);
      } else if |valuesRowsCopy| > 0 {
        var outcome := database.CopyRows(valuesRowsCopy, committed);
        if outcome != Copied {
          err := Some(SaveValues);
        }
      }
      labelRows := [];
      valuesRows := [];
      var faults := Faults(FirstFault(labelFaults), committed.None?);
      assert old(valuesRows) == [] ==> old(database.values) + [] == old(database.values);
      forall s: State, stored: seq<Origin> |
        (committed.None? || committed.value == old(valuesRows)) &&
        Shows(s, stored, old(database.labels), old(database.values), old(labelRows), old(valuesRows))
        ensures SavesAs(s, stored, faults, database.labels, database.values)
      {
        SaveRefines(s, stored, faults, old(valuesRows), old(database.values), database.values);
      }
    }
  }
}
