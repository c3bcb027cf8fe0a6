/** The two tables as the read paths see them, and what PostgreSQL may answer to their queries, whose texts
    are read by Sql's reader. */
module Storage {
  import opened Text
  import opened Domain
  import opened Sql
  import opened QueryBuilder
  import opened Bags
  import opened Matching
  import MetricString
  import Sorting

  datatype LabelEntry = LabelEntry(id: int, series: StoredSeries)

  datatype ValueEntry = ValueEntry(id: int, time: int, value: int)

  datatype Relations = Relations(labels: seq<LabelEntry>, values: seq<ValueEntry>)

  /** A row of `metric_values v, metric_labels l`. */
  datatype Pair = Pair(entry: LabelEntry, value: ValueEntry)

  function PairsWith(entry: LabelEntry, values: seq<ValueEntry>): seq<Pair> {
    if values == [] then []
    else
      var last := values[|values| - 1];
      PairsWith(entry, values[..|values| - 1]) + if entry.id == last.id then [Pair(entry, last)] else []
  }

  /** The join on the id. */
  function Joined(labels: seq<LabelEntry>, values: seq<ValueEntry>): seq<Pair> {
    if labels == [] then []
    else Joined(labels[..|labels| - 1], values) + PairsWith(labels[|labels| - 1], values)
  }

  /* ---- the samples query ---- */

  /** A condition on a joined row; a time literal nobody can read is no time. */
  function PairMeaning(calendar: Calendar, c: Condition, pair: Pair): Truth {
    match c
    case TimeFrom(literal) =>
      var bound := calendar.read(literal);
      if bound.Some? then Of(bound.value <= pair.value.time) else Unknown
    case TimeTo(literal) =>
      var bound := calendar.read(literal);
      if bound.Some? then Of(pair.value.time <= bound.value) else Unknown
    case _ => Meaning(c, pair.entry.series)
  }

  function Selects(calendar: Calendar, conditions: seq<Condition>): Pair -> bool {
    pair =>
      Conjunction(seq(|conditions|,
                      i requires 0 <= i < |conditions| => PairMeaning(calendar, conditions[i], pair))) == Yes
  }

  ghost function Scanned(column: LabelsColumn): SampleLabels {
    SampleLabels(Decoded(column), Sorted(Decoded(column).Keys))
  }

  /** The row the adapter scans. */
  ghost function RowOf(pair: Pair): SampleRow {
    SampleRow(pair.value.time, pair.value.value, pair.entry.series.name, Scanned(pair.entry.series.labels))
  }

  predicate TimeBefore(a: SampleRow, b: SampleRow) { a.timestamp < b.timestamp }

  /* ---- a whole query, as it is read ---- */

  /** A row of the cross product of the two tables, whatever the ids. */
  function AllPairs(entry: LabelEntry, values: seq<ValueEntry>): seq<Pair> {
    if values == [] then [] else AllPairs(entry, values[..|values| - 1]) + [Pair(entry, values[|values| - 1])]
  }

  function CrossProduct(labels: seq<LabelEntry>, values: seq<ValueEntry>): seq<Pair> {
    if labels == [] then []
    else CrossProduct(labels[..|labels| - 1], values) + AllPairs(labels[|labels| - 1], values)
  }

  /** What a column holds; Bits is a float64. */
  datatype Datum = Number(i: int) | Instant(t: int) | Bits(b: int) | Words(s: string) | Object(labels: LabelsColumn)

  function FieldOf(table: Table, field: Field, pair: Pair): Option<Datum> {
    match (table, field)
    case (ValuesTable, MetricId) => Some(Number(pair.value.id))
    case (ValuesTable, MetricTime) => Some(Instant(pair.value.time))
    case (ValuesTable, MetricValue) => Some(Bits(pair.value.value))
    case (LabelsTable, MetricId) => Some(Number(pair.entry.id))
    case (LabelsTable, MetricName) => Some(Words(pair.entry.series.name))
    case (LabelsTable, MetricLabels) => Some(Object(pair.entry.series.labels))
    case _ => None
  }

  function TableNamed(sources: seq<Source>, alias: char): Option<Table> {
    if sources == [] then None
    else if sources[0].alias == alias then Some(sources[0].table)
    else TableNamed(sources[1..], alias)
  }

  function ColumnOf(sources: seq<Source>, column: Column, pair: Pair): Option<Datum> {
    match TableNamed(sources, column.alias)
    case None => None
    case Some(table) => FieldOf(table, column.field, pair)
  }

  /** Both tables, once each, under the names that the conditions use for them. */
  predicate BothTables(sources: seq<Source>) {
    |sources| == 2 && TableNamed(sources, 'v') == Some(ValuesTable) && TableNamed(sources, 'l') == Some(LabelsTable)
  }

  function JoinMeaning(sources: seq<Source>, on: JoinCondition, pair: Pair): Truth {
    match (ColumnOf(sources, on.left, pair), ColumnOf(sources, on.right, pair))
    case (Some(a), Some(b)) =>
      if on.op == Equal then Of(a == b) else if on.op == NotEqual then Of(a != b) else Unknown
    case _ => Unknown
  }

  /** All of WHERE is true of the row. */
  function Chosen(calendar: Calendar, select: Select): Pair -> bool {
    pair => JoinMeaning(select.sources, select.on, pair) == Yes && Selects(calendar, select.conditions)(pair)
  }

  /** The row the adapter scans from the selected columns, by their positions: time, name, value, labels. */
  ghost function ScannedFrom(select: Select, pair: Pair): Option<SampleRow> {
    if |select.columns| != 4 then None
    else
      match (ColumnOf(select.sources, select.columns[0], pair), ColumnOf(select.sources, select.columns[1], pair),
             ColumnOf(select.sources, select.columns[2], pair), ColumnOf(select.sources, select.columns[3], pair))
      case (Some(Instant(t)), Some(Words(name)), Some(Bits(b)), Some(Object(labels))) =>
        Some(SampleRow(t, b, name, Scanned(labels)))
      case _ => None
  }

  predicate DatumBefore(a: Option<Datum>, b: Option<Datum>) {
    match (a, b)
    case (Some(Instant(t)), Some(Instant(u))) => t < u
    case (Some(Number(i)), Some(Number(j))) => i < j
    case _ => false
  }

  /** ORDER BY these columns, ascending. */
  predicate OrderedBefore(sources: seq<Source>, order: seq<Column>, p: Pair, q: Pair) {
    order != [] &&
    (DatumBefore(ColumnOf(sources, order[0], p), ColumnOf(sources, order[0], q)) ||
     (ColumnOf(sources, order[0], p) == ColumnOf(sources, order[0], q) && OrderedBefore(sources, order[1..], p, q)))
  }

  /** The chosen rows of the cross product, each as often as it is there, in order, as they are scanned. */
  ghost predicate SelectAnswer(calendar: Calendar, tables: Relations, select: Select, rows: seq<SampleRow>) {
    exists pairs: seq<Pair> ::
      Lists(pairs, Kept(Chosen(calendar, select), Itself, CrossProduct(tables.labels, tables.values))) &&
      InOrderOf(select, pairs) && AllScannedFrom(select, pairs, rows)
  }

  function Itself(pair: Pair): Pair { pair }

  predicate Lists(pairs: seq<Pair>, bag: multiset<Pair>) { multiset(pairs) == bag }

  ghost predicate InOrderOf(select: Select, pairs: seq<Pair>) {
    forall i, j :: 0 <= i < j < |pairs| ==> !OrderedBefore(select.sources, select.order, pairs[j], pairs[i])
  }

  ghost predicate AllScannedFrom(select: Select, pairs: seq<Pair>, rows: seq<SampleRow>) {
    |rows| == |pairs| && forall i :: 0 <= i < |rows| ==> ScannedFrom(select, pairs[i]) == Some(rows[i])
  }

  /* ---- the query of the builder ---- */

  lemma SamplesSources(conditions: seq<Condition>)
    ensures var sources := SamplesSelect(conditions).sources;
            BothTables(sources) &&
            TableNamed(sources, 'v') == Some(ValuesTable) && TableNamed(sources, 'l') == Some(LabelsTable)
  {
    var sources := SamplesSelect(conditions).sources;
    assert sources[1..][0] == Source(LabelsTable, 'l');
  }

  lemma SamplesColumn(conditions: seq<Condition>, column: Column, pair: Pair)
    requires column.alias == 'v' || column.alias == 'l'
    ensures ColumnOf(SamplesSelect(conditions).sources, column, pair) ==
            FieldOf(if column.alias == 'v' then ValuesTable else LabelsTable, column.field, pair)
  {
    SamplesSources(conditions);
  }

  lemma SamplesJoin(conditions: seq<Condition>, pair: Pair)
    ensures var select := SamplesSelect(conditions);
            JoinMeaning(select.sources, select.on, pair) == Yes <==> pair.entry.id == pair.value.id
  {
    SamplesColumn(conditions, Column('l', MetricId), pair);
    SamplesColumn(conditions, Column('v', MetricId), pair);
  }

  lemma ScannedInOrder(select: Select, pair: Pair, t: int, name: string, b: int, labels: LabelsColumn)
    requires |select.columns| == 4
    requires ColumnOf(select.sources, select.columns[0], pair) == Some(Instant(t))
    requires ColumnOf(select.sources, select.columns[1], pair) == Some(Words(name))
    requires ColumnOf(select.sources, select.columns[2], pair) == Some(Bits(b))
    requires ColumnOf(select.sources, select.columns[3], pair) == Some(Object(labels))
    ensures ScannedFrom(select, pair) == Some(SampleRow(t, b, name, Scanned(labels)))
  {
  }

  lemma SamplesScanned(conditions: seq<Condition>, pair: Pair)
    ensures ScannedFrom(SamplesSelect(conditions), pair) == Some(RowOf(pair))
  {
    SamplesColumn(conditions, Column('v', MetricTime), pair);
    SamplesColumn(conditions, Column('l', MetricName), pair);
    SamplesColumn(conditions, Column('v', MetricValue), pair);
    SamplesColumn(conditions, Column('l', MetricLabels), pair);
    ScannedInOrder(SamplesSelect(conditions), pair, pair.value.time, pair.entry.series.name, pair.value.value,
                   pair.entry.series.labels);
  }

  lemma SamplesOrder(conditions: seq<Condition>, p: Pair, q: Pair)
    ensures var select := SamplesSelect(conditions);
            OrderedBefore(select.sources, select.order, p, q) <==> p.value.time < q.value.time
  {
    assert SamplesSelect(conditions).order[1..] == [];
    SamplesColumn(conditions, Column('v', MetricTime), p);
    SamplesColumn(conditions, Column('v', MetricTime), q);
  }

  lemma {:induction false} PairsOnIds<B>(keep: Pair -> bool, both: Pair -> bool, show: Pair -> B, entry: LabelEntry,
          values: seq<ValueEntry>)
    requires forall pair :: both(pair) <==> pair.entry.id == pair.value.id && keep(pair)
    ensures Kept(both, show, AllPairs(entry, values)) == Kept(keep, show, PairsWith(entry, values))
  {
    if values != [] {
      var before, last := values[..|values| - 1], values[|values| - 1];
      PairsOnIds(keep, both, show, entry, before);
      KeptGrows(both, show, AllPairs(entry, before), Pair(entry, last));
      KeptGrows(keep, show, PairsWith(entry, before), Pair(entry, last));
      assert PairsWith(entry, before) + [] == PairsWith(entry, before);
    }
  }

  /** Choosing from the cross product by equal ids is choosing from the join. */
  lemma {:induction false} CrossOnIds<B>(keep: Pair -> bool, both: Pair -> bool, show: Pair -> B,
          labels: seq<LabelEntry>, values: seq<ValueEntry>)
    requires forall pair :: both(pair) <==> pair.entry.id == pair.value.id && keep(pair)
    ensures Kept(both, show, CrossProduct(labels, values)) == Kept(keep, show, Joined(labels, values))
  {
    if labels != [] {
      var before, last := labels[..|labels| - 1], labels[|labels| - 1];
      CrossOnIds(keep, both, show, before, values);
      PairsOnIds(keep, both, show, last, values);
      KeptOfBoth(both, show, CrossProduct(before, values), AllPairs(last, values));
      KeptOfBoth(keep, show, Joined(before, values), PairsWith(last, values));
    }
  }

  lemma RowsInOrder(conditions: seq<Condition>, pairs: seq<Pair>, rows: seq<SampleRow>)
    requires InOrderOf(SamplesSelect(conditions), pairs) && |rows| == |pairs|
    requires forall i :: 0 <= i < |rows| ==> rows[i] == RowOf(pairs[i])
    ensures Sorting.SortedBy(TimeBefore, rows)
  {
    forall i, j | 0 <= i < j < |rows|
      ensures !TimeBefore(rows[j], rows[i])
    {
      SamplesOrder(conditions, pairs[j], pairs[i]);
    }
  }

  lemma RowsScanned(conditions: seq<Condition>, pairs: seq<Pair>, rows: seq<SampleRow>)
    requires AllScannedFrom(SamplesSelect(conditions), pairs, rows)
    ensures |rows| == |pairs| && forall i :: 0 <= i < |rows| ==> rows[i] == RowOf(pairs[i])
  {
    forall i | 0 <= i < |rows|
      ensures rows[i] == RowOf(pairs[i])
    {
      SamplesScanned(conditions, pairs[i]);
    }
  }

  lemma ChosenIsJoined(calendar: Calendar, tables: Relations, conditions: seq<Condition>)
    ensures Kept(Chosen(calendar, SamplesSelect(conditions)), Itself, CrossProduct(tables.labels, tables.values)) ==
            Kept(Selects(calendar, conditions), Itself, Joined(tables.labels, tables.values))
  {
    var keep, both := Selects(calendar, conditions), Chosen(calendar, SamplesSelect(conditions));
    forall pair
      ensures both(pair) <==> pair.entry.id == pair.value.id && keep(pair)
    {
      SamplesJoin(conditions, pair);
    }
    CrossOnIds(keep, both, Itself, tables.labels, tables.values);
  }

  /** What the builder's query means: the rows of the join on equal ids that its conditions select, each as
      often as it is joined, by ascending time. */
  lemma SelectMeansJoin(calendar: Calendar, tables: Relations, conditions: seq<Condition>, rows: seq<SampleRow>)
    requires SelectAnswer(calendar, tables, SamplesSelect(conditions), rows)
    ensures SamplesAnswer(calendar, tables, conditions, rows)
  {
    var select := SamplesSelect(conditions);
    var pairs: seq<Pair> :|
      Lists(pairs, Kept(Chosen(calendar, select), Itself, CrossProduct(tables.labels, tables.values))) &&
      InOrderOf(select, pairs) && AllScannedFrom(select, pairs, rows);
    ChosenIsJoined(calendar, tables, conditions);
    RowsScanned(conditions, pairs, rows);
    ShownOneByOne(RowOf, pairs, rows);
    AllOfKept(Selects(calendar, conditions), Itself, RowOf, RowOf, Joined(tables.labels, tables.values), pairs);
    RowsInOrder(conditions, pairs, rows);
  }

  /** The selected rows, each as often as it is joined, by time. */
  ghost predicate SamplesAnswer(calendar: Calendar, tables: Relations, conditions: seq<Condition>,
          rows: seq<SampleRow>) {
    && multiset(rows) == Kept(Selects(calendar, conditions), RowOf, Joined(tables.labels, tables.values))
    && Sorting.SortedBy(TimeBefore, rows)
  }

  /* ---- the metadata queries ---- */

  predicate Fits(conditions: seq<Condition>, entry: LabelEntry) {
    MeaningOfAll(conditions, entry.series) == Yes
  }

  predicate HasLabel(entry: LabelEntry, name: string) { LabelOrEmpty(entry.series.labels, name) != "" }

  ghost predicate SomeFitting(tables: Relations, conditions: seq<Condition>) {
    exists entry :: entry in tables.labels && Fits(conditions, entry)
  }

  ghost predicate SomeFittingWith(tables: Relations, conditions: seq<Condition>, name: string) {
    exists entry :: entry in tables.labels && Fits(conditions, entry) && HasLabel(entry, name)
  }

  ghost predicate SomeFittingWithout(tables: Relations, conditions: seq<Condition>) {
    exists entry :: entry in tables.labels && Fits(conditions, entry) && forall name :: !HasLabel(entry, name)
  }

  /** `labelNamesQueryFormat`: DISTINCT keys of the non-empty labels of the fitting series; by the outer join
      a series without any comes as a NULL key. */
  ghost predicate KeysAnswer(tables: Relations, conditions: seq<Condition>, keys: seq<Option<string>>) {
    && Distinct(keys)
    && (forall name: string :: Some(name) in keys <==> SomeFittingWith(tables, conditions, name))
    && (None in keys <==> SomeFittingWithout(tables, conditions))
  }

  ghost predicate SomeNamed(tables: Relations, conditions: seq<Condition>, name: string) {
    exists entry :: entry in tables.labels && Fits(conditions, entry) && entry.series.name == name
  }

  /** `metricNameValuesQueryFormat`. */
  ghost predicate MetricNamesAnswer(tables: Relations, conditions: seq<Condition>, names: seq<string>) {
    Ascending(names) && forall name: string :: name in names <==> name != "" && SomeNamed(tables, conditions, name)
  }

  ghost predicate SomeLabelled(tables: Relations, conditions: seq<Condition>, name: string, value: string) {
    exists entry ::
      entry in tables.labels && Fits(conditions, entry) && LabelOrEmpty(entry.series.labels, name) == value
  }

  /** `labelValuesQueryFormat`. */
  ghost predicate ValuesAnswer(tables: Relations, conditions: seq<Condition>, name: string, values: seq<string>) {
    Ascending(values) &&
    forall value: string :: value in values <==> value != "" && SomeLabelled(tables, conditions, name, value)
  }

  /* ---- a database ---- */

  datatype Answer<+T> = Failed | Rows(value: T)

  /** The answers a database gives: to a whole query text, and to the metadata queries around a predicate text. */
  datatype Querier = Querier(
    samples: string -> Answer<seq<SampleRow>>,
    labelKeys: string -> Answer<seq<Option<string>>>,
    metricNames: string -> Answer<seq<string>>,
    labelValues: (string, string) -> Answer<seq<string>>,
    seriesExist: string -> Answer<bool>)

  ghost predicate AnswersSamples(db: Querier, tables: Relations, calendar: Calendar, text: string) {
    db.samples(text).Rows? && ParseQuery(text).Some? && BothTables(ParseQuery(text).value.sources) ==>
      SelectAnswer(calendar, tables, ParseQuery(text).value, db.samples(text).value)
  }

  ghost predicate AnswersMetadata(db: Querier, tables: Relations, text: string, conditions: seq<Condition>) {
    && (db.labelKeys(text).Rows? ==> KeysAnswer(tables, conditions, db.labelKeys(text).value))
    && (db.metricNames(text).Rows? ==> MetricNamesAnswer(tables, conditions, db.metricNames(text).value))
    && (db.seriesExist(text).Rows? ==> (db.seriesExist(text).value <==> SomeFitting(tables, conditions)))
  }

  ghost predicate AnswersValues(db: Querier, tables: Relations, text: string, conditions: seq<Condition>,
          name: string) {
    db.labelValues(name, text).Rows? ==> ValuesAnswer(tables, conditions, name, db.labelValues(name, text).value)
  }

  /** It may fail; when it answers a text it can read, it answers from the tables. */
  ghost predicate AnswersFrom(db: Querier, tables: Relations, calendar: Calendar) {
    && (forall text: string :: AnswersSamples(db, tables, calendar, text))
    && (forall text: string :: ParsePredicate(text).Some? ==>
          AnswersMetadata(db, tables, text, ParsePredicate(text).value))
    && (forall name: string, text: string :: ParsePredicate(text).Some? ==>
          AnswersValues(db, tables, text, ParsePredicate(text).value, name))
  }

  /** It failed on a text that says this query. */
  ghost predicate QueryFails(db: Querier, calendar: Calendar, query: Query) {
    exists text ::
      ParseQuery(text) == Some(SamplesSelect(QueryConditions(calendar, query))) && db.samples(text).Failed?
  }

  /** To the builder's query it answers with the join. */
  lemma AnswersWithJoin(db: Querier, tables: Relations, calendar: Calendar, text: string, conditions: seq<Condition>)
    requires AnswersFrom(db, tables, calendar) && db.samples(text).Rows?
    requires ParseQuery(text) == Some(SamplesSelect(conditions))
    ensures SamplesAnswer(calendar, tables, conditions, db.samples(text).value)
  {
    SamplesSources(conditions);
    assert AnswersSamples(db, tables, calendar, text);
    SelectMeansJoin(calendar, tables, conditions, db.samples(text).value);
  }

  /* ---- what the adapter makes of the answers ---- */

  /** The keys that are not NULL. */
  method NonNull(keys: seq<Option<string>>) returns (names: seq<string>)
    ensures forall name :: name in names <==> Some(name) in keys
  {
    names := [];
    for n := 0 to |keys|
      invariant forall name :: name in names <==> Some(name) in keys[..n]
    {
      if keys[n].Some? {
        names := names + [keys[n].value];
      }
    }
    assert keys[..|keys|] == keys;
  }

  /** `PostgreSQL.LabelNames`: the keys that are not NULL, and whether there was any row at all. */
  method LabelNames(db: Querier, predicateText: string, ghost tables: Relations, ghost calendar: Calendar)
    returns (r: Answer<(seq<string>, bool)>)
    requires AnswersFrom(db, tables, calendar) && ParsePredicate(predicateText).Some?
    ensures r.Failed? <==> db.labelKeys(predicateText).Failed?
    ensures r.Rows? ==> NamesFound(tables, ParsePredicate(predicateText).value, r.value.0, r.value.1)
  {
    var keys := db.labelKeys(predicateText);
    if keys.Failed? {
      return Failed;
    }
    var names := NonNull(keys.value);
    assert AnswersMetadata(db, tables, predicateText, ParsePredicate(predicateText).value);
    KeysSay(tables, ParsePredicate(predicateText).value, keys.value, names);
    return Rows((names, |keys.value| > 0));
  }

  ghost predicate NamesFound(tables: Relations, conditions: seq<Condition>, names: seq<string>, exist: bool) {
    && (forall name :: name in names <==> SomeFittingWith(tables, conditions, name))
    && (exist <==> SomeFitting(tables, conditions))
  }

  lemma KeysSay(tables: Relations, conditions: seq<Condition>, keys: seq<Option<string>>, names: seq<string>)
    requires KeysAnswer(tables, conditions, keys) && forall name :: name in names <==> Some(name) in keys
    ensures NamesFound(tables, conditions, names, |keys| > 0)
  {
    if |keys| > 0 {
      assert keys[0] in keys;
      if keys[0].Some? {
        assert SomeFittingWith(tables, conditions, keys[0].value);
      } else {
        assert SomeFittingWithout(tables, conditions);
      }
      assert SomeFitting(tables, conditions);
    }
    if SomeFitting(tables, conditions) {
      var entry :| entry in tables.labels && Fits(conditions, entry);
      if exists name :: HasLabel(entry, name) {
        var name :| HasLabel(entry, name);
        assert SomeFittingWith(tables, conditions, name);
      } else {
        assert SomeFittingWithout(tables, conditions);
      }
    }
  }

  ghost predicate SomeStored(tables: Relations, conditions: seq<Condition>, name: string, value: string) {
    exists entry :: entry in tables.labels && Fits(conditions, entry) && StoredLabel(entry.series, name) == value
  }

  ghost predicate ValuesFound(tables: Relations, conditions: seq<Condition>, name: string, values: seq<string>) {
    Ascending(values) &&
    forall value: string :: value in values <==> value != "" && SomeStored(tables, conditions, name, value)
  }

  /** `PostgreSQL.LabelValues`: the metric name is asked of its own column. */
  method LabelValues(db: Querier, name: string, predicateText: string, ghost tables: Relations,
          ghost calendar: Calendar)
    returns (r: Answer<seq<string>>)
    requires AnswersFrom(db, tables, calendar) && ParsePredicate(predicateText).Some?
    ensures r.Failed? <==>
            if name == MetricString.METRIC_NAME_LABEL
            then db.metricNames(predicateText).Failed?
            else db.labelValues(name, predicateText).Failed?
    ensures r.Rows? ==> ValuesFound(tables, ParsePredicate(predicateText).value, name, r.value)
  {
    r := db.labelValues(name, predicateText);
    if name == MetricString.METRIC_NAME_LABEL {
      r := db.metricNames(predicateText);
    }
    if r.Rows? {
      assert AnswersMetadata(db, tables, predicateText, ParsePredicate(predicateText).value);
      assert AnswersValues(db, tables, predicateText, ParsePredicate(predicateText).value, name);
      ValuesSay(tables, ParsePredicate(predicateText).value, name, r.value);
    }
  }

  lemma ValuesSay(tables: Relations, conditions: seq<Condition>, name: string, values: seq<string>)
    requires name == MetricString.METRIC_NAME_LABEL ==> MetricNamesAnswer(tables, conditions, values)
    requires name != MetricString.METRIC_NAME_LABEL ==> ValuesAnswer(tables, conditions, name, values)
    ensures ValuesFound(tables, conditions, name, values)
  {
    forall value: string
      ensures value in values <==> value != "" && SomeStored(tables, conditions, name, value)
    {
      if name == MetricString.METRIC_NAME_LABEL {
        assert SomeNamed(tables, conditions, value) <==> SomeStored(tables, conditions, name, value);
      } else {
        assert SomeLabelled(tables, conditions, name, value) <==> SomeStored(tables, conditions, name, value);
      }
    }
  }
}
