/** Remote read: the rows of all queries, grouped by series. The code appends the first row of every series
    to a time series that is not the one it has just put in its map. */
module RemoteRead {
  import opened Utf8
  import opened Domain
  import opened LabelSets
  import opened SeriesBuilder
  import opened Timestamps
  import opened Bags
  import opened QueryBuilder
  import opened Storage
  import StoreApi
  import MetricString

  /** `prompb.TimeSeries`, which the code shares by pointer. */
  class TimeSeries {
    var labels: Labels
    var samples: seq<TimedValue>

    constructor (labels: Labels)
      ensures this.labels == labels && samples == []
    {
      this.labels := labels;
      samples := [];
    }
  }

  /* ---- what a series reads as ---- */

  function ReadSample(row: SampleRow): TimedValue { TimedValue(RemoteReadMillis(row.timestamp), row.value) }

  /** The samples of one series, in the order of the rows. */
  function ReadSamples(rows: seq<SampleRow>, id: SeriesId): seq<TimedValue> {
    if rows == [] then []
    else
      var last := rows[|rows| - 1];
      ReadSamples(rows[..|rows| - 1], id) + if IdOf(last) == id then [ReadSample(last)] else []
  }

  /** What is kept of them: all, when the first row is appended to the series in the map; all but the first
      as the code is. */
  function Attached(rows: seq<SampleRow>, id: SeriesId, attach: bool): seq<TimedValue> {
    var all := ReadSamples(rows, id);
    if attach || all == [] then all else all[1..]
  }

  /** The metric name, then the stored labels by name. */
  ghost predicate Labelled(labels: Labels, id: SeriesId) {
    labels != [] && labels[0] == Label(MetricString.METRIC_NAME_LABEL, id.name) && Spells(labels[1..], id.labels)
  }

  /** The code in its loop over the ordered keys. */
  method LabelPairs(row: SampleRow) returns (pairs: Labels)
    requires WellScanned(row.labels)
    ensures Labelled(pairs, IdOf(row))
  {
    var m, keys := row.labels.map_, row.labels.orderedKeys;
    pairs := [Label(MetricString.METRIC_NAME_LABEL, row.name)];
    for n := 0 to |keys|
      invariant |pairs| == n + 1 && pairs[0] == Label(MetricString.METRIC_NAME_LABEL, row.name)
      invariant forall i :: 0 <= i < n ==> pairs[i + 1] == Label(keys[i], m[keys[i]])
    {
      pairs := pairs + [Label(keys[n], m[keys[n]])];
    }
    SpellsItself(pairs[1..], keys, m);
  }

  /* ---- the map ---- */

  /** A time series as a value. */
  datatype Held = Held(labels: Labels, samples: seq<TimedValue>)

  /** What a series holds under its key, after some rows. */
  ghost predicate Reads(rows: seq<SampleRow>, key: Bytes, id: SeriesId, attach: bool, held: Held) {
    Keyed(rows, key, id) && held.samples == Attached(rows, id, attach) && Labelled(held.labels, id)
  }

  ghost predicate Reading(rows: seq<SampleRow>, held: map<Bytes, Held>, who: map<Bytes, SeriesId>, attach: bool) {
    && held.Keys == who.Keys
    && (forall i :: 0 <= i < |rows| ==> KeyOf(rows[i]) in who)
    && OthersRead(rows, held, who, attach, {})
  }

  ghost predicate OthersRead(rows: seq<SampleRow>, held: map<Bytes, Held>, who: map<Bytes, SeriesId>, attach: bool,
          but: set<Bytes>) {
    forall key :: key in who && key in held && key !in but ==> Reads(rows, key, who[key], attach, held[key])
  }

  ghost function Snapshot(labelsToSeries: map<Bytes, TimeSeries>): map<Bytes, Held>
    reads labelsToSeries.Values
  {
    map key | key in labelsToSeries :: Held(labelsToSeries[key].labels, labelsToSeries[key].samples)
  }

  /** No two keys share a time series. */
  ghost predicate Separate(labelsToSeries: map<Bytes, TimeSeries>) {
    forall a, b :: a in labelsToSeries && b in labelsToSeries && a != b ==> labelsToSeries[a] != labelsToSeries[b]
  }

  lemma ReadSamplesGrow(rows: seq<SampleRow>, row: SampleRow, id: SeriesId)
    ensures ReadSamples(rows + [row], id) == ReadSamples(rows, id) + if IdOf(row) == id then [ReadSample(row)] else []
  {
    assert (rows + [row])[..|rows|] == rows;
  }

  lemma {:induction false} NothingRead(rows: seq<SampleRow>, id: SeriesId)
    ensures ReadSamples(rows, id) == [] <==> forall i :: 0 <= i < |rows| ==> IdOf(rows[i]) != id
  {
    if rows != [] {
      NothingRead(rows[..|rows| - 1], id);
      assert forall i :: 0 <= i < |rows| - 1 ==> rows[..|rows| - 1][i] == rows[i];
    }
  }

  lemma OtherReads(rows: seq<SampleRow>, row: SampleRow, key: Bytes, id: SeriesId, attach: bool, held: Held)
    requires AllScanned(rows) && WellScanned(row.labels) && key != KeyOf(row)
    requires Reads(rows, key, id, attach, held)
    ensures Reads(rows + [row], key, id, attach, held)
  {
    KeyTellsSeries(rows, row, key, id);
    KeyedGrows(rows, row, key, id);
    ReadSamplesGrow(rows, row, id);
  }

  lemma OwnReads(rows: seq<SampleRow>, row: SampleRow, id: SeriesId, attach: bool, held: Held)
    requires AllScanned(rows) && WellScanned(row.labels)
    requires Reads(rows, KeyOf(row), id, attach, held)
    ensures id == IdOf(row)
    ensures Reads(rows + [row], KeyOf(row), id, attach, held.(samples := held.samples + [ReadSample(row)]))
  {
    KeyTellsSeries(rows, row, KeyOf(row), id);
    KeyedGrows(rows, row, KeyOf(row), id);
    ReadSamplesGrow(rows, row, id);
    NothingRead(rows, id);
  }

  lemma FirstReads(rows: seq<SampleRow>, row: SampleRow, attach: bool, labels: Labels)
    requires AllScanned(rows) && WellScanned(row.labels) && Labelled(labels, IdOf(row))
    requires forall i :: 0 <= i < |rows| ==> KeyOf(rows[i]) != KeyOf(row)
    ensures Reads(rows + [row], KeyOf(row), IdOf(row), attach, Held(labels, if attach then [ReadSample(row)] else []))
  {
    forall i | 0 <= i < |rows|
      ensures IdOf(rows[i]) != IdOf(row)
    {
      SameKeySameSeries(rows[i], row);
    }
    NothingRead(rows, IdOf(row));
    ReadSamplesGrow(rows, row, IdOf(row));
    assert (rows + [row])[|rows|] == row;
  }

  lemma OthersKeepReading(rows: seq<SampleRow>, row: SampleRow, held: map<Bytes, Held>, who: map<Bytes, SeriesId>,
          attach: bool)
    requires AllScanned(rows) && WellScanned(row.labels) && Reading(rows, held, who, attach)
    ensures OthersRead(rows + [row], held, who, attach, {KeyOf(row)})
  {
    forall key | key in who && key in held && key != KeyOf(row)
      ensures Reads(rows + [row], key, who[key], attach, held[key])
    {
      OtherReads(rows, row, key, who[key], attach, held[key]);
    }
  }

  lemma ReadingGrows(rows: seq<SampleRow>, held: map<Bytes, Held>, who: map<Bytes, SeriesId>, attach: bool,
          key: Bytes, id: SeriesId, now: Held)
    requires held.Keys == who.Keys && OthersRead(rows, held, who, attach, {key}) && Reads(rows, key, id, attach, now)
    requires forall i :: 0 <= i < |rows| ==> KeyOf(rows[i]) == key || KeyOf(rows[i]) in who
    ensures Reading(rows, held[key := now], who[key := id], attach)
  {
  }

  /** What a row makes of the map, by value. */
  function AfterRow(held: map<Bytes, Held>, key: Bytes, sample: TimedValue, labels: Labels, attach: bool)
    : map<Bytes, Held> {
    if key in held then held[key := held[key].(samples := held[key].samples + [sample])]
    else held[key := Held(labels, if attach then [sample] else [])]
  }

  lemma ReadingOn(rows: seq<SampleRow>, row: SampleRow, held: map<Bytes, Held>, who: map<Bytes, SeriesId>,
          labels: Labels, attach: bool)
    requires AllScanned(rows) && WellScanned(row.labels) && Reading(rows, held, who, attach)
    requires KeyOf(row) !in held ==> Labelled(labels, IdOf(row))
    ensures Reading(rows + [row], AfterRow(held, KeyOf(row), ReadSample(row), labels, attach),
                    who[KeyOf(row) := IdOf(row)], attach)
  {
    var key := KeyOf(row);
    if key in who {
      OwnReads(rows, row, who[key], attach, held[key]);
    } else {
      FirstReads(rows, row, attach, labels);
    }
    OthersKeepReading(rows, row, held, who, attach);
    ReadingGrows(rows + [row], held, who, attach, key, IdOf(row),
                 AfterRow(held, key, ReadSample(row), labels, attach)[key]);
  }

  /** Appending to one series, of a map that may have got a new one besides. */
  lemma SnapshotIs(held: map<Bytes, Held>, key: Bytes, sample: TimedValue, labels: Labels, attach: bool,
          more: map<Bytes, TimeSeries>)
    requires more.Keys == held.Keys + {key}
    requires forall other :: other in held && other != key ==>
             Held(more[other].labels, more[other].samples) == held[other]
    requires Held(more[key].labels, more[key].samples) == AfterRow(held, key, sample, labels, attach)[key]
    ensures Snapshot(more) == AfterRow(held, key, sample, labels, attach)
  {
  }

  /** What the code does with a row, for some listing of its labels. */
  ghost predicate ReadOn(held: map<Bytes, Held>, key: Bytes, row: SampleRow, attach: bool, after: map<Bytes, Held>) {
    exists labels ::
      (key !in held ==> Labelled(labels, IdOf(row))) && after == AfterRow(held, key, ReadSample(row), labels, attach)
  }

  /** One row. `attach` is false in the code: having created a series it appends to yet another one, since
      the variable it tests is still the nil the look-up left. */
  method ReadRow(key: Bytes, row: SampleRow, labelsToSeries: map<Bytes, TimeSeries>, attach: bool)
    returns (more: map<Bytes, TimeSeries>)
    requires Separate(labelsToSeries) && WellScanned(row.labels)
    modifies labelsToSeries.Values
    ensures ReadOn(old(Snapshot(labelsToSeries)), key, row, attach, Snapshot(more))
    ensures Separate(more) && fresh(more.Values - labelsToSeries.Values)
  {
    ghost var held := Snapshot(labelsToSeries);
    ghost var labels: Labels := [];
    var timeserie: TimeSeries? := if key in labelsToSeries then labelsToSeries[key] else null;
    more := labelsToSeries;
    if key !in labelsToSeries {
      var labelPairs := LabelPairs(row);
      labels := labelPairs;
      var created := new TimeSeries(labelPairs);
      more := labelsToSeries[key := created];
      if attach {
        timeserie := created;
      }
    }
    if timeserie == null {
      timeserie := new TimeSeries([]);
    }
    timeserie.samples := timeserie.samples + [ReadSample(row)];
    SnapshotIs(held, key, ReadSample(row), labels, attach, more);
  }

  lemma ReadOnKeepsReading(rows: seq<SampleRow>, row: SampleRow, held: map<Bytes, Held>, who: map<Bytes, SeriesId>,
          attach: bool, after: map<Bytes, Held>)
    returns (whose: map<Bytes, SeriesId>)
    requires AllScanned(rows) && WellScanned(row.labels) && Reading(rows, held, who, attach)
    requires ReadOn(held, KeyOf(row), row, attach, after)
    ensures Reading(rows + [row], after, whose, attach)
  {
    var labels :|
      (KeyOf(row) !in held ==> Labelled(labels, IdOf(row))) &&
      after == AfterRow(held, KeyOf(row), ReadSample(row), labels, attach);
    ReadingOn(rows, row, held, who, labels, attach);
    whose := who[KeyOf(row) := IdOf(row)];
  }

  method ReadNext(ghost seen: seq<SampleRow>, row: SampleRow, labelsToSeries: map<Bytes, TimeSeries>,
          ghost who: map<Bytes, SeriesId>, attach: bool)
    returns (more: map<Bytes, TimeSeries>, ghost whose: map<Bytes, SeriesId>)
    requires AllScanned(seen) && WellScanned(row.labels) && Separate(labelsToSeries)
    requires Reading(seen, Snapshot(labelsToSeries), who, attach)
    modifies labelsToSeries.Values
    ensures Reading(seen + [row], Snapshot(more), whose, attach) && Separate(more)
    ensures fresh(more.Values - labelsToSeries.Values)
  {
    ghost var held := Snapshot(labelsToSeries);
    more := ReadRow(KeyOf(row), row, labelsToSeries, attach);
    whose := ReadOnKeepsReading(seen, row, held, who, attach, Snapshot(more));
  }

  lemma ScannedGrows(seen: seq<SampleRow>, rows: seq<SampleRow>, n: nat)
    requires AllScanned(seen) && AllScanned(rows) && n < |rows|
    ensures AllScanned(seen + [rows[n]])
  {
  }

  lemma SeenGrows<T>(before: seq<T>, rows: seq<T>, n: nat)
    requires n < |rows|
    ensures before + rows[..n] + [rows[n]] == before + rows[..n + 1]
  {
  }

  /** The inner loop: the rows of one query. */
  method ReadRows(ghost before: seq<SampleRow>, rows: seq<SampleRow>, labelsToSeries: map<Bytes, TimeSeries>,
          ghost who: map<Bytes, SeriesId>, attach: bool)
    returns (more: map<Bytes, TimeSeries>, ghost whose: map<Bytes, SeriesId>)
    requires AllScanned(before) && AllScanned(rows) && Separate(labelsToSeries)
    requires Reading(before, Snapshot(labelsToSeries), who, attach)
    modifies labelsToSeries.Values
    ensures Reading(before + rows, Snapshot(more), whose, attach) && Separate(more)
    ensures fresh(more.Values - labelsToSeries.Values)
  {
    more, whose := labelsToSeries, who;
    ghost var seen := before;
    assert before + rows[..0] == before;
    for n := 0 to |rows|
      invariant seen == before + rows[..n] && AllScanned(seen)
      invariant Reading(seen, Snapshot(more), whose, attach) && Separate(more)
      invariant fresh(more.Values - labelsToSeries.Values)
    {
      more, whose := ReadNext(seen, rows[n], more, whose, attach);
      SeenGrows(before, rows, n);
      ScannedGrows(seen, rows, n);
      seen := seen + [rows[n]];
    }
    assert rows[..|rows|] == rows;
  }

  /* ---- Execute ---- */

  datatype ReadResult = BuildFailed | QueryFailed | Read(series: seq<TimeSeries>)

  ghost predicate Answered(calendar: Calendar, tables: Relations, query: Query, rows: seq<SampleRow>) {
    AllNamed(query.matchers) && SamplesAnswer(calendar, tables, QueryConditions(calendar, query), rows)
  }

  /** The rows of the queries, one after another, each batch an answer to its query. */
  ghost predicate AnswersAll(calendar: Calendar, tables: Relations, queries: seq<Query>, batches: seq<seq<SampleRow>>) {
    |batches| == |queries| && forall i :: 0 <= i < |queries| ==> Answered(calendar, tables, queries[i], batches[i])
  }

  function Flat(batches: seq<seq<SampleRow>>): seq<SampleRow> {
    if batches == [] then [] else Flat(batches[..|batches| - 1]) + batches[|batches| - 1]
  }

  /** The time series of the response: one per series that occurs. */
  ghost predicate ReadsAll(rows: seq<SampleRow>, ids: seq<SeriesId>, attach: bool, series: seq<Held>) {
    && SeriesIn(rows, ids) && |series| == |ids|
    && (forall k :: 0 <= k < |ids| ==>
        Labelled(series[k].labels, ids[k]) && series[k].samples == Attached(rows, ids[k], attach))
  }

  ghost function Values(series: seq<TimeSeries>): seq<Held>
    reads series
  {
    seq(|series|, i requires 0 <= i < |series| reads series => Held(series[i].labels, series[i].samples))
  }

  lemma ReadingKeys(rows: seq<SampleRow>, held: map<Bytes, Held>, who: map<Bytes, SeriesId>, attach: bool)
    requires Reading(rows, held, who, attach)
    ensures Keying(rows, who)
  {
    forall key | key in who
      ensures Keyed(rows, key, who[key])
    {
      assert key !in {} && Reads(rows, key, who[key], attach, held[key]);
    }
  }

  lemma ListedReads(rows: seq<SampleRow>, held: map<Bytes, Held>, who: map<Bytes, SeriesId>, attach: bool,
          moved: seq<Bytes>, ids: seq<SeriesId>, series: seq<Held>)
    requires AllScanned(rows) && Reading(rows, held, who, attach) && Moved(who, moved, {}, ids) && |series| == |moved|
    requires forall k :: 0 <= k < |moved| ==> moved[k] in held && series[k] == held[moved[k]]
    ensures ReadsAll(rows, ids, attach, series)
  {
    ReadingKeys(rows, held, who, attach);
    AllMoved(rows, who, moved, ids);
    forall k | 0 <= k < |ids|
      ensures Labelled(series[k].labels, ids[k]) && series[k].samples == Attached(rows, ids[k], attach)
    {
      assert moved[k] !in {} && Reads(rows, moved[k], who[moved[k]], attach, held[moved[k]]);
    }
  }

  /** The response lists the map in any order. */
  method Listed(labelsToSeries: map<Bytes, TimeSeries>, ghost who: map<Bytes, SeriesId>)
    returns (series: seq<TimeSeries>, ghost moved: seq<Bytes>, ghost ids: seq<SeriesId>)
    requires labelsToSeries.Keys == who.Keys
    ensures Moved(who, moved, {}, ids) && |series| == |moved|
    ensures forall k :: 0 <= k < |moved| ==> moved[k] in labelsToSeries && series[k] == labelsToSeries[moved[k]]
  {
    series, ids, moved := [], [], [];
    var pending := labelsToSeries.Keys;
    while pending != {}
      invariant pending <= labelsToSeries.Keys && Moved(who, moved, pending, ids) && |series| == |moved|
      invariant forall k :: 0 <= k < |moved| ==> moved[k] in labelsToSeries && series[k] == labelsToSeries[moved[k]]
      decreases pending
    {
      var key :| key in pending;
      MoveOne(who, moved, pending, ids, key);
      series, ids, moved := series + [labelsToSeries[key]], ids + [who[key]], moved + [key];
      pending := pending - {key};
    }
  }

  /** The time series of the response. */
  method Respond(labelsToSeries: map<Bytes, TimeSeries>, ghost rows: seq<SampleRow>, ghost who: map<Bytes, SeriesId>,
          ghost attach: bool)
    returns (series: seq<TimeSeries>)
    requires AllScanned(rows) && Reading(rows, Snapshot(labelsToSeries), who, attach)
    ensures ReadInto(rows, attach, Values(series))
  {
    ghost var moved, ids;
    series, moved, ids := Listed(labelsToSeries, who);
    ListedReads(rows, Snapshot(labelsToSeries), who, attach, moved, ids, Values(series));
  }

  ghost predicate ReadInto(rows: seq<SampleRow>, attach: bool, series: seq<Held>) {
    exists ids :: ReadsAll(rows, ids, attach, series)
  }

  /** An answer to all the queries, read into these time series. */
  ghost predicate AnsweredBy(calendar: Calendar, tables: Relations, queries: seq<Query>, attach: bool,
          series: seq<Held>) {
    exists batches :: AnswersAll(calendar, tables, queries, batches) && ReadInto(Flat(batches), attach, series)
  }

  lemma FlatGrows(batches: seq<seq<SampleRow>>, batch: seq<SampleRow>)
    ensures Flat(batches + [batch]) == Flat(batches) + batch
  {
    assert (batches + [batch])[..|batches|] == batches;
  }

  lemma AnswersGrow(calendar: Calendar, tables: Relations, queries: seq<Query>, n: nat, batches: seq<seq<SampleRow>>,
          batch: seq<SampleRow>)
    requires n < |queries| && AnswersAll(calendar, tables, queries[..n], batches) &&
             Answered(calendar, tables, queries[n], batch)
    ensures AnswersAll(calendar, tables, queries[..n + 1], batches + [batch])
  {
    PrefixGrows(queries, n);
    forall i | 0 <= i < n + 1
      ensures Answered(calendar, tables, queries[..n + 1][i], (batches + [batch])[i])
    {
      assert i < n ==> queries[..n][i] == queries[i] && Answered(calendar, tables, queries[..n][i], batches[i]);
    }
  }

  datatype Outcome = Unbuilt | Unanswered | Came(rows: seq<SampleRow>)

  /** A query, built and asked. */
  method Ask(query: Query, calendar: Calendar, db: Querier, ghost tables: Relations) returns (r: Outcome)
    requires Agrees(calendar) && AnswersFrom(db, tables, calendar)
    ensures r.Unbuilt? <==> !AllNamed(query.matchers)
    ensures r.Unanswered? ==> QueryFails(db, calendar, query)
    ensures r.Came? ==> Answered(calendar, tables, query, r.rows) && AllScanned(r.rows)
  {
    var sqlQuery := BuildSQLQuery(calendar, query);
    if sqlQuery.Rejected? {
      return Unbuilt;
    }
    var samples := db.samples(sqlQuery.value);
    if samples.Failed? {
      return Unanswered;
    }
    AnswersWithJoin(db, tables, calendar, sqlQuery.value, QueryConditions(calendar, query));
    StoreApi.AnswerScanned(calendar, tables, QueryConditions(calendar, query), samples.value);
    return Came(samples.value);
  }

  /** What is known after some queries: their answers so far, and what the map makes of the rows. */
  ghost predicate InProgress(calendar: Calendar, tables: Relations, queries: seq<Query>, batches: seq<seq<SampleRow>>,
          held: map<Bytes, Held>, who: map<Bytes, SeriesId>, attach: bool) {
    && AnswersAll(calendar, tables, queries, batches)
    && AllScanned(Flat(batches)) && Reading(Flat(batches), held, who, attach)
  }

  lemma ProgressGoesOn(calendar: Calendar, tables: Relations, queries: seq<Query>, n: nat,
          batches: seq<seq<SampleRow>>, batch: seq<SampleRow>, held: map<Bytes, Held>, who: map<Bytes, SeriesId>,
          attach: bool)
    requires n < |queries| && AnswersAll(calendar, tables, queries[..n], batches) && AllScanned(Flat(batches))
    requires Answered(calendar, tables, queries[n], batch) && AllScanned(batch)
    requires Reading(Flat(batches) + batch, held, who, attach)
    ensures InProgress(calendar, tables, queries[..n + 1], batches + [batch], held, who, attach)
  {
    FlatGrows(batches, batch);
    AnswersGrow(calendar, tables, queries, n, batches, batch);
  }

  /** The rows of one more query. */
  method ReadBatch(ghost calendar: Calendar, ghost tables: Relations, ghost queries: seq<Query>, ghost n: nat,
          ghost batches: seq<seq<SampleRow>>, rows: seq<SampleRow>, labelsToSeries: map<Bytes, TimeSeries>,
          ghost who: map<Bytes, SeriesId>, attach: bool)
    returns (more: map<Bytes, TimeSeries>, ghost whose: map<Bytes, SeriesId>)
    requires n < |queries| && Separate(labelsToSeries)
    requires InProgress(calendar, tables, queries[..n], batches, Snapshot(labelsToSeries), who, attach)
    requires Answered(calendar, tables, queries[n], rows) && AllScanned(rows)
    modifies labelsToSeries.Values
    ensures InProgress(calendar, tables, queries[..n + 1], batches + [rows], Snapshot(more), whose, attach)
    ensures Separate(more) && fresh(more.Values - labelsToSeries.Values)
  {
    more, whose := ReadRows(Flat(batches), rows, labelsToSeries, who, attach);
    ProgressGoesOn(calendar, tables, queries, n, batches, rows, Snapshot(more), whose, attach);
  }

  lemma NoProgressYet(calendar: Calendar, tables: Relations, queries: seq<Query>, attach: bool)
    ensures InProgress(calendar, tables, queries[..0], [], map[], map[], attach)
  {
  }

  /** `Execute`, as the code is with `attach` false, as it is meant with `attach` true. */
  method Execute(queries: seq<Query>, attach: bool, calendar: Calendar, db: Querier, ghost tables: Relations)
    returns (r: ReadResult)
    requires Agrees(calendar) && AnswersFrom(db, tables, calendar)
    ensures r.BuildFailed? ==> exists i :: 0 <= i < |queries| && !AllNamed(queries[i].matchers)
    ensures r.QueryFailed? ==> exists i :: 0 <= i < |queries| && QueryFails(db, calendar, queries[i])
    ensures r.Read? ==> AnsweredBy(calendar, tables, queries, attach, Values(r.series))
  {
    var labelsToSeries: map<Bytes, TimeSeries> := map[];
    ghost var who: map<Bytes, SeriesId>, batches: seq<seq<SampleRow>> := map[], [];
    NoProgressYet(calendar, tables, queries, attach);
    assert Snapshot(labelsToSeries) == map[];
    for n := 0 to |queries|
      invariant InProgress(calendar, tables, queries[..n], batches, Snapshot(labelsToSeries), who, attach)
      invariant Separate(labelsToSeries) && fresh(labelsToSeries.Values)
    {
      var outcome := Ask(queries[n], calendar, db, tables);
      if outcome.Unbuilt? {
        return BuildFailed;
      }
      if outcome.Unanswered? {
        return QueryFailed;
      }
      labelsToSeries, who := ReadBatch(calendar, tables, queries, n, batches, outcome.rows, labelsToSeries, who,
                                       attach);
      batches := batches + [outcome.rows];
    }
    assert queries[..|queries|] == queries;
    var series := Respond(labelsToSeries, Flat(batches), who, attach);
    return Read(series);
  }

  /* ---- what it loses ---- */

  /** A series that occurs has a first sample, and the code drops it. */
  lemma FirstIsDropped(rows: seq<SampleRow>, id: SeriesId)
    requires Occurs(rows, id)
    ensures Attached(rows, id, true) != []
    ensures Attached(rows, id, true) == [Attached(rows, id, true)[0]] + Attached(rows, id, false)
  {
    NothingRead(rows, id);
  }

  /** The code drops one sample per series, its first: it answers as meant exactly when there are no rows. */
  lemma LosesOnePerSeries(rows: seq<SampleRow>, ids: seq<SeriesId>, asIs: seq<Held>, meant: seq<Held>)
    requires ReadsAll(rows, ids, false, asIs) && ReadsAll(rows, ids, true, meant)
    ensures forall k :: 0 <= k < |ids| ==>
            meant[k].samples != [] && meant[k].samples == [meant[k].samples[0]] + asIs[k].samples
    ensures (forall k :: 0 <= k < |ids| ==> asIs[k].samples == meant[k].samples) <==> rows == []
  {
    forall k | 0 <= k < |ids|
      ensures meant[k].samples != [] && meant[k].samples == [meant[k].samples[0]] + asIs[k].samples
      ensures rows != [] && |meant[k].samples| == 1 + |asIs[k].samples|
    {
      assert Occurs(rows, ids[k]);
      FirstIsDropped(rows, ids[k]);
      assert asIs[k].samples == Attached(rows, ids[k], false) && meant[k].samples == Attached(rows, ids[k], true);
    }
    if rows != [] {
      assert IdOf(rows[0]) in ids;
      var k :| 0 <= k < |ids| && ids[k] == IdOf(rows[0]);
      assert |meant[k].samples| == 1 + |asIs[k].samples|;
    }
  }

  /** No query selects any row of the tables. */
  ghost predicate NothingSelected(calendar: Calendar, tables: Relations, queries: seq<Query>) {
    forall i, pair :: 0 <= i < |queries| && pair in Joined(tables.labels, tables.values) ==>
      !Selects(calendar, QueryConditions(calendar, queries[i]))(pair)
  }

  lemma NoRowsExactly(calendar: Calendar, tables: Relations, query: Query, rows: seq<SampleRow>)
    requires Answered(calendar, tables, query, rows)
    ensures rows == [] <==> forall pair :: pair in Joined(tables.labels, tables.values) ==>
      !Selects(calendar, QueryConditions(calendar, query))(pair)
  {
    var pairs := Joined(tables.labels, tables.values);
    var selects := Selects(calendar, QueryConditions(calendar, query));
    if rows == [] {
      forall pair | pair in pairs
        ensures !selects(pair)
      {
        if selects(pair) {
          KeptHas(selects, RowOf, pairs, pair);
        }
      }
    } else {
      assert rows[0] in multiset(rows);
      KeptFrom(selects, RowOf, pairs, rows[0]);
      var i :| 0 <= i < |pairs| && selects(pairs[i]);
      assert pairs[i] in pairs;
    }
  }

  lemma {:induction false} FlatEmpty(batches: seq<seq<SampleRow>>)
    ensures Flat(batches) == [] <==> forall i :: 0 <= i < |batches| ==> batches[i] == []
  {
    if batches != [] {
      FlatEmpty(batches[..|batches| - 1]);
      assert forall i :: 0 <= i < |batches| - 1 ==> batches[..|batches| - 1][i] == batches[i];
    }
  }

  lemma NoAnswersExactly(calendar: Calendar, tables: Relations, queries: seq<Query>, batches: seq<seq<SampleRow>>)
    requires AnswersAll(calendar, tables, queries, batches)
    ensures Flat(batches) == [] <==> NothingSelected(calendar, tables, queries)
  {
    FlatEmpty(batches);
    forall i | 0 <= i < |queries|
      ensures batches[i] == [] <==> forall pair :: pair in Joined(tables.labels, tables.values) ==>
        !Selects(calendar, QueryConditions(calendar, queries[i]))(pair)
    {
      assert Answered(calendar, tables, queries[i], batches[i]);
      NoRowsExactly(calendar, tables, queries[i], batches[i]);
    }
  }

  /** Over the tables: the code answers the queries as meant exactly when none of them selects any row. */
  lemma AsMeantExactly(calendar: Calendar, tables: Relations, queries: seq<Query>, batches: seq<seq<SampleRow>>,
          ids: seq<SeriesId>, asIs: seq<Held>, meant: seq<Held>)
    requires AnswersAll(calendar, tables, queries, batches)
    requires ReadsAll(Flat(batches), ids, false, asIs) && ReadsAll(Flat(batches), ids, true, meant)
    ensures (forall k :: 0 <= k < |ids| ==> asIs[k].samples == meant[k].samples) <==>
            NothingSelected(calendar, tables, queries)
  {
    LosesOnePerSeries(Flat(batches), ids, asIs, meant);
    NoAnswersExactly(calendar, tables, queries, batches);
  }

  /** The two read paths put a row at the same millisecond exactly when its nanoseconds fit in an int64 and
      rounding toward zero is rounding down. */
  lemma SameMillisecond(instant: int)
    ensures RemoteReadMillis(instant) == UnixMilli(instant) <==>
            IsInt64(instant) && (instant >= 0 || instant % NANOS_PER_MILLI == 0)
  {
    MillisOf(instant);
    if IsInt64(instant) {
      WrapInside(instant);
    } else {
      MillisOf(Wrap64(instant));
      assert instant < -TWO_TO_63 ==> UnixMilli(instant) < -9_223_372_036_854;
      assert instant >= TWO_TO_63 ==> UnixMilli(instant) >= 9_223_372_036_854;
    }
  }

  lemma MillisOf(instant: int)
    ensures UnixMilli(instant) == instant / NANOS_PER_MILLI
  {
  }

  /** A time both read paths put at the same millisecond, as SameMillisecond says. */
  predicate Agreeable(row: SampleRow) {
    IsInt64(row.timestamp) && (row.timestamp >= 0 || row.timestamp % NANOS_PER_MILLI == 0)
  }

  lemma {:induction false} SamplesRead(rows: seq<SampleRow>, id: SeriesId)
    requires forall row :: row in rows ==> Agreeable(row)
    ensures ReadSamples(rows, id) == SamplesOf(rows, id)
  {
    if rows != [] {
      var last := rows[|rows| - 1];
      assert last in rows;
      assert forall row :: row in rows[..|rows| - 1] ==> row in rows;
      SamplesRead(rows[..|rows| - 1], id);
      SameMillisecond(last.timestamp);
    }
  }

  /** As meant, remote read and the StoreAPI find the same series in the same rows, with the same samples. */
  lemma MeantAgreesWithStoreApi(rows: seq<SampleRow>, ids: seq<SeriesId>, meant: seq<Held>,
          external: map<string, string>, others: seq<SeriesId>, accumulators: seq<Accumulator>, k: nat)
    requires forall row :: row in rows ==> Agreeable(row)
    requires ReadsAll(rows, ids, true, meant) && Groups(rows, external, others, accumulators) && k < |ids|
    ensures exists j ::
              0 <= j < |others| && others[j] == ids[k] &&
              multiset(accumulators[j].samples) == multiset(meant[k].samples)
  {
    assert Occurs(rows, ids[k]);
    var i :| 0 <= i < |rows| && IdOf(rows[i]) == ids[k];
    assert IdOf(rows[i]) in others;
    var j :| 0 <= j < |others| && others[j] == ids[k];
    assert Holds(rows, external, others[j], accumulators[j]);
    SamplesRead(rows, ids[k]);
    assert meant[k].samples == Attached(rows, ids[k], true);
  }
}
