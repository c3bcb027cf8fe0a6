/** From push to answer: what a run of the write path has stored is what Series serves, under the labels it
    was pushed with. */
module ReadBack {
  import opened Text
  import opened Domain
  import opened MetricString
  import opened SeriesBuilder
  import opened Bags
  import opened Timestamps
  import opened Storage
  import LabelSets
  import QueryBuilder
  import Sql
  import Matching
  import Pushdown
  import StoreApi
  import Chunks
  import W = WritePath
  import WriteSafety
  import WriteExactness
  import WriteRecords

  /* ---- the tables, as written and as read ---- */

  function Column(labels: map<string, string>): LabelsColumn {
    Some(map name | name in labels :: JsonString(labels[name]))
  }

  function EntryOf(row: W.LabelRow): LabelEntry { LabelEntry(row.id, Sql.StoredSeries(row.name, Column(row.labels))) }

  function EntriesOf(rows: seq<W.LabelRow>): seq<LabelEntry> {
    seq(|rows|, i requires 0 <= i < |rows| => EntryOf(rows[i]))
  }

  function ValueOf(origin: W.Origin): ValueEntry { ValueEntry(origin.row.id, origin.row.time, origin.row.value) }

  function ValuesOf(origins: seq<W.Origin>): seq<ValueEntry> {
    seq(|origins|, i requires 0 <= i < |origins| => ValueOf(origins[i]))
  }

  /** The stored rows, the value rows in some order. */
  function TablesOf(labels: seq<W.LabelRow>, origins: seq<W.Origin>): Storage.Relations {
    Storage.Relations(EntriesOf(labels), ValuesOf(origins))
  }

  /* ---- the samples as pushed ---- */

  function IdOfMetric(m: Metric): SeriesId { SeriesId(NameOf(m), LabelsOf(m)) }

  /** A label of a pushed metric under the external labels, empty when there is none. */
  function PushedLabel(m: Metric, external: map<string, string>, name: string): string {
    var merged := Merged(IdOfMetric(m), external);
    if name in merged then merged[name] else ""
  }

  ghost predicate MetricAccepted(ms: seq<QueryBuilder.LabelMatcher>, external: map<string, string>, m: Metric) {
    forall i :: 0 <= i < |ms| ==> Matching.Accepts(ms[i], PushedLabel(m, external, ms[i].name))
  }

  /** The stored samples that, as they were pushed, fall into the window and satisfy the matchers. */
  ghost function PushedWanted(req: StoreApi.SeriesRequest, external: map<string, string>): W.Origin -> bool {
    (origin: W.Origin) =>
      InWindow(req.minTime, req.maxTime, StoredInstant(origin.sample.timestamp)) &&
      MetricAccepted(req.matchers, external, origin.sample.metric)
  }

  /** A sample as it is to be served: under its metric's labels, with its time, as far as it survives, and its
      value. */
  ghost function PushedServed(external: map<string, string>): W.Origin -> Point {
    (origin: W.Origin) =>
      Point(LabelSets.Spelling(Merged(IdOfMetric(origin.sample.metric), external)),
            TimedValue(UnixMilli(StoredInstant(origin.sample.timestamp)), origin.sample.value))
  }

  /** It survives exactly within the exact milliseconds, and then the window is one of pushed times. */
  lemma PushedTime(ms: int, start: int, end: int)
    requires IsInt64(ms)
    ensures UnixMilli(StoredInstant(ms)) == ms <==> -LAST_EXACT_MILLI <= ms <= LAST_EXACT_MILLI
    ensures -LAST_EXACT_MILLI <= ms <= LAST_EXACT_MILLI ==>
            (InWindow(start, end, StoredInstant(ms)) <==> start <= ms <= end)
  {
    TimeSurvives(ms);
    StoredInstantExact(ms);
  }

  /* ---- one value row, one label row ---- */

  lemma ColumnDecodes(labels: map<string, string>)
    ensures Domain.Decoded(Column(labels)) == labels
  {
  }

  /** The value row says the sample it was pushed as. */
  predicate RowSays(origin: W.Origin) {
    origin.row.time == StoredInstant(origin.sample.timestamp) && origin.row.value == origin.sample.value
  }

  /** A joined row whose label row says the pushed metric is wanted, and served, as pushed. */
  lemma PairAsPushed(req: StoreApi.SeriesRequest, external: map<string, string>, row: W.LabelRow, origin: W.Origin)
    requires RowSays(origin)
    requires row.name == NameOf(origin.sample.metric) && row.labels == LabelsOf(origin.sample.metric)
    ensures StoreApi.Wanted(req, external)(Pair(EntryOf(row), ValueOf(origin))) == PushedWanted(req, external)(origin)
    ensures StoreApi.Served(external)(Pair(EntryOf(row), ValueOf(origin))) == PushedServed(external)(origin)
  {
    ColumnDecodes(row.labels);
    assert Pushdown.IdOfRow(EntryOf(row).series) == IdOfMetric(origin.sample.metric);
  }

  /** What a further value row adds to the join: a pair for every label row of its id. */
  ghost function Matches(keep: Pair -> bool, v: ValueEntry): LabelEntry -> bool {
    (entry: LabelEntry) => entry.id == v.id && keep(Pair(entry, v))
  }

  ghost function PairedWith<B>(show: Pair -> B, v: ValueEntry): LabelEntry -> B {
    (entry: LabelEntry) => show(Pair(entry, v))
  }

  lemma {:induction false} JoinGrows<B>(keep: Pair -> bool, show: Pair -> B, labels: seq<LabelEntry>,
          values: seq<ValueEntry>, v: ValueEntry)
    ensures Kept(keep, show, Joined(labels, values + [v])) ==
            Kept(keep, show, Joined(labels, values)) + Kept(Matches(keep, v), PairedWith(show, v), labels)
    decreases |labels|
  {
    if labels != [] {
      var before, last := labels[..|labels| - 1], labels[|labels| - 1];
      JoinGrows(keep, show, before, values, v);
      PairsGrow(keep, show, last, values, v);
      KeptOfBoth(keep, show, Joined(before, values + [v]), PairsWith(last, values + [v]));
      KeptOfBoth(keep, show, Joined(before, values), PairsWith(last, values));
    }
  }

  lemma PairsGrow<B>(keep: Pair -> bool, show: Pair -> B, entry: LabelEntry, values: seq<ValueEntry>, v: ValueEntry)
    ensures Kept(keep, show, PairsWith(entry, values + [v])) ==
            Kept(keep, show, PairsWith(entry, values)) +
              if Matches(keep, v)(entry) then multiset{PairedWith(show, v)(entry)} else multiset{}
  {
    assert (values + [v])[..|values|] == values;
    if entry.id == v.id {
      KeptGrows(keep, show, PairsWith(entry, values), Pair(entry, v));
    } else {
      assert PairsWith(entry, values) + [] == PairsWith(entry, values);
    }
  }

  /** With ids that tell label rows apart, that is one pair. */
  lemma OnePair<B>(keep: Pair -> bool, show: Pair -> B, labels: seq<W.LabelRow>, i: nat, v: ValueEntry)
    requires i < |labels| && labels[i].id == v.id
    requires forall j :: 0 <= j < |labels| && j != i ==> labels[j].id != labels[i].id
    ensures Kept(Matches(keep, v), PairedWith(show, v), EntriesOf(labels)) ==
            if keep(Pair(EntryOf(labels[i]), v)) then multiset{show(Pair(EntryOf(labels[i]), v))} else multiset{}
  {
    KeptOnly(Matches(keep, v), PairedWith(show, v), EntriesOf(labels), i);
  }

  lemma {:induction false} NothingJoined(labels: seq<LabelEntry>)
    ensures Joined(labels, []) == []
  {
    if labels != [] {
      NothingJoined(labels[..|labels| - 1]);
    }
  }

  ghost predicate AllBacked(labels: seq<W.LabelRow>, origins: seq<W.Origin>) {
    forall i :: 0 <= i < |origins| ==> W.Backed(labels, origins[i]) && RowSays(origins[i])
  }

  lemma OneMorePushed(req: StoreApi.SeriesRequest, external: map<string, string>, labels: seq<W.LabelRow>,
          origin: W.Origin)
    requires W.TablesOk(labels) && W.Backed(labels, origin) && RowSays(origin)
    ensures Kept(Matches(StoreApi.Wanted(req, external), ValueOf(origin)),
                 PairedWith(StoreApi.Served(external), ValueOf(origin)), EntriesOf(labels)) ==
            if PushedWanted(req, external)(origin) then multiset{PushedServed(external)(origin)} else multiset{}
  {
    var i :|
      0 <= i < |labels| && labels[i].id == origin.row.id && labels[i].name == NameOf(origin.sample.metric) &&
      labels[i].labels == LabelsOf(origin.sample.metric);
    OnePair(StoreApi.Wanted(req, external), StoreApi.Served(external), labels, i, ValueOf(origin));
    PairAsPushed(req, external, labels[i], origin);
  }

  /** The value row of a sample adds to the join what the sample shows. */
  ghost predicate Adds<B>(keep: Pair -> bool, show: Pair -> B, also: W.Origin -> bool, as_: W.Origin -> B,
          entries: seq<LabelEntry>, origin: W.Origin) {
    Kept(Matches(keep, ValueOf(origin)), PairedWith(show, ValueOf(origin)), entries) ==
      if also(origin) then multiset{as_(origin)} else multiset{}
  }

  lemma ValuesGrow(origins: seq<W.Origin>)
    requires origins != []
    ensures ValuesOf(origins) == ValuesOf(origins[..|origins| - 1]) + [ValueOf(origins[|origins| - 1])]
  {
  }

  lemma AddOne<B>(keep: Pair -> bool, show: Pair -> B, also: W.Origin -> bool, as_: W.Origin -> B,
          entries: seq<LabelEntry>, values: seq<ValueEntry>, origin: W.Origin)
    requires Adds(keep, show, also, as_, entries, origin)
    ensures Kept(keep, show, Joined(entries, values + [ValueOf(origin)])) ==
            Kept(keep, show, Joined(entries, values)) + if also(origin) then multiset{as_(origin)} else multiset{}
  {
    JoinGrows(keep, show, entries, values, ValueOf(origin));
  }

  lemma {:induction false} JoinShows<B>(keep: Pair -> bool, show: Pair -> B, also: W.Origin -> bool,
          as_: W.Origin -> B, entries: seq<LabelEntry>, origins: seq<W.Origin>)
    requires forall i :: 0 <= i < |origins| ==> Adds(keep, show, also, as_, entries, origins[i])
    ensures Kept(keep, show, Joined(entries, ValuesOf(origins))) == Kept(also, as_, origins)
    decreases |origins|
  {
    if origins == [] {
      assert ValuesOf(origins) == [];
      NothingJoined(entries);
    } else {
      var before, last := origins[..|origins| - 1], origins[|origins| - 1];
      JoinShows(keep, show, also, as_, entries, before);
      ValuesGrow(origins);
      AddOne(keep, show, also, as_, entries, ValuesOf(before), last);
    }
  }

  lemma JoinAsPushed(req: StoreApi.SeriesRequest, external: map<string, string>, labels: seq<W.LabelRow>,
          origins: seq<W.Origin>)
    requires W.TablesOk(labels) && AllBacked(labels, origins)
    ensures StoreApi.Expected(req, external, TablesOf(labels, origins)) ==
            Kept(PushedWanted(req, external), PushedServed(external), origins)
  {
    forall i | 0 <= i < |origins|
      ensures Adds(StoreApi.Wanted(req, external), StoreApi.Served(external), PushedWanted(req, external),
                   PushedServed(external), EntriesOf(labels), origins[i])
    {
      OneMorePushed(req, external, labels, origins[i]);
    }
    JoinShows(StoreApi.Wanted(req, external), StoreApi.Served(external), PushedWanted(req, external),
              PushedServed(external), EntriesOf(labels), origins);
  }

  lemma StoredTimesInside(setting: W.Setting, labels: seq<W.LabelRow>, origins: seq<W.Origin>)
    requires WriteRecords.StoredRecorded(setting, multiset{}, multiset(origins))
    ensures StoreApi.TimesInside(TablesOf(labels, origins))
  {
    forall i | 0 <= i < |origins|
      ensures EARLIEST_QUERY_TIME < ValuesOf(origins)[i].time < LATEST_QUERY_TIME
    {
      assert origins[i] in multiset(origins);
      WriteRecords.RecordedInReach(setting, origins[i]);
    }
  }

  lemma StoredBacked(setting: W.Setting, tables: W.Tables, origins: seq<W.Origin>)
    requires W.Sound(tables) && multiset(origins) == tables.values
    requires WriteRecords.StoredRecorded(setting, multiset{}, tables.values)
    ensures AllBacked(tables.labels, origins)
  {
    forall i | 0 <= i < |origins|
      ensures W.Backed(tables.labels, origins[i]) && RowSays(origins[i])
    {
      assert origins[i] in multiset(origins);
      assert WriteRecords.Recorded(setting, origins[i]);
    }
  }

  lemma RunRecords(setting: W.Setting, tables: W.Tables, events: seq<W.Event>)
    requires WriteRecords.StoredRecorded(setting, multiset{}, tables.values) && W.Runs(setting, W.Down(tables), events)
    ensures WriteRecords.StoredRecorded(setting, multiset{}, W.After(setting, W.Down(tables), events).tables.values)
  {
    WriteRecords.RunKeepsRecords(setting, multiset{}, W.Down(tables), events);
  }

  /** From push to answer. In a safe setting, after any run from a truthful database, what the server selects
      for a request is exactly the stored samples that, as they were pushed, fall into the window and satisfy
      the matchers, under their metrics' labels and with their values: none under another series, none twice,
      none forgotten. */
  lemma ServedAsPushed(setting: W.Setting, tables: W.Tables, events: seq<W.Event>, req: StoreApi.SeriesRequest,
          external: map<string, string>, origins: seq<W.Origin>)
    requires WriteSafety.SafeSetting(setting) && W.TablesOk(tables.labels) && W.Sound(tables)
    requires WriteRecords.StoredRecorded(setting, multiset{}, tables.values)
    requires W.Runs(setting, W.Down(tables), events)
    requires IsInt64(req.minTime) && IsInt64(req.maxTime) && Pushdown.NAME !in external
    requires multiset(origins) == W.After(setting, W.Down(tables), events).tables.values
    ensures StoreApi.Selected(req, external,
                              TablesOf(W.After(setting, W.Down(tables), events).tables.labels, origins)) ==
            Kept(PushedWanted(req, external), PushedServed(external), origins)
  {
    WriteExactness.SafeSettingsStaySound(setting, tables, events);
    RunRecords(setting, tables, events);
    var after := W.After(setting, W.Down(tables), events).tables;
    StoredTimesInside(setting, after.labels, origins);
    StoredBacked(setting, after, origins);
    StoreApi.SelectedIsExpected(req, external, TablesOf(after.labels, origins));
    JoinAsPushed(req, external, after.labels, origins);
  }

  /** So the series that Series sends, chunks and all, carry exactly those samples. */
  lemma SentAsPushed(setting: W.Setting, tables: W.Tables, events: seq<W.Event>, req: StoreApi.SeriesRequest,
          external: map<string, string>, origins: seq<W.Origin>, sent: seq<Chunks.Series>)
    requires WriteSafety.SafeSetting(setting) && W.TablesOk(tables.labels) && W.Sound(tables)
    requires WriteRecords.StoredRecorded(setting, multiset{}, tables.values)
    requires W.Runs(setting, W.Down(tables), events)
    requires IsInt64(req.minTime) && IsInt64(req.maxTime) && Pushdown.NAME !in external
    requires multiset(origins) == W.After(setting, W.Down(tables), events).tables.values
    requires StoreApi.CarriesAll(req, external,
                                 TablesOf(W.After(setting, W.Down(tables), events).tables.labels, origins), sent)
    ensures Chunks.SentPoints(sent) == Kept(PushedWanted(req, external), PushedServed(external), origins)
  {
    ServedAsPushed(setting, tables, events, req, external, origins);
  }
}
