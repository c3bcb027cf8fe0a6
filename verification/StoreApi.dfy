/** The StoreAPI server: from a request to the series it is answered with. */
module StoreApi {
  import opened Domain
  import opened Sql
  import opened QueryBuilder
  import opened Matching
  import opened Pushdown
  import opened SeriesBuilder
  import opened Chunks
  import opened LabelSets
  import opened Bags
  import opened Timestamps
  import opened Storage

  datatype SeriesRequest = SeriesRequest(minTime: int, maxTime: int, matchers: seq<LabelMatcher>, skipChunks: bool)

  /** gRPC status or answer, or the part of it that was sent before the stream failed. */
  datatype Response<+T> = InvalidArgument | Internal | Sent(value: T) | BrokenOff(sent: T)

  /* ---- what a request asks for ---- */

  /** The stored samples of the time window whose merged series satisfies every matcher. */
  ghost function Wanted(req: SeriesRequest, external: map<string, string>): Pair -> bool {
    (pair: Pair) =>
      InWindow(req.minTime, req.maxTime, pair.value.time) && MergedAccepted(req.matchers, external, pair.entry.series)
  }

  /** A stored sample as it is to be served: under the merged labels, its time in milliseconds. */
  ghost function Served(external: map<string, string>): Pair -> Point {
    (pair: Pair) =>
      Point(Spelling(Merged(IdOfRow(pair.entry.series), external)),
            SeriesBuilder.TimedValue(UnixMilli(pair.value.time), pair.value.value))
  }

  ghost function Expected(req: SeriesRequest, external: map<string, string>, tables: Relations): multiset<Point> {
    Kept(Wanted(req, external), Served(external), Joined(tables.labels, tables.values))
  }

  /** What the code selects instead: bounds clamped, and external matchers settled beforehand. */
  ghost function Asked(req: SeriesRequest, external: map<string, string>): Pair -> bool {
    (pair: Pair) =>
      InClampedWindow(req.minTime, req.maxTime, pair.value.time) &&
      PushedAccepted(req.matchers, external, pair.entry.series)
  }

  ghost function Selected(req: SeriesRequest, external: map<string, string>, tables: Relations): multiset<Point> {
    Kept(Asked(req, external), Served(external), Joined(tables.labels, tables.values))
  }

  /** Stored times that clamped bounds treat like the bounds themselves. */
  ghost predicate TimesInside(tables: Relations) {
    forall i :: 0 <= i < |tables.values| ==> EARLIEST_QUERY_TIME < tables.values[i].time < LATEST_QUERY_TIME
  }

  lemma AskedIsWanted(req: SeriesRequest, external: map<string, string>, tables: Relations, pair: Pair)
    requires IsInt64(req.minTime) && IsInt64(req.maxTime)
    requires NAME !in external && TimesInside(tables) && pair.value in tables.values
    ensures Asked(req, external)(pair) == Wanted(req, external)(pair)
  {
    PushdownKeepsMeaning(req.matchers, external, pair.entry.series);
    ClampingSelectsTheSame(pair.value.time);
    assert InClampedWindow(req.minTime, req.maxTime, pair.value.time) <==>
           InWindow(req.minTime, req.maxTime, pair.value.time);
  }

  /** What the code selects is what is wanted: the stored samples of the window, of those merged series that
      satisfy every matcher. FaithfulExactly and ClampingSelectsTheSame say where the conditions end. */
  lemma SelectedIsExpected(req: SeriesRequest, external: map<string, string>, tables: Relations)
    requires IsInt64(req.minTime) && IsInt64(req.maxTime)
    requires NAME !in external && TimesInside(tables)
    ensures Selected(req, external, tables) == Expected(req, external, tables)
  {
    var pairs := Joined(tables.labels, tables.values);
    forall i | 0 <= i < |pairs|
      ensures Asked(req, external)(pairs[i]) == Wanted(req, external)(pairs[i])
    {
      JoinedOfTables(tables.labels, tables.values, pairs[i]);
      AskedIsWanted(req, external, tables, pairs[i]);
    }
    KeptAlike(Asked(req, external), Served(external), Wanted(req, external), Served(external), pairs);
  }

  /* ---- the query selects what is asked ---- */

  lemma {:induction false} PairsOfTables(entry: LabelEntry, values: seq<ValueEntry>, pair: Pair)
    ensures pair in PairsWith(entry, values) <==>
            pair.entry == entry && pair.value in values && entry.id == pair.value.id
  {
    if values != [] {
      var before, last := values[..|values| - 1], values[|values| - 1];
      PairsOfTables(entry, before, pair);
      assert pair.value in values <==> pair.value in before || pair.value == last;
      assert pair in PairsWith(entry, values) <==>
             pair in PairsWith(entry, before) || (entry.id == last.id && pair == Pair(entry, last));
    }
  }

  /** The join pairs a value row with the label row of its id. */
  lemma {:induction false} JoinedOfTables(labels: seq<LabelEntry>, values: seq<ValueEntry>, pair: Pair)
    ensures pair in Joined(labels, values) <==>
            pair.entry in labels && pair.value in values && pair.entry.id == pair.value.id
  {
    if labels != [] {
      var before, last := labels[..|labels| - 1], labels[|labels| - 1];
      JoinedOfTables(before, values, pair);
      PairsOfTables(last, values, pair);
      assert pair.entry in labels <==> pair.entry in before || pair.entry == last;
      assert pair in Joined(labels, values) <==> pair in Joined(before, values) || pair in PairsWith(last, values);
    }
  }

  function Truths(calendar: Calendar, conditions: seq<Condition>, pair: Pair): seq<Truth> {
    seq(|conditions|, i requires 0 <= i < |conditions| => PairMeaning(calendar, conditions[i], pair))
  }

  lemma WindowMeans(calendar: Calendar, start: int, end: int, pair: Pair)
    requires Agrees(calendar)
    ensures PairMeaning(calendar, TimeFrom(calendar.write(ClampedInstant(start))), pair) == Yes &&
            PairMeaning(calendar, TimeTo(calendar.write(ClampedInstant(end))), pair) == Yes <==>
            InClampedWindow(start, end, pair.value.time)
  {
    ClampedInstantBounded(start);
    ClampedInstantBounded(end);
  }

  lemma LabelConditionOnPair(calendar: Calendar, m: LabelMatcher, pair: Pair)
    ensures PairMeaning(calendar, ConditionOf(m), pair) == Meaning(ConditionOf(m), pair.entry.series)
  {
  }

  lemma QuerySelects(calendar: Calendar, query: Query, pair: Pair)
    requires Agrees(calendar) && AllSensible(query.matchers)
    ensures Selects(calendar, QueryConditions(calendar, query))(pair) <==>
            InClampedWindow(query.start, query.end, pair.value.time) &&
            StoredAccepted(query.matchers, pair.entry.series)
  {
    var conditions := QueryConditions(calendar, query);
    var truths := Truths(calendar, conditions, pair);
    var meanings := Meanings(ConditionsOf(query.matchers), pair.entry.series);
    var n := |query.matchers|;
    forall i | 0 <= i < n
      ensures truths[i] == meanings[i]
    {
      LabelConditionOnPair(calendar, query.matchers[i], pair);
    }
    AllMustHold(truths);
    AllMustHold(meanings);
    PredicateMeans(query.matchers, pair.entry.series);
    WindowMeans(calendar, query.start, query.end, pair);
    assert |truths| == n + 2;
    assert truths[n] == PairMeaning(calendar, TimeFrom(calendar.write(ClampedInstant(query.start))), pair);
    assert truths[n + 1] == PairMeaning(calendar, TimeTo(calendar.write(ClampedInstant(query.end))), pair);
  }

  lemma SelectsWhatIsAsked(calendar: Calendar, req: SeriesRequest, external: map<string, string>, pair: Pair)
    requires Agrees(calendar) && Readable(req.matchers, external) && AllSatisfied(req.matchers, external)
    ensures var query := Query(req.minTime, req.maxTime, Stored(req.matchers, external));
            Selects(calendar, QueryConditions(calendar, query))(pair) == Asked(req, external)(pair)
  {
    QuerySelects(calendar, Query(req.minTime, req.maxTime, Stored(req.matchers, external)), pair);
  }

  lemma ShownIsServed(external: map<string, string>, pair: Pair)
    ensures Shown(external)(RowOf(pair)) == Served(external)(pair)
  {
  }

  lemma RowsAreSelected(calendar: Calendar, conditions: seq<Condition>, external: map<string, string>,
          tables: Relations, rows: seq<SampleRow>)
    requires SamplesAnswer(calendar, tables, conditions, rows)
    ensures RowPoints(rows, external) ==
            Kept(Selects(calendar, conditions), Served(external), Joined(tables.labels, tables.values))
  {
    var pairs := Joined(tables.labels, tables.values);
    forall pair | pair in pairs
      ensures Served(external)(pair) == Shown(external)(RowOf(pair))
    {
      ShownIsServed(external, pair);
    }
    AllOfKept(Selects(calendar, conditions), RowOf, Shown(external), Served(external), pairs, rows);
  }

  /** The rows of the query, merged, are the samples asked for. */
  lemma RowsAreAsked(calendar: Calendar, req: SeriesRequest, external: map<string, string>, tables: Relations,
          rows: seq<SampleRow>)
    requires Agrees(calendar) && Readable(req.matchers, external) && AllSatisfied(req.matchers, external)
    requires SamplesAnswer(calendar, tables,
                           QueryConditions(calendar, Query(req.minTime, req.maxTime, Stored(req.matchers, external))),
                           rows)
    ensures RowPoints(rows, external) == Selected(req, external, tables)
  {
    var conditions := QueryConditions(calendar, Query(req.minTime, req.maxTime, Stored(req.matchers, external)));
    RowsAreSelected(calendar, conditions, external, tables, rows);
    forall i | 0 <= i < |Joined(tables.labels, tables.values)|
      ensures Selects(calendar, conditions)(Joined(tables.labels, tables.values)[i]) ==
              Asked(req, external)(Joined(tables.labels, tables.values)[i])
    {
      SelectsWhatIsAsked(calendar, req, external, Joined(tables.labels, tables.values)[i]);
    }
    KeptAlike(Selects(calendar, conditions), Served(external), Asked(req, external), Served(external),
              Joined(tables.labels, tables.values));
  }

  lemma AnswerScanned(calendar: Calendar, tables: Relations, conditions: seq<Condition>, rows: seq<SampleRow>)
    requires SamplesAnswer(calendar, tables, conditions, rows)
    ensures AllScanned(rows)
  {
    forall i | 0 <= i < |rows|
      ensures WellScanned(rows[i].labels)
    {
      var pairs := Joined(tables.labels, tables.values);
      assert rows[i] in multiset(rows);
      KeptFrom(Selects(calendar, conditions), RowOf, pairs, rows[i]);
      var k :| 0 <= k < |pairs| && RowOf(pairs[k]) == rows[i];
    }
  }

  /* ---- Series ---- */

  /** The answer to a request: all that is selected, in order. */
  ghost predicate CarriesAll(req: SeriesRequest, external: map<string, string>, tables: Relations,
          series: seq<Chunks.Series>) {
    InOrder(series) && SentPoints(series) == Selected(req, external, tables)
  }

  /** A request excluded by an external label selects nothing. */
  lemma ExcludedSelectsNothing(req: SeriesRequest, external: map<string, string>, tables: Relations)
    requires !AllSatisfied(req.matchers, external)
    ensures CarriesAll(req, external, tables, [])
  {
    NothingKept(Asked(req, external), Served(external), Joined(tables.labels, tables.values));
  }

  lemma BuiltCarries(calendar: Calendar, req: SeriesRequest, external: map<string, string>, tables: Relations,
          rows: seq<SampleRow>, series: seq<Chunks.Series>)
    requires Agrees(calendar) && Readable(req.matchers, external) && AllSatisfied(req.matchers, external)
    requires SamplesAnswer(calendar, tables,
                           QueryConditions(calendar, Query(req.minTime, req.maxTime, Stored(req.matchers, external))),
                           rows)
    requires Chunks.Built(rows, external, series)
    ensures CarriesAll(req, external, tables, series)
  {
    RowsAreAsked(calendar, req, external, tables, rows);
    BuiltCarriesRows(rows, external, series);
  }

  /** The send loop, on a stream that takes `capacity` responses and then fails. */
  method SendAll(series: seq<Chunks.Series>, skipChunks: bool, capacity: nat)
    returns (sent: seq<Chunks.Series>, ok: bool)
    ensures ok <==> |series| <= capacity
    ensures |sent| == if ok then |series| else capacity
    ensures forall i :: 0 <= i < |sent| ==> sent[i].labels == series[i].labels
    ensures forall i :: 0 <= i < |sent| ==> sent[i].chunks == if skipChunks then [] else series[i].chunks
  {
    sent := [];
    for i := 0 to |series|
      invariant i <= capacity && |sent| == i
      invariant forall k :: 0 <= k < i ==> sent[k].labels == series[k].labels
      invariant forall k :: 0 <= k < i ==> sent[k].chunks == if skipChunks then [] else series[k].chunks
    {
      var current := series[i];
      if skipChunks {
        current := current.(chunks := []);
      }
      if i == capacity {
        return sent, false;
      }
      sent := sent + [current];
    }
    return sent, true;
  }

  /** The middle of `Series`: query, rows and series, once the conversion has gone through. The query builder
      cannot fail here: the conversion lets no matcher of an unnamed type through. */
  method QuerySeries(req: SeriesRequest, external: map<string, string>, matchers: seq<LabelMatcher>, calendar: Calendar,
          db: Querier, ghost tables: Relations)
    returns (r: Answer<seq<Chunks.Series>>)
    requires Agrees(calendar) && AnswersFrom(db, tables, calendar)
    requires AllSatisfied(req.matchers, external) && matchers == Stored(req.matchers, external)
    ensures r.Failed? ==> QueryFails(db, calendar, Query(req.minTime, req.maxTime, matchers))
    ensures r.Rows? && Readable(req.matchers, external) ==> CarriesAll(req, external, tables, r.value)
  {
    var query := Query(req.minTime, req.maxTime, matchers);
    StoredNamed(req.matchers, external);
    var sql := BuildSQLQuery(calendar, query);
    var rows := db.samples(sql.value);
    if rows.Failed? {
      return Failed;
    }
    AnswersWithJoin(db, tables, calendar, sql.value, QueryConditions(calendar, query));
    AnswerScanned(calendar, tables, QueryConditions(calendar, query), rows.value);
    var series := BuildSeries(rows.value, external);
    if Readable(req.matchers, external) {
      BuiltCarries(calendar, req, external, tables, rows.value, series);
    }
    return Rows(series);
  }

  /** The label sets of the first series of `full`, and no chunk. */
  ghost predicate LabelsOnly(full: seq<Chunks.Series>, sent: seq<Chunks.Series>) {
    |sent| <= |full| && forall i :: 0 <= i < |sent| ==> sent[i].labels == full[i].labels && sent[i].chunks == []
  }

  lemma FrontOfAll(full: seq<Chunks.Series>, sent: seq<Chunks.Series>)
    requires |sent| <= |full|
    requires forall i :: 0 <= i < |sent| ==> sent[i].labels == full[i].labels && sent[i].chunks == full[i].chunks
    ensures sent <= full && (|sent| == |full| ==> sent == full)
  {
    assert forall i :: 0 <= i < |sent| ==> sent[i] == full[i];
  }

  /** `Server.Series`: exactly the samples selected, which SelectedIsExpected shows to be those wanted; without
      chunks, when none are asked for, the label sets of exactly these series; and the front of either when
      the stream fails. */
  method Series(req: SeriesRequest, external: map<string, string>, calendar: Calendar, db: Querier, capacity: nat,
          ghost tables: Relations)
    returns (r: Response<seq<Chunks.Series>>)
    requires Agrees(calendar) && AnswersFrom(db, tables, calendar)
    ensures r.InvalidArgument? <==> InvalidRequest(req.matchers, external)
    ensures r.Internal? ==>
            QueryFails(db, calendar, Query(req.minTime, req.maxTime, Stored(req.matchers, external)))
    ensures r.Sent? && !req.skipChunks && Readable(req.matchers, external) ==>
            CarriesAll(req, external, tables, r.value)
    ensures r.Sent? && req.skipChunks && Readable(req.matchers, external) ==>
            exists full ::
              CarriesAll(req, external, tables, full) && |r.value| == |full| && LabelsOnly(full, r.value)
    ensures r.BrokenOff? && Readable(req.matchers, external) ==>
            exists full ::
              CarriesAll(req, external, tables, full) && |r.sent| < |full| &&
              if req.skipChunks then LabelsOnly(full, r.sent) else r.sent <= full
    ensures (r.Sent? ==> |r.value| <= capacity) && (r.BrokenOff? ==> |r.sent| == capacity)
  {
    var conversion := PromMatchers(req.matchers, external);
    SatisfiedExactly(req.matchers, external);
    if conversion.Invalid? {
      return InvalidArgument;
    }
    if conversion.Excluded? {
      ExcludedSelectsNothing(req, external, tables);
      assert LabelsOnly([], []);
      return Sent([]);
    }
    var series := QuerySeries(req, external, conversion.matchers, calendar, db, tables);
    if series.Failed? {
      return Internal;
    }
    var sent, ok := SendAll(series.value, req.skipChunks, capacity);
    if req.skipChunks {
      assert LabelsOnly(series.value, sent);
    } else {
      FrontOfAll(series.value, sent);
    }
    if !ok {
      return BrokenOff(sent);
    }
    return Sent(sent);
  }
}
