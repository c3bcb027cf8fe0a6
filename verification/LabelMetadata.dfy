/** LabelNames and LabelValues of the StoreAPI server: what they report, against what the merged series of
    the store expose. */
module LabelMetadata {
  import opened Text
  import opened Domain
  import opened Sql
  import opened QueryBuilder
  import opened Matching
  import opened Pushdown
  import opened SeriesBuilder
  import opened Storage
  import opened StoreApi
  import opened Chunks
  import opened Bags
  import opened LabelSets
  import opened Timestamps
  import Sorting
  import MetricString

  /* ---- what the merged series expose, whatever the time ---- */

  /** Some merged series that satisfies the matchers carries this label with this value. */
  ghost predicate Exposed(tables: Relations, external: map<string, string>, ms: seq<LabelMatcher>, name: string,
          value: string) {
    exists entry ::
      entry in tables.labels && MergedAccepted(ms, external, entry.series) &&
      MergedLabel(entry.series, external, name) == value
  }

  /** A label that is carried empty is not carried at all. */
  ghost predicate NameExposed(tables: Relations, external: map<string, string>, ms: seq<LabelMatcher>, name: string) {
    exists value :: value != "" && Exposed(tables, external, ms, name, value)
  }

  /* ---- what the code reports ---- */

  ghost predicate Fitting(tables: Relations, external: map<string, string>, ms: seq<LabelMatcher>, entry: LabelEntry) {
    entry in tables.labels && PushedAccepted(ms, external, entry.series)
  }

  ghost predicate Holding(tables: Relations, external: map<string, string>, ms: seq<LabelMatcher>) {
    exists entry :: Fitting(tables, external, ms, entry)
  }

  ghost predicate NameReported(tables: Relations, external: map<string, string>, ms: seq<LabelMatcher>, name: string) {
    exists entry :: Fitting(tables, external, ms, entry) && (name == NAME || name in external || HasLabel(entry, name))
  }

  ghost predicate StoredWith(tables: Relations, external: map<string, string>, ms: seq<LabelMatcher>, name: string,
          value: string) {
    exists entry :: Fitting(tables, external, ms, entry) && StoredLabel(entry.series, name) == value
  }

  ghost predicate ValueReported(tables: Relations, external: map<string, string>, ms: seq<LabelMatcher>, name: string,
          value: string) {
    if name in external then value == external[name] && Holding(tables, external, ms)
    else value != "" && StoredWith(tables, external, ms, name, value)
  }

  ghost predicate NamesReported(tables: Relations, external: map<string, string>, ms: seq<LabelMatcher>,
          names: seq<string>) {
    Ascending(names) && forall name: string :: name in names <==> NameReported(tables, external, ms, name)
  }

  ghost predicate ValuesReported(tables: Relations, external: map<string, string>, ms: seq<LabelMatcher>, name: string,
          values: seq<string>) {
    Ascending(values) && forall value: string :: value in values <==> ValueReported(tables, external, ms, name, value)
  }

  /* ---- the predicate both ask with ---- */

  datatype Filter = BadMatchers | NoMatch | Predicate(text: string)

  /** `labelsPredicate`. */
  method LabelsPredicate(matchers: seq<LabelMatcher>, external: map<string, string>) returns (r: Filter)
    ensures r.BadMatchers? <==> InvalidRequest(matchers, external)
    ensures r.NoMatch? <==> ExcludedRequest(matchers, external)
    ensures r.Predicate? ==> ParsePredicate(r.text) == Some(ConditionsOf(Stored(matchers, external)))
  {
    var conversion := PromMatchers(matchers, external);
    if conversion.Invalid? {
      return BadMatchers;
    }
    if conversion.Excluded? {
      return NoMatch;
    }
    SatisfiedExactly(matchers, external);
    StoredNamed(matchers, external);
    var predicateText := BuildLabelsPredicate(conversion.matchers);
    return Predicate(predicateText.value);
  }

  /** The rows the predicate keeps are the series that fit. */
  lemma PredicateFits(tables: Relations, external: map<string, string>, ms: seq<LabelMatcher>, entry: LabelEntry)
    requires Readable(ms, external) && Deciding(ms, external) == Satisfied && entry in tables.labels
    ensures Fits(ConditionsOf(Stored(ms, external)), entry) <==> Fitting(tables, external, ms, entry)
  {
    SatisfiedExactly(ms, external);
    PredicateMeans(Stored(ms, external), entry.series);
  }

  lemma NothingFits(tables: Relations, external: map<string, string>, ms: seq<LabelMatcher>)
    requires Deciding(ms, external) == Fails
    ensures !Holding(tables, external, ms)
  {
    SatisfiedExactly(ms, external);
  }

  lemma SomeFittingIsHolding(tables: Relations, external: map<string, string>, ms: seq<LabelMatcher>)
    requires Readable(ms, external) && Deciding(ms, external) == Satisfied
    ensures SomeFitting(tables, ConditionsOf(Stored(ms, external))) <==> Holding(tables, external, ms)
  {
    forall entry | entry in tables.labels
      ensures Fits(ConditionsOf(Stored(ms, external)), entry) <==> Fitting(tables, external, ms, entry)
    {
      PredicateFits(tables, external, ms, entry);
    }
  }

  lemma SomeFittingWithLabel(tables: Relations, external: map<string, string>, ms: seq<LabelMatcher>, name: string)
    requires Readable(ms, external) && Deciding(ms, external) == Satisfied
    ensures SomeFittingWith(tables, ConditionsOf(Stored(ms, external)), name) <==>
            exists entry :: Fitting(tables, external, ms, entry) && HasLabel(entry, name)
  {
    forall entry | entry in tables.labels
      ensures Fits(ConditionsOf(Stored(ms, external)), entry) <==> Fitting(tables, external, ms, entry)
    {
      PredicateFits(tables, external, ms, entry);
    }
  }

  lemma SomeStoredFits(tables: Relations, external: map<string, string>, ms: seq<LabelMatcher>, name: string,
          value: string)
    requires Readable(ms, external) && Deciding(ms, external) == Satisfied
    ensures SomeStored(tables, ConditionsOf(Stored(ms, external)), name, value) <==>
            StoredWith(tables, external, ms, name, value)
  {
    forall entry | entry in tables.labels
      ensures Fits(ConditionsOf(Stored(ms, external)), entry) <==> Fitting(tables, external, ms, entry)
    {
      PredicateFits(tables, external, ms, entry);
    }
  }

  /* ---- LabelNames ---- */

  /** The names merged into a set, listed and sorted: `unique`, `result` and `sort.Strings`. */
  method SortedUnion(names: seq<string>, external: map<string, string>) returns (result: seq<string>)
    ensures Ascending(result)
    ensures forall name :: name in result <==> name == NAME || name in names || name in external
  {
    var unique: set<string> := {NAME};
    for n := 0 to |names|
      invariant forall name :: name in unique <==> name == NAME || name in names[..n]
    {
      unique := unique + {names[n]};
    }
    assert names[..|names|] == names;
    unique := unique + external.Keys;
    result := SortedListing(unique);
  }

  method SortedListing(unique: set<string>) returns (result: seq<string>)
    ensures Ascending(result) && forall name :: name in result <==> name in unique
  {
    result := [];
    var pending := unique;
    ghost var seen: set<string> := {};
    while pending != {}
      invariant pending + seen == unique && pending !! seen && multiset(result) == multiset(seen)
      decreases pending
    {
      var name :| name in pending;
      pending, seen, result := pending - {name}, seen + {name}, result + [name];
    }
    MetricString.BelowIsTotalOrder();
    result := Sorting.Sort(Below, result);
    OnceEach(result, unique);
    SortedDistinctAscends(result);
  }

  lemma NamesAreReported(tables: Relations, external: map<string, string>, ms: seq<LabelMatcher>, names: seq<string>,
          exist: bool, result: seq<string>)
    requires Readable(ms, external) && Deciding(ms, external) == Satisfied
    requires NamesFound(tables, ConditionsOf(Stored(ms, external)), names, exist)
    requires if exist
             then Ascending(result) &&
                  forall name :: name in result <==> name == NAME || name in names || name in external
             else result == []
    ensures NamesReported(tables, external, ms, result)
  {
    SomeFittingIsHolding(tables, external, ms);
    forall name: string
      ensures name in result <==> NameReported(tables, external, ms, name)
    {
      SomeFittingWithLabel(tables, external, ms, name);
    }
  }

  /** `Server.LabelNames`. */
  method LabelNames(matchers: seq<LabelMatcher>, external: map<string, string>, db: Querier, ghost tables: Relations,
          ghost calendar: Calendar)
    returns (r: Response<seq<string>>)
    requires AnswersFrom(db, tables, calendar)
    ensures r.InvalidArgument? <==> InvalidRequest(matchers, external)
    ensures r.Internal? ==>
            exists text ::
              ParsePredicate(text) == Some(ConditionsOf(Stored(matchers, external))) && db.labelKeys(text).Failed?
    ensures r.Sent? && Readable(matchers, external) ==> NamesReported(tables, external, matchers, r.value)
  {
    var filter := LabelsPredicate(matchers, external);
    DecidingExactly(matchers, external);
    if filter.BadMatchers? {
      return InvalidArgument;
    }
    if filter.NoMatch? {
      NothingFits(tables, external, matchers);
      return Sent([]);
    }
    var found := Storage.LabelNames(db, filter.text, tables, calendar);
    if found.Failed? {
      return Internal;
    }
    var (names, exist) := found.value;
    var result: seq<string> := [];
    if exist {
      result := SortedUnion(names, external);
    }
    if Readable(matchers, external) {
      NamesAreReported(tables, external, matchers, names, exist, result);
    }
    return Sent(result);
  }

  /* ---- LabelValues ---- */

  lemma OneValueReported(tables: Relations, external: map<string, string>, ms: seq<LabelMatcher>, name: string,
          exist: bool)
    requires name in external
    requires exist <==> Holding(tables, external, ms)
    ensures ValuesReported(tables, external, ms, name, if exist then [external[name]] else [])
  {
  }

  lemma StoredValuesReported(tables: Relations, external: map<string, string>, ms: seq<LabelMatcher>, name: string,
          values: seq<string>)
    requires Readable(ms, external) && name !in external && Deciding(ms, external) == Satisfied
    requires ValuesFound(tables, ConditionsOf(Stored(ms, external)), name, values)
    ensures ValuesReported(tables, external, ms, name, values)
  {
    forall value: string
      ensures value in values <==> ValueReported(tables, external, ms, name, value)
    {
      SomeStoredFits(tables, external, ms, name, value);
    }
  }

  /** `Server.LabelValues`. */
  method LabelValues(name: string, matchers: seq<LabelMatcher>, external: map<string, string>, db: Querier,
          ghost tables: Relations, ghost calendar: Calendar)
    returns (r: Response<seq<string>>)
    requires AnswersFrom(db, tables, calendar)
    ensures r.InvalidArgument? <==> InvalidRequest(matchers, external)
    ensures r.Internal? ==>
            exists text ::
              ParsePredicate(text) == Some(ConditionsOf(Stored(matchers, external))) &&
              if name in external then db.seriesExist(text).Failed?
              else if name == NAME then db.metricNames(text).Failed?
              else db.labelValues(name, text).Failed?
    ensures r.Sent? && Readable(matchers, external) ==> ValuesReported(tables, external, matchers, name, r.value)
  {
    var filter := LabelsPredicate(matchers, external);
    DecidingExactly(matchers, external);
    if filter.BadMatchers? {
      return InvalidArgument;
    }
    if filter.NoMatch? {
      NothingFits(tables, external, matchers);
      return Sent([]);
    }
    if name in external {
      var exist := db.seriesExist(filter.text);
      assert AnswersMetadata(db, tables, filter.text, ConditionsOf(Stored(matchers, external)));
      if exist.Failed? {
        return Internal;
      }
      if Readable(matchers, external) {
        SomeFittingIsHolding(tables, external, matchers);
        OneValueReported(tables, external, matchers, name, exist.value);
      }
      if !exist.value {
        return Sent([]);
      }
      return Sent([external[name]]);
    }
    var values := Storage.LabelValues(db, name, filter.text, tables, calendar);
    if values.Failed? {
      return Internal;
    }
    if Readable(matchers, external) {
      StoredValuesReported(tables, external, matchers, name, values.value);
    }
    return Sent(values.value);
  }

  /* ---- reported, exposed, sent ---- */

  lemma FittingIsAccepted(tables: Relations, external: map<string, string>, ms: seq<LabelMatcher>, entry: LabelEntry)
    requires NAME !in external
    ensures Fitting(tables, external, ms, entry) <==>
            entry in tables.labels && MergedAccepted(ms, external, entry.series)
  {
    PushdownKeepsMeaning(ms, external, entry.series);
  }

  /** What a fitting series carries, label by label. */
  lemma FittingCarries(tables: Relations, external: map<string, string>, ms: seq<LabelMatcher>, entry: LabelEntry,
          name: string)
    requires NAME !in external && Fitting(tables, external, ms, entry)
    ensures MergedLabel(entry.series, external, name) ==
            if name in external then external[name] else StoredLabel(entry.series, name)
    ensures Exposed(tables, external, ms, name, MergedLabel(entry.series, external, name))
  {
    FittingIsAccepted(tables, external, ms, entry);
    if name in external {
      MergedIsExternal(entry.series, external, name);
    } else {
      MergedIsStored(entry.series, external, name);
    }
  }

  lemma ExposedFits(tables: Relations, external: map<string, string>, ms: seq<LabelMatcher>, name: string,
          value: string)
    returns (entry: LabelEntry)
    requires NAME !in external && Exposed(tables, external, ms, name, value)
    ensures Fitting(tables, external, ms, entry) &&
            value == if name in external then external[name] else StoredLabel(entry.series, name)
  {
    entry :|
      entry in tables.labels && MergedAccepted(ms, external, entry.series) &&
      MergedLabel(entry.series, external, name) == value;
    FittingIsAccepted(tables, external, ms, entry);
    FittingCarries(tables, external, ms, entry, name);
  }

  lemma ExposedExactly(tables: Relations, external: map<string, string>, ms: seq<LabelMatcher>, name: string,
          value: string)
    requires NAME !in external
    ensures Exposed(tables, external, ms, name, value) <==>
            if name in external
            then value == external[name] && Holding(tables, external, ms)
            else StoredWith(tables, external, ms, name, value)
  {
    if Exposed(tables, external, ms, name, value) {
      var entry := ExposedFits(tables, external, ms, name, value);
    }
    forall entry | Fitting(tables, external, ms, entry)
      ensures MergedLabel(entry.series, external, name) ==
              if name in external then external[name] else StoredLabel(entry.series, name)
      ensures Exposed(tables, external, ms, name, MergedLabel(entry.series, external, name))
    {
      FittingCarries(tables, external, ms, entry, name);
    }
  }

  lemma NameReportedExactly(tables: Relations, external: map<string, string>, ms: seq<LabelMatcher>, name: string)
    requires NAME !in external
    ensures name != NAME && name !in external ==>
            (NameReported(tables, external, ms, name) <==> NameExposed(tables, external, ms, name))
    ensures name in external ==> (NameReported(tables, external, ms, name) <==> Holding(tables, external, ms))
    ensures name in external ==>
            (NameExposed(tables, external, ms, name) <==> Holding(tables, external, ms) && external[name] != "")
    ensures name == NAME ==> (NameReported(tables, external, ms, name) <==> Holding(tables, external, ms))
    ensures NameExposed(tables, external, ms, name) ==> Holding(tables, external, ms)
  {
    forall value: string
      ensures Exposed(tables, external, ms, name, value) <==>
              if name in external
              then value == external[name] && Holding(tables, external, ms)
              else StoredWith(tables, external, ms, name, value)
    {
      ExposedExactly(tables, external, ms, name, value);
    }
    forall entry | Fitting(tables, external, ms, entry)
      ensures name != NAME && name !in external && HasLabel(entry, name) ==>
              StoredWith(tables, external, ms, name, LabelOrEmpty(entry.series.labels, name))
    {
    }
    if name in external {
      assert Exposed(tables, external, ms, name, external[name]) <==> Holding(tables, external, ms);
    }
  }

  /** The names reported are the names the merged series expose, exactly when nothing fits, or some fitting
      series has a metric name and no external value is empty. */
  lemma NamesExactly(tables: Relations, external: map<string, string>, ms: seq<LabelMatcher>)
    requires NAME !in external
    ensures (forall name: string ::
              NameReported(tables, external, ms, name) <==> NameExposed(tables, external, ms, name)) <==>
            (Holding(tables, external, ms) ==>
              NameExposed(tables, external, ms, NAME) && forall name :: name in external ==> external[name] != "")
  {
    forall name: string
      ensures name != NAME && name !in external ==>
              (NameReported(tables, external, ms, name) <==> NameExposed(tables, external, ms, name))
      ensures name in external ==> (NameReported(tables, external, ms, name) <==> Holding(tables, external, ms))
      ensures name in external ==>
              (NameExposed(tables, external, ms, name) <==> Holding(tables, external, ms) && external[name] != "")
      ensures name == NAME ==> (NameReported(tables, external, ms, name) <==> Holding(tables, external, ms))
      ensures NameExposed(tables, external, ms, name) ==> Holding(tables, external, ms)
    {
      NameReportedExactly(tables, external, ms, name);
    }
  }

  /** The values reported are the non-empty values exposed, exactly unless the label is an external one with
      an empty value on a store where something fits. */
  lemma ValuesExactly(tables: Relations, external: map<string, string>, ms: seq<LabelMatcher>, name: string)
    requires NAME !in external
    ensures (forall value: string ::
              ValueReported(tables, external, ms, name, value) <==>
              value != "" && Exposed(tables, external, ms, name, value)) <==>
            !(name in external && external[name] == "" && Holding(tables, external, ms))
  {
    forall value: string
      ensures Exposed(tables, external, ms, name, value) <==>
              if name in external
              then value == external[name] && Holding(tables, external, ms)
              else StoredWith(tables, external, ms, name, value)
    {
      ExposedExactly(tables, external, ms, name, value);
    }
    if name in external {
      assert ValueReported(tables, external, ms, name, "") <==> external[name] == "" && Holding(tables, external, ms);
    }
  }

  /** LabelValues has values for the metric name exactly when some fitting series has one, and for every other
      label exactly when LabelNames reports it. */
  lemma ValuesOfName(tables: Relations, external: map<string, string>, ms: seq<LabelMatcher>, name: string,
          values: seq<string>)
    requires NAME !in external && ValuesReported(tables, external, ms, name, values)
    ensures values != [] <==>
            if name == NAME then NameExposed(tables, external, ms, NAME) else NameReported(tables, external, ms, name)
  {
    NameReportedExactly(tables, external, ms, name);
    if values != [] {
      assert values[0] in values;
      assert ValueReported(tables, external, ms, name, values[0]);
      ExposedExactly(tables, external, ms, name, values[0]);
    }
    if name in external && Holding(tables, external, ms) {
      assert ValueReported(tables, external, ms, name, external[name]);
    }
    if name !in external && NameExposed(tables, external, ms, name) {
      var value :| value != "" && Exposed(tables, external, ms, name, value);
      ExposedExactly(tables, external, ms, name, value);
      assert ValueReported(tables, external, ms, name, value);
    }
  }

  /** A name is reported exactly when LabelValues has values for it under the same matchers, exactly unless the
      name is the metric name's and all the fitting series, of which there are some, have an empty one. */
  lemma NamesHaveValues(tables: Relations, external: map<string, string>, ms: seq<LabelMatcher>, names: seq<string>,
          name: string, values: seq<string>)
    requires NAME !in external
    requires NamesReported(tables, external, ms, names) && ValuesReported(tables, external, ms, name, values)
    ensures (name in names <==> values != []) <==>
            (name == NAME && Holding(tables, external, ms) ==> NameExposed(tables, external, ms, NAME))
  {
    NameReportedExactly(tables, external, ms, name);
    ValuesOfName(tables, external, ms, name, values);
  }

  /** A sent point comes from a fitting series. */
  lemma SentComesFrom(req: SeriesRequest, external: map<string, string>, tables: Relations, p: Point)
    returns (entry: LabelEntry)
    requires p in Selected(req, external, tables)
    ensures Fitting(tables, external, req.matchers, entry)
    ensures Spells(p.lset, Merged(IdOfRow(entry.series), external))
  {
    var pairs := Joined(tables.labels, tables.values);
    KeptFrom(Asked(req, external), Served(external), pairs, p);
    var k :| 0 <= k < |pairs| && Asked(req, external)(pairs[k]) && Served(external)(pairs[k]) == p;
    JoinedOfTables(tables.labels, tables.values, pairs[k]);
    entry := pairs[k].entry;
  }

  /** Every label that Series sends non-empty, whatever the window, LabelNames reports under the same matchers,
      and LabelValues with that value. */
  lemma SentIsReported(req: SeriesRequest, external: map<string, string>, tables: Relations,
          full: seq<Chunks.Series>, p: Point, i: nat, names: seq<string>, values: seq<string>)
    requires NAME !in external && CarriesAll(req, external, tables, full) && p in SentPoints(full)
    requires i < |p.lset| && p.lset[i].value != ""
    requires NamesReported(tables, external, req.matchers, names)
    requires ValuesReported(tables, external, req.matchers, p.lset[i].name, values)
    ensures p.lset[i].name in names && p.lset[i].value in values
  {
    var name, value := p.lset[i].name, p.lset[i].value;
    var entry := SentComesFrom(req, external, tables, p);
    FittingCarries(tables, external, req.matchers, entry, name);
    assert MergedLabel(entry.series, external, name) == value;
    assert NameReported(tables, external, req.matchers, name);
    ExposedExactly(tables, external, req.matchers, name, value);
    assert ValueReported(tables, external, req.matchers, name, value);
  }

  /** And a label of a fitting series is sent, with its merged value, once that series has a sample in the
      window. */
  lemma ExposedIsSent(req: SeriesRequest, external: map<string, string>, tables: Relations, full: seq<Chunks.Series>,
          entry: LabelEntry, value: ValueEntry, name: string)
    requires CarriesAll(req, external, tables, full) && Fitting(tables, external, req.matchers, entry)
    requires value in tables.values && value.id == entry.id && InClampedWindow(req.minTime, req.maxTime, value.time)
    requires name in Merged(IdOfRow(entry.series), external)
    ensures exists p: Point :: p in SentPoints(full) && Label(name, MergedLabel(entry.series, external, name)) in p.lset
  {
    var pair := Pair(entry, value);
    JoinedOfTables(tables.labels, tables.values, pair);
    KeptHas(Asked(req, external), Served(external), Joined(tables.labels, tables.values), pair);
    var merged := Merged(IdOfRow(entry.series), external);
    LabelSpelled(Spelling(merged), merged, name);
    assert Served(external)(pair).lset == Spelling(merged);
  }
}
