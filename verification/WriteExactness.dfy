/** The settings in which no run lets the tables lie, exactly: WriteSafety shows they are safe, the runs
    below show that every other setting can store a sample no label row speaks for, and after a restart
    serve it under another series. */
module WriteExactness {
  import opened Text
  import opened MetricString
  import opened Json
  import Timestamps
  import opened WritePath
  import opened WriteInvariant
  import opened WriteRuns
  import opened WriteSafety

  /** No value row is joined to a label row of another series than the one it was pushed with. */
  ghost predicate Faithful(tables: Tables) {
    forall origin, i :: origin in tables.values && 0 <= i < |tables.labels| && tables.labels[i].id == origin.row.id ==>
      tables.labels[i].name == NameOf(origin.sample.metric) && tables.labels[i].labels == LabelsOf(origin.sample.metric)
  }

  /** From a truthful database, every run in this setting leaves every stored sample with its label row. */
  ghost predicate AlwaysSound(setting: Setting) {
    forall tables: Tables, events: seq<Event> ::
      TablesOk(tables.labels) && Sound(tables) && Runs(setting, Down(tables), events) ==>
        Sound(After(setting, Down(tables), events).tables)
  }

  ghost predicate AlwaysFaithful(setting: Setting) {
    forall tables: Tables, events: seq<Event> ::
      TablesOk(tables.labels) && Sound(tables) && Runs(setting, Down(tables), events) ==>
        Faithful(After(setting, Down(tables), events).tables)
  }

  lemma SoundIsFaithful(tables: Tables)
    requires TablesOk(tables.labels) && Sound(tables)
    ensures Faithful(tables)
  {
    forall origin, i | origin in tables.values && 0 <= i < |tables.labels| && tables.labels[i].id == origin.row.id
      ensures tables.labels[i].name == NameOf(origin.sample.metric) &&
              tables.labels[i].labels == LabelsOf(origin.sample.metric)
    {
      assert Backed(tables.labels, origin);
      var j :|
        0 <= j < |tables.labels| && tables.labels[j].id == origin.row.id &&
        tables.labels[j].name == NameOf(origin.sample.metric) &&
        tables.labels[j].labels == LabelsOf(origin.sample.metric);
      assert i == j;
    }
  }

  /* ---- the cast of the counterexamples ---- */

  /** Three samples of different series that decode, and one whose text is refused. */
  datatype Cast = Cast(first: Sample, second: Sample, other: Sample, refused: Sample) {
    ghost predicate Valid() {
      && Decodable(first.metric) && Decodable(second.metric) && Decodable(other.metric)
      && PlainNames(refused.metric) && Decode(MetricText(refused.metric)) == Refused
      && MetricText(first.metric) != MetricText(other.metric)
      && MetricText(first.metric) != MetricText(second.metric)
      && LabelsOf(first.metric) != LabelsOf(other.metric)
      && LabelsOf(second.metric) != LabelsOf(other.metric)
      && LabelsOf(refused.metric) != LabelsOf(other.metric)
    }
  }

  /** A series without labels, two that differ in a value, and one with a BEL character in its value. */
  const CAST := Cast(Sample(map[], 0, 0), Sample(map["a" := "b"], 0, 0), Sample(map["a" := "c"], 0, 0),
                     Sample(map["a" := "\U{07}"], 0, 0))

  lemma OneLabel(value: string)
    ensures NameOf(map["a" := value]) == "" && LabelsOf(map["a" := value]) == map["a" := value]
    ensures PlainNames(map["a" := value]) && !Bare(map["a" := value])
    ensures SafeValues(LabelsOf(map["a" := value])) <==> AllJsonSafe(value)
  {
    var m := map["a" := value];
    assert "__name__"[0] == '_' && "a"[0] == 'a';
    assert LabelsOf(m) == m;
    assert m["a"] == value;
  }

  lemma SafeLetters()
    ensures AllJsonSafe("b") && AllJsonSafe("c") && !AllJsonSafe("\U{07}")
  {
    assert "\U{07}"[0] in "\U{07}";
  }

  lemma CastIsValid()
    ensures CAST.Valid()
  {
    SafeLetters();
    OneLabel("b");
    OneLabel("c");
    OneLabel("\U{07}");
    var none: Metric := map[];
    assert LabelsOf(none) == map[];
    var b, c, bell: Metric := map["a" := "b"], map["a" := "c"], map["a" := "\U{07}"];
    assert b["a"] == "b" && c["a"] == "c" && bell["a"] == "\U{07}";
    DecodeExact(bell);
    TextIdentifiesSeries(none, c);
    TextIdentifiesSeries(none, b);
  }

  function RowFor(id: int, metric: Metric, text: string): LabelRow {
    LabelRow(id, NameOf(metric), text, LabelsOf(metric))
  }

  lemma AbsorbOne(known: Known, sample: Sample, absorbed: Absorbed)
    requires absorbed == Absorb(known, sample) && absorbed.Lives?
    ensures AbsorbAll(known, [sample]) == absorbed
  {
    assert [sample][1..] == [];
    assert AbsorbAll(absorbed.known, []) == Lives(absorbed.known, []);
    assert absorbed.rows + [] == absorbed.rows;
  }

  lemma AbsorbNewSeries(known: Known, sample: Sample)
    requires Decodable(sample.metric) && MetricText(sample.metric) !in known.ids
    ensures AbsorbAll(known, [sample]) ==
            Lives(Taught(known, sample.metric), [OriginOf(known.next, sample)])
  {
    DecodeExact(sample.metric);
    AbsorbOne(known, sample, Lives(Taught(known, sample.metric), [OriginOf(known.next, sample)]));
  }

  /** What a parser knows after its first sample of a decodable series. */
  ghost function Taught(known: Known, metric: Metric): Known {
    Known(known.ids[MetricText(metric) := known.next], known.next + 1,
          known.labelRows + [RowFor(known.next, metric, MetricText(metric))])
  }

  lemma AbsorbKnownSeries(known: Known, sample: Sample)
    requires MetricText(sample.metric) in known.ids
    ensures AbsorbAll(known, [sample]) == Lives(known, [OriginOf(known.ids[MetricText(sample.metric)], sample)])
  {
    AbsorbOne(known, sample, Lives(known, [OriginOf(known.ids[MetricText(sample.metric)], sample)]));
  }

  /** The first sample of an undecodable series is dropped; the second finds the id and goes through. */
  lemma AbsorbRefusedTwice(known: Known, sample: Sample)
    requires Decode(MetricText(sample.metric)) == Refused && MetricText(sample.metric) !in known.ids
    ensures var text := MetricText(sample.metric);
            AbsorbAll(known, [sample, sample]) ==
            Lives(Known(known.ids[text := known.next], known.next + 1, known.labelRows), [OriginOf(known.next, sample)])
  {
    var taken := Known(known.ids[MetricText(sample.metric) := known.next], known.next + 1, known.labelRows);
    assert [sample, sample][1..] == [sample];
    AbsorbKnownSeries(taken, sample);
    var rows := [OriginOf(known.next, sample)];
    assert [] + rows == rows;
  }

  /* ---- states that runs from an empty database reach ---- */

  const EMPTY := Tables([], multiset{})

  ghost predicate FromScratch(setting: Setting, s: State) { Reaches(setting, Down(EMPTY), s) }

  /** At rest: every parser idle, the mutex free, no save under way. */
  ghost predicate AtRest(setting: Setting, s: State) {
    && s.memory.Some? && s.memory.value.mutex.None? && s.memory.value.saver.Resting?
    && s.memory.value.parsers == seq(setting.parsers, _ => Parser(Idle, [], []))
  }

  lemma StartReaches(setting: Setting, s: State)
    requires s.memory.None?
    ensures Reaches(setting, s, With(s, Started(setting, s.tables.labels)))
    ensures AtRest(setting, With(s, Started(setting, s.tables.labels)))
  {
    ReachesNext(setting, s, Start);
  }

  /** A value row whose id is the next one a restarted adapter will hand out, while `other` is a series
      neither stored nor the row's own. */
  ghost predicate Orphan(tables: Tables, origin: Origin, other: Metric) {
    && origin in tables.values
    && origin.row.id == MaxId(tables.labels) + 1
    && LabelsOf(origin.sample.metric) != LabelsOf(other)
    && DistinctTexts(tables.labels)
    && forall i :: 0 <= i < |tables.labels| ==>
         tables.labels[i].labels != LabelsOf(other) && tables.labels[i].text != MetricText(other)
  }

  lemma OrphanUnbacked(tables: Tables, origin: Origin, other: Metric)
    requires Orphan(tables, origin, other)
    ensures !Sound(tables)
  {
    MaxIdBounds(tables.labels);
    assert !Backed(tables.labels, origin);
  }

  lemma InsertOne(labels: seq<LabelRow>, row: LabelRow)
    requires !Refuses(labels, row)
    ensures InsertAll(labels, [row]) == labels + [row]
  {
    assert [row][1..] == [];
    assert InsertAll(labels + [row], []) == labels + [row];
  }

  lemma NewRowIsAccepted(labels: seq<LabelRow>, row: LabelRow)
    requires row.id == MaxId(labels) + 1
    requires forall i :: 0 <= i < |labels| ==> labels[i].labels != row.labels && labels[i].text != row.text
    ensures InsertAll(labels, [row]) == labels + [row]
  {
    MaxIdBounds(labels);
    assert forall i :: 0 <= i < |labels| ==> !Conflicts(labels[i], row);
    InsertOne(labels, row);
  }

  ghost function Appended(ledger: Ledger, rows: seq<Origin>): Ledger {
    ledger.(appended := ledger.appended + multiset(rows))
  }

  /** An idle parser takes one sample of a series it knows nothing of. */
  lemma NewSeriesReaches(setting: Setting, s: State, sample: Sample)
    requires setting.parsers >= 1 && AtRest(setting, s) && Decodable(sample.metric)
    requires MetricText(sample.metric) !in s.memory.value.ids
    ensures var memory := s.memory.value;
            var rows := [OriginOf(memory.next, sample)];
            var learnt := Learnt(memory, Taught(KnownOf(memory), sample.metric));
            Reaches(setting, s,
                    With(s, learnt.(valueRows := memory.valueRows + rows)).(ledger := Appended(s.ledger, rows)))
  {
    AbsorbNewSeries(KnownOf(s.memory.value), sample);
    BatchReaches(setting, s, 0, [sample]);
  }

  lemma KnownSeriesReaches(setting: Setting, s: State, p: nat, sample: Sample)
    requires Undisturbed(setting, s, p) && s.memory.value.saver.Resting? &&
             s.memory.value.parsers[p] == Parser(Idle, [], [])
    requires Decodable(sample.metric) && MetricText(sample.metric) in s.memory.value.ids
    ensures var memory := s.memory.value;
            var rows := [OriginOf(memory.ids[MetricText(sample.metric)], sample)];
            Reaches(setting, s,
                    With(s, memory.(valueRows := memory.valueRows + rows)).(ledger := Appended(s.ledger, rows)))
  {
    AbsorbKnownSeries(KnownOf(s.memory.value), sample);
    BatchReaches(setting, s, p, [sample]);
  }

  ghost predicate BuffersEmpty(s: State) {
    s.memory.Some? && s.memory.value.labelRows == [] && s.memory.value.valueRows == []
  }

  /** A new series comes in and is saved. */
  lemma NewSeriesSaved(setting: Setting, s: State, sample: Sample)
    returns (t: State)
    requires setting.parsers >= 1 && AtRest(setting, s) && BuffersEmpty(s) && Decodable(sample.metric)
    requires MetricText(sample.metric) !in s.memory.value.ids
    ensures Reaches(setting, s, t) && AtRest(setting, t) && BuffersEmpty(t)
    ensures var id := s.memory.value.next;
            && t.tables == Tables(InsertAll(s.tables.labels, [RowFor(id, sample.metric, MetricText(sample.metric))]),
                                  s.tables.values + multiset([OriginOf(id, sample)]))
            && t.memory.value.ids == s.memory.value.ids[MetricText(sample.metric) := id]
            && t.memory.value.next == id + 1
  {
    var memory := s.memory.value;
    var rows := [OriginOf(memory.next, sample)];
    NewSeriesReaches(setting, s, sample);
    var learnt := Learnt(memory, Taught(KnownOf(memory), sample.metric));
    var full := With(s, learnt.(valueRows := memory.valueRows + rows)).(ledger := Appended(s.ledger, rows));
    SaveSucceeds(setting, full);
    var row := RowFor(memory.next, sample.metric, MetricText(sample.metric));
    assert [] + [row] == [row] && [] + rows == rows;
    t := State(Tables(InsertAll(s.tables.labels, [row]), s.tables.values + multiset(rows)),
               Some(full.memory.value.(labelRows := [], valueRows := [])), full.ledger);
    ReachesOn(setting, s, full, t);
  }

  /** A known series comes in and is saved, without a label row. */
  lemma KnownSeriesSaved(setting: Setting, s: State, sample: Sample)
    returns (t: State)
    requires setting.parsers >= 1 && AtRest(setting, s) && BuffersEmpty(s) && Decodable(sample.metric)
    requires MetricText(sample.metric) in s.memory.value.ids
    ensures Reaches(setting, s, t) && t.memory.Some?
    ensures var id := s.memory.value.ids[MetricText(sample.metric)];
            t.tables == Tables(s.tables.labels, s.tables.values + multiset([OriginOf(id, sample)]))
  {
    var memory := s.memory.value;
    var rows := [OriginOf(memory.ids[MetricText(sample.metric)], sample)];
    KnownSeriesReaches(setting, s, 0, sample);
    var full := With(s, memory.(valueRows := memory.valueRows + rows)).(ledger := Appended(s.ledger, rows));
    SaveSucceeds(setting, full);
    assert [] + rows == rows;
    t := State(Tables(s.tables.labels, s.tables.values + multiset(rows)),
               Some(full.memory.value.(labelRows := [], valueRows := [])), full.ledger);
    ReachesOn(setting, s, full, t);
  }

  lemma RestartReaches(setting: Setting, s: State) returns (t: State)
    requires s.memory.Some?
    ensures Reaches(setting, s, t) && AtRest(setting, t) && BuffersEmpty(t) && t.tables == s.tables
    ensures t.memory.value.ids == Registered(s.tables.labels) && t.memory.value.next == MaxId(s.tables.labels) + 1
  {
    var down := Next(setting, s, Crash);
    ReachesNext(setting, s, Crash);
    t := With(down, Started(setting, down.tables.labels));
    StartReaches(setting, down);
    ReachesOn(setting, s, down, t);
  }

  /** After a restart the orphan's id goes to the next new series, which then answers for its sample. */
  lemma OrphanIsAdopted(setting: Setting, s: State, origin: Origin, other: Sample) returns (t: State)
    requires setting.parsers >= 1 && s.memory.Some? && Orphan(s.tables, origin, other.metric) && Decodable(other.metric)
    ensures Reaches(setting, s, t) && !Faithful(t.tables)
  {
    var labels := s.tables.labels;
    var up := RestartReaches(setting, s);
    RegisteredExactly(labels);
    t := NewSeriesSaved(setting, up, other);
    ReachesOn(setting, s, up, t);
    var row := RowFor(MaxId(labels) + 1, other.metric, MetricText(other.metric));
    NewRowIsAccepted(labels, row);
    assert origin in t.tables.values && t.tables.labels[|labels|] == row;
  }

  /* ---- one orphan per unsafe setting ---- */

  lemma FirstStart(setting: Setting) returns (s: State)
    ensures FromScratch(setting, s) && AtRest(setting, s) && BuffersEmpty(s) && s.tables == EMPTY
    ensures s.memory.value.ids == map[] && s.memory.value.next == 1
  {
    s := With(Down(EMPTY), Started(setting, []));
    StartReaches(setting, Down(EMPTY));
  }

  lemma OnlyValue(origin: Origin, other: Metric)
    requires origin.row.id == 1 && LabelsOf(origin.sample.metric) != LabelsOf(other)
    ensures Orphan(Tables([], multiset{} + multiset([origin])), origin, other)
  {
    assert origin in multiset([origin]);
  }

  /** A single value row is saved with no label row to go with it. */
  lemma LoneValueSaved(setting: Setting, s: State, origin: Origin, other: Metric) returns (t: State)
    requires FromScratch(setting, s) && s.tables == EMPTY && s.memory.Some?
    requires s.memory.value.saver.Resting? && s.memory.value.labelRows == [] && s.memory.value.valueRows == [origin]
    requires origin.row.id == 1 && LabelsOf(origin.sample.metric) != LabelsOf(other)
    ensures FromScratch(setting, t) && t.memory.Some? && Orphan(t.tables, origin, other)
  {
    SaveSucceeds(setting, s);
    t := State(Tables([], multiset{} + multiset([origin])), Some(s.memory.value.(labelRows := [], valueRows := [])),
               s.ledger);
    OnlyValue(origin, other);
    ReachesOn(setting, Down(EMPTY), s, t);
  }

  lemma RefusedTwiceReaches(setting: Setting, s: State, sample: Sample) returns (t: State)
    requires setting.parsers >= 1 && AtRest(setting, s) && setting.unsafeValues && PlainNames(sample.metric)
    requires Decode(MetricText(sample.metric)) == Refused && MetricText(sample.metric) !in s.memory.value.ids
    ensures Reaches(setting, s, t) && t.tables == s.tables && t.memory.Some?
    ensures t.memory.value.saver.Resting? && t.memory.value.labelRows == s.memory.value.labelRows
    ensures t.memory.value.valueRows == s.memory.value.valueRows + [OriginOf(s.memory.value.next, sample)]
  {
    var memory := s.memory.value;
    var batch := [sample, sample];
    AbsorbRefusedTwice(KnownOf(memory), sample);
    BatchReaches(setting, s, 0, batch);
    var absorbed := AbsorbAll(KnownOf(memory), batch);
    t := With(s, Learnt(memory, absorbed.known).(valueRows := memory.valueRows + absorbed.rows)).(
      ledger := Appended(s.ledger, absorbed.rows));
  }

  lemma RefusedOrphan(setting: Setting, sample: Sample, other: Metric) returns (s: State, origin: Origin)
    requires setting.parsers >= 1 && setting.unsafeValues && PlainNames(sample.metric)
    requires Decode(MetricText(sample.metric)) == Refused && LabelsOf(sample.metric) != LabelsOf(other)
    ensures FromScratch(setting, s) && s.memory.Some? && Orphan(s.tables, origin, other)
  {
    var start := FirstStart(setting);
    origin := OriginOf(1, sample);
    var full := RefusedTwiceReaches(setting, start, sample);
    assert [] + [origin] == [origin];
    ReachesOn(setting, Down(EMPTY), start, full);
    s := LoneValueSaved(setting, full, origin, other);
  }

  /** A series whose text is refused gets an id and no label row; its second sample is stored all the same. */
  lemma UnsafeValueOrphan(setting: Setting, cast: Cast) returns (s: State, origin: Origin)
    requires setting.parsers >= 1 && setting.unsafeValues && cast.Valid()
    ensures FromScratch(setting, s) && s.memory.Some? && Orphan(s.tables, origin, cast.other.metric)
  {
    s, origin := RefusedOrphan(setting, cast.refused, cast.other.metric);
  }

  /** A failed label insert drops the label row for good: the map still knows the text. */
  lemma LabelFaultOrphan(setting: Setting, cast: Cast) returns (s: State, origin: Origin)
    requires setting.parsers >= 1 && setting.labelFaults && cast.Valid()
    ensures FromScratch(setting, s) && s.memory.Some? && Orphan(s.tables, origin, cast.other.metric)
  {
    var start := FirstStart(setting);
    var memory := start.memory.value;
    origin := OriginOf(1, cast.first);
    NewSeriesReaches(setting, start, cast.first);
    var learnt := Learnt(memory, Taught(KnownOf(memory), cast.first.metric));
    var full :=
      With(start, learnt.(valueRows := memory.valueRows + [origin])).(ledger := Appended(start.ledger, [origin]));
    FirstLabelFails(setting, full);
    var dropped := State(full.tables, Some(full.memory.value.(labelRows := [], valueRows := [])),
                         full.ledger.(failed := full.ledger.failed + multiset(full.memory.value.valueRows)));
    s := KnownSeriesSaved(setting, dropped, cast.first);
    OnlyValue(origin, cast.other.metric);
    ReachesOn(setting, Down(EMPTY), start, full);
    ReachesOn(setting, Down(EMPTY), full, dropped);
    ReachesOn(setting, Down(EMPTY), dropped, s);
  }

  /** A save that has copied the label row of one series, and nothing else yet. */
  ghost predicate MidSave(setting: Setting, s: State, row: LabelRow, first: Origin) {
    && s.memory.Some? && s.tables == EMPTY
    && var memory := s.memory.value;
       && memory.saver == LabelsCopied([row]) && memory.mutex.None?
       && memory.ids == map[row.text := 1] && memory.next == 2
       && memory.labelRows == [row] && memory.valueRows == [first]
       && memory.parsers == seq(setting.parsers, _ => Parser(Idle, [], []))
  }

  lemma MidSaveReached(setting: Setting, sample: Sample) returns (s: State)
    requires setting.parsers >= 1 && Decodable(sample.metric)
    ensures FromScratch(setting, s)
    ensures MidSave(setting, s, RowFor(1, sample.metric, MetricText(sample.metric)), OriginOf(1, sample))
  {
    var start := FirstStart(setting);
    var memory := start.memory.value;
    var first, row := OriginOf(1, sample), RowFor(1, sample.metric, MetricText(sample.metric));
    NewSeriesReaches(setting, start, sample);
    assert [] + [row] == [row] && [] + [first] == [first];
    var one := With(start, memory.(ids := map[row.text := 1], next := 2, labelRows := [row], valueRows := [first])).(
      ledger := Appended(start.ledger, [first]));
    assert Reaches(setting, start, one);
    s := Next(setting, one, Tick);
    ReachesNext(setting, one, Tick);
    ReachesOn(setting, Down(EMPTY), start, one);
    ReachesOn(setting, Down(EMPTY), one, s);
  }

  /** With overlap, a second series comes in between the two copies, and the save goes on. */
  lemma LateSeriesReached(setting: Setting, s: State, row: LabelRow, first: Origin, late: Sample) returns (t: State)
    requires setting.parsers >= 1 && setting.overlap && MidSave(setting, s, row, first)
    requires Decodable(late.metric) && MetricText(late.metric) != row.text
    ensures Reaches(setting, s, t) && t.memory.Some?
    ensures t.tables == Tables(InsertAll([], [row]), multiset{} + multiset([first] + [OriginOf(2, late)]))
  {
    var memory := s.memory.value;
    var origin := OriginOf(2, late);
    AbsorbNewSeries(KnownOf(memory), late);
    BatchReaches(setting, s, 0, [late]);
    var two := With(s, Learnt(memory, Taught(KnownOf(memory), late.metric)).(valueRows := [first] + [origin])).(
      ledger := Appended(s.ledger, [origin]));
    assert Reaches(setting, s, two);
    CopiedSucceeds(setting, two);
    t := State(Tables(InsertAll([], [row]), multiset{} + multiset([first] + [origin])),
               Some(two.memory.value.(labelRows := [], valueRows := [], saver := Resting)), two.ledger);
    ReachesOn(setting, s, two, t);
  }

  lemma LateValueIsOrphan(row: LabelRow, first: Origin, origin: Origin, other: Metric)
    requires row.id == 1 && origin.row.id == 2 && LabelsOf(origin.sample.metric) != LabelsOf(other)
    requires row.labels != LabelsOf(other) && row.text != MetricText(other)
    ensures Orphan(Tables(InsertAll([], [row]), multiset{} + multiset([first] + [origin])), origin, other)
  {
    InsertOne([], row);
    assert [] + [row] == [row] && [row][..0] == [];
    assert MaxId([row]) == Timestamps.Max(MaxId([row][..0]), 1) == 1;
    assert ([first] + [origin])[1] == origin;
  }

  /** A label row that arrives after the labels were copied, with its value before the values were. */
  lemma OverlapOrphan(setting: Setting, cast: Cast) returns (s: State, origin: Origin)
    requires setting.parsers >= 1 && setting.overlap && cast.Valid()
    ensures FromScratch(setting, s) && s.memory.Some? && Orphan(s.tables, origin, cast.other.metric)
  {
    var row := RowFor(1, cast.first.metric, MetricText(cast.first.metric));
    var ticking := MidSaveReached(setting, cast.first);
    s := LateSeriesReached(setting, ticking, row, OriginOf(1, cast.first), cast.second);
    ReachesOn(setting, Down(EMPTY), ticking, s);
    origin := OriginOf(2, cast.second);
    LateValueIsOrphan(row, OriginOf(1, cast.first), origin, cast.other.metric);
  }

  /** Parser 0 has published an id for a new series and buffered nothing yet. */
  lemma PublishedReached(setting: Setting, sample: Sample) returns (s: State)
    requires setting.parsers >= 2 && Decodable(sample.metric)
    ensures FromScratch(setting, s) && s.tables == EMPTY && Undisturbed(setting, s, 1)
    ensures var memory := s.memory.value;
            && memory.ids == map[MetricText(sample.metric) := 1] && memory.labelRows == [] && memory.valueRows == []
            && memory.saver.Resting? && memory.parsers[1] == Parser(Idle, [], [])
  {
    var start := FirstStart(setting);
    var memory := start.memory.value;
    var text := MetricText(sample.metric);
    var pushed := Next(setting, start, Push(0, [sample]));
    ReachesNext(setting, start, Push(0, [sample]));
    ReachesAnnouncing(setting, pushed, 0);
    var parser := Parser(Announcing(1), [sample], []);
    s := With(pushed, memory.(parsers := memory.parsers[0 := parser], ids := memory.ids[text := 1], next := 2));
    assert pushed.memory.value.parsers[0 := parser] == memory.parsers[0 := parser];
    assert Reaches(setting, pushed, s);
    ReachesOn(setting, Down(EMPTY), start, pushed);
    ReachesOn(setting, Down(EMPTY), pushed, s);
  }

  /** A second parser finds the id the first has published, and its sample is saved before the first
      parser has buffered the label row. */
  lemma RaceOrphan(setting: Setting, sample: Sample, other: Metric) returns (s: State, origin: Origin)
    requires setting.parsers >= 2 && Decodable(sample.metric) && LabelsOf(sample.metric) != LabelsOf(other)
    ensures FromScratch(setting, s) && s.memory.Some? && Orphan(s.tables, origin, other)
  {
    var published := PublishedReached(setting, sample);
    var memory := published.memory.value;
    origin := OriginOf(1, sample);
    KnownSeriesReaches(setting, published, 1, sample);
    var rows := [OriginOf(memory.ids[MetricText(sample.metric)], sample)];
    var full := With(published, memory.(valueRows := memory.valueRows + rows)).(
      ledger := Appended(published.ledger, rows));
    ReachesOn(setting, Down(EMPTY), published, full);
    assert [] + rows == [origin];
    s := LoneValueSaved(setting, full, origin, other);
  }

  lemma UnsafeSettingOrphan(setting: Setting, cast: Cast) returns (s: State, origin: Origin)
    requires !SafeSetting(setting) && cast.Valid()
    ensures FromScratch(setting, s) && s.memory.Some? && Orphan(s.tables, origin, cast.other.metric)
  {
    if setting.unsafeValues {
      s, origin := UnsafeValueOrphan(setting, cast);
    } else if setting.labelFaults {
      s, origin := LabelFaultOrphan(setting, cast);
    } else if setting.overlap {
      s, origin := OverlapOrphan(setting, cast);
    } else {
      s, origin := RaceOrphan(setting, cast.first, cast.other.metric);
    }
  }

  /* ---- the theorem ---- */

  lemma SafeSettingsStaySound(setting: Setting, tables: Tables, events: seq<Event>)
    requires SafeSetting(setting) && TablesOk(tables.labels) && Sound(tables) && Runs(setting, Down(tables), events)
    ensures Good(setting, After(setting, Down(tables), events))
  {
    RunGood(setting, Down(tables), events);
  }

  lemma SafeIsSoundAndFaithful(setting: Setting, tables: Tables, events: seq<Event>)
    requires SafeSetting(setting) && TablesOk(tables.labels) && Sound(tables) && Runs(setting, Down(tables), events)
    ensures Sound(After(setting, Down(tables), events).tables) && Faithful(After(setting, Down(tables), events).tables)
  {
    SafeSettingsStaySound(setting, tables, events);
    SoundIsFaithful(After(setting, Down(tables), events).tables);
  }

  lemma EmptyIsTruthful()
    ensures TablesOk(EMPTY.labels) && Sound(EMPTY)
  {
  }

  lemma ReachedSound(setting: Setting, s: State)
    requires FromScratch(setting, s) && AlwaysSound(setting)
    ensures Sound(s.tables)
  {
    EmptyIsTruthful();
    var events :| Runs(setting, Down(EMPTY), events) && After(setting, Down(EMPTY), events) == s;
  }

  lemma ReachedFaithful(setting: Setting, s: State)
    requires FromScratch(setting, s) && AlwaysFaithful(setting)
    ensures Faithful(s.tables)
  {
    EmptyIsTruthful();
    var events :| Runs(setting, Down(EMPTY), events) && After(setting, Down(EMPTY), events) == s;
  }

  lemma UnsafeLies(setting: Setting)
    requires !SafeSetting(setting)
    ensures !AlwaysSound(setting) && !AlwaysFaithful(setting)
  {
    CastIsValid();
    var s, origin := UnsafeSettingOrphan(setting, CAST);
    OrphanUnbacked(s.tables, origin, CAST.other.metric);
    var t := OrphanIsAdopted(setting, s, origin, CAST.other);
    ReachesOn(setting, Down(EMPTY), s, t);
    if AlwaysSound(setting) {
      ReachedSound(setting, s);
    }
    if AlwaysFaithful(setting) {
      ReachedFaithful(setting, t);
    }
  }

  /** Whatever the parsers, the saver, crashes and restarts do: the stored samples keep their label rows, and
      no stored sample is ever served under another series, exactly in the safe settings. */
  lemma SafeSettingsExactly(setting: Setting)
    ensures SafeSetting(setting) <==> AlwaysSound(setting)
    ensures SafeSetting(setting) <==> AlwaysFaithful(setting)
  {
    if SafeSetting(setting) {
      forall tables: Tables, events: seq<Event> |
        TablesOk(tables.labels) && Sound(tables) && Runs(setting, Down(tables), events)
        ensures Sound(After(setting, Down(tables), events).tables) &&
                Faithful(After(setting, Down(tables), events).tables)
      {
        SafeIsSoundAndFaithful(setting, tables, events);
      }
    } else {
      UnsafeLies(setting);
    }
  }
}
