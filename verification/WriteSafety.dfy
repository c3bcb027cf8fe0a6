/** When the tables stay truthful: exactly in the settings where one parser works, saves and appends do not
    overlap, label inserts succeed and every label value prints as JSON. */
module WriteSafety {
  import opened Text
  import opened MetricString
  import opened WritePath
  import opened WriteInvariant

  predicate SafeSetting(setting: Setting) {
    setting.parsers == 0 || (setting.parsers == 1 && !setting.overlap && !setting.labelFaults && !setting.unsafeValues)
  }

  /* ---- what one careful parser keeps ---- */

  ghost predicate Secured(labels: seq<LabelRow>, memory: Memory, text: string) {
    text in Texts(labels) || text in Texts(memory.labelRows)
  }

  ghost predicate OriginSecured(labels: seq<LabelRow>, memory: Memory, origin: Origin) {
    SafeValues(LabelsOf(origin.sample.metric)) && Secured(labels, memory, MetricText(origin.sample.metric))
  }

  ghost predicate OriginsSecured(labels: seq<LabelRow>, memory: Memory, origins: seq<Origin>) {
    forall i :: 0 <= i < |origins| ==> OriginSecured(labels, memory, origins[i])
  }

  /** Every text with an id has its label row in the table or the buffer, or in the hands of the parser
      that is about to buffer it. */
  ghost predicate IdsSecured(labels: seq<LabelRow>, memory: Memory) {
    forall text :: text in memory.ids ==> Secured(labels, memory, text) || FreshText(memory, 0, text)
  }

  ghost predicate SaverInStep(labels: seq<LabelRow>, memory: Memory) {
    match memory.saver
    case Resting => true
    case LabelsCopied(rows) => rows == memory.labelRows
    case Writing(rows, values) => Texts(memory.labelRows) <= Texts(labels) + Texts(rows) && values == memory.valueRows
    case DroppingLabels => Texts(memory.labelRows) <= Texts(labels)
    case DroppingValues => true
  }

  ghost predicate ParserSecured(labels: seq<LabelRow>, memory: Memory, parser: Parser) {
    && OriginsSecured(labels, memory, parser.parsed)
    && (NeedsSample(parser.phase) ==> parser.batch != [])
    && ((parser.phase.Found? || (parser.phase.Releasing? && !parser.phase.isNew)) ==>
          Secured(labels, memory, HeadText(parser)))
  }

  ghost predicate Careful(labels: seq<LabelRow>, memory: Memory) {
    && |memory.parsers| <= 1
    && IdsSecured(labels, memory)
    && (|memory.parsers| == 1 ==> ParserSecured(labels, memory, memory.parsers[0]))
    && (|memory.parsers| == 0 ==> memory.valueRows == [] && memory.saver.Resting?)
    && OriginsSecured(labels, memory, memory.valueRows)
    && SaverInStep(labels, memory)
  }

  ghost predicate Good(setting: Setting, s: State) {
    Ok(setting, s) && Sound(s.tables) && (s.memory.Some? ==> Careful(s.tables.labels, s.memory.value))
  }

  /** A secured text is a printed series: the label row says the very metric. */
  lemma StoredTextBacks(labels: seq<LabelRow>, ids: map<string, int>, origin: Origin)
    requires TablesOk(labels) && RowsOk(ids, labels) && OriginOk(ids, origin)
    requires MetricText(origin.sample.metric) in Texts(labels)
    ensures Backed(labels, origin)
  {
    var text := MetricText(origin.sample.metric);
    var i :| 0 <= i < |labels| && labels[i].text == text;
    assert Canonical(labels[i]) && Maps(ids, labels[i].text, labels[i].id);
    SeriesTextIdentifies(labels[i].name, labels[i].labels, origin.sample.metric);
  }

  lemma SeriesTextIdentifies(name: string, labels: map<string, string>, metric: Metric)
    requires '{' !in name && forall key :: key in labels ==> PlainLabelName(key)
    requires PlainNames(metric) && MetricText(metric) == SeriesText(name, labels)
    ensures name == NameOf(metric) && labels == LabelsOf(metric)
  {
    assert SeriesText(name, labels)[|name|] == '{';
    BracesTellBare(metric);
    SeriesTextApart(name, labels, NameOf(metric), LabelsOf(metric));
  }

  lemma SecuredStays(labels: seq<LabelRow>, memory: Memory, labels': seq<LabelRow>, memory': Memory,
          origins: seq<Origin>)
    requires Texts(labels) + Texts(memory.labelRows) <= Texts(labels') + Texts(memory'.labelRows)
    requires OriginsSecured(labels, memory, origins)
    ensures OriginsSecured(labels', memory', origins)
  {
    forall i | 0 <= i < |origins|
      ensures OriginSecured(labels', memory', origins[i])
    {
      assert OriginSecured(labels, memory, origins[i]);
    }
  }

  /* ---- steps of the parser ---- */

  lemma AnnouncedCareful(setting: Setting, labels: seq<LabelRow>, memory: Memory, id: int, text: string,
          decoded: Decoded)
    requires setting.parsers == 1 && !setting.overlap && memory.saver.Resting?
    requires MemoryOk(setting, labels, memory) && Careful(labels, memory)
    requires memory.parsers[0].phase == Announcing(id) && text == HeadText(memory.parsers[0]) && decoded.Series?
    ensures Careful(labels, Announced(memory, 0, id, text, decoded).value)
  {
    var after := Announced(memory, 0, id, text, decoded).value;
    var row := LabelRow(id, decoded.name, text, decoded.labels);
    TextsOfMore(memory.labelRows, row);
    SecuredStays(labels, memory, labels, after, memory.valueRows);
    SecuredStays(labels, memory, labels, after, memory.parsers[0].parsed);
    forall t | t in after.ids
      ensures Secured(labels, after, t) || FreshText(after, 0, t)
    {
      assert Secured(labels, memory, t) || FreshText(memory, 0, t);
    }
  }

  lemma QuietStepCareful(setting: Setting, labels: seq<LabelRow>, memory: Memory)
    requires SafeSetting(setting) && setting.parsers == 1
    requires MemoryOk(setting, labels, memory) && Careful(labels, memory) && CanParse(setting, memory, 0)
    requires memory.parsers[0].phase.Loading? || memory.parsers[0].phase.Waiting? || memory.parsers[0].phase.Rechecking?
    ensures Careful(labels, ParseNext(memory, 0).value)
  {
    var after := ParseNext(memory, 0).value;
    assert ParserOk(setting, memory.ids, memory.next, memory.parsers[0]);
    SecuredStays(labels, memory, labels, after, memory.valueRows);
    SecuredStays(labels, memory, labels, after, memory.parsers[0].parsed);
    forall text | text in memory.ids
      ensures Secured(labels, memory, text)
    {
      assert !FreshText(memory, 0, text);
    }
  }

  lemma LockedStepCareful(setting: Setting, labels: seq<LabelRow>, memory: Memory)
    requires SafeSetting(setting) && setting.parsers == 1
    requires MemoryOk(setting, labels, memory) && Careful(labels, memory) && CanParse(setting, memory, 0)
    requires memory.parsers[0].phase.Taken? || memory.parsers[0].phase.Releasing?
    ensures Careful(labels, ParseNext(memory, 0).value)
  {
    var after := ParseNext(memory, 0).value;
    assert ParserOk(setting, memory.ids, memory.next, memory.parsers[0]);
    SecuredStays(labels, memory, labels, after, memory.valueRows);
    SecuredStays(labels, memory, labels, after, memory.parsers[0].parsed);
    forall text | text in after.ids
      ensures Secured(labels, after, text) || FreshText(after, 0, text)
    {
      if text in memory.ids && FreshText(memory, 0, text) {
        assert FreshText(after, 0, text);
      }
    }
  }

  lemma OneMoreSecured(labels: seq<LabelRow>, memory: Memory, origins: seq<Origin>, origin: Origin)
    requires OriginsSecured(labels, memory, origins) && OriginSecured(labels, memory, origin)
    ensures OriginsSecured(labels, memory, origins + [origin])
  {
  }

  /** Between announcements, a change to the parser alone leaves every id secured. */
  lemma IdsStaySecured(labels: seq<LabelRow>, memory: Memory, after: Memory)
    requires IdsSecured(labels, memory) && (forall text :: !FreshText(memory, 0, text))
    requires after.ids == memory.ids && after.labelRows == memory.labelRows
    ensures IdsSecured(labels, after)
  {
  }

  lemma KeptRowCareful(labels: seq<LabelRow>, memory: Memory, after: Memory, parser: Parser)
    requires Careful(labels, memory) && |memory.parsers| == 1 && (forall text :: !FreshText(memory, 0, text))
    requires after == memory.(parsers := [parser]) && parser.phase == Loading
    requires OriginsSecured(labels, memory, parser.parsed)
    ensures Careful(labels, after)
  {
    SecuredStays(labels, memory, labels, after, parser.parsed);
    SecuredStays(labels, memory, labels, after, memory.valueRows);
    IdsStaySecured(labels, memory, after);
  }

  lemma HeadSecured(setting: Setting, labels: seq<LabelRow>, memory: Memory, id: int)
    requires SafeSetting(setting) && setting.parsers == 1 && ParsersOk(setting, memory) && Careful(labels, memory)
    requires memory.parsers[0].phase == Found(id)
    ensures memory.parsers[0].batch != []
    ensures OriginSecured(labels, memory, OriginOf(id, memory.parsers[0].batch[0]))
  {
    HeadPlain(setting, memory, 0);
  }

  lemma FoundNext(memory: Memory, id: int)
    requires |memory.parsers| == 1 && memory.parsers[0].phase == Found(id) && memory.parsers[0].batch != []
    ensures var parser := memory.parsers[0];
            var kept := Parser(Loading, parser.batch[1..], parser.parsed + [OriginOf(id, parser.batch[0])]);
            ParseNext(memory, 0) == Some(memory.(parsers := [kept]))
  {
    var parser := memory.parsers[0];
    var kept := Parser(Loading, parser.batch[1..], parser.parsed + [OriginOf(id, parser.batch[0])]);
    assert memory.parsers[0 := kept] == [kept];
  }

  lemma FoundStepCareful(setting: Setting, labels: seq<LabelRow>, memory: Memory, id: int)
    requires SafeSetting(setting) && setting.parsers == 1 && ParsersOk(setting, memory) && Careful(labels, memory)
    requires memory.parsers[0].phase == Found(id) && memory.parsers[0].batch != []
    ensures Careful(labels, ParseNext(memory, 0).value)
  {
    var parser := memory.parsers[0];
    HeadSecured(setting, labels, memory, id);
    OneMoreSecured(labels, memory, parser.parsed, OriginOf(id, parser.batch[0]));
    var kept := Parser(Loading, parser.batch[1..], parser.parsed + [OriginOf(id, parser.batch[0])]);
    KeptRowCareful(labels, memory, memory.(parsers := [kept]), kept);
    FoundNext(memory, id);
  }

  lemma ParseCareful(setting: Setting, labels: seq<LabelRow>, memory: Memory, p: nat)
    requires SafeSetting(setting) && MemoryOk(setting, labels, memory) && Careful(labels, memory)
    requires CanParse(setting, memory, p) && ParseNext(memory, p).Some?
    ensures Careful(labels, ParseNext(memory, p).value)
  {
    assert p == 0 && setting.parsers == 1;
    var parser := memory.parsers[0];
    if parser.phase.Announcing? {
      HeadPlain(setting, memory, 0);
      DecodeExact(parser.batch[0].metric);
      AnnouncedCareful(setting, labels, memory, parser.phase.id, HeadText(parser), Decode(HeadText(parser)));
    } else if parser.phase.Found? {
      FoundStepCareful(setting, labels, memory, parser.phase.id);
    } else if parser.phase.Taken? || parser.phase.Releasing? {
      LockedStepCareful(setting, labels, memory);
    } else {
      QuietStepCareful(setting, labels, memory);
    }
  }

  /* ---- steps of the saver ---- */

  lemma InsertInStep(labels: seq<LabelRow>, memory: Memory, after: Memory)
    requires memory.saver.Writing? && memory.saver.labels != [] && SaverInStep(labels, memory)
    requires after == memory.(saver := Writing(memory.saver.labels[1..], memory.saver.values))
    ensures SaverInStep(labels + [memory.saver.labels[0]], after)
    ensures Texts(labels) <= Texts(labels + [memory.saver.labels[0]])
  {
    TextsOfMore(labels, memory.saver.labels[0]);
    FirstText(memory.saver.labels);
  }

  lemma IdsSecuredByMore(labels: seq<LabelRow>, memory: Memory, labels': seq<LabelRow>, after: Memory)
    requires IdsSecured(labels, memory) &&
             Texts(labels) + Texts(memory.labelRows) <= Texts(labels') + Texts(after.labelRows)
    requires after.ids == memory.ids && after.parsers == memory.parsers
    ensures IdsSecured(labels', after)
  {
    forall text | text in after.ids
      ensures Secured(labels', after, text) || FreshText(after, 0, text)
    {
      assert Secured(labels, memory, text) || FreshText(memory, 0, text);
    }
  }

  lemma InsertCareful(setting: Setting, labels: seq<LabelRow>, memory: Memory)
    requires TablesOk(labels) && MemoryOk(setting, labels, memory) && Careful(labels, memory)
    requires memory.saver.Writing? && memory.saver.labels != []
    ensures Careful(Insert(labels, memory.saver.labels[0]),
                    memory.(saver := Writing(memory.saver.labels[1..], memory.saver.values)))
  {
    var after := memory.(saver := Writing(memory.saver.labels[1..], memory.saver.values));
    ComingRowIsNew(setting, labels, memory);
    var labels' := labels + [memory.saver.labels[0]];
    InsertInStep(labels, memory, after);
    IdsSecuredByMore(labels, memory, labels', after);
    SecuredStays(labels, memory, labels', after, memory.valueRows);
    SecuredStays(labels, memory, labels', after, memory.parsers[0].parsed);
  }

  lemma FirstText(rows: seq<LabelRow>)
    requires rows != []
    ensures Texts(rows) <= {rows[0].text} + Texts(rows[1..])
  {
    forall i | 0 < i < |rows|
      ensures rows[i].text in Texts(rows[1..])
    {
      assert rows[1..][i - 1] == rows[i];
    }
  }

  lemma BackedStays(labels: seq<LabelRow>, row: LabelRow, origin: Origin)
    requires Backed(labels, origin)
    ensures Backed(labels + [row], origin)
  {
    var i :|
      0 <= i < |labels| && labels[i].id == origin.row.id && labels[i].name == NameOf(origin.sample.metric) &&
      labels[i].labels == LabelsOf(origin.sample.metric);
    assert (labels + [row])[i] == labels[i];
  }

  /** The copied values go in after the labels, and so find them there. */
  lemma ValuesLand(setting: Setting, s: State)
    requires SafeSetting(setting) && Good(setting, s) && s.memory.Some?
    requires s.memory.value.saver.Writing? && s.memory.value.saver.labels == []
    ensures Good(setting, SaveNext(s, false))
  {
    var memory, labels := s.memory.value, s.tables.labels;
    SaveKeeps(setting, s, false);
    var t := SaveNext(s, false);
    SecuredStays(labels, memory, labels, t.memory.value, memory.valueRows);
    SecuredStays(labels, memory, labels, t.memory.value, memory.parsers[0].parsed);
    assert IdsSecured(labels, t.memory.value) by {
      forall text | text in memory.ids
        ensures Secured(labels, t.memory.value, text) || FreshText(t.memory.value, 0, text)
      {
        assert Secured(labels, memory, text) || FreshText(memory, 0, text);
      }
    }
    forall origin | origin in t.tables.values
      ensures Backed(labels, origin)
    {
      if origin !in s.tables.values {
        assert origin in multiset(memory.saver.values);
        var i :| 0 <= i < |memory.valueRows| && memory.valueRows[i] == origin;
        assert OriginSecured(labels, memory, origin) && OriginOk(memory.ids, origin);
        StoredTextBacks(labels, memory.ids, origin);
      }
    }
  }

  lemma SaverMovesCareful(setting: Setting, s: State, fault: bool)
    requires SafeSetting(setting) && Good(setting, s) && s.memory.Some? && CanSave(setting, s.memory.value, fault)
    requires s.memory.value.saver.Writing? ==> fault && s.memory.value.saver.labels == []
    ensures Good(setting, SaveNext(s, fault))
  {
    var memory, labels := s.memory.value, s.tables.labels;
    SaveKeeps(setting, s, fault);
    var after := SaveNext(s, fault).memory.value;
    SecuredStays(labels, memory, labels, after, memory.parsers[0].parsed);
    if !memory.saver.DroppingValues? {
      SecuredStays(labels, memory, labels, after, memory.valueRows);
    }
    forall text | text in memory.ids
      ensures Secured(labels, after, text) || FreshText(after, 0, text)
    {
      assert Secured(labels, memory, text) || FreshText(memory, 0, text);
    }
    if memory.parsers[0].phase.Found? || (memory.parsers[0].phase.Releasing? && !memory.parsers[0].phase.isNew) {
      assert Secured(labels, memory, HeadText(memory.parsers[0]));
    }
  }

  lemma SaveGood(setting: Setting, s: State, fault: bool)
    requires SafeSetting(setting) && Good(setting, s) && s.memory.Some? && CanSave(setting, s.memory.value, fault)
    ensures Good(setting, SaveNext(s, fault))
  {
    var memory, labels := s.memory.value, s.tables.labels;
    if memory.saver.Writing? && !fault && memory.saver.labels != [] {
      SaveKeeps(setting, s, fault);
      InsertCareful(setting, labels, memory);
      ComingRowIsNew(setting, labels, memory);
      forall origin | origin in s.tables.values
        ensures Backed(Insert(labels, memory.saver.labels[0]), origin)
      {
        BackedStays(labels, memory.saver.labels[0], origin);
      }
    } else if memory.saver.Writing? && !fault {
      ValuesLand(setting, s);
    } else {
      SaverMovesCareful(setting, s, fault);
    }
  }

  /* ---- every step, every run ---- */

  lemma PushGood(setting: Setting, s: State, p: nat, batch: seq<Sample>)
    requires SafeSetting(setting) && Good(setting, s) && Enabled(setting, s, Push(p, batch))
    ensures Good(setting, Next(setting, s, Push(p, batch)))
  {
    StepKeeps(setting, s, Push(p, batch));
    var memory, labels := s.memory.value, s.tables.labels;
    var after := Next(setting, s, Push(p, batch)).memory.value;
    assert p == 0;
    SecuredStays(labels, memory, labels, after, memory.valueRows);
    forall text | text in memory.ids
      ensures Secured(labels, after, text)
    {
      assert !FreshText(memory, 0, text);
    }
  }

  lemma StartGood(setting: Setting, s: State)
    requires SafeSetting(setting) && Good(setting, s) && s.memory.None?
    ensures Good(setting, Next(setting, s, Start))
  {
    StepKeeps(setting, s, Start);
    RegisteredExactly(s.tables.labels);
    var memory := Started(setting, s.tables.labels);
    forall text | text in memory.ids
      ensures Secured(s.tables.labels, memory, text)
    {
      var i :|
        0 <= i < |s.tables.labels| && s.tables.labels[i].text == text && s.tables.labels[i].id == memory.ids[text];
    }
  }

  lemma TickGood(setting: Setting, s: State)
    requires SafeSetting(setting) && Good(setting, s) && Enabled(setting, s, Tick)
    ensures Good(setting, Next(setting, s, Tick))
  {
    StepKeeps(setting, s, Tick);
    var memory, labels := s.memory.value, s.tables.labels;
    var after := Next(setting, s, Tick).memory.value;
    SecuredStays(labels, memory, labels, after, memory.valueRows);
    SecuredStays(labels, memory, labels, after, memory.parsers[0].parsed);
    forall text | text in memory.ids
      ensures Secured(labels, after, text) || FreshText(after, 0, text)
    {
      assert Secured(labels, memory, text) || FreshText(memory, 0, text);
    }
  }

  lemma StepGood(setting: Setting, s: State, e: Event)
    requires SafeSetting(setting) && Good(setting, s) && Enabled(setting, s, e)
    ensures Good(setting, Next(setting, s, e))
  {
    match e
    case Start => StartGood(setting, s);
    case Crash => StepKeeps(setting, s, e);
    case Push(p, batch) => PushGood(setting, s, p, batch);
    case Parse(p) =>
      StepKeeps(setting, s, e);
      if ParseNext(s.memory.value, p).Some? {
        ParseCareful(setting, s.tables.labels, s.memory.value, p);
      }
    case Tick => TickGood(setting, s);
    case Save(fault) => SaveGood(setting, s, fault);
  }

  lemma {:induction false} RunGood(setting: Setting, s: State, events: seq<Event>)
    requires SafeSetting(setting) && Good(setting, s) && Runs(setting, s, events)
    ensures Good(setting, After(setting, s, events))
    decreases |events|
  {
    if events != [] {
      StepGood(setting, s, events[0]);
      RunGood(setting, Next(setting, s, events[0]), events[1..]);
    }
  }
}
