/** What every setting keeps, however many parsers race, saves overlap and label inserts fail, and whatever the
    values hold: until the process is restarted, no stored sample is served under another series. A row
    without its label row is then only missing; it takes a restart for another series to adopt it. */
module WriteUntilRestart {
  import opened MetricString
  import opened WritePath
  import opened WriteInvariant
  import opened WriteSafety
  import opened WriteGuarantees
  import opened WriteExactness

  /** The process is started at most once, at the beginning. */
  predicate StartsOnce(events: seq<Event>) {
    forall i :: 1 <= i < |events| ==> !events[i].Start?
  }

  ghost predicate BeforeBacked(before: multiset<Origin>, labels: seq<LabelRow>) {
    forall origin :: origin in before ==> Backed(labels, origin)
  }

  /** A row stored since has the id of its metric's text. */
  ghost predicate SinceMapped(before: multiset<Origin>, values: multiset<Origin>, ids: map<string, int>) {
    forall origin :: origin in values && origin !in before ==> OriginOk(ids, origin)
  }

  /** While the process lives every stored row can be told; when it is down, none is another series'. */
  ghost predicate Trusted(before: multiset<Origin>, s: State) {
    if s.memory.None? then Faithful(s.tables)
    else BeforeBacked(before, s.tables.labels) && SinceMapped(before, s.tables.values, s.memory.value.ids)
  }

  ghost predicate Sure(setting: Setting, before: multiset<Origin>, s: State) {
    Ok(setting, s) && Trusted(before, s)
  }

  lemma BackedRowSays(labels: seq<LabelRow>, origin: Origin, i: nat)
    requires TablesOk(labels) && Backed(labels, origin) && i < |labels| && labels[i].id == origin.row.id
    ensures labels[i].name == NameOf(origin.sample.metric) && labels[i].labels == LabelsOf(origin.sample.metric)
  {
    var j :| 0 <= j < |labels| && labels[j].id == origin.row.id && labels[j].name == NameOf(origin.sample.metric) &&
             labels[j].labels == LabelsOf(origin.sample.metric);
    assert i == j;
  }

  lemma MappedRowSays(labels: seq<LabelRow>, ids: map<string, int>, origin: Origin, i: nat)
    requires RowsOk(ids, labels) && Injective(ids) && i < |labels| && labels[i].id == origin.row.id
    requires OriginOk(ids, origin)
    ensures labels[i].name == NameOf(origin.sample.metric) && labels[i].labels == LabelsOf(origin.sample.metric)
  {
    assert Canonical(labels[i]) && Maps(ids, labels[i].text, labels[i].id);
    assert labels[i].text == MetricText(origin.sample.metric);
    SeriesTextIdentifies(labels[i].name, labels[i].labels, origin.sample.metric);
  }

  lemma LivingIsFaithful(setting: Setting, before: multiset<Origin>, s: State)
    requires Sure(setting, before, s) && s.memory.Some?
    ensures Faithful(s.tables)
  {
    var labels := s.tables.labels;
    forall origin, i: int | origin in s.tables.values && 0 <= i < |labels| && labels[i].id == origin.row.id
      ensures labels[i].name == NameOf(origin.sample.metric) && labels[i].labels == LabelsOf(origin.sample.metric)
    {
      if origin in before {
        BackedRowSays(labels, origin, i);
      } else {
        MappedRowSays(labels, s.memory.value.ids, origin, i);
      }
    }
  }

  lemma ParseKeepsTrust(setting: Setting, before: multiset<Origin>, s: State, p: nat)
    requires Sure(setting, before, s) && Enabled(setting, s, Parse(p))
    ensures Trusted(before, Next(setting, s, Parse(p)))
  {
    if ParseNext(s.memory.value, p).None? {
      LivingIsFaithful(setting, before, s);
    } else {
      ParseKeepsIds(setting, s.tables.labels, s.memory.value, p);
    }
  }

  lemma InsertKeepsBacked(before: multiset<Origin>, labels: seq<LabelRow>, row: LabelRow)
    requires BeforeBacked(before, labels)
    ensures BeforeBacked(before, Insert(labels, row))
  {
    forall origin | origin in before
      ensures Backed(Insert(labels, row), origin)
    {
      BackedStays(labels, row, origin);
    }
  }

  lemma StoringKeepsMapped(before: multiset<Origin>, values: multiset<Origin>, ids: map<string, int>, rows: seq<Origin>)
    requires SinceMapped(before, values, ids) && OriginsOk(ids, rows)
    ensures SinceMapped(before, values + multiset(rows), ids)
  {
    forall origin | origin in values + multiset(rows) && origin !in before
      ensures OriginOk(ids, origin)
    {
      if origin !in values {
        assert origin in multiset(rows);
      }
    }
  }

  lemma WritingKeepsTrust(setting: Setting, before: multiset<Origin>, s: State, fault: bool)
    requires Sure(setting, before, s) && Enabled(setting, s, Save(fault)) && s.memory.value.saver.Writing?
    ensures Trusted(before, SaveNext(s, fault))
  {
    var memory := s.memory.value;
    if !fault {
      if memory.saver.labels != [] {
        InsertKeepsBacked(before, s.tables.labels, memory.saver.labels[0]);
      } else {
        StoringKeepsMapped(before, s.tables.values, memory.ids, memory.saver.values);
      }
    }
  }

  lemma SaveKeepsTrust(setting: Setting, before: multiset<Origin>, s: State, fault: bool)
    requires Sure(setting, before, s) && Enabled(setting, s, Save(fault))
    ensures Trusted(before, SaveNext(s, fault))
  {
    if s.memory.value.saver.Writing? {
      WritingKeepsTrust(setting, before, s, fault);
    }
  }

  lemma StepKeepsSure(setting: Setting, before: multiset<Origin>, s: State, e: Event)
    requires Sure(setting, before, s) && Enabled(setting, s, e) && !e.Start?
    ensures Sure(setting, before, Next(setting, s, e))
  {
    StepKeeps(setting, s, e);
    match e
    case Crash => LivingIsFaithful(setting, before, s);
    case Parse(p) => ParseKeepsTrust(setting, before, s, p);
    case Save(fault) => SaveKeepsTrust(setting, before, s, fault);
    case _ =>
  }

  lemma {:induction false} RunKeepsSure(setting: Setting, before: multiset<Origin>, s: State, events: seq<Event>)
    requires Sure(setting, before, s) && Runs(setting, s, events)
    requires forall i :: 0 <= i < |events| ==> !events[i].Start?
    ensures Sure(setting, before, After(setting, s, events))
    decreases |events|
  {
    if events != [] {
      StepKeepsSure(setting, before, s, events[0]);
      RunKeepsSure(setting, before, Next(setting, s, events[0]), events[1..]);
    }
  }

  lemma FirstStartIsSure(setting: Setting, tables: Tables)
    requires TablesOk(tables.labels) && Sound(tables)
    ensures Sure(setting, tables.values, Next(setting, Down(tables), Start))
  {
    StepKeeps(setting, Down(tables), Start);
  }

  /** Whatever the parsers, the overlap, the label faults and the values: no run from a truthful database serves
      a stored sample under another series before a second start. OrphanIsAdopted does it after one. */
  lemma FaithfulUntilRestart(setting: Setting, tables: Tables, events: seq<Event>)
    requires TablesOk(tables.labels) && Sound(tables)
    requires Runs(setting, Down(tables), events) && StartsOnce(events)
    ensures Faithful(After(setting, Down(tables), events).tables)
  {
    if events == [] {
      SoundIsFaithful(tables);
    } else {
      assert events[0].Start?;
      var up := Next(setting, Down(tables), Start);
      FirstStartIsSure(setting, tables);
      RunKeepsSure(setting, tables.values, up, events[1..]);
      var t := After(setting, up, events[1..]);
      if t.memory.Some? {
        LivingIsFaithful(setting, tables.values, t);
      }
    }
  }
}
