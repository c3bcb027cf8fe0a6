/** Runs of the write pipeline put together: what one parser makes of a batch when left alone, and what one
    undisturbed save makes of the buffers. */
module WriteRuns {
  import opened Text
  import opened MetricString
  import opened WritePath

  /* ---- what a batch comes to, seen as one step ---- */

  /** The fields a parser works on. */
  datatype Known = Known(ids: map<string, int>, next: int, labelRows: seq<LabelRow>)

  datatype Absorbed = Died | Lives(known: Known, rows: seq<Origin>)

  /** One sample: the row it adds, unless its text is new and cannot be taken apart. */
  ghost function Absorb(known: Known, sample: Sample): Absorbed {
    var text := MetricText(sample.metric);
    if text in known.ids then Lives(known, [OriginOf(known.ids[text], sample)])
    else AbsorbNew(known, sample, text, Decode(text))
  }

  function AbsorbNew(known: Known, sample: Sample, text: string, decoded: Decoded): Absorbed {
    var id := known.next;
    var taken := known.(ids := known.ids[text := id], next := id + 1);
    match decoded
    case NoBrace => Died
    case Refused => Lives(taken, [])
    case Series(name, labels) =>
      Lives(taken.(labelRows := known.labelRows + [LabelRow(id, name, text, labels)]), [OriginOf(id, sample)])
  }

  ghost function AbsorbAll(known: Known, batch: seq<Sample>): Absorbed
    decreases |batch|
  {
    if batch == [] then Lives(known, [])
    else
      match Absorb(known, batch[0])
      case Died => Died
      case Lives(then_, rows) =>
        match AbsorbAll(then_, batch[1..])
        case Died => Died
        case Lives(last, more) => Lives(last, rows + more)
  }

  function InsertAll(labels: seq<LabelRow>, rows: seq<LabelRow>): seq<LabelRow>
    decreases |rows|
  {
    if rows == [] then labels else InsertAll(Insert(labels, rows[0]), rows[1..])
  }

  /* ---- runs ---- */

  ghost predicate Reaches(setting: Setting, s: State, t: State) {
    exists events :: Runs(setting, s, events) && After(setting, s, events) == t
  }

  lemma ReachesItself(setting: Setting, s: State)
    ensures Reaches(setting, s, s)
  {
    assert Runs(setting, s, []) && After(setting, s, []) == s;
  }

  lemma {:induction false} RunOn(setting: Setting, s: State, events: seq<Event>, more: seq<Event>)
    requires Runs(setting, s, events) && Runs(setting, After(setting, s, events), more)
    ensures Runs(setting, s, events + more)
    ensures After(setting, s, events + more) == After(setting, After(setting, s, events), more)
    decreases |events|
  {
    if events == [] {
      assert events + more == more;
    } else {
      var t := Next(setting, s, events[0]);
      var all := events + more;
      assert all[0] == events[0] && all[1..] == events[1..] + more;
      assert After(setting, s, events) == After(setting, t, events[1..]);
      RunOn(setting, t, events[1..], more);
    }
  }

  lemma ReachesOn(setting: Setting, s: State, t: State, u: State)
    requires Reaches(setting, s, t) && Reaches(setting, t, u)
    ensures Reaches(setting, s, u)
  {
    var events :| Runs(setting, s, events) && After(setting, s, events) == t;
    var more :| Runs(setting, t, more) && After(setting, t, more) == u;
    RunOn(setting, s, events, more);
  }

  lemma ReachesNext(setting: Setting, s: State, e: Event)
    requires Enabled(setting, s, e)
    ensures Reaches(setting, s, Next(setting, s, e))
  {
    var t := Next(setting, s, e);
    assert [e][1..] == [];
    assert Runs(setting, t, []) && After(setting, t, []) == t;
    assert Runs(setting, s, [e]) && After(setting, s, [e]) == t;
  }

  /* ---- one parser undisturbed ---- */

  ghost function KnownOf(memory: Memory): Known { Known(memory.ids, memory.next, memory.labelRows) }

  ghost function Learnt(memory: Memory, known: Known): Memory {
    memory.(ids := known.ids, next := known.next, labelRows := known.labelRows)
  }

  ghost function With(s: State, memory: Memory): State { s.(memory := Some(memory)) }

  ghost predicate Undisturbed(setting: Setting, s: State, p: nat) {
    && s.memory.Some? && p < |s.memory.value.parsers|
    && s.memory.value.mutex.None?
    && (setting.overlap || s.memory.value.saver.Resting?)
  }

  ghost function Placed(memory: Memory, p: nat, parser: Parser): Memory
    requires p < |memory.parsers|
  {
    memory.(parsers := memory.parsers[p := parser])
  }

  /** One access of parser `p` that neither flushes nor kills. */
  lemma ParseReaches(setting: Setting, s: State, p: nat, after: Memory)
    requires s.memory.Some? && CanParse(setting, s.memory.value, p)
    requires s.memory.value.parsers[p].batch != [] && ParseNext(s.memory.value, p) == Some(after)
    ensures Reaches(setting, s, With(s, after))
  {
    ReachesNext(setting, s, Parse(p));
    assert Next(setting, s, Parse(p)) == With(s, after);
  }

  /** From the look-up of a new text to the second look-up, under the lock. */
  lemma ReachesRechecking(setting: Setting, s: State, p: nat, parser: Parser)
    requires Undisturbed(setting, s, p) && parser == s.memory.value.parsers[p]
    requires parser.phase == Loading && parser.batch != [] && HeadText(parser) !in s.memory.value.ids
    ensures Reaches(setting, s, With(s, Placed(s.memory.value, p, Moved(parser, Rechecking)).(mutex := Some(p))))
  {
    var memory := s.memory.value;
    var m1 := Placed(memory, p, Moved(parser, Waiting));
    ParseReaches(setting, s, p, m1);
    var m2 := Placed(memory, p, Moved(parser, Rechecking)).(mutex := Some(p));
    assert m1.parsers[p := Moved(parser, Rechecking)] == m2.parsers;
    ParseReaches(setting, With(s, m1), p, m2);
    ReachesOn(setting, s, With(s, m1), With(s, m2));
  }

  /** From the look-up of a new text to the moment its id is known to all and its label row to none. */
  lemma ReachesAnnouncing(setting: Setting, s: State, p: nat)
    requires Undisturbed(setting, s, p)
    requires var parser := s.memory.value.parsers[p];
             parser.phase == Loading && parser.batch != [] && HeadText(parser) !in s.memory.value.ids
    ensures var memory := s.memory.value;
            var parser := memory.parsers[p];
            Reaches(setting, s, With(s, Placed(memory, p, Moved(parser, Announcing(memory.next))).(
              ids := memory.ids[HeadText(parser) := memory.next], next := memory.next + 1)))
  {
    var memory := s.memory.value;
    var parser := memory.parsers[p];
    var id, text := memory.next, HeadText(parser);
    ReachesRechecking(setting, s, p, parser);
    var m2 := Placed(memory, p, Moved(parser, Rechecking)).(mutex := Some(p));
    var m3 := Placed(memory, p, Moved(parser, Taken(id))).(mutex := Some(p), next := id + 1);
    assert m2.parsers[p := Moved(parser, Taken(id))] == m3.parsers;
    ParseReaches(setting, With(s, m2), p, m3);
    var m4 := Placed(memory, p, Moved(parser, Releasing(id, true))).(
      mutex := Some(p), next := id + 1, ids := memory.ids[text := id]);
    assert m3.parsers[p := Moved(parser, Releasing(id, true))] == m4.parsers;
    ParseReaches(setting, With(s, m3), p, m4);
    var m5 := Placed(memory, p, Moved(parser, Announcing(id))).(next := id + 1, ids := memory.ids[text := id]);
    assert m4.parsers[p := Moved(parser, Announcing(id))] == m5.parsers;
    ParseReaches(setting, With(s, m4), p, m5);
    ReachesOn(setting, s, With(s, m2), With(s, m3));
    ReachesOn(setting, s, With(s, m3), With(s, m4));
    ReachesOn(setting, s, With(s, m4), With(s, m5));
  }

  lemma FoundReaches(setting: Setting, s: State, p: nat, id: int)
    requires Undisturbed(setting, s, p)
    requires var parser := s.memory.value.parsers[p]; parser.phase == Found(id) && parser.batch != []
    ensures var parser := s.memory.value.parsers[p];
            Reaches(setting, s, With(s, Placed(s.memory.value, p,
              Parser(Loading, parser.batch[1..], parser.parsed + [OriginOf(id, parser.batch[0])]))))
  {
    var parser := s.memory.value.parsers[p];
    ParseReaches(setting, s, p, Placed(s.memory.value, p,
      Parser(Loading, parser.batch[1..], parser.parsed + [OriginOf(id, parser.batch[0])])));
  }

  /** From the announcement on: the label row is buffered and the value row kept, or the sample skipped. */
  lemma AnnouncingReaches(setting: Setting, s: State, p: nat, id: int, decoded: Decoded)
    requires Undisturbed(setting, s, p)
    requires var parser := s.memory.value.parsers[p];
             parser.phase == Announcing(id) && parser.batch != []
    requires decoded == Decode(HeadText(s.memory.value.parsers[p])) && !decoded.NoBrace?
    ensures var memory := s.memory.value;
            var parser := memory.parsers[p];
            var rows := if decoded.Series? then [OriginOf(id, parser.batch[0])] else [];
            var labelRows :=
              if decoded.Series?
              then memory.labelRows + [LabelRow(id, decoded.name, HeadText(parser), decoded.labels)]
              else memory.labelRows;
            var last := Parser(Loading, parser.batch[1..], parser.parsed + rows);
            Reaches(setting, s, With(s, Placed(memory, p, last).(labelRows := labelRows)))
  {
    var memory := s.memory.value;
    var parser := memory.parsers[p];
    if decoded.Series? {
      var row := LabelRow(id, decoded.name, HeadText(parser), decoded.labels);
      var m1 := Placed(memory, p, Moved(parser, Found(id))).(labelRows := memory.labelRows + [row]);
      ParseReaches(setting, s, p, m1);
      FoundReaches(setting, With(s, m1), p, id);
      var last := Parser(Loading, parser.batch[1..], parser.parsed + [OriginOf(id, parser.batch[0])]);
      assert Placed(m1, p, last) == Placed(memory, p, last).(labelRows := m1.labelRows);
      ReachesOn(setting, s, With(s, m1), With(s, Placed(m1, p, last)));
    } else {
      assert parser.parsed + [] == parser.parsed;
      ParseReaches(setting, s, p, Placed(memory, p, Skipped(parser)));
    }
  }

  lemma AbsorbKnownReaches(setting: Setting, s: State, p: nat, parser: Parser)
    requires Undisturbed(setting, s, p) && parser == s.memory.value.parsers[p]
    requires parser.phase == Loading && parser.batch != [] && HeadText(parser) in s.memory.value.ids
    ensures var memory := s.memory.value;
            var origin := OriginOf(memory.ids[HeadText(parser)], parser.batch[0]);
            var last := Parser(Loading, parser.batch[1..], parser.parsed + [origin]);
            Reaches(setting, s, With(s, Placed(memory, p, last)))
  {
    var memory := s.memory.value;
    var id := memory.ids[HeadText(parser)];
    var m1 := Placed(memory, p, Moved(parser, Found(id)));
    ParseReaches(setting, s, p, m1);
    FoundReaches(setting, With(s, m1), p, id);
    var last := Parser(Loading, parser.batch[1..], parser.parsed + [OriginOf(id, parser.batch[0])]);
    assert Placed(m1, p, last) == Placed(memory, p, last);
    ReachesOn(setting, s, With(s, m1), With(s, Placed(m1, p, last)));
  }

  /** A parser left alone with a sample does to the shared fields what Absorb says. */
  lemma AbsorbReaches(setting: Setting, s: State, p: nat)
    requires Undisturbed(setting, s, p)
    requires var parser := s.memory.value.parsers[p];
             parser.phase == Loading && parser.batch != [] && Absorb(KnownOf(s.memory.value), parser.batch[0]).Lives?
    ensures var memory := s.memory.value;
            var parser := memory.parsers[p];
            var absorbed := Absorb(KnownOf(memory), parser.batch[0]);
            var last := Parser(Loading, parser.batch[1..], parser.parsed + absorbed.rows);
            Reaches(setting, s, With(s, Placed(Learnt(memory, absorbed.known), p, last)))
  {
    var memory := s.memory.value;
    var parser := memory.parsers[p];
    var text := HeadText(parser);
    var absorbed := Absorb(KnownOf(memory), parser.batch[0]);
    if text in memory.ids {
      AbsorbKnownReaches(setting, s, p, parser);
      assert Learnt(memory, absorbed.known) == memory;
    } else {
      ReachesAnnouncing(setting, s, p);
      var m1 := Placed(memory, p, Moved(parser, Announcing(memory.next))).(
        ids := memory.ids[text := memory.next], next := memory.next + 1);
      AnnouncingReaches(setting, With(s, m1), p, memory.next, Decode(text));
      var last := Parser(Loading, parser.batch[1..], parser.parsed + absorbed.rows);
      var m2 := Placed(m1, p, last).(labelRows := absorbed.known.labelRows);
      assert m2 == Placed(Learnt(memory, absorbed.known), p, last);
      ReachesOn(setting, s, With(s, m1), With(s, m2));
    }
  }

  lemma AbsorbAllHead(known: Known, batch: seq<Sample>)
    requires batch != [] && AbsorbAll(known, batch).Lives?
    ensures Absorb(known, batch[0]).Lives?
    ensures var first := Absorb(known, batch[0]);
            && AbsorbAll(first.known, batch[1..]).Lives?
            && AbsorbAll(known, batch).known == AbsorbAll(first.known, batch[1..]).known
            && AbsorbAll(known, batch).rows == first.rows + AbsorbAll(first.known, batch[1..]).rows
  {
  }

  ghost function Emptied(memory: Memory, p: nat, absorbed: Absorbed): Memory
    requires p < |memory.parsers| && absorbed.Lives?
  {
    Placed(Learnt(memory, absorbed.known), p, Parser(Loading, [], memory.parsers[p].parsed + absorbed.rows))
  }

  lemma EmptiedInTwo(memory: Memory, p: nat, first: Absorbed, rest: Absorbed, m1: Memory)
    requires p < |memory.parsers| && first.Lives? && rest.Lives? && memory.parsers[p].batch != []
    requires m1 == Placed(Learnt(memory, first.known), p,
                          Parser(Loading, memory.parsers[p].batch[1..], memory.parsers[p].parsed + first.rows))
    ensures Emptied(m1, p, rest) == Emptied(memory, p, Lives(rest.known, first.rows + rest.rows))
  {
    var parsed := memory.parsers[p].parsed;
    assert parsed + (first.rows + rest.rows) == parsed + first.rows + rest.rows;
  }

  lemma {:induction false} AbsorbAllReaches(setting: Setting, s: State, p: nat, absorbed: Absorbed)
    requires Undisturbed(setting, s, p) && s.memory.value.parsers[p].phase == Loading
    requires absorbed == AbsorbAll(KnownOf(s.memory.value), s.memory.value.parsers[p].batch) && absorbed.Lives?
    ensures Reaches(setting, s, With(s, Emptied(s.memory.value, p, absorbed)))
    decreases |s.memory.value.parsers[p].batch|
  {
    var memory := s.memory.value;
    var parser := memory.parsers[p];
    if parser.batch == [] {
      assert parser.parsed + [] == parser.parsed;
      assert Emptied(memory, p, absorbed) == memory;
      ReachesItself(setting, s);
    } else {
      AbsorbAllHead(KnownOf(memory), parser.batch);
      var first := Absorb(KnownOf(memory), parser.batch[0]);
      AbsorbReaches(setting, s, p);
      var m1 := Placed(Learnt(memory, first.known), p, Parser(Loading, parser.batch[1..], parser.parsed + first.rows));
      var rest := AbsorbAll(first.known, parser.batch[1..]);
      AbsorbAllReaches(setting, With(s, m1), p, rest);
      EmptiedInTwo(memory, p, first, rest, m1);
      ReachesOn(setting, s, With(s, m1), With(s, Emptied(memory, p, absorbed)));
    }
  }

  /** A whole batch by one parser, with nothing in between: the fields end as AbsorbAll says, and the value
      rows join the buffer in one go. */
  lemma BatchReaches(setting: Setting, s: State, p: nat, batch: seq<Sample>)
    requires Undisturbed(setting, s, p) && s.memory.value.parsers[p] == Parser(Idle, [], [])
    requires Admitted(setting, batch) && AbsorbAll(KnownOf(s.memory.value), batch).Lives?
    ensures var memory := s.memory.value;
            var absorbed := AbsorbAll(KnownOf(memory), batch);
            var late := TooLate(memory.saver);
            var full := Learnt(memory, absorbed.known).(valueRows := memory.valueRows + absorbed.rows);
            var booked := s.ledger.(
              appended := s.ledger.appended + multiset(absorbed.rows),
              late := if late then s.ledger.late + multiset(absorbed.rows) else s.ledger.late);
            Reaches(setting, s, With(s, full).(ledger := booked))
  {
    var memory := s.memory.value;
    var absorbed := AbsorbAll(KnownOf(memory), batch);
    var m1 := Placed(memory, p, Parser(Loading, batch, []));
    ReachesNext(setting, s, Push(p, batch));
    AbsorbAllReaches(setting, With(s, m1), p, absorbed);
    var m2 := Placed(Learnt(m1, absorbed.known), p, Parser(Loading, [], [] + absorbed.rows));
    ReachesOn(setting, s, With(s, m1), With(s, m2));
    assert [] + absorbed.rows == absorbed.rows;
    ReachesNext(setting, With(s, m2), Parse(p));
    assert m2.parsers[p := Parser(Idle, [], [])] == memory.parsers;
    ReachesOn(setting, s, With(s, m2), Next(setting, With(s, m2), Parse(p)));
  }

  /* ---- the batch that kills ---- */

  /** Every known text holds the brace its labels open with. */
  predicate Braces(ids: map<string, int>) {
    forall text :: text in ids ==> '{' in text
  }

  lemma BareTextHasNoBrace(metric: Metric)
    requires PlainNames(metric)
    ensures Bare(metric) <==> '{' !in MetricText(metric)
    ensures Bare(metric) <==> Decode(MetricText(metric)).NoBrace?
  {
    DecodeExact(metric);
    if !Bare(metric) {
      var text := MetricText(metric);
      assert text[|NameOf(metric)|] == '{';
    }
  }

  lemma AbsorbNewIds(known: Known, sample: Sample, text: string, decoded: Decoded)
    ensures AbsorbNew(known, sample, text, decoded).Died? <==> decoded.NoBrace?
    ensures !decoded.NoBrace? ==> AbsorbNew(known, sample, text, decoded).known.ids == known.ids[text := known.next]
  {
  }

  lemma BracesGrow(ids: map<string, int>, text: string, id: int)
    requires Braces(ids) && '{' in text
    ensures Braces(ids[text := id])
  {
  }

  lemma AbsorbByText(known: Known, sample: Sample, text: string, decoded: Decoded)
    requires text == MetricText(sample.metric) && decoded == Decode(text)
    ensures Absorb(known, sample) ==
            if text in known.ids then Lives(known, [OriginOf(known.ids[text], sample)])
            else AbsorbNew(known, sample, text, decoded)
  {
  }

  lemma AbsorbDiesExactly(known: Known, sample: Sample)
    requires Braces(known.ids) && PlainNames(sample.metric)
    ensures Absorb(known, sample).Died? <==> Bare(sample.metric)
    ensures Absorb(known, sample).Lives? ==> Braces(Absorb(known, sample).known.ids)
  {
    var text := MetricText(sample.metric);
    var decoded := Decode(text);
    BareTextHasNoBrace(sample.metric);
    AbsorbByText(known, sample, text, decoded);
    AbsorbNewIds(known, sample, text, decoded);
    if '{' in text {
      BracesGrow(known.ids, text, known.next);
    }
  }

  ghost predicate SomeBare(batch: seq<Sample>) {
    exists i :: 0 <= i < |batch| && Bare(batch[i].metric)
  }

  lemma SomeBareSplits(batch: seq<Sample>)
    requires batch != []
    ensures SomeBare(batch) <==> Bare(batch[0].metric) || SomeBare(batch[1..])
  {
    if SomeBare(batch[1..]) {
      var i :| 0 <= i < |batch[1..]| && Bare(batch[1..][i].metric);
      assert Bare(batch[i + 1].metric);
    }
    if SomeBare(batch) && !Bare(batch[0].metric) {
      var i :| 0 <= i < |batch| && Bare(batch[i].metric);
      assert Bare(batch[1..][i - 1].metric);
    }
  }

  lemma DeathSplits(known: Known, batch: seq<Sample>)
    requires batch != []
    ensures var first := Absorb(known, batch[0]);
            AbsorbAll(known, batch).Died? <==> first.Died? || AbsorbAll(first.known, batch[1..]).Died?
  {
  }

  ghost predicate PlainBatch(batch: seq<Sample>) {
    forall i :: 0 <= i < |batch| ==> PlainNames(batch[i].metric)
  }

  /** A batch kills the process exactly when it holds a metric with a name and no other label. */
  lemma {:induction false} DiesExactly(known: Known, batch: seq<Sample>)
    requires Braces(known.ids) && PlainBatch(batch)
    ensures AbsorbAll(known, batch).Died? <==> SomeBare(batch)
    decreases |batch|
  {
    if batch != [] {
      AbsorbDiesExactly(known, batch[0]);
      SomeBareSplits(batch);
      DeathSplits(known, batch);
      var first := Absorb(known, batch[0]);
      if first.Lives? {
        assert PlainBatch(batch[1..]);
        DiesExactly(first.known, batch[1..]);
      }
    }
  }

  /** `up`, with no label at all, say. */
  lemma UpKills(known: Known, timestamp: int, value: int)
    requires Braces(known.ids)
    ensures AbsorbAll(known, [Sample(map[METRIC_NAME_LABEL := "up"], timestamp, value)]).Died?
  {
    var up: Metric := map[METRIC_NAME_LABEL := "up"];
    assert NameOf(up) == "up" && LabelsOf(up) == map[];
    var batch := [Sample(up, timestamp, value)];
    assert batch[0].metric == up;
    DiesExactly(known, batch);
  }

  /** The access at which a parser finds no brace, and the process dies. */
  lemma NoBraceKills(setting: Setting, s: State, p: nat)
    requires Undisturbed(setting, s, p)
    requires var parser := s.memory.value.parsers[p];
             parser.phase.Announcing? && parser.batch != [] && Decode(HeadText(parser)).NoBrace?
    ensures Reaches(setting, s, Crashed(s))
  {
    ReachesNext(setting, s, Parse(p));
  }

  lemma CrashSeesBuffersOnly(s: State, memory: Memory)
    requires s.memory.Some?
    requires memory.saver == s.memory.value.saver && memory.valueRows == s.memory.value.valueRows
    ensures Crashed(With(s, memory)) == Crashed(s)
  {
  }

  lemma AbsorbKills(setting: Setting, s: State, p: nat)
    requires Undisturbed(setting, s, p)
    requires var parser := s.memory.value.parsers[p];
             parser.phase == Loading && parser.batch != [] && Absorb(KnownOf(s.memory.value), parser.batch[0]).Died?
    ensures Reaches(setting, s, Crashed(s))
  {
    var memory := s.memory.value;
    var parser := memory.parsers[p];
    ReachesAnnouncing(setting, s, p);
    var m1 := Placed(memory, p, Moved(parser, Announcing(memory.next))).(
      ids := memory.ids[HeadText(parser) := memory.next], next := memory.next + 1);
    NoBraceKills(setting, With(s, m1), p);
    CrashSeesBuffersOnly(s, m1);
    ReachesOn(setting, s, With(s, m1), Crashed(s));
  }

  lemma {:induction false} AbsorbAllKills(setting: Setting, s: State, p: nat)
    requires Undisturbed(setting, s, p) && s.memory.value.parsers[p].phase == Loading
    requires AbsorbAll(KnownOf(s.memory.value), s.memory.value.parsers[p].batch).Died?
    ensures Reaches(setting, s, Crashed(s))
    decreases |s.memory.value.parsers[p].batch|
  {
    var memory := s.memory.value;
    var parser := memory.parsers[p];
    var first := Absorb(KnownOf(memory), parser.batch[0]);
    if first.Died? {
      AbsorbKills(setting, s, p);
    } else {
      AbsorbReaches(setting, s, p);
      var m1 := Placed(Learnt(memory, first.known), p,
                       Parser(Loading, parser.batch[1..], parser.parsed + first.rows));
      AbsorbAllKills(setting, With(s, m1), p);
      CrashSeesBuffersOnly(s, m1);
      ReachesOn(setting, s, With(s, m1), Crashed(s));
    }
  }

  /** A whole batch by one parser, when absorbing it dies: the process goes down with what was buffered. */
  lemma BatchKills(setting: Setting, s: State, p: nat, batch: seq<Sample>)
    requires Undisturbed(setting, s, p) && s.memory.value.parsers[p] == Parser(Idle, [], [])
    requires Admitted(setting, batch) && AbsorbAll(KnownOf(s.memory.value), batch).Died?
    ensures Reaches(setting, s, Crashed(s))
  {
    var m1 := Placed(s.memory.value, p, Parser(Loading, batch, []));
    ReachesNext(setting, s, Push(p, batch));
    AbsorbAllKills(setting, With(s, m1), p);
    CrashSeesBuffersOnly(s, m1);
    ReachesOn(setting, s, With(s, m1), Crashed(s));
  }

  /* ---- one save undisturbed ---- */

  /** What the two drops at the end of a save come to. */
  lemma DropsReach(setting: Setting, s: State)
    requires s.memory.Some? && s.memory.value.saver.DroppingLabels?
    ensures Reaches(setting, s, With(s, s.memory.value.(labelRows := [], valueRows := [], saver := Resting)))
  {
    var t := Next(setting, s, Save(false));
    ReachesNext(setting, s, Save(false));
    ReachesNext(setting, t, Save(false));
    ReachesOn(setting, s, t, Next(setting, t, Save(false)));
  }

  /** How far a save gets: the label rows inserted before one fails for good, and whether the copy fails. */
  datatype Faults = Faults(inserted: nat, copyFails: bool)

  ghost predicate Possible(setting: Setting, labels: seq<LabelRow>, faults: Faults) {
    faults.inserted <= |labels| && (faults.inserted < |labels| ==> setting.labelFaults)
  }

  predicate Succeeds(labels: seq<LabelRow>, faults: Faults) { faults.inserted == |labels| && !faults.copyFails }

  /** The outcome of a save with these copies and these faults: the labels inserted, the values stored or
      booked as failed, and both buffers empty. */
  function Saved(s: State, labels: seq<LabelRow>, values: seq<Origin>, faults: Faults): State
    requires s.memory.Some? && faults.inserted <= |labels|
  {
    var tables := s.tables.(labels := InsertAll(s.tables.labels, labels[..faults.inserted]));
    var memory := s.memory.value.(labelRows := [], valueRows := [], saver := Resting);
    if Succeeds(labels, faults) then
      State(tables.(values := tables.values + multiset(values)), Some(memory), s.ledger)
    else
      State(tables, Some(memory), s.ledger.(failed := s.ledger.failed + multiset(values)))
  }

  /** The last step of the writing: the first label that fails, or the copy. */
  lemma WritingEnds(setting: Setting, s: State, faults: Faults)
    requires s.memory.Some? && s.memory.value.saver.Writing? && faults.inserted == 0
    requires Possible(setting, s.memory.value.saver.labels, faults)
    requires s.memory.value.saver.labels != [] ==> !Succeeds(s.memory.value.saver.labels, faults)
    ensures Reaches(setting, s, Saved(s, s.memory.value.saver.labels, s.memory.value.saver.values, faults))
  {
    var saver := s.memory.value.saver;
    var fault := !Succeeds(saver.labels, faults);
    var t := Next(setting, s, Save(fault));
    ReachesNext(setting, s, Save(fault));
    DropsReach(setting, t);
    var u := With(t, t.memory.value.(labelRows := [], valueRows := [], saver := Resting));
    assert InsertAll(s.tables.labels, saver.labels[..0]) == s.tables.labels;
    assert u == Saved(s, saver.labels, saver.values, faults);
    ReachesOn(setting, s, t, u);
  }

  lemma InsertFirst(labels: seq<LabelRow>, rows: seq<LabelRow>, k: nat)
    requires 0 < k <= |rows|
    ensures InsertAll(labels, rows[..k]) == InsertAll(Insert(labels, rows[0]), rows[1..][..k - 1])
  {
    assert rows[..k][1..] == rows[1..][..k - 1];
  }

  /** After one label insert. */
  function Inserted(s: State): State
    requires s.memory.Some? && s.memory.value.saver.Writing? && s.memory.value.saver.labels != []
  {
    var saver := s.memory.value.saver;
    State(s.tables.(labels := Insert(s.tables.labels, saver.labels[0])),
          Some(s.memory.value.(saver := Writing(saver.labels[1..], saver.values))), s.ledger)
  }

  lemma InsertReaches(setting: Setting, s: State)
    requires s.memory.Some? && s.memory.value.saver.Writing? && s.memory.value.saver.labels != []
    ensures Reaches(setting, s, Inserted(s))
  {
    ReachesNext(setting, s, Save(false));
  }

  lemma SavedInTwo(s: State, faults: Faults)
    requires s.memory.Some? && s.memory.value.saver.Writing? && 0 < faults.inserted <= |s.memory.value.saver.labels|
    ensures var saver := s.memory.value.saver;
            Saved(Inserted(s), saver.labels[1..], saver.values, faults.(inserted := faults.inserted - 1)) ==
            Saved(s, saver.labels, saver.values, faults)
  {
    InsertFirst(s.tables.labels, s.memory.value.saver.labels, faults.inserted);
  }

  lemma {:induction false} WritingReaches(setting: Setting, s: State, faults: Faults)
    requires s.memory.Some? && s.memory.value.saver.Writing? && Possible(setting, s.memory.value.saver.labels, faults)
    ensures Reaches(setting, s, Saved(s, s.memory.value.saver.labels, s.memory.value.saver.values, faults))
    decreases faults.inserted
  {
    if faults.inserted == 0 {
      WritingEnds(setting, s, faults);
    } else {
      InsertReaches(setting, s);
      WritingReaches(setting, Inserted(s), faults.(inserted := faults.inserted - 1));
      SavedInTwo(s, faults);
      ReachesOn(setting, s, Inserted(s), Saved(s, s.memory.value.saver.labels, s.memory.value.saver.values, faults));
    }
  }

  /** What a save comes to from the moment it has its copy of the label rows. */
  lemma CopiedReaches(setting: Setting, s: State, faults: Faults)
    requires s.memory.Some? && s.memory.value.saver.LabelsCopied?
    requires Possible(setting, s.memory.value.saver.labels, faults)
    ensures Reaches(setting, s, Saved(s, s.memory.value.saver.labels, s.memory.value.valueRows, faults))
  {
    var t := Next(setting, s, Save(false));
    ReachesNext(setting, s, Save(false));
    WritingReaches(setting, t, faults);
    ReachesOn(setting, s, t, Saved(s, s.memory.value.saver.labels, s.memory.value.valueRows, faults));
  }

  /** A save with nothing in between, whatever fails: its faults decide what is inserted and whether the
      values are stored, and both buffers end empty. */
  lemma SaveReaches(setting: Setting, s: State, faults: Faults)
    requires s.memory.Some? && s.memory.value.saver.Resting? && s.memory.value.valueRows != []
    requires Possible(setting, s.memory.value.labelRows, faults)
    ensures Reaches(setting, s, Saved(s, s.memory.value.labelRows, s.memory.value.valueRows, faults))
  {
    var t := Next(setting, s, Tick);
    ReachesNext(setting, s, Tick);
    CopiedReaches(setting, t, faults);
    ReachesOn(setting, s, t, Saved(s, s.memory.value.labelRows, s.memory.value.valueRows, faults));
  }

  /** A save in which nothing fails. */
  lemma SaveSucceeds(setting: Setting, s: State)
    requires s.memory.Some? && s.memory.value.saver.Resting? && s.memory.value.valueRows != []
    ensures var memory := s.memory.value;
            Reaches(setting, s, State(Tables(InsertAll(s.tables.labels, memory.labelRows),
                                             s.tables.values + multiset(memory.valueRows)),
                                      Some(memory.(labelRows := [], valueRows := [])), s.ledger))
  {
    var rows := s.memory.value.labelRows;
    SaveReaches(setting, s, Faults(|rows|, false));
    assert rows[..|rows|] == rows;
  }

  lemma CopiedSucceeds(setting: Setting, s: State)
    requires s.memory.Some? && s.memory.value.saver.LabelsCopied?
    ensures var memory := s.memory.value;
            Reaches(setting, s, State(Tables(InsertAll(s.tables.labels, memory.saver.labels),
                                             s.tables.values + multiset(memory.valueRows)),
                                      Some(memory.(labelRows := [], valueRows := [], saver := Resting)), s.ledger))
  {
    var rows := s.memory.value.saver.labels;
    CopiedReaches(setting, s, Faults(|rows|, false));
    assert rows[..|rows|] == rows;
  }

  /** A save whose first label insert fails. */
  lemma FirstLabelFails(setting: Setting, s: State)
    requires setting.labelFaults && s.memory.Some? && s.memory.value.saver.Resting?
    requires s.memory.value.valueRows != [] && s.memory.value.labelRows != []
    ensures Reaches(setting, s, State(s.tables, Some(s.memory.value.(labelRows := [], valueRows := [])),
                                      s.ledger.(failed := s.ledger.failed + multiset(s.memory.value.valueRows))))
  {
    SaveReaches(setting, s, Faults(0, false));
    assert s.memory.value.labelRows[..0] == [];
  }
}
