/** What a value row records: each one is one of the samples pushed, at the instant its time is converted to
    and with its value, whatever was pushed. */
module WriteRecords {
  import opened MetricString
  import opened WritePath
  import opened WriteInvariant
  import opened WriteGuarantees
  import opened Timestamps

  /** The row says the sample. */
  ghost predicate Recorded(setting: Setting, origin: Origin) {
    && origin.row.time == StoredInstant(origin.sample.timestamp) && origin.row.value == origin.sample.value
    && PlainNames(origin.sample.metric)
    && (setting.unsafeValues || SafeValues(LabelsOf(origin.sample.metric)))
  }

  ghost predicate AllRecorded(setting: Setting, origins: seq<Origin>) {
    forall i :: 0 <= i < |origins| ==> Recorded(setting, origins[i])
  }

  /** Every stored row was there before, or records its sample. */
  ghost predicate StoredRecorded(setting: Setting, before: multiset<Origin>, values: multiset<Origin>) {
    forall origin :: origin in values ==> origin in before || Recorded(setting, origin)
  }

  ghost predicate ParserRecords(setting: Setting, parser: Parser) {
    Admitted(setting, parser.batch) && AllRecorded(setting, parser.parsed)
  }

  ghost predicate MemoryRecords(setting: Setting, memory: Memory) {
    && AllRecorded(setting, memory.valueRows)
    && (forall p :: 0 <= p < |memory.parsers| ==> ParserRecords(setting, memory.parsers[p]))
    && (memory.saver.Writing? ==> AllRecorded(setting, memory.saver.values))
  }

  ghost predicate Records(setting: Setting, before: multiset<Origin>, s: State) {
    StoredRecorded(setting, before, s.tables.values) && (s.memory.Some? ==> MemoryRecords(setting, s.memory.value))
  }

  /* ---- what an access does to a parser's samples ---- */

  datatype Turn = Stay | Keep(id: int) | Skip | Flush

  ghost function TurnOf(parser: Parser): Turn
    requires NeedsSample(parser.phase) ==> parser.batch != []
  {
    match parser.phase
    case Loading => if parser.batch == [] then Flush else Stay
    case Announcing(_) => if Decode(HeadText(parser)).Series? then Stay else Skip
    case Found(id) => Keep(id)
    case _ => Stay
  }

  function BatchAfter(parser: Parser, turn: Turn): seq<Sample>
    requires turn.Keep? || turn.Skip? ==> parser.batch != []
  {
    if turn.Flush? then [] else if turn.Stay? then parser.batch else parser.batch[1..]
  }

  function ParsedAfter(parser: Parser, turn: Turn): seq<Origin>
    requires turn.Keep? || turn.Skip? ==> parser.batch != []
  {
    if turn.Flush? then []
    else if turn.Keep? then parser.parsed + [OriginOf(turn.id, parser.batch[0])]
    else parser.parsed
  }

  ghost predicate CanTurn(memory: Memory, p: nat) {
    && p < |memory.parsers| && !memory.parsers[p].phase.Idle?
    && (NeedsSample(memory.parsers[p].phase) ==> memory.parsers[p].batch != [])
    && ParseNext(memory, p).Some?
  }

  /** An access gives its parser a turn, changes no other parser and not the saver, and appends value rows in
      a flush only. */
  ghost predicate Turns(memory: Memory, after: Memory, p: nat)
    requires p < |memory.parsers| && (NeedsSample(memory.parsers[p].phase) ==> memory.parsers[p].batch != [])
  {
    var parser := memory.parsers[p];
    var turn := TurnOf(parser);
    && (turn.Keep? || turn.Skip? ==> parser.batch != [])
    && |after.parsers| == |memory.parsers| && after.parsers == memory.parsers[p := after.parsers[p]]
    && after.saver == memory.saver
    && after.valueRows == memory.valueRows + (if turn.Flush? then parser.parsed else [])
    && after.parsers[p].batch == BatchAfter(parser, turn) && after.parsers[p].parsed == ParsedAfter(parser, turn)
  }

  lemma QuietTurn(memory: Memory, p: nat)
    requires CanTurn(memory, p)
    requires !memory.parsers[p].phase.Loading? && !memory.parsers[p].phase.Announcing? &&
             !memory.parsers[p].phase.Found?
    ensures Turns(memory, ParseNext(memory, p).value, p)
  {
    assert memory.valueRows + [] == memory.valueRows;
  }

  lemma LoadingTurn(memory: Memory, p: nat)
    requires CanTurn(memory, p) && memory.parsers[p].phase.Loading?
    ensures Turns(memory, ParseNext(memory, p).value, p)
  {
    assert memory.valueRows + [] == memory.valueRows;
  }

  lemma FoundTurn(memory: Memory, p: nat)
    requires CanTurn(memory, p) && memory.parsers[p].phase.Found?
    ensures Turns(memory, ParseNext(memory, p).value, p)
  {
    assert memory.valueRows + [] == memory.valueRows;
  }

  lemma AnnouncedTurn(memory: Memory, p: nat, id: int, text: string, decoded: Decoded)
    requires p < |memory.parsers| && memory.parsers[p].phase == Announcing(id) && memory.parsers[p].batch != []
    requires text == HeadText(memory.parsers[p]) && decoded == Decode(text) && !decoded.NoBrace?
    ensures Turns(memory, Announced(memory, p, id, text, decoded).value, p)
  {
    assert memory.valueRows + [] == memory.valueRows;
  }

  lemma AccessIsTurn(memory: Memory, p: nat)
    requires CanTurn(memory, p)
    ensures Turns(memory, ParseNext(memory, p).value, p)
  {
    var parser := memory.parsers[p];
    match parser.phase
    case Loading => LoadingTurn(memory, p);
    case Announcing(id) => AnnouncedTurn(memory, p, id, HeadText(parser), Decode(HeadText(parser)));
    case Found(_) => FoundTurn(memory, p);
    case _ => QuietTurn(memory, p);
  }

  lemma TurnRecords(setting: Setting, parser: Parser, turn: Turn)
    requires ParserRecords(setting, parser) && (turn.Keep? || turn.Skip? ==> parser.batch != [])
    ensures Admitted(setting, BatchAfter(parser, turn)) && AllRecorded(setting, ParsedAfter(parser, turn))
  {
  }

  lemma ParseKeepsRecords(setting: Setting, memory: Memory, p: nat)
    requires MemoryRecords(setting, memory) && CanTurn(memory, p)
    ensures MemoryRecords(setting, ParseNext(memory, p).value)
  {
    AccessIsTurn(memory, p);
    TurnKeepsRecords(setting, memory, ParseNext(memory, p).value, p);
  }

  lemma TurnKeepsRecords(setting: Setting, memory: Memory, after: Memory, p: nat)
    requires MemoryRecords(setting, memory) && p < |memory.parsers|
    requires (NeedsSample(memory.parsers[p].phase) ==> memory.parsers[p].batch != []) && Turns(memory, after, p)
    ensures MemoryRecords(setting, after)
  {
    assert ParserRecords(setting, memory.parsers[p]);
    TurnRecords(setting, memory.parsers[p], TurnOf(memory.parsers[p]));
    forall q | 0 <= q < |after.parsers|
      ensures ParserRecords(setting, after.parsers[q])
    {
      if q != p {
        assert after.parsers[q] == memory.parsers[q];
      }
    }
  }

  lemma PushKeepsRecords(setting: Setting, memory: Memory, p: nat, batch: seq<Sample>)
    requires MemoryRecords(setting, memory) && p < |memory.parsers| && Admitted(setting, batch)
    ensures MemoryRecords(setting, memory.(parsers := memory.parsers[p := Parser(Loading, batch, [])]))
  {
  }

  lemma BagRecorded(setting: Setting, before: multiset<Origin>, values: multiset<Origin>, rows: seq<Origin>)
    requires StoredRecorded(setting, before, values) && AllRecorded(setting, rows)
    ensures StoredRecorded(setting, before, values + multiset(rows))
  {
    forall origin | origin in values + multiset(rows)
      ensures origin in before || Recorded(setting, origin)
    {
      if origin !in values {
        assert origin in rows;
      }
    }
  }

  lemma SaveKeepsRecords(setting: Setting, before: multiset<Origin>, s: State, fault: bool)
    requires Records(setting, before, s) && s.memory.Some? && !s.memory.value.saver.Resting?
    ensures Records(setting, before, SaveNext(s, fault))
  {
    if s.memory.value.saver.Writing? {
      BagRecorded(setting, before, s.tables.values, s.memory.value.saver.values);
    }
  }

  lemma StepKeepsRecords(setting: Setting, before: multiset<Origin>, s: State, e: Event)
    requires Records(setting, before, s) && Enabled(setting, s, e)
    ensures Records(setting, before, Next(setting, s, e))
  {
    match e
    case Start => AllIdleAtStart(setting, s.tables.labels);
    case Crash =>
    case Push(p, batch) => PushKeepsRecords(setting, s.memory.value, p, batch);
    case Parse(p) =>
      if ParseNext(s.memory.value, p).Some? {
        ParseKeepsRecords(setting, s.memory.value, p);
      }
    case Tick =>
    case Save(fault) => SaveKeepsRecords(setting, before, s, fault);
  }

  lemma {:induction false} RunKeepsRecords(setting: Setting, before: multiset<Origin>, s: State, events: seq<Event>)
    requires Records(setting, before, s) && Runs(setting, s, events)
    ensures Records(setting, before, After(setting, s, events))
    decreases |events|
  {
    if events != [] {
      StepKeepsRecords(setting, before, s, events[0]);
      RunKeepsRecords(setting, before, Next(setting, s, events[0]), events[1..]);
    }
  }

  /** Whatever is pushed, the time recorded is one that a query bound can say. */
  lemma RecordedInReach(setting: Setting, origin: Origin)
    requires Recorded(setting, origin)
    ensures EARLIEST_QUERY_TIME < origin.row.time < LATEST_QUERY_TIME
  {
    var ms := origin.sample.timestamp;
    QuotientBounded(UnixNano(ms));
    ToTimestampIsExact(Quotient(UnixNano(ms), NANOS_PER_MILLI));
  }

  /* ---- every row a push ---- */

  function SamplesOf(origins: seq<Origin>): seq<Sample> {
    seq(|origins|, i requires 0 <= i < |origins| => origins[i].sample)
  }

  /** The samples a parser has been given and has not handed on. */
  function Hand(parser: Parser): multiset<Sample> { multiset(parser.batch) + multiset(SamplesOf(parser.parsed)) }

  function Hands(parsers: seq<Parser>): multiset<Sample> {
    if parsers == [] then multiset{} else Hands(parsers[..|parsers| - 1]) + Hand(parsers[|parsers| - 1])
  }

  function InFlight(s: State): multiset<Sample> {
    if s.memory.Some? then Hands(s.memory.value.parsers) else multiset{}
  }

  function PushedBy(e: Event): multiset<Sample> { if e.Push? then multiset(e.batch) else multiset{} }

  function Pushed(events: seq<Event>): multiset<Sample> {
    if events == [] then multiset{} else PushedBy(events[0]) + Pushed(events[1..])
  }

  ghost predicate Flushes(memory: Memory, p: nat) {
    p < |memory.parsers| && memory.parsers[p].phase == Loading && memory.parsers[p].batch == []
  }

  /** The value rows a step appends to the buffer. */
  ghost function AppendedBy(s: State, e: Event): seq<Origin> {
    if s.memory.Some? && e.Parse? && Flushes(s.memory.value, e.p) then s.memory.value.parsers[e.p].parsed else []
  }

  ghost function AppendedIn(setting: Setting, s: State, events: seq<Event>): seq<Origin>
    requires Runs(setting, s, events)
    decreases |events|
  {
    if events == [] then []
    else AppendedBy(s, events[0]) + AppendedIn(setting, Next(setting, s, events[0]), events[1..])
  }

  /** The sample a step leaves out: the first of its series, whose text is refused. */
  ghost function SkippedBy(s: State, e: Event): multiset<Sample> {
    if s.memory.Some? && e.Parse? && SkipsHead(s.memory.value, e.p)
    then multiset{s.memory.value.parsers[e.p].batch[0]} else multiset{}
  }

  ghost predicate SkipsHead(memory: Memory, p: nat) {
    && p < |memory.parsers| && memory.parsers[p].phase.Announcing? && memory.parsers[p].batch != []
    && Decode(MetricText(memory.parsers[p].batch[0].metric)) == Refused
  }

  /** The samples in flight when the process dies, by a crash or by a parser. */
  ghost function LostBy(setting: Setting, s: State, e: Event): multiset<Sample>
    requires Enabled(setting, s, e)
  {
    if e.Crash? || (e.Parse? && ParseNext(s.memory.value, e.p).None?) then InFlight(s) else multiset{}
  }

  ghost function SkippedIn(setting: Setting, s: State, events: seq<Event>): multiset<Sample>
    requires Runs(setting, s, events)
    decreases |events|
  {
    if events == [] then multiset{}
    else SkippedBy(s, events[0]) + SkippedIn(setting, Next(setting, s, events[0]), events[1..])
  }

  ghost function LostIn(setting: Setting, s: State, events: seq<Event>): multiset<Sample>
    requires Runs(setting, s, events)
    decreases |events|
  {
    if events == [] then multiset{}
    else LostBy(setting, s, events[0]) + LostIn(setting, Next(setting, s, events[0]), events[1..])
  }

  /* ---- idle parsers hold nothing ---- */

  ghost predicate IdleEmpty(parsers: seq<Parser>) {
    forall p :: 0 <= p < |parsers| && parsers[p].phase.Idle? ==> parsers[p] == Parser(Idle, [], [])
  }

  ghost predicate HandsOk(s: State) { s.memory.Some? ==> IdleEmpty(s.memory.value.parsers) }

  lemma OneParserMoves(parsers: seq<Parser>, p: nat, parser: Parser)
    requires IdleEmpty(parsers) && p < |parsers| && (parser.phase.Idle? ==> parser == Parser(Idle, [], []))
    ensures IdleEmpty(parsers[p := parser])
  {
  }

  lemma AccessMovesOne(memory: Memory, p: nat)
    requires CanTurn(memory, p)
    ensures var after := ParseNext(memory, p).value;
            |after.parsers| == |memory.parsers| && after.parsers == memory.parsers[p := after.parsers[p]] &&
            (after.parsers[p].phase.Idle? ==> after.parsers[p] == Parser(Idle, [], []))
  {
    AccessIsTurn(memory, p);
  }

  lemma StepKeepsHands(setting: Setting, s: State, e: Event)
    requires HandsOk(s) && Enabled(setting, s, e)
    ensures HandsOk(Next(setting, s, e))
  {
    match e
    case Start => AllIdleAtStart(setting, s.tables.labels);
    case Push(p, batch) => OneParserMoves(s.memory.value.parsers, p, Parser(Loading, batch, []));
    case Parse(p) =>
      if ParseNext(s.memory.value, p).Some? {
        AccessMovesOne(s.memory.value, p);
        OneParserMoves(s.memory.value.parsers, p, ParseNext(s.memory.value, p).value.parsers[p]);
      }
    case Save(fault) => assert Next(setting, s, e).memory.value.parsers == s.memory.value.parsers;
    case _ =>
  }

  /* ---- the books of the samples ---- */

  lemma SamplesOfBoth(a: seq<Origin>, b: seq<Origin>)
    ensures SamplesOf(a + b) == SamplesOf(a) + SamplesOf(b)
  {
  }

  lemma NoSamples()
    ensures SamplesOf([]) == []
  {
  }

  lemma HandsLast(parsers: seq<Parser>)
    requires parsers != []
    ensures Hands(parsers) == Hands(parsers[..|parsers| - 1]) + Hand(parsers[|parsers| - 1])
  {
  }

  lemma SwapLast<T>(a: multiset<T>, b: multiset<T>, c: multiset<T>, x: multiset<T>, y: multiset<T>)
    requires a + x == b + y
    ensures (a + c) + x == (b + c) + y
    ensures (c + y) + x == (c + x) + y
  {
    forall v
      ensures ((a + c) + x)[v] == ((b + c) + y)[v]
    {
      assert (a + x)[v] == (b + y)[v];
    }
  }

  /** One hand changes. */
  lemma {:induction false} HandsChange(parsers: seq<Parser>, p: nat, parser: Parser)
    requires p < |parsers|
    ensures Hands(parsers[p := parser]) + Hand(parsers[p]) == Hands(parsers) + Hand(parser)
    decreases |parsers|
  {
    var n := |parsers| - 1;
    HandsLast(parsers);
    HandsLast(parsers[p := parser]);
    if p < n {
      HandsChange(parsers[..n], p, parser);
      assert parsers[p := parser][..n] == parsers[..n][p := parser];
      SwapLast(Hands(parsers[..n][p := parser]), Hands(parsers[..n]), Hand(parsers[n]), Hand(parsers[p]), Hand(parser));
    } else {
      assert parsers[p := parser][..n] == parsers[..n];
    }
  }

  lemma {:induction false} IdleHands(parsers: seq<Parser>)
    requires forall p :: 0 <= p < |parsers| ==> parsers[p] == Parser(Idle, [], [])
    ensures Hands(parsers) == multiset{}
  {
    if parsers != [] {
      IdleHands(parsers[..|parsers| - 1]);
      HandsLast(parsers);
      NoSamples();
    }
  }

  /** What a turn appends, what it leaves out and what it leaves in the hand was in the hand before. */
  lemma TurnOfHand(parser: Parser, turn: Turn, after: Parser)
    requires turn.Keep? || turn.Skip? ==> parser.batch != []
    requires turn.Flush? ==> parser.batch == []
    requires after.batch == BatchAfter(parser, turn) && after.parsed == ParsedAfter(parser, turn)
    ensures multiset(SamplesOf(if turn.Flush? then parser.parsed else [])) +
            (if turn.Skip? then multiset{parser.batch[0]} else multiset{}) + Hand(after) == Hand(parser)
  {
    NoSamples();
    if turn.Keep? {
      SamplesOfBoth(parser.parsed, [OriginOf(turn.id, parser.batch[0])]);
      assert SamplesOf([OriginOf(turn.id, parser.batch[0])]) == [parser.batch[0]];
    }
    if turn.Keep? || turn.Skip? {
      assert parser.batch == [parser.batch[0]] + parser.batch[1..];
    }
  }

  lemma HandGivesWay<T>(hands: multiset<T>, after: multiset<T>, x: multiset<T>, y: multiset<T>, out: multiset<T>)
    requires after + x == hands + y && out + y == x
    ensures out + after == hands
  {
    forall v
      ensures (out + after)[v] == hands[v]
    {
      assert (after + x)[v] == (hands + y)[v] && (out + y)[v] == x[v];
    }
  }

  lemma TurnOfHands(memory: Memory, after: Memory, p: nat)
    requires CanTurn(memory, p) && Turns(memory, after, p)
    ensures multiset(SamplesOf(if Flushes(memory, p) then memory.parsers[p].parsed else [])) +
            (if SkipsHead(memory, p) then multiset{memory.parsers[p].batch[0]} else multiset{}) +
            Hands(after.parsers) ==
            Hands(memory.parsers)
  {
    var parser, turn := memory.parsers[p], TurnOf(memory.parsers[p]);
    assert turn.Skip? <==> SkipsHead(memory, p);
    TurnOfHand(parser, turn, after.parsers[p]);
    HandsChange(memory.parsers, p, after.parsers[p]);
    HandGivesWay(Hands(memory.parsers), Hands(after.parsers), Hand(parser), Hand(after.parsers[p]),
                 multiset(SamplesOf(if turn.Flush? then parser.parsed else [])) +
                 (if turn.Skip? then multiset{parser.batch[0]} else multiset{}));
  }

  /** A step moves samples, and neither makes nor drops any. */
  ghost predicate StepBalances(setting: Setting, s: State, e: Event)
    requires Enabled(setting, s, e)
  {
    PushedBy(e) + InFlight(s) ==
    multiset(SamplesOf(AppendedBy(s, e))) + SkippedBy(s, e) + LostBy(setting, s, e) + InFlight(Next(setting, s, e))
  }

  lemma ParseBalances(setting: Setting, s: State, p: nat)
    requires Enabled(setting, s, Parse(p))
    ensures StepBalances(setting, s, Parse(p))
  {
    var memory := s.memory.value;
    NoSamples();
    if ParseNext(memory, p).Some? {
      AccessIsTurn(memory, p);
      TurnOfHands(memory, ParseNext(memory, p).value, p);
    } else {
      assert !Flushes(memory, p) && !SkipsHead(memory, p);
    }
  }

  lemma FreshHand(batch: seq<Sample>)
    ensures Hand(Parser(Loading, batch, [])) == multiset(batch)
    ensures Hand(Parser(Idle, [], [])) == multiset{}
  {
    NoSamples();
  }

  lemma JoinsHands<T>(after: multiset<T>, hands: multiset<T>, x: multiset<T>)
    requires after + multiset{} == hands + x
    ensures after == x + hands
  {
    forall v
      ensures after[v] == (x + hands)[v]
    {
      assert (after + multiset{})[v] == (hands + x)[v];
    }
  }

  lemma PushHand(parsers: seq<Parser>, p: nat, batch: seq<Sample>)
    requires p < |parsers| && parsers[p] == Parser(Idle, [], [])
    ensures Hands(parsers[p := Parser(Loading, batch, [])]) == multiset(batch) + Hands(parsers)
  {
    HandsChange(parsers, p, Parser(Loading, batch, []));
    FreshHand(batch);
    JoinsHands(Hands(parsers[p := Parser(Loading, batch, [])]), Hands(parsers), multiset(batch));
  }

  /** The steps that append nothing. */
  lemma QuietBalances(setting: Setting, s: State, e: Event)
    requires HandsOk(s) && Enabled(setting, s, e) && !e.Parse?
    ensures StepBalances(setting, s, e)
  {
    NoSamples();
    match e
    case Start =>
      AllIdleAtStart(setting, s.tables.labels);
      IdleHands(Started(setting, s.tables.labels).parsers);
    case Crash =>
    case Push(p, batch) => PushHand(s.memory.value.parsers, p, batch);
    case Tick =>
    case Save(fault) => assert Next(setting, s, e).memory.value.parsers == s.memory.value.parsers;
    case _ =>
  }

  lemma Chained<T>(push: multiset<T>, a: multiset<T>, b: multiset<T>, c: multiset<T>, pushes: multiset<T>,
          x: multiset<T>, y: multiset<T>, z: multiset<T>, before: multiset<T>, between: multiset<T>, after: multiset<T>)
    requires push + before == a + b + c + between && pushes + between == x + y + z + after
    ensures (push + pushes) + before == (a + x) + (b + y) + (c + z) + after
  {
    forall v
      ensures ((push + pushes) + before)[v] == ((a + x) + (b + y) + (c + z) + after)[v]
    {
      assert (push + before)[v] == (a + b + c + between)[v] && (pushes + between)[v] == (x + y + z + after)[v];
    }
  }

  /** Over every run, as bags: what is pushed, and what is in flight before it, is appended, left out, lost with
      the process, or still in flight. */
  lemma {:induction false} RunBalances(setting: Setting, s: State, events: seq<Event>)
    requires HandsOk(s) && Runs(setting, s, events)
    ensures Pushed(events) + InFlight(s) ==
            multiset(SamplesOf(AppendedIn(setting, s, events))) + SkippedIn(setting, s, events) +
            LostIn(setting, s, events) + InFlight(After(setting, s, events))
    decreases |events|
  {
    if events == [] {
      NoSamples();
    } else {
      var e, next := events[0], Next(setting, s, events[0]);
      var first, rest := AppendedBy(s, e), AppendedIn(setting, next, events[1..]);
      if e.Parse? {
        ParseBalances(setting, s, e.p);
      } else {
        QuietBalances(setting, s, e);
      }
      StepKeepsHands(setting, s, e);
      RunBalances(setting, next, events[1..]);
      SamplesOfBoth(first, rest);
      Chained(PushedBy(e), multiset(SamplesOf(first)), SkippedBy(s, e), LostBy(setting, s, e), Pushed(events[1..]),
              multiset(SamplesOf(rest)), SkippedIn(setting, next, events[1..]), LostIn(setting, next, events[1..]),
              InFlight(s), InFlight(next), InFlight(After(setting, next, events[1..])));
    }
  }

  lemma ParseAppends(setting: Setting, s: State, p: nat)
    requires Enabled(setting, s, Parse(p))
    ensures Next(setting, s, Parse(p)).ledger.appended == s.ledger.appended + multiset(AppendedBy(s, Parse(p)))
  {
    var memory := s.memory.value;
    if ParseNext(memory, p).Some? {
      assert Next(setting, s, Parse(p)).ledger == Booked(s.ledger, memory, p);
    } else {
      assert !Flushes(memory, p);
    }
  }

  lemma StepAppends(setting: Setting, s: State, e: Event)
    requires Enabled(setting, s, e)
    ensures Next(setting, s, e).ledger.appended == s.ledger.appended + multiset(AppendedBy(s, e))
  {
    match e
    case Parse(p) => ParseAppends(setting, s, p);
    case Save(fault) => assert SaveNext(s, fault).ledger.appended == s.ledger.appended;
    case _ =>
  }

  lemma {:induction false} RunAppends(setting: Setting, s: State, events: seq<Event>)
    requires Runs(setting, s, events)
    ensures After(setting, s, events).ledger.appended == s.ledger.appended + multiset(AppendedIn(setting, s, events))
    decreases |events|
  {
    if events != [] {
      var next := Next(setting, s, events[0]);
      StepAppends(setting, s, events[0]);
      RunAppends(setting, next, events[1..]);
      var first, rest := AppendedBy(s, events[0]), AppendedIn(setting, next, events[1..]);
      assert multiset(first + rest) == multiset(first) + multiset(rest);
    }
  }

  lemma StoredAtMostAppended(setting: Setting, tables: Tables, events: seq<Event>)
    requires Runs(setting, Down(tables), events)
    ensures var s := After(setting, Down(tables), events); s.tables.values <= tables.values + s.ledger.appended
  {
    EveryRowAccountedFor(setting, tables, events);
  }

  /** Over every run from the start, every pushed sample is accounted for once. */
  lemma EverySampleAccountedFor(setting: Setting, tables: Tables, events: seq<Event>)
    requires Runs(setting, Down(tables), events)
    ensures Pushed(events) ==
            multiset(SamplesOf(AppendedIn(setting, Down(tables), events))) +
            SkippedIn(setting, Down(tables), events) + LostIn(setting, Down(tables), events) +
            InFlight(After(setting, Down(tables), events))
  {
    RunBalances(setting, Down(tables), events);
  }

  lemma StoredWereAppended(setting: Setting, tables: Tables, events: seq<Event>, t: State, rows: seq<Origin>)
    requires Runs(setting, Down(tables), events)
    requires t == After(setting, Down(tables), events) && rows == AppendedIn(setting, Down(tables), events)
    ensures multiset(rows) == t.ledger.appended && t.tables.values <= tables.values + multiset(rows)
  {
    StoredAtMostAppended(setting, tables, events);
    RunAppends(setting, Down(tables), events);
    assert t.ledger.appended == multiset{} + multiset(rows);
  }

  lemma StoredAreRecords(setting: Setting, tables: Tables, events: seq<Event>)
    requires Runs(setting, Down(tables), events)
    ensures StoredRecorded(setting, tables.values, After(setting, Down(tables), events).tables.values)
  {
    RunKeepsRecords(setting, tables.values, Down(tables), events);
  }

  lemma {:induction false} AppendedAreRecords(setting: Setting, before: multiset<Origin>, s: State,
          events: seq<Event>)
    requires Records(setting, before, s) && Runs(setting, s, events)
    ensures AllRecorded(setting, AppendedIn(setting, s, events))
    decreases |events|
  {
    if events != [] {
      var next := Next(setting, s, events[0]);
      StepKeepsRecords(setting, before, s, events[0]);
      AppendedAreRecords(setting, before, next, events[1..]);
      var first, rest := AppendedBy(s, events[0]), AppendedIn(setting, next, events[1..]);
      assert AllRecorded(setting, first) && AllRecorded(setting, rest);
      assert AppendedIn(setting, s, events) == first + rest;
    }
  }

  /** Over every run: the rows appended are, as a bag, samples that were pushed, none more often than pushed,
      each row saying its sample; and what the table holds beyond what it held before is some of these rows. */
  lemma RowsArePushes(setting: Setting, tables: Tables, events: seq<Event>, t: State, rows: seq<Origin>)
    requires Runs(setting, Down(tables), events)
    requires t == After(setting, Down(tables), events) && rows == AppendedIn(setting, Down(tables), events)
    ensures multiset(rows) == t.ledger.appended && AllRecorded(setting, rows)
    ensures multiset(SamplesOf(rows)) <= Pushed(events)
    ensures t.tables.values <= tables.values + multiset(rows)
    ensures StoredRecorded(setting, tables.values, t.tables.values)
  {
    AppendedAreRecords(setting, tables.values, Down(tables), events);
    EverySampleAccountedFor(setting, tables, events);
    StoredWereAppended(setting, tables, events, t, rows);
    StoredAreRecords(setting, tables, events);
  }
}
