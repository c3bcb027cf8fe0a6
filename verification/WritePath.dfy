/** The write pipeline of one adapter replica as a transition system: any number of parsers that share a
    map and a counter, one saver, the two tables, crashes and restarts. */
module WritePath {
  import opened Text
  import opened MetricString
  import Timestamps

  /** One pushed sample; `value` stands for the bits of its float64, which are only copied. */
  datatype Sample = Sample(metric: Metric, timestamp: int, value: int)

  datatype LabelRow = LabelRow(id: int, name: string, text: string, labels: map<string, string>)
  datatype ValueRow = ValueRow(id: int, time: int, value: int)

  /** A value row together with the sample it was pushed as, which no table holds. */
  datatype Origin = Origin(row: ValueRow, sample: Sample)

  /** Where a parser stands between two shared-memory accesses. */
  datatype Phase =
    | Idle                              // waiting for a batch
    | Loading                           // about to look the head sample up, or to flush when none is left
    | Waiting                           // the look-up missed; about to lock
    | Rechecking                        // holds the mutex; about to look up again
    | Taken(id: int)                    // holds the mutex; took an id from the counter, about to store it
    | Releasing(id: int, isNew: bool)   // holds the mutex; about to unlock
    | Announcing(id: int)               // about to take the new text apart and append its label row
    | Found(id: int)                    // about to append the value row

  datatype Parser = Parser(phase: Phase, batch: seq<Sample>, parsed: seq<Origin>)

  /** `save`, cut where another goroutine can come in between. */
  datatype Saver =
    | Resting
    | LabelsCopied(labels: seq<LabelRow>)                       // about to copy the value rows
    | Writing(labels: seq<LabelRow>, values: seq<Origin>)       // labels still to insert, then the values
    | DroppingLabels                                            // about to drop the label rows
    | DroppingValues                                            // about to drop the value rows

  datatype Memory = Memory(
    ids: map<string, int>, next: int, mutex: Option<nat>,
    labelRows: seq<LabelRow>, valueRows: seq<Origin>,
    parsers: seq<Parser>, saver: Saver, seed: int)

  datatype Tables = Tables(labels: seq<LabelRow>, values: multiset<Origin>)

  /** What became of the value rows that are in no table and no buffer. */
  datatype Ledger = Ledger(
    appended: multiset<Origin>, failed: multiset<Origin>, late: multiset<Origin>, crashed: multiset<Origin>)

  datatype State = State(tables: Tables, memory: Option<Memory>, ledger: Ledger)

  /** The setting a run takes place in. `overlap` lets appends come in while a save is under way,
      `labelFaults` lets label inserts fail for a reason other than a duplicate, `unsafeValues` lets
      samples carry label values that `%q` does not write as JSON. */
  datatype Setting = Setting(parsers: nat, overlap: bool, labelFaults: bool, unsafeValues: bool)

  datatype Event =
    | Start                              // NewPostgreSQL: register what the label table holds
    | Push(p: nat, batch: seq<Sample>)   // an idle parser takes a batch from the queue
    | Parse(p: nat)                      // a parser makes its next access
    | Tick                               // the saver finds value rows to commit
    | Save(fault: bool)                  // the saver makes its next access
    | Crash                              // the process dies

  /* ---- the label table ---- */

  /** The inserts `metric_labels` would not take: an existing text (the NOT EXISTS guard), an existing
      primary key, an existing name and labels (the UNIQUE constraint). */
  predicate Conflicts(a: LabelRow, b: LabelRow) {
    a.text == b.text || a.id == b.id || (a.name == b.name && a.labels == b.labels)
  }

  predicate Refuses(labels: seq<LabelRow>, row: LabelRow) {
    exists i :: 0 <= i < |labels| && Conflicts(labels[i], row)
  }

  function Insert(labels: seq<LabelRow>, row: LabelRow): seq<LabelRow> {
    if Refuses(labels, row) then labels else labels + [row]
  }

  /** `registerExistingMetrics`: the map and the highest id. */
  function Registered(labels: seq<LabelRow>): map<string, int> {
    if labels == [] then map[]
    else var last := labels[|labels| - 1]; Registered(labels[..|labels| - 1])[last.text := last.id]
  }

  function MaxId(labels: seq<LabelRow>): int {
    if labels == [] then 0
    else Timestamps.Max(MaxId(labels[..|labels| - 1]), labels[|labels| - 1].id)
  }

  /* ---- parsers ---- */

  ghost function HeadText(parser: Parser): string
    requires parser.batch != []
  {
    MetricText(parser.batch[0].metric)
  }

  function OriginOf(id: int, sample: Sample): Origin {
    Origin(ValueRow(id, Timestamps.StoredInstant(sample.timestamp), sample.value), sample)
  }

  function Moved(parser: Parser, phase: Phase): Parser { parser.(phase := phase) }

  function Skipped(parser: Parser): Parser
    requires parser.batch != []
  {
    parser.(phase := Loading, batch := parser.batch[1..])
  }

  /** Appending to the shared buffers is what a save must not meet when it counts as atomic. */
  ghost predicate Appends(parser: Parser) {
    || (parser.phase == Loading && parser.batch == [])
    || (parser.phase.Announcing? && parser.batch != [] && Decode(HeadText(parser)).Series?)
  }

  predicate NeedsSample(phase: Phase) { !phase.Idle? && !phase.Loading? }

  ghost predicate CanParse(setting: Setting, memory: Memory, p: nat) {
    && p < |memory.parsers|
    && var parser := memory.parsers[p];
       && !parser.phase.Idle?
       && (NeedsSample(parser.phase) ==> parser.batch != [])
       && (parser.phase.Waiting? ==> memory.mutex.None?)
       && (Appends(parser) ==> setting.overlap || memory.saver.Resting?)
  }

  /** What comes of a new text once taken apart: a label row, a skipped sample, or a dead process. */
  function Announced(memory: Memory, p: nat, id: int, text: string, decoded: Decoded): Option<Memory>
    requires p < |memory.parsers| && memory.parsers[p].batch != []
  {
    var parser := memory.parsers[p];
    match decoded
    case NoBrace => None
    case Refused => Some(memory.(parsers := memory.parsers[p := Skipped(parser)]))
    case Series(name, labels) =>
      Some(memory.(labelRows := memory.labelRows + [LabelRow(id, name, text, labels)],
                   parsers := memory.parsers[p := Moved(parser, Found(id))]))
  }

  /** The next access of parser `p`. None is the death of the process: slicing a text at index -1 panics. */
  ghost function ParseNext(memory: Memory, p: nat): Option<Memory>
    requires p < |memory.parsers| && !memory.parsers[p].phase.Idle?
    requires NeedsSample(memory.parsers[p].phase) ==> memory.parsers[p].batch != []
  {
    var parser := memory.parsers[p];
    match parser.phase
    case Loading =>
      if parser.batch == [] then
        Some(memory.(valueRows := memory.valueRows + parser.parsed,
                     parsers := memory.parsers[p := Parser(Idle, [], [])]))
      else
        var text := HeadText(parser);
        var phase := if text in memory.ids then Found(memory.ids[text]) else Waiting;
        Some(memory.(parsers := memory.parsers[p := Moved(parser, phase)]))
    case Waiting =>
      Some(memory.(mutex := Some(p), parsers := memory.parsers[p := Moved(parser, Rechecking)]))
    case Rechecking =>
      var text := HeadText(parser);
      if text in memory.ids then
        Some(memory.(parsers := memory.parsers[p := Moved(parser, Releasing(memory.ids[text], false))]))
      else
        Some(memory.(next := memory.next + 1, parsers := memory.parsers[p := Moved(parser, Taken(memory.next))]))
    case Taken(id) =>
      Some(memory.(ids := memory.ids[HeadText(parser) := id],
                   parsers := memory.parsers[p := Moved(parser, Releasing(id, true))]))
    case Releasing(id, isNew) =>
      var phase := if isNew then Announcing(id) else Found(id);
      Some(memory.(mutex := None, parsers := memory.parsers[p := Moved(parser, phase)]))
    case Announcing(id) =>
      Announced(memory, p, id, HeadText(parser), Decode(HeadText(parser)))
    case Found(id) =>
      var appended := Skipped(parser).(parsed := parser.parsed + [OriginOf(id, parser.batch[0])]);
      Some(memory.(parsers := memory.parsers[p := appended]))
  }

  /* ---- the saver ---- */

  predicate CanSave(setting: Setting, memory: Memory, fault: bool) {
    && !memory.saver.Resting?
    && (fault ==> memory.saver.Writing?)
    && (fault && memory.saver.Writing? && memory.saver.labels != [] ==> setting.labelFaults)
  }

  ghost function SaveNext(s: State, fault: bool): State
    requires s.memory.Some? && !s.memory.value.saver.Resting?
  {
    var memory := s.memory.value;
    match memory.saver
    case LabelsCopied(labels) =>
      s.(memory := Some(memory.(saver := Writing(labels, memory.valueRows))))
    case Writing(labels, values) =>
      if fault then
        s.(memory := Some(memory.(saver := DroppingLabels)),
           ledger := s.ledger.(failed := s.ledger.failed + multiset(values)))
      else if labels != [] then
        s.(tables := s.tables.(labels := Insert(s.tables.labels, labels[0])),
           memory := Some(memory.(saver := Writing(labels[1..], values))))
      else
        s.(tables := s.tables.(values := s.tables.values + multiset(values)),
           memory := Some(memory.(saver := DroppingLabels)))
    case DroppingLabels =>
      s.(memory := Some(memory.(labelRows := [], saver := DroppingValues)))
    case DroppingValues =>
      s.(memory := Some(memory.(valueRows := [], saver := Resting)))
  }

  /* ---- the whole system ---- */

  ghost predicate Admitted(setting: Setting, batch: seq<Sample>) {
    forall i :: 0 <= i < |batch| ==>
      PlainNames(batch[i].metric) && (setting.unsafeValues || SafeValues(LabelsOf(batch[i].metric)))
  }

  ghost predicate Enabled(setting: Setting, s: State, e: Event) {
    match e
    case Start => s.memory.None?
    case Crash => s.memory.Some?
    case Push(p, batch) =>
      && s.memory.Some? && p < |s.memory.value.parsers| && s.memory.value.parsers[p].phase.Idle?
      && Admitted(setting, batch)
    case Parse(p) => s.memory.Some? && CanParse(setting, s.memory.value, p)
    case Tick => s.memory.Some? && s.memory.value.saver.Resting? && s.memory.value.valueRows != []
    case Save(fault) => s.memory.Some? && CanSave(setting, s.memory.value, fault)
  }

  function Started(setting: Setting, labels: seq<LabelRow>): Memory {
    Memory(Registered(labels), MaxId(labels) + 1, None, [], [],
           seq(setting.parsers, _ => Parser(Idle, [], [])), Resting, MaxId(labels) + 1)
  }

  /** The value rows a crash at this point takes along: those not yet copied, or copied and not yet written. */
  function Unsettled(memory: Memory): multiset<Origin> {
    match memory.saver
    case Resting => multiset(memory.valueRows)
    case LabelsCopied(_) => multiset(memory.valueRows)
    case Writing(_, values) => multiset(values)
    case DroppingLabels => multiset{}
    case DroppingValues => multiset{}
  }

  function Crashed(s: State): State
    requires s.memory.Some?
  {
    s.(memory := None, ledger := s.ledger.(crashed := s.ledger.crashed + Unsettled(s.memory.value)))
  }

  /** The running save has its copy of the value rows, and will drop whatever joins them now. */
  predicate TooLate(saver: Saver) { saver.Writing? || saver.DroppingLabels? || saver.DroppingValues? }

  /** A flush enters the books: as appended, and as late when it joins the buffer too late to be saved. */
  ghost function Booked(ledger: Ledger, memory: Memory, p: nat): Ledger
    requires p < |memory.parsers|
  {
    var parser := memory.parsers[p];
    if parser.phase == Loading && parser.batch == [] then
      var rows := multiset(parser.parsed);
      ledger.(appended := ledger.appended + rows,
              late := if TooLate(memory.saver) then ledger.late + rows else ledger.late)
    else ledger
  }

  ghost function Next(setting: Setting, s: State, e: Event): State
    requires Enabled(setting, s, e)
  {
    match e
    case Start => s.(memory := Some(Started(setting, s.tables.labels)))
    case Crash => Crashed(s)
    case Push(p, batch) =>
      var memory := s.memory.value;
      s.(memory := Some(memory.(parsers := memory.parsers[p := Parser(Loading, batch, [])])))
    case Parse(p) =>
      (match ParseNext(s.memory.value, p)
       case None => Crashed(s)
       case Some(memory) => s.(memory := Some(memory), ledger := Booked(s.ledger, s.memory.value, p)))
    case Tick =>
      var memory := s.memory.value;
      s.(memory := Some(memory.(saver := LabelsCopied(memory.labelRows))))
    case Save(fault) => SaveNext(s, fault)
  }

  /** A run is the list of its events. */
  ghost predicate Runs(setting: Setting, s: State, events: seq<Event>)
    decreases |events|
  {
    events != [] ==> Enabled(setting, s, events[0]) && Runs(setting, Next(setting, s, events[0]), events[1..])
  }

  ghost function After(setting: Setting, s: State, events: seq<Event>): State
    requires Runs(setting, s, events)
    decreases |events|
  {
    if events == [] then s else After(setting, Next(setting, s, events[0]), events[1..])
  }

  /* ---- where runs begin ---- */

  /** A label row says one series three ways: its text is the one printed for its name and labels. */
  ghost predicate Canonical(row: LabelRow) {
    && '{' !in row.name
    && (forall name :: name in row.labels ==> PlainLabelName(name))
    && row.text == SeriesText(row.name, row.labels)
  }

  ghost predicate TablesOk(labels: seq<LabelRow>) {
    && (forall i :: 0 <= i < |labels| ==> Canonical(labels[i]))
    && (forall i, j :: 0 <= i < j < |labels| ==> labels[i].id != labels[j].id && labels[i].text != labels[j].text)
  }

  /** The label row a value row points to, saying the metric the sample was pushed with. */
  ghost predicate Backed(labels: seq<LabelRow>, origin: Origin) {
    exists i :: 0 <= i < |labels| && labels[i].id == origin.row.id &&
      labels[i].name == NameOf(origin.sample.metric) && labels[i].labels == LabelsOf(origin.sample.metric)
  }

  ghost predicate Sound(tables: Tables) {
    forall origin :: origin in tables.values ==> Backed(tables.labels, origin)
  }

  function Down(tables: Tables): State {
    State(tables, None, Ledger(multiset{}, multiset{}, multiset{}, multiset{}))
  }
}
