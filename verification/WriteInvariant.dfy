/** What every step of the write pipeline keeps, in any setting: one id per series text, the mutex held by
    one parser at a time, and every pending label row still acceptable to the label table. */
module WriteInvariant {
  import opened Text
  import opened MetricString
  import opened WritePath

  ghost predicate Holding(phase: Phase) { phase.Rechecking? || phase.Taken? || phase.Releasing? }

  /** The parser that created an id and has not appended its label row yet. */
  ghost predicate Fresh(phase: Phase) { phase.Announcing? || (phase.Releasing? && phase.isNew) }

  ghost predicate Resolved(phase: Phase) { phase.Releasing? || phase.Announcing? || phase.Found? }

  ghost function IdOf(phase: Phase): int
    requires Resolved(phase)
  {
    match phase
    case Releasing(id, _) => id
    case Announcing(id) => id
    case Found(id) => id
  }

  ghost predicate Maps(ids: map<string, int>, text: string, id: int) { text in ids && ids[text] == id }

  ghost predicate OriginOk(ids: map<string, int>, origin: Origin) {
    PlainNames(origin.sample.metric) && Maps(ids, MetricText(origin.sample.metric), origin.row.id)
  }

  ghost predicate OriginsOk(ids: map<string, int>, origins: seq<Origin>) {
    forall i :: 0 <= i < |origins| ==> OriginOk(ids, origins[i])
  }

  ghost predicate RowsOk(ids: map<string, int>, rows: seq<LabelRow>) {
    forall i :: 0 <= i < |rows| ==> Canonical(rows[i]) && Maps(ids, rows[i].text, rows[i].id)
  }

  ghost predicate Injective(ids: map<string, int>) {
    forall a, b :: a in ids && b in ids && ids[a] == ids[b] ==> a == b
  }

  ghost predicate Unused(ids: map<string, int>, id: int) { forall text :: text in ids ==> ids[text] != id }

  ghost predicate IdsOk(ids: map<string, int>, next: int) {
    Injective(ids) && forall text :: text in ids ==> ids[text] < next
  }

  ghost predicate LockOk(memory: Memory) {
    forall p :: 0 <= p < |memory.parsers| ==> (Holding(memory.parsers[p].phase) <==> memory.mutex == Some(p))
  }

  ghost predicate ParserOk(setting: Setting, ids: map<string, int>, next: int, parser: Parser) {
    && Admitted(setting, parser.batch)
    && OriginsOk(ids, parser.parsed)
    && (NeedsSample(parser.phase) ==> parser.batch != [])
    && (parser.phase.Taken? ==> parser.phase.id == next - 1 && HeadText(parser) !in ids && Unused(ids, next - 1))
    && (Resolved(parser.phase) ==> Maps(ids, HeadText(parser), IdOf(parser.phase)))
  }

  ghost predicate ParsersOk(setting: Setting, memory: Memory) {
    && |memory.parsers| == setting.parsers
    && forall p :: 0 <= p < |memory.parsers| ==> ParserOk(setting, memory.ids, memory.next, memory.parsers[p])
  }

  /** The label rows the next inserts will bring, in order. */
  ghost function Coming(memory: Memory): seq<LabelRow> {
    match memory.saver
    case Resting => memory.labelRows
    case LabelsCopied(labels) => labels
    case Writing(labels, _) => labels
    case DroppingLabels => []
    case DroppingValues => memory.labelRows
  }

  ghost function Copied(saver: Saver): seq<Origin> {
    if saver.Writing? then saver.values else []
  }

  ghost predicate BuffersOk(memory: Memory) {
    && RowsOk(memory.ids, memory.labelRows)
    && RowsOk(memory.ids, Coming(memory))
    && OriginsOk(memory.ids, memory.valueRows)
    && OriginsOk(memory.ids, Copied(memory.saver))
  }

  ghost function Texts(rows: seq<LabelRow>): set<string> { set i | 0 <= i < |rows| :: rows[i].text }

  ghost predicate DistinctTexts(rows: seq<LabelRow>) {
    forall i, j :: 0 <= i < j < |rows| ==> rows[i].text != rows[j].text
  }

  ghost predicate FreshText(memory: Memory, p: nat, text: string) {
    p < |memory.parsers| && Fresh(memory.parsers[p].phase) && memory.parsers[p].batch != []
    && HeadText(memory.parsers[p]) == text
  }

  /** No series text is on its way to the table twice, or on its way there and in it. */
  ghost predicate AnnouncedOnce(labels: seq<LabelRow>, memory: Memory) {
    && DistinctTexts(Coming(memory))
    && Texts(Coming(memory)) !! Texts(labels)
    && (forall p, text :: FreshText(memory, p, text) ==> text !in Texts(labels) && text !in Texts(Coming(memory)))
    && (forall p, q, text :: FreshText(memory, p, text) && FreshText(memory, q, text) ==> p == q)
  }

  ghost predicate MemoryOk(setting: Setting, labels: seq<LabelRow>, memory: Memory) {
    && IdsOk(memory.ids, memory.next)
    && RowsOk(memory.ids, labels)
    && LockOk(memory)
    && ParsersOk(setting, memory)
    && BuffersOk(memory)
    && AnnouncedOnce(labels, memory)
  }

  ghost predicate Ok(setting: Setting, s: State) {
    TablesOk(s.tables.labels) && (s.memory.Some? ==> MemoryOk(setting, s.tables.labels, s.memory.value))
  }

  /* ---- startup ---- */

  lemma {:induction false} RegisteredExactly(labels: seq<LabelRow>)
    requires DistinctTexts(labels)
    ensures forall i :: 0 <= i < |labels| ==> Maps(Registered(labels), labels[i].text, labels[i].id)
    ensures forall text :: text in Registered(labels) ==>
            exists i :: 0 <= i < |labels| && labels[i].text == text && labels[i].id == Registered(labels)[text]
  {
    if labels != [] {
      var n := |labels| - 1;
      var others := labels[..n];
      assert DistinctTexts(others);
      RegisteredExactly(others);
      forall i | 0 <= i < |labels|
        ensures Maps(Registered(labels), labels[i].text, labels[i].id)
      {
        if i < n {
          assert others[i] == labels[i];
        }
      }
      forall text | text in Registered(labels)
        ensures exists i :: 0 <= i < |labels| && labels[i].text == text && labels[i].id == Registered(labels)[text]
      {
        if text == labels[n].text {
          assert labels[n].id == Registered(labels)[text];
        } else {
          assert text in Registered(others) && Registered(others)[text] == Registered(labels)[text];
          var i :| 0 <= i < |others| && others[i].text == text && others[i].id == Registered(others)[text];
          assert labels[i] == others[i];
        }
      }
    }
  }

  lemma {:induction false} MaxIdBounds(labels: seq<LabelRow>)
    ensures forall i :: 0 <= i < |labels| ==> labels[i].id <= MaxId(labels)
  {
    if labels != [] {
      MaxIdBounds(labels[..|labels| - 1]);
      forall i | 0 <= i < |labels|
        ensures labels[i].id <= MaxId(labels)
      {
        if i < |labels| - 1 {
          assert labels[..|labels| - 1][i] == labels[i];
        }
      }
    }
  }

  /** The highest id is one of the ids, or zero when none is positive. */
  lemma {:induction false} MaxIdAttained(labels: seq<LabelRow>)
    ensures MaxId(labels) >= 0
    ensures MaxId(labels) == 0 || exists i :: 0 <= i < |labels| && labels[i].id == MaxId(labels)
  {
    if labels != [] {
      var others := labels[..|labels| - 1];
      MaxIdAttained(others);
      if MaxId(labels) == labels[|labels| - 1].id {
      } else if MaxId(labels) != 0 {
        var i :| 0 <= i < |others| && others[i].id == MaxId(others);
        assert labels[i] == others[i];
      }
    }
  }

  /** The i-th row is the last of this text, and has this id. */
  predicate LastOfText(labels: seq<LabelRow>, i: int, text: string, id: int) {
    && 0 <= i < |labels| && labels[i].text == text && labels[i].id == id
    && forall j :: i < j < |labels| ==> labels[j].text != text
  }

  /** Any table, even one with a text twice: every text of it is known, under the id of its last row. */
  lemma {:induction false} RegisteredTakesLast(labels: seq<LabelRow>)
    ensures forall i :: 0 <= i < |labels| ==> labels[i].text in Registered(labels)
    ensures forall text :: text in Registered(labels) ==>
              exists i :: LastOfText(labels, i, text, Registered(labels)[text])
  {
    if labels != [] {
      var n := |labels| - 1;
      var others := labels[..n];
      RegisteredTakesLast(others);
      assert forall i :: 0 <= i < n ==> others[i] == labels[i];
      forall text | text in Registered(labels)
        ensures exists i :: LastOfText(labels, i, text, Registered(labels)[text])
      {
        if text == labels[n].text {
          assert LastOfText(labels, n, text, labels[n].id);
        } else {
          var i :| LastOfText(others, i, text, Registered(others)[text]);
          assert LastOfText(labels, i, text, Registered(labels)[text]);
        }
      }
    }
  }

  lemma RegisteredIdsOk(labels: seq<LabelRow>)
    requires TablesOk(labels)
    ensures IdsOk(Registered(labels), MaxId(labels) + 1) && RowsOk(Registered(labels), labels)
  {
    var ids := Registered(labels);
    RegisteredExactly(labels);
    MaxIdBounds(labels);
    forall a, b | a in ids && b in ids && ids[a] == ids[b]
      ensures a == b
    {
      var i :| 0 <= i < |labels| && labels[i].text == a && labels[i].id == ids[a];
      var j :| 0 <= j < |labels| && labels[j].text == b && labels[j].id == ids[b];
    }
    forall text | text in ids
      ensures ids[text] < MaxId(labels) + 1
    {
      var i :| 0 <= i < |labels| && labels[i].text == text && labels[i].id == ids[text];
    }
  }

  lemma AllIdleAtStart(setting: Setting, labels: seq<LabelRow>)
    ensures forall p :: 0 <= p < |Started(setting, labels).parsers| ==>
      Started(setting, labels).parsers[p] == Parser(Idle, [], [])
  {
  }

  lemma StartAnnouncesNothing(labels: seq<LabelRow>, memory: Memory)
    requires forall p :: 0 <= p < |memory.parsers| ==> memory.parsers[p] == Parser(Idle, [], [])
    requires memory.labelRows == [] && memory.saver == Resting
    ensures AnnouncedOnce(labels, memory)
  {
  }

  lemma StartHoldsNothing(setting: Setting, memory: Memory)
    requires |memory.parsers| == setting.parsers
    requires forall p :: 0 <= p < |memory.parsers| ==> memory.parsers[p] == Parser(Idle, [], [])
    requires memory.labelRows == [] && memory.valueRows == [] && memory.saver == Resting && memory.mutex == None
    ensures LockOk(memory) && ParsersOk(setting, memory) && BuffersOk(memory)
  {
  }

  lemma StartKeeps(setting: Setting, labels: seq<LabelRow>)
    requires TablesOk(labels)
    ensures MemoryOk(setting, labels, Started(setting, labels))
  {
    RegisteredIdsOk(labels);
    AllIdleAtStart(setting, labels);
    StartAnnouncesNothing(labels, Started(setting, labels));
    StartHoldsNothing(setting, Started(setting, labels));
  }

  /* ---- parsers ---- */

  /** What a step of parser `p` may change besides the parser itself without upsetting the others: new
      texts get an id nobody uses, and the counter only grows. */
  ghost predicate Extends(before: map<string, int>, after: map<string, int>) {
    forall text :: text in before ==> Maps(after, text, before[text])
  }

  lemma RowsStay(before: map<string, int>, after: map<string, int>, rows: seq<LabelRow>)
    requires Extends(before, after) && RowsOk(before, rows)
    ensures RowsOk(after, rows)
  {
  }

  lemma OriginsStay(before: map<string, int>, after: map<string, int>, origins: seq<Origin>)
    requires Extends(before, after) && OriginsOk(before, origins)
    ensures OriginsOk(after, origins)
  {
  }

  /** Parsers other than `p` stay as they should when `p` moves. */
  lemma OthersStay(setting: Setting, memory: Memory, after: Memory, p: nat)
    requires ParsersOk(setting, memory) && LockOk(memory) && p < |memory.parsers| == |after.parsers|
    requires forall q :: 0 <= q < |memory.parsers| && q != p ==> after.parsers[q] == memory.parsers[q]
    requires Extends(memory.ids, after.ids)
    requires (after.ids == memory.ids && after.next == memory.next) || memory.mutex == Some(p)
    requires ParserOk(setting, after.ids, after.next, after.parsers[p])
    ensures ParsersOk(setting, after)
  {
    forall q | 0 <= q < |after.parsers|
      ensures ParserOk(setting, after.ids, after.next, after.parsers[q])
    {
      if q != p {
        assert ParserOk(setting, memory.ids, memory.next, memory.parsers[q]);
        OriginsStay(memory.ids, after.ids, memory.parsers[q].parsed);
        assert Holding(memory.parsers[q].phase) <==> memory.mutex == Some(q);
      }
    }
  }

  lemma LockFollows(memory: Memory, after: Memory, p: nat)
    requires LockOk(memory) && p < |memory.parsers| == |after.parsers|
    requires forall q :: 0 <= q < |memory.parsers| && q != p ==> after.parsers[q] == memory.parsers[q]
    requires after.mutex ==
             (if Holding(after.parsers[p].phase) then Some(p)
              else if memory.mutex == Some(p) then None
              else memory.mutex)
    requires Holding(after.parsers[p].phase) ==> memory.mutex.None? || memory.mutex == Some(p)
    ensures LockOk(after)
  {
    forall q | 0 <= q < |after.parsers|
      ensures Holding(after.parsers[q].phase) <==> after.mutex == Some(q)
    {
      assert q != p ==> (Holding(memory.parsers[q].phase) <==> memory.mutex == Some(q));
    }
  }

  /** The announcements in hand stay single when no parser but `p` moves and nothing joins the coming rows. */
  lemma AnnouncementsStay(labels: seq<LabelRow>, memory: Memory, after: Memory, p: nat)
    requires AnnouncedOnce(labels, memory) && p < |memory.parsers| == |after.parsers|
    requires forall q :: 0 <= q < |memory.parsers| && q != p ==> after.parsers[q] == memory.parsers[q]
    requires Coming(after) == Coming(memory)
    requires forall text :: FreshText(after, p, text) ==> FreshText(memory, p, text)
    ensures AnnouncedOnce(labels, after)
  {
    forall q, text | FreshText(after, q, text)
      ensures FreshText(memory, q, text)
    {
    }
  }

  lemma ParseKeepsLoading(setting: Setting, labels: seq<LabelRow>, memory: Memory, p: nat)
    requires MemoryOk(setting, labels, memory) && CanParse(setting, memory, p) && memory.parsers[p].phase.Loading?
    ensures MemoryOk(setting, labels, ParseNext(memory, p).value)
  {
    var parser, after := memory.parsers[p], ParseNext(memory, p).value;
    assert ParserOk(setting, memory.ids, memory.next, parser);
    OthersStay(setting, memory, after, p);
    LockFollows(memory, after, p);
    AnnouncementsStay(labels, memory, after, p);
  }

  lemma ParseKeepsLocking(setting: Setting, labels: seq<LabelRow>, memory: Memory, p: nat)
    requires MemoryOk(setting, labels, memory) && CanParse(setting, memory, p)
    requires memory.parsers[p].phase.Waiting? || memory.parsers[p].phase.Rechecking?
    ensures MemoryOk(setting, labels, ParseNext(memory, p).value)
  {
    var parser, after := memory.parsers[p], ParseNext(memory, p).value;
    assert ParserOk(setting, memory.ids, memory.next, parser);
    OthersStay(setting, memory, after, p);
    LockFollows(memory, after, p);
    AnnouncementsStay(labels, memory, after, p);
  }

  /** All rows and buffers stay mapped when the map only grows. */
  lemma BuffersStay(before: map<string, int>, memory: Memory)
    requires Extends(before, memory.ids)
    requires RowsOk(before, memory.labelRows) && RowsOk(before, Coming(memory))
    requires OriginsOk(before, memory.valueRows) && OriginsOk(before, Copied(memory.saver))
    ensures BuffersOk(memory)
  {
    RowsStay(before, memory.ids, memory.labelRows);
    RowsStay(before, memory.ids, Coming(memory));
    OriginsStay(before, memory.ids, memory.valueRows);
    OriginsStay(before, memory.ids, Copied(memory.saver));
  }

  lemma StoredNext(memory: Memory, p: nat)
    requires p < |memory.parsers| && memory.parsers[p].phase.Taken? && memory.parsers[p].batch != []
    ensures var parser, id := memory.parsers[p], memory.parsers[p].phase.id;
            ParseNext(memory, p) == Some(memory.(ids := memory.ids[HeadText(parser) := id],
                                                 parsers := memory.parsers[p := Moved(parser, Releasing(id, true))]))
  {
  }

  /** Storing a new text makes it the one fresh announcement more. */
  lemma OneMoreAnnouncement(labels: seq<LabelRow>, memory: Memory, after: Memory, p: nat, text: string)
    requires AnnouncedOnce(labels, memory) && p < |memory.parsers| == |after.parsers|
    requires forall q :: 0 <= q < |memory.parsers| && q != p ==> after.parsers[q] == memory.parsers[q]
    requires Coming(after) == Coming(memory) && text !in Texts(labels) && text !in Texts(Coming(memory))
    requires forall t :: FreshText(after, p, t) ==> t == text
    requires forall q :: !FreshText(memory, q, text)
    ensures AnnouncedOnce(labels, after)
  {
    forall q, t | FreshText(after, q, t)
      ensures (q == p && t == text) || FreshText(memory, q, t)
    {
    }
  }

  lemma IdsGrow(before: map<string, int>, text: string, id: int, next: int)
    requires IdsOk(before, next) && text !in before && Unused(before, id) && id < next
    ensures IdsOk(before[text := id], next) && Extends(before, before[text := id])
  {
  }

  lemma TakenKeepsParsers(setting: Setting, memory: Memory, p: nat)
    requires IdsOk(memory.ids, memory.next) && ParsersOk(setting, memory) && LockOk(memory)
    requires p < |memory.parsers| && memory.parsers[p].phase.Taken? && memory.parsers[p].batch != []
    ensures var after := ParseNext(memory, p).value;
            && Extends(memory.ids, after.ids) && IdsOk(after.ids, after.next)
            && ParsersOk(setting, after) && LockOk(after)
  {
    var parser := memory.parsers[p];
    assert ParserOk(setting, memory.ids, memory.next, parser);
    StoredNext(memory, p);
    var after := ParseNext(memory, p).value;
    IdsGrow(memory.ids, HeadText(parser), memory.next - 1, memory.next);
    OriginsStay(memory.ids, after.ids, parser.parsed);
    OthersStay(setting, memory, after, p);
    LockFollows(memory, after, p);
  }

  lemma TakenKeepsAnnouncements(setting: Setting, labels: seq<LabelRow>, memory: Memory, p: nat)
    requires MemoryOk(setting, labels, memory) && CanParse(setting, memory, p) && memory.parsers[p].phase.Taken?
    ensures AnnouncedOnce(labels, ParseNext(memory, p).value)
  {
    var text := HeadText(memory.parsers[p]);
    assert ParserOk(setting, memory.ids, memory.next, memory.parsers[p]);
    StoredNext(memory, p);
    NewTextIsNowhere(setting, labels, memory, text);
    OneMoreAnnouncement(labels, memory, ParseNext(memory, p).value, p, text);
  }

  lemma ParseKeepsTaken(setting: Setting, labels: seq<LabelRow>, memory: Memory, p: nat)
    requires MemoryOk(setting, labels, memory) && CanParse(setting, memory, p) && memory.parsers[p].phase.Taken?
    ensures MemoryOk(setting, labels, ParseNext(memory, p).value)
  {
    TakenKeepsParsers(setting, memory, p);
    TakenKeepsAnnouncements(setting, labels, memory, p);
    StoredNext(memory, p);
    var after := ParseNext(memory, p).value;
    RowsStay(memory.ids, after.ids, labels);
    BuffersStay(memory.ids, after);
  }

  /** A text without an id is neither in the table nor on its way there. */
  lemma NewTextIsNowhere(setting: Setting, labels: seq<LabelRow>, memory: Memory, text: string)
    requires MemoryOk(setting, labels, memory) && text !in memory.ids
    ensures text !in Texts(labels) && text !in Texts(Coming(memory))
    ensures forall q :: !FreshText(memory, q, text)
  {
    forall q: nat
      ensures !FreshText(memory, q, text)
    {
    }
  }

  lemma ParseKeepsReleasing(setting: Setting, labels: seq<LabelRow>, memory: Memory, p: nat)
    requires MemoryOk(setting, labels, memory) && CanParse(setting, memory, p) && memory.parsers[p].phase.Releasing?
    ensures MemoryOk(setting, labels, ParseNext(memory, p).value)
  {
    var parser, after := memory.parsers[p], ParseNext(memory, p).value;
    assert ParserOk(setting, memory.ids, memory.next, parser);
    OthersStay(setting, memory, after, p);
    LockFollows(memory, after, p);
    AnnouncementsStay(labels, memory, after, p);
  }

  lemma SkipKeeps(setting: Setting, labels: seq<LabelRow>, memory: Memory, p: nat)
    requires MemoryOk(setting, labels, memory) && p < |memory.parsers| && memory.parsers[p].phase.Announcing?
    requires memory.parsers[p].batch != []
    ensures MemoryOk(setting, labels, memory.(parsers := memory.parsers[p := Skipped(memory.parsers[p])]))
  {
    var after := memory.(parsers := memory.parsers[p := Skipped(memory.parsers[p])]);
    assert ParserOk(setting, memory.ids, memory.next, memory.parsers[p]);
    OthersStay(setting, memory, after, p);
    LockFollows(memory, after, p);
    AnnouncementsStay(labels, memory, after, p);
  }

  lemma AnnounceKeepsRows(labels: seq<LabelRow>, memory: Memory, p: nat, row: LabelRow, after: Memory)
    requires BuffersOk(memory) && AnnouncedOnce(labels, memory) && FreshText(memory, p, row.text)
    requires Canonical(row) && Maps(memory.ids, row.text, row.id)
    requires after == memory.(labelRows := memory.labelRows + [row],
                              parsers := memory.parsers[p := Moved(memory.parsers[p], Found(row.id))])
    ensures BuffersOk(after) && AnnouncedOnce(labels, after)
  {
    AnnouncementJoins(labels, memory, after, p, row);
  }

  lemma AnnounceKeeps(setting: Setting, labels: seq<LabelRow>, memory: Memory, p: nat, row: LabelRow)
    requires MemoryOk(setting, labels, memory) && p < |memory.parsers| && memory.parsers[p].phase.Announcing?
    requires memory.parsers[p].batch != []
    requires Canonical(row) && row.id == memory.parsers[p].phase.id && row.text == HeadText(memory.parsers[p])
    ensures MemoryOk(setting, labels, memory.(labelRows := memory.labelRows + [row],
                                              parsers := memory.parsers[p := Moved(memory.parsers[p], Found(row.id))]))
  {
    var after := memory.(labelRows := memory.labelRows + [row],
                         parsers := memory.parsers[p := Moved(memory.parsers[p], Found(row.id))]);
    assert ParserOk(setting, memory.ids, memory.next, memory.parsers[p]);
    AnnounceKeepsRows(labels, memory, p, row, after);
    OthersStay(setting, memory, after, p);
    LockFollows(memory, after, p);
  }

  lemma AnnouncedKeeps(setting: Setting, labels: seq<LabelRow>, memory: Memory, p: nat, text: string, decoded: Decoded)
    requires MemoryOk(setting, labels, memory) && p < |memory.parsers| && memory.parsers[p].phase.Announcing?
    requires memory.parsers[p].batch != [] && text == HeadText(memory.parsers[p]) && !decoded.NoBrace?
    requires decoded.Series? ==> Canonical(LabelRow(memory.parsers[p].phase.id, decoded.name, text, decoded.labels))
    ensures MemoryOk(setting, labels, Announced(memory, p, memory.parsers[p].phase.id, text, decoded).value)
  {
    if decoded.Series? {
      AnnounceKeeps(setting, labels, memory, p,
                    LabelRow(memory.parsers[p].phase.id, decoded.name, text, decoded.labels));
    } else {
      SkipKeeps(setting, labels, memory, p);
    }
  }

  lemma ParseKeepsAnnouncing(setting: Setting, labels: seq<LabelRow>, memory: Memory, p: nat)
    requires MemoryOk(setting, labels, memory) && CanParse(setting, memory, p) && memory.parsers[p].phase.Announcing?
    requires ParseNext(memory, p).Some?
    ensures MemoryOk(setting, labels, ParseNext(memory, p).value)
  {
    var parser := memory.parsers[p];
    HeadPlain(setting, memory, p);
    HeadRow(parser);
    AnnouncedKeeps(setting, labels, memory, p, HeadText(parser), Decode(HeadText(parser)));
  }

  lemma HeadPlain(setting: Setting, memory: Memory, p: nat)
    requires ParsersOk(setting, memory) && p < |memory.parsers| && memory.parsers[p].batch != []
    ensures PlainNames(memory.parsers[p].batch[0].metric)
    ensures setting.unsafeValues || SafeValues(LabelsOf(memory.parsers[p].batch[0].metric))
  {
    assert ParserOk(setting, memory.ids, memory.next, memory.parsers[p]);
  }

  lemma HeadRow(parser: Parser)
    requires parser.batch != [] && parser.phase.Announcing? && PlainNames(parser.batch[0].metric)
    ensures var decoded := Decode(HeadText(parser));
            decoded.Series? ==> Canonical(LabelRow(parser.phase.id, decoded.name, HeadText(parser), decoded.labels))
  {
    DecodeExact(parser.batch[0].metric);
  }

  lemma TextsOfMore(rows: seq<LabelRow>, row: LabelRow)
    ensures Texts(rows + [row]) == Texts(rows) + {row.text}
  {
    assert (rows + [row])[|rows|].text in Texts(rows + [row]);
    forall text | text in Texts(rows)
      ensures text in Texts(rows + [row])
    {
      var i :| 0 <= i < |rows| && rows[i].text == text;
      assert (rows + [row])[i].text == text;
    }
  }

  lemma OneMoreText(rows: seq<LabelRow>, row: LabelRow)
    requires DistinctTexts(rows) && row.text !in Texts(rows)
    ensures DistinctTexts(rows + [row])
  {
    assert forall i :: 0 <= i < |rows| ==> rows[i].text in Texts(rows);
  }

  /** The announced row joins the coming rows, or is already left out of the save under way. */
  lemma AnnouncementJoins(labels: seq<LabelRow>, memory: Memory, after: Memory, p: nat, row: LabelRow)
    requires AnnouncedOnce(labels, memory) && p < |memory.parsers| == |after.parsers|
    requires forall q :: 0 <= q < |memory.parsers| && q != p ==> after.parsers[q] == memory.parsers[q]
    requires FreshText(memory, p, row.text) && !Fresh(after.parsers[p].phase)
    requires after.saver == memory.saver && after.labelRows == memory.labelRows + [row]
    ensures AnnouncedOnce(labels, after)
  {
    assert Coming(after) == Coming(memory) || Coming(after) == Coming(memory) + [row];
    TextsOfMore(Coming(memory), row);
    OneMoreText(Coming(memory), row);
    forall q, t | FreshText(after, q, t)
      ensures FreshText(memory, q, t) && t != row.text
    {
      assert q != p && FreshText(memory, q, t);
    }
  }

  /** A found id is mapped from the text of its sample, so the value row made of both is in order. */
  lemma FoundKept(setting: Setting, ids: map<string, int>, next: int, parser: Parser)
    requires ParserOk(setting, ids, next, parser) && parser.phase.Found? && parser.batch != []
    ensures var origin := OriginOf(parser.phase.id, parser.batch[0]);
            ParserOk(setting, ids, next, Skipped(parser).(parsed := parser.parsed + [origin]))
  {
  }

  lemma ParseKeepsFound(setting: Setting, labels: seq<LabelRow>, memory: Memory, p: nat)
    requires MemoryOk(setting, labels, memory) && CanParse(setting, memory, p) && memory.parsers[p].phase.Found?
    ensures MemoryOk(setting, labels, ParseNext(memory, p).value)
  {
    var parser, after := memory.parsers[p], ParseNext(memory, p).value;
    FoundKept(setting, memory.ids, memory.next, parser);
    OthersStay(setting, memory, after, p);
    LockFollows(memory, after, p);
    AnnouncementsStay(labels, memory, after, p);
  }

  lemma ParseKeeps(setting: Setting, labels: seq<LabelRow>, memory: Memory, p: nat)
    requires MemoryOk(setting, labels, memory) && CanParse(setting, memory, p) && ParseNext(memory, p).Some?
    ensures MemoryOk(setting, labels, ParseNext(memory, p).value)
  {
    match memory.parsers[p].phase
    case Loading => ParseKeepsLoading(setting, labels, memory, p);
    case Waiting => ParseKeepsLocking(setting, labels, memory, p);
    case Rechecking => ParseKeepsLocking(setting, labels, memory, p);
    case Taken(_) => ParseKeepsTaken(setting, labels, memory, p);
    case Releasing(_, _) => ParseKeepsReleasing(setting, labels, memory, p);
    case Announcing(_) => ParseKeepsAnnouncing(setting, labels, memory, p);
    case Found(_) => ParseKeepsFound(setting, labels, memory, p);
  }

  lemma PushKeeps(setting: Setting, labels: seq<LabelRow>, memory: Memory, p: nat, batch: seq<Sample>)
    requires MemoryOk(setting, labels, memory)
    requires p < |memory.parsers| && memory.parsers[p].phase.Idle? && Admitted(setting, batch)
    ensures MemoryOk(setting, labels, memory.(parsers := memory.parsers[p := Parser(Loading, batch, [])]))
  {
    var after := memory.(parsers := memory.parsers[p := Parser(Loading, batch, [])]);
    OthersStay(setting, memory, after, p);
    LockFollows(memory, after, p);
    AnnouncementsStay(labels, memory, after, p);
  }

  /* ---- the saver ---- */

  /** An insert the invariant allows conflicts with nothing in the table: neither with the NOT EXISTS
      guard, nor with the primary key, nor with UNIQUE(metric_name, metric_labels). */
  lemma ComingRowIsNew(setting: Setting, labels: seq<LabelRow>, memory: Memory)
    requires TablesOk(labels) && MemoryOk(setting, labels, memory) && Coming(memory) != []
    ensures !Refuses(labels, Coming(memory)[0])
  {
    var row := Coming(memory)[0];
    assert row.text in Texts(Coming(memory));
    forall i | 0 <= i < |labels|
      ensures !Conflicts(labels[i], row)
    {
      assert labels[i].text in Texts(labels);
      assert Maps(memory.ids, labels[i].text, labels[i].id) && Maps(memory.ids, row.text, row.id);
      assert Canonical(labels[i]) && Canonical(row);
    }
  }

  lemma NewRowConflictsNowhere(labels: seq<LabelRow>, row: LabelRow, i: nat)
    requires !Refuses(labels, row) && i < |labels|
    ensures labels[i].id != row.id && labels[i].text != row.text
  {
    assert !Conflicts(labels[i], row);
  }

  lemma InsertKeepsTable(labels: seq<LabelRow>, row: LabelRow)
    requires TablesOk(labels) && Canonical(row) && !Refuses(labels, row)
    ensures TablesOk(labels + [row])
  {
    var inserted := labels + [row];
    forall i: nat, j: nat | i < j < |inserted|
      ensures inserted[i].id != inserted[j].id && inserted[i].text != inserted[j].text
    {
      if j == |labels| {
        NewRowConflictsNowhere(labels, row, i);
      }
    }
  }

  lemma InsertMovesTexts(labels: seq<LabelRow>, memory: Memory)
    requires AnnouncedOnce(labels, memory) && memory.saver.Writing? && memory.saver.labels != []
    ensures AnnouncedOnce(labels + [memory.saver.labels[0]],
                          memory.(saver := Writing(memory.saver.labels[1..], memory.saver.values)))
  {
    var rows := memory.saver.labels;
    var after := memory.(saver := Writing(rows[1..], memory.saver.values));
    TextsMove(labels, rows);
    forall q, text | FreshText(after, q, text)
      ensures FreshText(memory, q, text)
    {
    }
  }

  lemma InsertKeepsMemory(setting: Setting, labels: seq<LabelRow>, memory: Memory)
    requires MemoryOk(setting, labels, memory)
    requires memory.saver.Writing? && memory.saver.labels != []
    ensures MemoryOk(setting, labels + [memory.saver.labels[0]],
                     memory.(saver := Writing(memory.saver.labels[1..], memory.saver.values)))
  {
    assert Canonical(Coming(memory)[0]) && Maps(memory.ids, Coming(memory)[0].text, Coming(memory)[0].id);
    InsertMovesTexts(labels, memory);
  }

  lemma InsertKeeps(setting: Setting, labels: seq<LabelRow>, memory: Memory)
    requires TablesOk(labels) && MemoryOk(setting, labels, memory)
    requires memory.saver.Writing? && memory.saver.labels != []
    ensures TablesOk(Insert(labels, memory.saver.labels[0]))
    ensures MemoryOk(setting, Insert(labels, memory.saver.labels[0]),
                     memory.(saver := Writing(memory.saver.labels[1..], memory.saver.values)))
  {
    var row := memory.saver.labels[0];
    ComingRowIsNew(setting, labels, memory);
    assert Canonical(row);
    InsertKeepsTable(labels, row);
    InsertKeepsMemory(setting, labels, memory);
  }

  lemma TextsMove(labels: seq<LabelRow>, rows: seq<LabelRow>)
    requires rows != [] && DistinctTexts(rows) && Texts(rows) !! Texts(labels)
    ensures DistinctTexts(rows[1..])
    ensures Texts(rows[1..]) <= Texts(rows) && rows[0].text !in Texts(rows[1..])
    ensures Texts(labels + [rows[0]]) == Texts(labels) + {rows[0].text}
    ensures Texts(rows[1..]) !! Texts(labels + [rows[0]])
    ensures rows[0].text in Texts(rows)
  {
    var inserted := labels + [rows[0]];
    assert inserted[|labels|].text in Texts(inserted);
    forall text | text in Texts(labels)
      ensures text in Texts(inserted)
    {
      var i :| 0 <= i < |labels| && labels[i].text == text;
      assert inserted[i].text == text;
    }
    forall text | text in Texts(rows[1..])
      ensures text in Texts(rows) && text != rows[0].text
    {
      var i :| 0 <= i < |rows[1..]| && rows[1..][i].text == text;
      assert rows[i + 1].text == text;
    }
  }

  /** The announcements in hand stay single when the parsers stand still and no row joins the coming ones. */
  lemma FewerComing(labels: seq<LabelRow>, memory: Memory, after: Memory)
    requires AnnouncedOnce(labels, memory) && after.parsers == memory.parsers
    requires Coming(after) == Coming(memory) || Coming(after) == []
    ensures AnnouncedOnce(labels, after)
  {
    forall q, text | FreshText(after, q, text)
      ensures FreshText(memory, q, text)
    {
    }
  }

  /** A move of the saver that brings nothing new into the buffers or the coming rows. */
  ghost predicate Unloads(memory: Memory, after: Memory) {
    && after.parsers == memory.parsers && after.ids == memory.ids && after.next == memory.next
    && after.mutex == memory.mutex
    && (after.labelRows == memory.labelRows || after.labelRows == [])
    && (after.valueRows == memory.valueRows || after.valueRows == [])
    && (Coming(after) == Coming(memory) || Coming(after) == [])
    && (Copied(after.saver) == memory.valueRows || Copied(after.saver) == [])
  }

  lemma UnloadingKeeps(setting: Setting, labels: seq<LabelRow>, memory: Memory, after: Memory)
    requires MemoryOk(setting, labels, memory) && Unloads(memory, after)
    ensures MemoryOk(setting, labels, after)
  {
    FewerComing(labels, memory, after);
    assert BuffersOk(after);
    assert LockOk(after) && ParsersOk(setting, after);
  }

  lemma SaveUnloads(s: State, fault: bool)
    requires s.memory.Some? && !s.memory.value.saver.Resting?
    requires s.memory.value.saver.Writing? ==> fault || s.memory.value.saver.labels == []
    ensures SaveNext(s, fault).memory.Some? && SaveNext(s, fault).tables.labels == s.tables.labels
    ensures Unloads(s.memory.value, SaveNext(s, fault).memory.value)
  {
    match s.memory.value.saver
    case LabelsCopied(_) =>
    case Writing(_, _) =>
    case DroppingLabels =>
    case DroppingValues =>
  }

  lemma SaveKeeps(setting: Setting, s: State, fault: bool)
    requires Ok(setting, s) && s.memory.Some? && CanSave(setting, s.memory.value, fault)
    ensures Ok(setting, SaveNext(s, fault))
  {
    var memory, labels := s.memory.value, s.tables.labels;
    if memory.saver.Writing? && memory.saver.labels != [] && !fault {
      InsertKeeps(setting, labels, memory);
    } else {
      SaveUnloads(s, fault);
      UnloadingKeeps(setting, labels, memory, SaveNext(s, fault).memory.value);
    }
  }

  /* ---- every step, every run ---- */

  lemma StepKeeps(setting: Setting, s: State, e: Event)
    requires Ok(setting, s) && Enabled(setting, s, e)
    ensures Ok(setting, Next(setting, s, e))
  {
    match e
    case Start => StartKeeps(setting, s.tables.labels);
    case Crash =>
    case Push(p, batch) => PushKeeps(setting, s.tables.labels, s.memory.value, p, batch);
    case Parse(p) =>
      if ParseNext(s.memory.value, p).Some? {
        ParseKeeps(setting, s.tables.labels, s.memory.value, p);
      }
    case Tick =>
      var memory := s.memory.value;
      UnloadingKeeps(setting, s.tables.labels, memory, memory.(saver := LabelsCopied(memory.labelRows)));
    case Save(fault) => SaveKeeps(setting, s, fault);
  }

  lemma {:induction false} RunKeeps(setting: Setting, s: State, events: seq<Event>)
    requires Ok(setting, s) && Runs(setting, s, events)
    ensures Ok(setting, After(setting, s, events))
    decreases |events|
  {
    if events != [] {
      StepKeeps(setting, s, events[0]);
      RunKeeps(setting, Next(setting, s, events[0]), events[1..]);
    }
  }
}
