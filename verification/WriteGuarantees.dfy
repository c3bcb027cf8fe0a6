/** What holds in every setting, overlap, faults and unsafe values included: inserts never conflict, id
    allocation is atomic and stable, and every value row is accounted for. */
module WriteGuarantees {
  import opened Text
  import opened MetricString
  import opened WritePath
  import opened WriteInvariant
  import opened WriteRuns

  lemma AfterKeeps(setting: Setting, tables: Tables, events: seq<Event>)
    requires TablesOk(tables.labels) && Runs(setting, Down(tables), events)
    ensures Ok(setting, After(setting, Down(tables), events))
  {
    RunKeeps(setting, Down(tables), events);
  }

  /** Whatever happened before, a label insert meets no row it conflicts with: the branch of `save` that
      swallows duplicate-key errors is never taken, nor does the NOT EXISTS guard ever hold a row back. */
  lemma InsertsNeverConflict(setting: Setting, tables: Tables, events: seq<Event>)
    requires TablesOk(tables.labels) && Runs(setting, Down(tables), events)
    requires var s := After(setting, Down(tables), events);
             s.memory.Some? && s.memory.value.saver.Writing? && s.memory.value.saver.labels != []
    ensures var s := After(setting, Down(tables), events);
            !Refuses(s.tables.labels, s.memory.value.saver.labels[0])
  {
    AfterKeeps(setting, tables, events);
    var s := After(setting, Down(tables), events);
    ComingRowIsNew(setting, s.tables.labels, s.memory.value);
  }

  /* ---- allocation ---- */

  datatype Allocator = Allocator(ids: map<string, int>, next: int)

  /** The atomic operation that the double-checked look-up stands for. */
  function GetOrAllocate(a: Allocator, text: string): (Allocator, int) {
    if text in a.ids then (a, a.ids[text])
    else (Allocator(a.ids[text := a.next], a.next + 1), a.next)
  }

  ghost predicate SomeTaken(memory: Memory) {
    exists p :: 0 <= p < |memory.parsers| && memory.parsers[p].phase.Taken?
  }

  /** The allocator others see: an id that is taken but not stored yet is not allocated yet. */
  ghost function Seen(memory: Memory): Allocator {
    Allocator(memory.ids, if SomeTaken(memory) then memory.next - 1 else memory.next)
  }

  ghost predicate Resolves(memory: Memory, after: Memory, p: nat) {
    p < |memory.parsers| == |after.parsers| && !Resolved(memory.parsers[p].phase) && Resolved(after.parsers[p].phase)
  }

  lemma TakenHoldsTheLock(setting: Setting, labels: seq<LabelRow>, memory: Memory, p: nat)
    requires MemoryOk(setting, labels, memory) && SomeTaken(memory) && p < |memory.parsers|
    requires Holding(memory.parsers[p].phase)
    ensures memory.parsers[p].phase.Taken? && memory.parsers[p].phase.id == memory.next - 1
  {
    var q :| 0 <= q < |memory.parsers| && memory.parsers[q].phase.Taken?;
    assert Holding(memory.parsers[q].phase) && memory.mutex == Some(q) && memory.mutex == Some(p);
    assert ParserOk(setting, memory.ids, memory.next, memory.parsers[q]);
  }

  lemma TakenElsewhere(memory: Memory, after: Memory, p: nat)
    requires p < |memory.parsers| == |after.parsers|
    requires forall q :: 0 <= q < |memory.parsers| && q != p ==> after.parsers[q] == memory.parsers[q]
    requires !memory.parsers[p].phase.Taken? && !after.parsers[p].phase.Taken?
    ensures SomeTaken(memory) <==> SomeTaken(after)
  {
    if SomeTaken(memory) {
      var q :| 0 <= q < |memory.parsers| && memory.parsers[q].phase.Taken?;
      assert after.parsers[q].phase.Taken?;
    }
  }

  lemma LockedSteps(setting: Setting, labels: seq<LabelRow>, memory: Memory, p: nat)
    requires MemoryOk(setting, labels, memory) && CanParse(setting, memory, p)
    requires memory.parsers[p].phase.Rechecking? || memory.parsers[p].phase.Taken?
    ensures var after, text := ParseNext(memory, p).value, HeadText(memory.parsers[p]);
            if Resolves(memory, after, p)
            then (Seen(after), IdOf(after.parsers[p].phase)) == GetOrAllocate(Seen(memory), text)
            else Seen(after) == Seen(memory)
  {
    var after := ParseNext(memory, p).value;
    if memory.parsers[p].phase.Taken? {
      assert SomeTaken(memory);
      TakenHoldsTheLock(setting, labels, memory, p);
      assert !SomeTaken(after);
    } else {
      if SomeTaken(memory) {
        TakenHoldsTheLock(setting, labels, memory, p);
      }
      if after.parsers[p].phase.Taken? {
        assert SomeTaken(after);
      } else {
        TakenElsewhere(memory, after, p);
      }
    }
  }

  lemma UnlockedSteps(memory: Memory, p: nat)
    requires p < |memory.parsers| && ParseNext.requires(memory, p) && ParseNext(memory, p).Some?
    requires !memory.parsers[p].phase.Rechecking? && !memory.parsers[p].phase.Taken?
    ensures var after := ParseNext(memory, p).value;
            && Seen(after) == Seen(memory)
            && (Resolves(memory, after, p) ==>
                  Maps(memory.ids, HeadText(memory.parsers[p]), IdOf(after.parsers[p].phase)))
  {
    TakenElsewhere(memory, ParseNext(memory, p).value, p);
  }

  /** Every interleaving of the double-checked look-ups refines one atomic get-or-allocate: a parser gets its
      id at a single step, with the outcome the atomic operation has there, and no other step is seen. */
  lemma AllocationIsAtomic(setting: Setting, labels: seq<LabelRow>, memory: Memory, p: nat)
    requires MemoryOk(setting, labels, memory) && CanParse(setting, memory, p) && ParseNext(memory, p).Some?
    ensures var after := ParseNext(memory, p).value;
            if Resolves(memory, after, p)
            then memory.parsers[p].batch != [] &&
                 (Seen(after), IdOf(after.parsers[p].phase)) == GetOrAllocate(Seen(memory), HeadText(memory.parsers[p]))
            else Seen(after) == Seen(memory)
  {
    if memory.parsers[p].phase.Rechecking? || memory.parsers[p].phase.Taken? {
      LockedSteps(setting, labels, memory, p);
    } else {
      UnlockedSteps(memory, p);
    }
  }

  ghost predicate Assigned(ids: map<string, int>, id: int) { exists text :: text in ids && ids[text] == id }

  /** The ids handed out since startup: the block from the seed to the counter without a gap, except the one
      id that a parser has taken from the counter and not stored yet. */
  ghost predicate Contiguous(memory: Memory) {
    && memory.seed <= memory.next
    && (SomeTaken(memory) ==> memory.seed < memory.next)
    && forall id :: memory.seed <= id < memory.next ==>
         (Assigned(memory.ids, id) <==> !(SomeTaken(memory) && id == memory.next - 1))
  }

  ghost predicate BlockOk(s: State) { s.memory.Some? ==> Contiguous(s.memory.value) }

  lemma AssignedGrows(before: map<string, int>, text: string, id: int)
    requires text !in before && Unused(before, id)
    ensures forall i :: Assigned(before[text := id], i) <==> Assigned(before, i) || i == id
  {
    var after := before[text := id];
    assert text in after && after[text] == id;
    forall i | Assigned(before, i)
      ensures Assigned(after, i)
    {
      var t :| t in before && before[t] == i;
      assert t in after && after[t] == i;
    }
  }

  lemma StoringKeepsBlock(setting: Setting, labels: seq<LabelRow>, memory: Memory, p: nat)
    requires MemoryOk(setting, labels, memory) && Contiguous(memory) && CanParse(setting, memory, p)
    requires memory.parsers[p].phase.Taken?
    ensures Contiguous(ParseNext(memory, p).value)
  {
    AllocationIsAtomic(setting, labels, memory, p);
    assert ParserOk(setting, memory.ids, memory.next, memory.parsers[p]);
    assert SomeTaken(memory);
    var after := ParseNext(memory, p).value;
    assert !SomeTaken(after) by {
      assert Seen(after).next == memory.next;
    }
    AssignedGrows(memory.ids, HeadText(memory.parsers[p]), memory.next - 1);
    assert after.ids == memory.ids[HeadText(memory.parsers[p]) := memory.next - 1];
    forall id | after.seed <= id < after.next
      ensures Assigned(after.ids, id)
    {
      assert Assigned(memory.ids, id) || id == memory.next - 1;
    }
  }

  lemma TakingKeepsBlock(setting: Setting, labels: seq<LabelRow>, memory: Memory, p: nat)
    requires MemoryOk(setting, labels, memory) && Contiguous(memory) && CanParse(setting, memory, p)
    requires memory.parsers[p].phase.Rechecking? && HeadText(memory.parsers[p]) !in memory.ids
    ensures Contiguous(ParseNext(memory, p).value)
  {
    var after := ParseNext(memory, p).value;
    if SomeTaken(memory) {
      TakenHoldsTheLock(setting, labels, memory, p);
    }
    assert after.parsers[p].phase.Taken?;
    assert SomeTaken(after);
    assert !Assigned(memory.ids, memory.next);
  }

  lemma ParseKeepsBlock(setting: Setting, labels: seq<LabelRow>, memory: Memory, p: nat)
    requires MemoryOk(setting, labels, memory) && Contiguous(memory) && CanParse(setting, memory, p) &&
             ParseNext(memory, p).Some?
    ensures Contiguous(ParseNext(memory, p).value)
  {
    if memory.parsers[p].phase.Taken? {
      StoringKeepsBlock(setting, labels, memory, p);
    } else if memory.parsers[p].phase.Rechecking? && HeadText(memory.parsers[p]) !in memory.ids {
      TakingKeepsBlock(setting, labels, memory, p);
    } else {
      OtherStepsKeepBlock(memory, p);
    }
  }

  lemma OtherStepsKeepBlock(memory: Memory, p: nat)
    requires Contiguous(memory) && ParseNext.requires(memory, p) && ParseNext(memory, p).Some?
    requires !memory.parsers[p].phase.Taken?
    requires memory.parsers[p].phase.Rechecking? ==> HeadText(memory.parsers[p]) in memory.ids
    ensures Contiguous(ParseNext(memory, p).value)
  {
    TakenElsewhere(memory, ParseNext(memory, p).value, p);
  }

  lemma StepKeepsBlock(setting: Setting, s: State, e: Event)
    requires Ok(setting, s) && BlockOk(s) && Enabled(setting, s, e)
    ensures BlockOk(Next(setting, s, e))
  {
    match e
    case Start =>
      var memory := Started(setting, s.tables.labels);
      assert forall p :: 0 <= p < |memory.parsers| ==> memory.parsers[p] == Parser(Idle, [], []);
    case Crash =>
    case Push(p, batch) => TakenElsewhere(s.memory.value, Next(setting, s, e).memory.value, p);
    case Parse(p) =>
      if ParseNext(s.memory.value, p).Some? {
        ParseKeepsBlock(setting, s.tables.labels, s.memory.value, p);
      }
    case Tick => SameParsers(s, Next(setting, s, e));
    case Save(fault) => SameParsers(s, Next(setting, s, e));
  }

  lemma SameParsers(s: State, t: State)
    requires BlockOk(s) && s.memory.Some? && t.memory.Some?
    requires t.memory.value.parsers == s.memory.value.parsers && t.memory.value.ids == s.memory.value.ids
    requires t.memory.value.next == s.memory.value.next && t.memory.value.seed == s.memory.value.seed
    ensures BlockOk(t)
  {
  }

  lemma {:induction false} RunKeepsBlock(setting: Setting, s: State, events: seq<Event>)
    requires Ok(setting, s) && BlockOk(s) && Runs(setting, s, events)
    ensures BlockOk(After(setting, s, events))
    decreases |events|
  {
    if events != [] {
      StepKeeps(setting, s, events[0]);
      StepKeepsBlock(setting, s, events[0]);
      RunKeepsBlock(setting, Next(setting, s, events[0]), events[1..]);
    }
  }

  /** The counter started one above the id of some stored row, or at one. */
  ghost predicate SeedOk(s: State) {
    s.memory.Some? ==> s.memory.value.seed == 1 || SomeRowHas(s.tables.labels, s.memory.value.seed - 1)
  }

  ghost predicate SomeRowHas(labels: seq<LabelRow>, id: int) { exists i :: 0 <= i < |labels| && labels[i].id == id }

  lemma StepKeepsSeed(setting: Setting, s: State, e: Event)
    requires SeedOk(s) && Enabled(setting, s, e)
    ensures SeedOk(Next(setting, s, e))
  {
    var t := Next(setting, s, e);
    if e.Start? {
      MaxIdAttained(s.tables.labels);
    } else if t.memory.Some? && t.memory.value.seed != 1 {
      SeedStays(setting, s, e);
      var i :| 0 <= i < |s.tables.labels| && s.tables.labels[i].id == s.memory.value.seed - 1;
      StepKeepsRows(setting, s, e, i);
      assert t.tables.labels[i].id == t.memory.value.seed - 1;
    }
  }

  lemma SeedStays(setting: Setting, s: State, e: Event)
    requires Enabled(setting, s, e) && !e.Start? && Next(setting, s, e).memory.Some?
    ensures s.memory.Some? && Next(setting, s, e).memory.value.seed == s.memory.value.seed
  {
  }

  lemma {:induction false} RunKeepsSeed(setting: Setting, s: State, events: seq<Event>)
    requires SeedOk(s) && Runs(setting, s, events)
    ensures SeedOk(After(setting, s, events))
    decreases |events|
  {
    if events != [] {
      StepKeepsSeed(setting, s, events[0]);
      RunKeepsSeed(setting, Next(setting, s, events[0]), events[1..]);
    }
  }

  /** In every state of every run the map is injective and the ids since startup are contiguous, from one
      above an id that is stored, or from one. */
  lemma IdsAreABlock(setting: Setting, tables: Tables, events: seq<Event>)
    requires TablesOk(tables.labels) && Runs(setting, Down(tables), events)
    ensures var s := After(setting, Down(tables), events);
            s.memory.Some? ==> Injective(s.memory.value.ids) && Contiguous(s.memory.value) && SeedOk(s)
  {
    AfterKeeps(setting, tables, events);
    RunKeepsBlock(setting, Down(tables), events);
    RunKeepsSeed(setting, Down(tables), events);
  }

  /* ---- how a process dies by itself ---- */

  /** A text with an id holds a brace, or some parser is about to take it apart. */
  ghost predicate BracedOrFresh(memory: Memory) {
    forall text :: text in memory.ids ==> '{' in text || SomeFresh(memory, text)
  }

  ghost predicate SomeFresh(memory: Memory, text: string) { exists p :: FreshText(memory, p, text) }

  ghost predicate BracesOk(s: State) { s.memory.Some? ==> BracedOrFresh(s.memory.value) }

  lemma CanonicalHasBrace(row: LabelRow)
    requires Canonical(row)
    ensures '{' in row.text
  {
    assert row.text[|row.name|] == '{';
  }

  lemma RegisteredBraces(labels: seq<LabelRow>)
    requires TablesOk(labels)
    ensures Braces(Registered(labels))
  {
    RegisteredExactly(labels);
    forall text | text in Registered(labels)
      ensures '{' in text
    {
      var i :| 0 <= i < |labels| && labels[i].text == text && labels[i].id == Registered(labels)[text];
      CanonicalHasBrace(labels[i]);
    }
  }

  /** A step of one parser that lets no fresh text go but a braced one, and brings none but a fresh one. */
  lemma FreshnessMoves(memory: Memory, after: Memory, p: nat)
    requires BracedOrFresh(memory) && p < |memory.parsers| == |after.parsers|
    requires forall q :: 0 <= q < |memory.parsers| && q != p ==> after.parsers[q] == memory.parsers[q]
    requires forall text :: FreshText(memory, p, text) ==> '{' in text || FreshText(after, p, text)
    requires forall text :: text in after.ids ==> text in memory.ids || FreshText(after, p, text)
    ensures BracedOrFresh(after)
  {
    forall text | text in after.ids && '{' !in text
      ensures SomeFresh(after, text)
    {
      if text in memory.ids {
        var q :| FreshText(memory, q, text);
        assert FreshText(after, q, text);
      } else {
        assert FreshText(after, p, text);
      }
    }
  }

  lemma AnnouncedBrace(memory: Memory, p: nat, text: string)
    requires p < |memory.parsers| && memory.parsers[p].phase.Announcing? && memory.parsers[p].batch != []
    requires text == HeadText(memory.parsers[p]) && !Decode(text).NoBrace?
    ensures '{' in text
  {
    assert IndexOf(text, '{').Some?;
  }

  lemma ParseKeepsBraces(memory: Memory, p: nat)
    requires BracedOrFresh(memory) && p < |memory.parsers| && !memory.parsers[p].phase.Idle?
    requires NeedsSample(memory.parsers[p].phase) ==> memory.parsers[p].batch != []
    requires ParseNext(memory, p).Some?
    ensures BracedOrFresh(ParseNext(memory, p).value)
  {
    if memory.parsers[p].phase.Announcing? {
      AnnouncedBrace(memory, p, HeadText(memory.parsers[p]));
    }
    FreshnessMoves(memory, ParseNext(memory, p).value, p);
  }

  lemma StepKeepsBraces(setting: Setting, s: State, e: Event)
    requires Ok(setting, s) && BracesOk(s) && Enabled(setting, s, e)
    ensures BracesOk(Next(setting, s, e))
  {
    match e
    case Start => RegisteredBraces(s.tables.labels);
    case Crash =>
    case Push(p, batch) => FreshnessMoves(s.memory.value, Next(setting, s, e).memory.value, p);
    case Parse(p) =>
      if ParseNext(s.memory.value, p).Some? {
        ParseKeepsBraces(s.memory.value, p);
      }
    case Tick => SameFreshness(s.memory.value, Next(setting, s, e).memory.value);
    case Save(fault) => SameFreshness(s.memory.value, Next(setting, s, e).memory.value);
  }

  lemma SameFreshness(memory: Memory, after: Memory)
    requires BracedOrFresh(memory) && after.parsers == memory.parsers && after.ids == memory.ids
    ensures BracedOrFresh(after)
  {
    forall text | text in after.ids && '{' !in text
      ensures SomeFresh(after, text)
    {
      var q :| FreshText(memory, q, text);
      assert FreshText(after, q, text);
    }
  }

  lemma {:induction false} RunKeepsBraces(setting: Setting, s: State, events: seq<Event>)
    requires Ok(setting, s) && BracesOk(s) && Runs(setting, s, events)
    ensures BracesOk(After(setting, s, events))
    decreases |events|
  {
    if events != [] {
      StepKeeps(setting, s, events[0]);
      StepKeepsBraces(setting, s, events[0]);
      RunKeepsBraces(setting, Next(setting, s, events[0]), events[1..]);
    }
  }

  /** In every state of every run: the known texts hold a brace as soon as no parser has one to take apart, as
      DiesExactly asks; and a parser's next access kills the process exactly when it is about to take apart
      the text of a metric with a name and no other label. */
  lemma DeathIsBare(setting: Setting, tables: Tables, events: seq<Event>)
    requires TablesOk(tables.labels) && Runs(setting, Down(tables), events)
    requires After(setting, Down(tables), events).memory.Some?
    ensures var memory := After(setting, Down(tables), events).memory.value;
            (forall p :: 0 <= p < |memory.parsers| ==> !Fresh(memory.parsers[p].phase)) ==> Braces(memory.ids)
    ensures var memory := After(setting, Down(tables), events).memory.value;
            forall p: nat :: CanParse(setting, memory, p) ==>
              (ParseNext(memory, p).None? <==>
               memory.parsers[p].phase.Announcing? && Bare(memory.parsers[p].batch[0].metric))
  {
    AfterKeeps(setting, tables, events);
    RunKeepsBraces(setting, Down(tables), events);
    var memory := After(setting, Down(tables), events).memory.value;
    forall p: nat | CanParse(setting, memory, p)
      ensures ParseNext(memory, p).None? <==>
              memory.parsers[p].phase.Announcing? && Bare(memory.parsers[p].batch[0].metric)
    {
      DyingAccess(setting, memory, p);
    }
  }

  lemma OnlyAnnouncingDies(memory: Memory, p: nat)
    requires p < |memory.parsers| && !memory.parsers[p].phase.Idle? && !memory.parsers[p].phase.Announcing?
    requires NeedsSample(memory.parsers[p].phase) ==> memory.parsers[p].batch != []
    ensures ParseNext(memory, p).Some?
  {
  }

  lemma AnnouncingDies(memory: Memory, p: nat, text: string)
    requires p < |memory.parsers| && memory.parsers[p].phase.Announcing? && memory.parsers[p].batch != []
    requires text == HeadText(memory.parsers[p])
    ensures ParseNext(memory, p).None? <==> Decode(text).NoBrace?
  {
  }

  lemma DyingAccess(setting: Setting, memory: Memory, p: nat)
    requires ParsersOk(setting, memory) && CanParse(setting, memory, p)
    ensures ParseNext(memory, p).None? <==>
            memory.parsers[p].phase.Announcing? && Bare(memory.parsers[p].batch[0].metric)
  {
    if memory.parsers[p].phase.Announcing? {
      HeadPlain(setting, memory, p);
      BareTextHasNoBrace(memory.parsers[p].batch[0].metric);
      AnnouncingDies(memory, p, HeadText(memory.parsers[p]));
    } else {
      OnlyAnnouncingDies(memory, p);
    }
  }

  /* ---- stability ---- */

  lemma ParseKeepsIds(setting: Setting, labels: seq<LabelRow>, memory: Memory, p: nat)
    requires MemoryOk(setting, labels, memory) && CanParse(setting, memory, p) && ParseNext(memory, p).Some?
    ensures Extends(memory.ids, ParseNext(memory, p).value.ids)
  {
    if memory.parsers[p].phase.Taken? {
      assert ParserOk(setting, memory.ids, memory.next, memory.parsers[p]);
      StoredNext(memory, p);
      IdsGrow(memory.ids, HeadText(memory.parsers[p]), memory.next - 1, memory.next);
    } else {
      OtherStepsKeepIds(memory, p);
    }
  }

  lemma OtherStepsKeepIds(memory: Memory, p: nat)
    requires ParseNext.requires(memory, p) && ParseNext(memory, p).Some? && !memory.parsers[p].phase.Taken?
    ensures ParseNext(memory, p).value.ids == memory.ids
  {
  }

  /** While the process lives, a text keeps its id. */
  lemma StepKeepsIds(setting: Setting, s: State, e: Event)
    requires Ok(setting, s) && Enabled(setting, s, e) && s.memory.Some? && Next(setting, s, e).memory.Some?
    ensures Extends(s.memory.value.ids, Next(setting, s, e).memory.value.ids)
  {
    if e.Parse? {
      ParseKeepsIds(setting, s.tables.labels, s.memory.value, e.p);
    }
  }

  /** Row `i` of the label table pins its text and its id to each other. */
  ghost predicate Pinned(s: State, row: LabelRow) {
    s.memory.Some? ==>
      && Maps(s.memory.value.ids, row.text, row.id)
      && forall text :: text in s.memory.value.ids && s.memory.value.ids[text] == row.id ==> text == row.text
  }

  lemma StoredRowsArePinned(setting: Setting, s: State, i: nat)
    requires Ok(setting, s) && i < |s.tables.labels|
    ensures Pinned(s, s.tables.labels[i])
  {
  }

  lemma StepKeepsRows(setting: Setting, s: State, e: Event, i: nat)
    requires Enabled(setting, s, e) && i < |s.tables.labels|
    ensures i < |Next(setting, s, e).tables.labels| && Next(setting, s, e).tables.labels[i] == s.tables.labels[i]
  {
  }

  /** Once a row is stored, it stays, and no later step, crash or restart gives its text another id, nor its
      id another text. */
  lemma {:induction false} StoredIdsAreForever(setting: Setting, s: State, events: seq<Event>, i: nat)
    requires Ok(setting, s) && Runs(setting, s, events) && i < |s.tables.labels|
    ensures var t := After(setting, s, events);
            && i < |t.tables.labels| && t.tables.labels[i] == s.tables.labels[i]
            && Pinned(t, s.tables.labels[i])
    decreases |events|
  {
    if events == [] {
      StoredRowsArePinned(setting, s, i);
    } else {
      StepKeeps(setting, s, events[0]);
      StepKeepsRows(setting, s, events[0], i);
      StoredIdsAreForever(setting, Next(setting, s, events[0]), events[1..], i);
    }
  }

  /* ---- accounting ---- */

  ghost function Buffered(s: State): multiset<Origin> {
    if s.memory.Some? then Unsettled(s.memory.value) else multiset{}
  }

  ghost predicate Balanced(stored: multiset<Origin>, s: State) {
    s.tables.values + Buffered(s) + s.ledger.failed + s.ledger.late + s.ledger.crashed == stored + s.ledger.appended
  }

  /** A save writes what it copied, which is a front part of what it drops at the end; the rest came late. */
  ghost predicate CopyIsFront(s: State) {
    s.memory.Some? && s.memory.value.saver.Writing? ==> s.memory.value.saver.values <= s.memory.value.valueRows
  }

  lemma FlushBalanced(stored: multiset<Origin>, s: State, p: nat, after: Memory)
    requires Balanced(stored, s) && CopyIsFront(s) && s.memory.Some? && p < |s.memory.value.parsers|
    requires s.memory.value.parsers[p].phase == Loading && s.memory.value.parsers[p].batch == []
    requires after.valueRows == s.memory.value.valueRows + s.memory.value.parsers[p].parsed &&
             after.saver == s.memory.value.saver
    ensures var t := s.(memory := Some(after), ledger := Booked(s.ledger, s.memory.value, p));
            Balanced(stored, t) && CopyIsFront(t)
  {
    var rows := s.memory.value.parsers[p].parsed;
    var t := s.(memory := Some(after), ledger := Booked(s.ledger, s.memory.value, p));
    assert multiset(s.memory.value.valueRows + rows) == multiset(s.memory.value.valueRows) + multiset(rows);
    assert t.ledger.appended == s.ledger.appended + multiset(rows);
    if s.memory.value.saver.Resting? || s.memory.value.saver.LabelsCopied? {
      assert Buffered(t) == Buffered(s) + multiset(rows) && t.ledger.late == s.ledger.late;
    } else {
      assert Buffered(t) == Buffered(s) && t.ledger.late == s.ledger.late + multiset(rows);
    }
    RowsOnBothSides(s.tables.values, Buffered(s), s.ledger.failed, s.ledger.late, s.ledger.crashed, stored,
                    s.ledger.appended, multiset(rows));
  }

  lemma RowsOnBothSides<T>(a: multiset<T>, b: multiset<T>, c: multiset<T>, d: multiset<T>, e: multiset<T>,
          x: multiset<T>, y: multiset<T>, rows: multiset<T>)
    requires a + b + c + d + e == x + y
    ensures a + (b + rows) + c + d + e == x + (y + rows)
    ensures a + b + c + (d + rows) + e == x + (y + rows)
  {
    forall v
      ensures (a + (b + rows) + c + d + e)[v] == (x + (y + rows))[v] &&
              (a + b + c + (d + rows) + e)[v] == (x + (y + rows))[v]
    {
      assert (a + b + c + d + e)[v] == (x + y)[v];
    }
  }

  lemma QuietBalanced(stored: multiset<Origin>, s: State, after: Memory)
    requires Balanced(stored, s) && CopyIsFront(s) && s.memory.Some?
    requires after.valueRows == s.memory.value.valueRows && after.saver == s.memory.value.saver
    ensures Balanced(stored, s.(memory := Some(after))) && CopyIsFront(s.(memory := Some(after)))
  {
  }

  lemma CrashBalanced(stored: multiset<Origin>, s: State)
    requires Balanced(stored, s) && s.memory.Some?
    ensures Balanced(stored, Crashed(s)) && CopyIsFront(Crashed(s))
  {
  }

  lemma ParseBalanced(stored: multiset<Origin>, setting: Setting, s: State, p: nat)
    requires Balanced(stored, s) && CopyIsFront(s) && Enabled(setting, s, Parse(p))
    ensures Balanced(stored, Next(setting, s, Parse(p))) && CopyIsFront(Next(setting, s, Parse(p)))
  {
    var memory := s.memory.value;
    var parser := memory.parsers[p];
    match ParseNext(memory, p)
    case None => CrashBalanced(stored, s);
    case Some(after) =>
      if parser.phase == Loading && parser.batch == [] {
        FlushBalanced(stored, s, p, after);
      } else {
        QuietBalanced(stored, s, after);
      }
  }

  /** A save that fails books its copy as failed. */
  lemma FailedSaveBalanced(stored: multiset<Origin>, s: State)
    requires Balanced(stored, s) && s.memory.Some? && s.memory.value.saver.Writing?
    ensures Balanced(stored, SaveNext(s, true))
  {
    MoveAlong(s.tables.values, multiset(s.memory.value.saver.values), s.ledger.failed, s.ledger.late, s.ledger.crashed);
  }

  lemma MoveAlong<T>(a: multiset<T>, b: multiset<T>, c: multiset<T>, d: multiset<T>, e: multiset<T>)
    ensures a + b + c + d + e == a + multiset{} + (c + b) + d + e
    ensures a + b + c + d + e == (a + b) + multiset{} + c + d + e
  {
  }

  /** One that stores its copy moves it to the table. */
  lemma StoredSaveBalanced(stored: multiset<Origin>, s: State)
    requires Balanced(stored, s) && s.memory.Some? && s.memory.value.saver.Writing? && s.memory.value.saver.labels == []
    ensures Balanced(stored, SaveNext(s, false))
  {
    MoveAlong(s.tables.values, multiset(s.memory.value.saver.values), s.ledger.failed, s.ledger.late, s.ledger.crashed);
  }

  /** Any other move of the saver leaves table, books and unsettled rows alone. */
  lemma QuietSaveBalanced(stored: multiset<Origin>, s: State, fault: bool)
    requires Balanced(stored, s) && CopyIsFront(s) && s.memory.Some? && !s.memory.value.saver.Resting?
    requires s.memory.value.saver.Writing? ==> !fault && s.memory.value.saver.labels != []
    ensures Balanced(stored, SaveNext(s, fault)) && CopyIsFront(SaveNext(s, fault))
  {
    var t := SaveNext(s, fault);
    assert t.tables.values == s.tables.values && t.ledger == s.ledger;
    assert Buffered(t) == Buffered(s);
  }

  lemma SaveBalanced(stored: multiset<Origin>, setting: Setting, s: State, fault: bool)
    requires Balanced(stored, s) && CopyIsFront(s) && Enabled(setting, s, Save(fault))
    ensures Balanced(stored, SaveNext(s, fault)) && CopyIsFront(SaveNext(s, fault))
  {
    var saver := s.memory.value.saver;
    if saver.Writing? && fault {
      FailedSaveBalanced(stored, s);
    } else if saver.Writing? && saver.labels == [] {
      StoredSaveBalanced(stored, s);
    } else {
      QuietSaveBalanced(stored, s, fault);
    }
  }

  lemma StepBalanced(stored: multiset<Origin>, setting: Setting, s: State, e: Event)
    requires Balanced(stored, s) && CopyIsFront(s) && Enabled(setting, s, e)
    ensures Balanced(stored, Next(setting, s, e)) && CopyIsFront(Next(setting, s, e))
  {
    match e
    case Parse(p) => ParseBalanced(stored, setting, s, p);
    case Save(fault) => SaveBalanced(stored, setting, s, fault);
    case Crash => CrashBalanced(stored, s);
    case _ =>
  }

  lemma {:induction false} RunBalanced(stored: multiset<Origin>, setting: Setting, s: State, events: seq<Event>)
    requires Balanced(stored, s) && CopyIsFront(s) && Runs(setting, s, events)
    ensures Balanced(stored, After(setting, s, events)) && CopyIsFront(After(setting, s, events))
    decreases |events|
  {
    if events != [] {
      StepBalanced(stored, setting, s, events[0]);
      RunBalanced(stored, setting, Next(setting, s, events[0]), events[1..]);
    }
  }

  /** Every value row appended in a run is in the table, in the buffer, in a save that failed, dropped by a
      save it came too late for, or lost with a crash: each row in one of them, and stored at most once. */
  lemma EveryRowAccountedFor(setting: Setting, tables: Tables, events: seq<Event>)
    requires Runs(setting, Down(tables), events)
    ensures var s := After(setting, Down(tables), events);
            && Balanced(tables.values, s)
            && (forall origin :: s.tables.values[origin] <= tables.values[origin] + s.ledger.appended[origin])
            && (s.memory.Some? && s.memory.value.saver.Resting? ==>
                  s.tables.values + multiset(s.memory.value.valueRows) + s.ledger.failed + s.ledger.late +
                    s.ledger.crashed
                  == tables.values + s.ledger.appended)
  {
    RunBalanced(tables.values, setting, Down(tables), events);
    var s := After(setting, Down(tables), events);
    forall origin
      ensures s.tables.values[origin] <= tables.values[origin] + s.ledger.appended[origin]
    {
      assert (s.tables.values + Buffered(s) + s.ledger.failed + s.ledger.late + s.ledger.crashed)[origin] ==
             (tables.values + s.ledger.appended)[origin];
    }
  }

  /** Without overlap nothing is ever late, in any run. */
  lemma {:induction false} NothingLateWithoutOverlap(setting: Setting, s: State, events: seq<Event>)
    requires !setting.overlap && Runs(setting, s, events)
    ensures After(setting, s, events).ledger.late == s.ledger.late
    decreases |events|
  {
    if events != [] {
      var next := Next(setting, s, events[0]);
      if events[0].Parse? && ParseNext(s.memory.value, events[0].p).Some? {
        assert Appends(s.memory.value.parsers[events[0].p]) ==> s.memory.value.saver.Resting?;
      }
      assert next.ledger.late == s.ledger.late;
      NothingLateWithoutOverlap(setting, next, events[1..]);
    }
  }
}
