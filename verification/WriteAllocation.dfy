/** Id allocation over whole runs: however the parsers interleave, save, crash and restart, what they get is
    what one atomic allocator hands out to the same look-ups in the same order. */
module WriteAllocation {
  import opened Text
  import opened WritePath
  import opened WriteInvariant
  import opened WriteGuarantees

  /** What a run asks of the allocator: an id for a text, with the answer it got; a fresh start from a label
      table; or that everything be forgotten. */
  datatype Call = LookUp(text: string, id: int) | Seed(labels: seq<LabelRow>) | Forget

  /* ---- the atomic allocator ---- */

  predicate Answers(a: Option<Allocator>, call: Call) {
    match call
    case LookUp(text, id) => a.Some? && GetOrAllocate(a.value, text).1 == id
    case Seed(_) => a.None?
    case Forget => a.Some?
  }

  function AfterCall(a: Option<Allocator>, call: Call): Option<Allocator>
    requires Answers(a, call)
  {
    match call
    case LookUp(text, _) => Some(GetOrAllocate(a.value, text).0)
    case Seed(labels) => Some(Allocator(Registered(labels), MaxId(labels) + 1))
    case Forget => None
  }

  /** It answers all of them, one after another. */
  predicate AnswersAll(a: Option<Allocator>, calls: seq<Call>)
    decreases |calls|
  {
    calls != [] ==> Answers(a, calls[0]) && AnswersAll(AfterCall(a, calls[0]), calls[1..])
  }

  function AfterCalls(a: Option<Allocator>, calls: seq<Call>): Option<Allocator>
    requires AnswersAll(a, calls)
    decreases |calls|
  {
    if calls == [] then a else AfterCalls(AfterCall(a, calls[0]), calls[1..])
  }

  /* ---- what a run asks ---- */

  ghost function CallsOf(setting: Setting, s: State, e: Event): seq<Call>
    requires Enabled(setting, s, e)
  {
    match e
    case Start => [Seed(s.tables.labels)]
    case Crash => [Forget]
    case Parse(p) =>
      (match ParseNext(s.memory.value, p)
       case None => [Forget]
       case Some(after) => LookUpsOf(s.memory.value, after, p))
    case _ => []
  }

  /** A parser's access is a look-up when it leaves the parser with an id it did not have. */
  ghost function LookUpsOf(memory: Memory, after: Memory, p: nat): seq<Call> {
    if Resolves(memory, after, p) && memory.parsers[p].batch != []
    then [LookUp(HeadText(memory.parsers[p]), IdOf(after.parsers[p].phase))] else []
  }

  ghost function Calls(setting: Setting, s: State, events: seq<Event>): seq<Call>
    requires Runs(setting, s, events)
    decreases |events|
  {
    if events == [] then []
    else CallsOf(setting, s, events[0]) + Calls(setting, Next(setting, s, events[0]), events[1..])
  }

  /** The allocator a state stands for. */
  ghost function View(s: State): Option<Allocator> {
    if s.memory.Some? then Some(Seen(s.memory.value)) else None
  }

  /* ---- refinement ---- */

  ghost predicate Explains(a: Option<Allocator>, calls: seq<Call>, b: Option<Allocator>) {
    AnswersAll(a, calls) && AfterCalls(a, calls) == b
  }

  lemma ExplainsOne(a: Option<Allocator>, call: Call)
    requires Answers(a, call)
    ensures Explains(a, [call], AfterCall(a, call))
  {
    assert [call][1..] == [];
    assert AnswersAll(AfterCall(a, call), []);
  }

  lemma {:induction false} ExplainsOn(a: Option<Allocator>, calls: seq<Call>, b: Option<Allocator>, more: seq<Call>,
          c: Option<Allocator>)
    requires Explains(a, calls, b) && Explains(b, more, c)
    ensures Explains(a, calls + more, c)
    decreases |calls|
  {
    if calls == [] {
      assert calls + more == more;
    } else {
      ExplainsOn(AfterCall(a, calls[0]), calls[1..], b, more, c);
      assert (calls + more)[1..] == calls[1..] + more;
    }
  }

  lemma ParseExplained(setting: Setting, s: State, p: nat)
    requires Ok(setting, s) && Enabled(setting, s, Parse(p))
    ensures Explains(View(s), CallsOf(setting, s, Parse(p)), View(Next(setting, s, Parse(p))))
  {
    var memory := s.memory.value;
    if ParseNext(memory, p).None? {
      ExplainsOne(View(s), Forget);
    } else {
      var after := ParseNext(memory, p).value;
      AllocationIsAtomic(setting, s.tables.labels, memory, p);
      if Resolves(memory, after, p) {
        ExplainsOne(View(s), LookUp(HeadText(memory.parsers[p]), IdOf(after.parsers[p].phase)));
      }
    }
  }

  lemma StartExplained(setting: Setting, s: State)
    requires s.memory.None?
    ensures Explains(View(s), [Seed(s.tables.labels)], View(Next(setting, s, Start)))
  {
    AllIdleAtStart(setting, s.tables.labels);
    assert !SomeTaken(Started(setting, s.tables.labels));
    ExplainsOne(None, Seed(s.tables.labels));
  }

  lemma PushExplained(setting: Setting, s: State, p: nat, batch: seq<Sample>)
    requires Enabled(setting, s, Push(p, batch))
    ensures View(Next(setting, s, Push(p, batch))) == View(s)
  {
    TakenElsewhere(s.memory.value, Next(setting, s, Push(p, batch)).memory.value, p);
  }

  lemma SameAllocator(memory: Memory, after: Memory)
    requires after.parsers == memory.parsers && after.ids == memory.ids && after.next == memory.next
    ensures Seen(after) == Seen(memory)
  {
  }

  lemma SaverExplained(setting: Setting, s: State, e: Event)
    requires Enabled(setting, s, e) && (e.Tick? || e.Save?)
    ensures View(Next(setting, s, e)) == View(s)
  {
    SameAllocator(s.memory.value, Next(setting, s, e).memory.value);
  }

  lemma StepExplained(setting: Setting, s: State, e: Event)
    requires Ok(setting, s) && Enabled(setting, s, e)
    ensures Explains(View(s), CallsOf(setting, s, e), View(Next(setting, s, e)))
  {
    match e
    case Start => StartExplained(setting, s);
    case Crash => ExplainsOne(View(s), Forget);
    case Push(p, batch) => PushExplained(setting, s, p, batch);
    case Parse(p) => ParseExplained(setting, s, p);
    case Tick => SaverExplained(setting, s, e);
    case Save(_) => SaverExplained(setting, s, e);
  }

  lemma {:induction false} RunExplained(setting: Setting, s: State, events: seq<Event>)
    requires Ok(setting, s) && Runs(setting, s, events)
    ensures Explains(View(s), Calls(setting, s, events), View(After(setting, s, events)))
    decreases |events|
  {
    if events != [] {
      var next := Next(setting, s, events[0]);
      StepKeeps(setting, s, events[0]);
      StepExplained(setting, s, events[0]);
      RunExplained(setting, next, events[1..]);
      ExplainsOn(View(s), CallsOf(setting, s, events[0]), View(next), Calls(setting, next, events[1..]),
                 View(After(setting, next, events[1..])));
    }
  }

  /** Every run of any number of parsers, from any consistent table, refines the atomic allocator: it answers
      the run's look-ups, restarts included, with the ids the parsers got, and ends as the map and counter do. */
  lemma RunsRefineAllocator(setting: Setting, tables: Tables, events: seq<Event>)
    requires TablesOk(tables.labels) && Runs(setting, Down(tables), events)
    ensures AnswersAll(None, Calls(setting, Down(tables), events))
    ensures AfterCalls(None, Calls(setting, Down(tables), events)) == View(After(setting, Down(tables), events))
  {
    RunExplained(setting, Down(tables), events);
  }
}
