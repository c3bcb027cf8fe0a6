/** External labels are on no stored series: matchers on them are settled before the query and dropped. */
module Pushdown {
  import opened Text
  import opened Domain
  import opened Regex
  import opened Sql
  import opened QueryBuilder
  import opened Matching
  import MetricString
  import opened SeriesBuilder

  const NAME := MetricString.METRIC_NAME_LABEL

  datatype Conversion = Invalid | Excluded | Passed(matchers: seq<LabelMatcher>)

  /** A matcher whose value does not satisfy it: by its type, or by its pattern, or plainly. */
  datatype Verdict = Unsupported | Fails | Satisfied

  /** `externalLabelMatches`. */
  function ExternalLabelMatches(m: LabelMatcher, value: string): Verdict {
    if !Compiles(m) then Unsupported else if Accepts(m, value) then Satisfied else Fails
  }

  /** What a matcher does to the conversion on its own. */
  function VerdictOn(m: LabelMatcher, external: map<string, string>): Verdict {
    if m.name in external then ExternalLabelMatches(m, external[m.name])
    else if m.kind.Unnamed? then Unsupported
    else Satisfied
  }

  /** The matchers that reach the query say the same to RE2 and to PostgreSQL. */
  ghost predicate Readable(ms: seq<LabelMatcher>, external: map<string, string>) {
    AllSensible(Stored(ms, external))
  }

  /** The matchers that reach the query. */
  function Stored(ms: seq<LabelMatcher>, external: map<string, string>): seq<LabelMatcher> {
    if ms == [] then []
    else
      var last := ms[|ms| - 1];
      Stored(ms[..|ms| - 1], external) + if last.name in external then [] else [last]
  }

  ghost predicate AllSatisfied(ms: seq<LabelMatcher>, external: map<string, string>) {
    forall i :: 0 <= i < |ms| ==> VerdictOn(ms[i], external) == Satisfied
  }

  /** The verdict on the whole request: that of the first matcher that is not satisfied. */
  function Deciding(ms: seq<LabelMatcher>, external: map<string, string>): Verdict {
    if ms == [] then Satisfied
    else
      var before := Deciding(ms[..|ms| - 1], external);
      if before != Satisfied then before else VerdictOn(ms[|ms| - 1], external)
  }

  lemma {:induction false} FirstDecides(ms: seq<LabelMatcher>, external: map<string, string>, i: nat)
    requires i < |ms| && AllSatisfied(ms[..i], external) && VerdictOn(ms[i], external) != Satisfied
    ensures Deciding(ms, external) == VerdictOn(ms[i], external)
  {
    var before := ms[..|ms| - 1];
    if i < |before| {
      assert before[..i] == ms[..i];
      FirstDecides(before, external, i);
    } else {
      SatisfiedExactly(before, external);
    }
  }

  lemma {:induction false} SatisfiedExactly(ms: seq<LabelMatcher>, external: map<string, string>)
    ensures Deciding(ms, external) == Satisfied <==> AllSatisfied(ms, external)
  {
    if ms != [] {
      SatisfiedExactly(ms[..|ms| - 1], external);
      assert AllSatisfied(ms, external) <==>
             AllSatisfied(ms[..|ms| - 1], external) && VerdictOn(ms[|ms| - 1], external) == Satisfied;
    }
  }

  lemma OneMoreVerdict(ms: seq<LabelMatcher>, external: map<string, string>, n: nat)
    requires n < |ms| && AllSatisfied(ms[..n], external)
    ensures AllSatisfied(ms[..n + 1], external) <==> VerdictOn(ms[n], external) == Satisfied
    ensures Stored(ms[..n + 1], external) == Stored(ms[..n], external) + if ms[n].name in external then [] else [ms[n]]
    ensures VerdictOn(ms[n], external) != Satisfied ==> Deciding(ms, external) == VerdictOn(ms[n], external)
  {
    assert ms[..n + 1][..n] == ms[..n];
    if VerdictOn(ms[n], external) != Satisfied {
      FirstDecides(ms, external, n);
      assert ms[..n + 1][n] == ms[n];
    }
  }

  ghost predicate Converted(ms: seq<LabelMatcher>, external: map<string, string>, r: Conversion) {
    match r
    case Passed(matchers) => Deciding(ms, external) == Satisfied && matchers == Stored(ms, external)
    case Excluded => Deciding(ms, external) == Fails
    case Invalid => Deciding(ms, external) == Unsupported
  }

  /* ---- the outcome, in terms of the matchers ---- */

  /** A type without a name, or the pattern of an external label that does not compile. */
  ghost predicate Unusable(m: LabelMatcher, external: map<string, string>) {
    m.kind.Unnamed? || (m.name in external && (m.kind.RE? || m.kind.NRE?) && RE2(m.value).None?)
  }

  ghost predicate GoesThrough(m: LabelMatcher, external: map<string, string>) {
    !m.kind.Unnamed? && (m.name in external ==> Accepts(m, external[m.name]))
  }

  ghost predicate AllGoThrough(ms: seq<LabelMatcher>, external: map<string, string>) {
    forall i :: 0 <= i < |ms| ==> GoesThrough(ms[i], external)
  }

  /** The first matcher that does not go through is unusable. */
  ghost predicate InvalidRequest(ms: seq<LabelMatcher>, external: map<string, string>) {
    exists i :: 0 <= i < |ms| && AllGoThrough(ms[..i], external) && Unusable(ms[i], external)
  }

  /** The first matcher that does not go through is not satisfied by the external label it is about. */
  ghost predicate ExcludedRequest(ms: seq<LabelMatcher>, external: map<string, string>) {
    exists i :: 0 <= i < |ms| && AllGoThrough(ms[..i], external) &&
      !Unusable(ms[i], external) && !GoesThrough(ms[i], external)
  }

  lemma VerdictExactly(m: LabelMatcher, external: map<string, string>)
    ensures VerdictOn(m, external) == Unsupported <==> Unusable(m, external)
    ensures VerdictOn(m, external) == Satisfied <==> GoesThrough(m, external)
  {
  }

  lemma AllVerdicts(ms: seq<LabelMatcher>, external: map<string, string>)
    ensures AllSatisfied(ms, external) <==> AllGoThrough(ms, external)
  {
    forall i | 0 <= i < |ms|
      ensures VerdictOn(ms[i], external) == Satisfied <==> GoesThrough(ms[i], external)
    {
      VerdictExactly(ms[i], external);
    }
  }

  lemma {:induction false} FirstUnsatisfied(ms: seq<LabelMatcher>, external: map<string, string>) returns (i: nat)
    requires !AllSatisfied(ms, external)
    ensures i < |ms| && AllSatisfied(ms[..i], external) && VerdictOn(ms[i], external) != Satisfied
  {
    i := |ms| - 1;
    if !AllSatisfied(ms[..i], external) {
      var before := ms[..i];
      i := FirstUnsatisfied(before, external);
      assert before[..i] == ms[..i];
    }
  }

  lemma DecidedAt(ms: seq<LabelMatcher>, external: map<string, string>, i: nat)
    requires i < |ms| && AllGoThrough(ms[..i], external) && !GoesThrough(ms[i], external)
    ensures Deciding(ms, external) == if Unusable(ms[i], external) then Unsupported else Fails
  {
    AllVerdicts(ms[..i], external);
    VerdictExactly(ms[i], external);
    FirstDecides(ms, external, i);
  }

  lemma DecidingExactly(ms: seq<LabelMatcher>, external: map<string, string>)
    ensures Deciding(ms, external) == Unsupported <==> InvalidRequest(ms, external)
    ensures Deciding(ms, external) == Fails <==> ExcludedRequest(ms, external)
    ensures Deciding(ms, external) == Satisfied <==> AllGoThrough(ms, external)
  {
    SatisfiedExactly(ms, external);
    AllVerdicts(ms, external);
    if !AllSatisfied(ms, external) {
      var i := FirstUnsatisfied(ms, external);
      AllVerdicts(ms[..i], external);
      VerdictExactly(ms[i], external);
      DecidedAt(ms, external, i);
    }
    forall i | 0 <= i < |ms| && AllGoThrough(ms[..i], external) && !GoesThrough(ms[i], external)
      ensures Deciding(ms, external) == if Unusable(ms[i], external) then Unsupported else Fails
    {
      DecidedAt(ms, external, i);
    }
  }

  /** `promMatchers`. */
  method PromMatchers(storeMatchers: seq<LabelMatcher>, external: map<string, string>) returns (r: Conversion)
    ensures r.Invalid? <==> InvalidRequest(storeMatchers, external)
    ensures r.Excluded? <==> ExcludedRequest(storeMatchers, external)
    ensures Converted(storeMatchers, external, r)
  {
    DecidingExactly(storeMatchers, external);
    var matchers: seq<LabelMatcher> := [];
    for n := 0 to |storeMatchers|
      invariant AllSatisfied(storeMatchers[..n], external) && matchers == Stored(storeMatchers[..n], external)
    {
      var m := storeMatchers[n];
      OneMoreVerdict(storeMatchers, external, n);
      if m.name in external {
        var verdict := ExternalLabelMatches(m, external[m.name]);
        if verdict.Unsupported? {
          return Invalid;
        }
        if verdict.Fails? {
          return Excluded;
        }
        continue;
      }
      if m.kind.Unnamed? {
        return Invalid;
      }
      matchers := matchers + [m];
    }
    assert storeMatchers[..|storeMatchers|] == storeMatchers;
    SatisfiedExactly(storeMatchers, external);
    return Passed(matchers);
  }

  /* ---- the merged view ---- */

  function IdOfRow(row: StoredSeries): SeriesId { SeriesId(row.name, Decoded(row.labels)) }

  /** A label as the merged series carries it, empty when it carries none. */
  function MergedLabel(row: StoredSeries, external: map<string, string>, name: string): string {
    var merged := Merged(IdOfRow(row), external);
    if name in merged then merged[name] else ""
  }

  /** PromQL on the merged series. */
  ghost predicate MergedAccepted(ms: seq<LabelMatcher>, external: map<string, string>, row: StoredSeries) {
    forall i :: 0 <= i < |ms| ==> Accepts(ms[i], MergedLabel(row, external, ms[i].name))
  }

  /** What the code does instead. */
  ghost predicate PushedAccepted(ms: seq<LabelMatcher>, external: map<string, string>, row: StoredSeries) {
    AllSatisfied(ms, external) && StoredAccepted(Stored(ms, external), row)
  }

  lemma MergedIsStored(row: StoredSeries, external: map<string, string>, name: string)
    requires name !in external
    ensures MergedLabel(row, external, name) == StoredLabel(row, name)
  {
  }

  lemma MergedIsExternal(row: StoredSeries, external: map<string, string>, name: string)
    requires name in external && name != NAME
    ensures MergedLabel(row, external, name) == external[name]
  {
  }

  lemma {:induction false} StoredMembers(ms: seq<LabelMatcher>, external: map<string, string>, m: LabelMatcher)
    ensures m in Stored(ms, external) <==> m in ms && m.name !in external
  {
    if ms != [] {
      StoredMembers(ms[..|ms| - 1], external, m);
      assert m in ms <==> m in ms[..|ms| - 1] || m == ms[|ms| - 1];
    }
  }

  /** One matcher, settled or asked. */
  predicate SettledOrAsked(m: LabelMatcher, external: map<string, string>, row: StoredSeries) {
    VerdictOn(m, external) == Satisfied && (m.name !in external ==> Accepts(m, StoredLabel(row, m.name)))
  }

  lemma MatcherKeepsMeaning(m: LabelMatcher, external: map<string, string>, row: StoredSeries)
    requires NAME !in external
    ensures SettledOrAsked(m, external, row) <==> Accepts(m, MergedLabel(row, external, m.name))
  {
    if m.name in external {
      MergedIsExternal(row, external, m.name);
    } else {
      MergedIsStored(row, external, m.name);
    }
  }

  lemma PushedOneByOne(ms: seq<LabelMatcher>, external: map<string, string>, row: StoredSeries)
    ensures PushedAccepted(ms, external, row) <==> forall i :: 0 <= i < |ms| ==> SettledOrAsked(ms[i], external, row)
  {
    var stored := Stored(ms, external);
    forall i | 0 <= i < |ms|
      ensures ms[i] in stored <==> ms[i].name !in external
    {
      StoredMembers(ms, external, ms[i]);
    }
    forall j | 0 <= j < |stored|
      ensures stored[j] in ms && stored[j].name !in external
    {
      StoredMembers(ms, external, stored[j]);
    }
  }

  /** Settling external matchers first and asking the rest of the stored series is asking all of the merged
      series. */
  lemma PushdownKeepsMeaning(ms: seq<LabelMatcher>, external: map<string, string>, row: StoredSeries)
    requires NAME !in external
    ensures PushedAccepted(ms, external, row) <==> MergedAccepted(ms, external, row)
  {
    PushedOneByOne(ms, external, row);
    forall i | 0 <= i < |ms|
      ensures SettledOrAsked(ms[i], external, row) <==> Accepts(ms[i], MergedLabel(row, external, ms[i].name))
    {
      MatcherKeepsMeaning(ms[i], external, row);
    }
  }

  ghost predicate AlwaysFaithful(external: map<string, string>) {
    forall ms: seq<LabelMatcher>, row: StoredSeries ::
      PushedAccepted(ms, external, row) <==> MergedAccepted(ms, external, row)
  }

  /** An external label of the metric name's own name breaks it: the matcher is settled on the external
      value, and the merged series shows the stored name. Nothing else does. */
  lemma FaithfulExactly(external: map<string, string>)
    ensures AlwaysFaithful(external) <==> NAME !in external
  {
    if NAME in external {
      var m := LabelMatcher(EQ, NAME, external[NAME]);
      var row := StoredSeries(external[NAME] + "x", None);
      assert [m][..0] == [];
      assert PushedAccepted([m], external, row);
      assert MergedLabel(row, external, NAME) == external[NAME] + "x";
      assert ![m][0].kind.RE? && !Accepts([m][0], MergedLabel(row, external, NAME));
      assert !MergedAccepted([m], external, row);
    } else {
      forall ms: seq<LabelMatcher>, row: StoredSeries
        ensures PushedAccepted(ms, external, row) <==> MergedAccepted(ms, external, row)
      {
        PushdownKeepsMeaning(ms, external, row);
      }
    }
  }

  /** The query builder never meets a type without a name. */
  lemma {:induction false} StoredNamed(ms: seq<LabelMatcher>, external: map<string, string>)
    requires AllSatisfied(ms, external)
    ensures AllNamed(Stored(ms, external))
  {
    if ms != [] {
      StoredNamed(ms[..|ms| - 1], external);
    }
  }

  ghost predicate AllCompile(ms: seq<LabelMatcher>) {
    forall i :: 0 <= i < |ms| ==> Compiles(ms[i])
  }

  /** A conversion of matchers that compile goes through exactly when the external labels satisfy theirs,
      and is never refused. */
  lemma PassedExactly(ms: seq<LabelMatcher>, external: map<string, string>, r: Conversion)
    requires Converted(ms, external, r) && AllCompile(ms)
    ensures !r.Invalid?
    ensures r.Passed? <==> forall i :: 0 <= i < |ms| && ms[i].name in external ==> Accepts(ms[i], external[ms[i].name])
  {
    SatisfiedExactly(ms, external);
    NeverUnsupported(ms, external);
  }

  lemma {:induction false} NeverUnsupported(ms: seq<LabelMatcher>, external: map<string, string>)
    requires AllCompile(ms)
    ensures Deciding(ms, external) != Unsupported
  {
    if ms != [] {
      NeverUnsupported(ms[..|ms| - 1], external);
    }
  }
}
