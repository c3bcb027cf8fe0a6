/** What label matchers mean in PromQL, and that the conditions they are compiled to mean the same on every
    row of the label table. */
module Matching {
  import opened Regex
  import opened Sql
  import opened MetricString
  import opened QueryBuilder

  /** PromQL: does this label value satisfy the matcher? One that does not compile is satisfied by none. */
  predicate Accepts(m: LabelMatcher, value: string) {
    match m.kind
    case EQ => value == m.value
    case NEQ => value != m.value
    case RE => RE2(m.value).Some? && RE2(m.value).value(value)
    case NRE => RE2(m.value).Some? && !RE2(m.value).value(value)
    case Unnamed(_) => false
  }

  /** A type with a name, and a pattern that compiles when it asks for one. */
  predicate Compiles(m: LabelMatcher) {
    !m.kind.Unnamed? && (m.kind.RE? || m.kind.NRE? ==> RE2(m.value).Some?)
  }

  /** A type with a name, and a pattern that RE2 and PostgreSQL read alike when it asks for one. */
  predicate Sensible(m: LabelMatcher) {
    !m.kind.Unnamed? && (m.kind.RE? || m.kind.NRE? ==> ParseRegex(m.value).Some?)
  }

  predicate AllSensible(ms: seq<LabelMatcher>) {
    forall i :: 0 <= i < |ms| ==> Sensible(ms[i])
  }

  /** A label as a stored series carries it: the metric name under its own label, and a missing label empty. */
  function StoredLabel(row: StoredSeries, name: string): string {
    if name == METRIC_NAME_LABEL then row.name else LabelOrEmpty(row.labels, name)
  }

  ghost predicate StoredAccepted(ms: seq<LabelMatcher>, row: StoredSeries) {
    forall i :: 0 <= i < |ms| ==> Accepts(ms[i], StoredLabel(row, ms[i].name))
  }

  /** Three-valued logic included: the condition is true exactly on the rows the matcher accepts, and never
      unknown but for a containment asked of a NULL column. */
  lemma FragmentMatches(pattern: string, s: string)
    requires ParseRegex(pattern).Some?
    ensures RE2(pattern).Some? && RE2(pattern).value(s) == MatchesAll(ParseRegex(pattern).value, s)
  {
  }

  lemma ConditionMeans(m: LabelMatcher, row: StoredSeries)
    requires Sensible(m)
    ensures Meaning(ConditionOf(m), row) == Yes <==> Accepts(m, StoredLabel(row, m.name))
    ensures Meaning(ConditionOf(m), row) == Unknown <==> row.labels.None? && m.kind.EQ? && !IsName(m) && m.value != ""
  {
    if m.kind.RE? || m.kind.NRE? {
      FragmentMatches(m.value, StoredLabel(row, m.name));
      AnchoringIsFullMatch(m.value, StoredLabel(row, m.name));
    }
  }

  /** The joined predicate is true exactly when every matcher accepts. */
  lemma PredicateMeans(ms: seq<LabelMatcher>, row: StoredSeries)
    requires AllSensible(ms)
    ensures MeaningOfAll(ConditionsOf(ms), row) == Yes <==> StoredAccepted(ms, row)
  {
    var truths := Meanings(ConditionsOf(ms), row);
    AllMustHold(truths);
    forall i | 0 <= i < |ms|
      ensures truths[i] == Yes <==> Accepts(ms[i], StoredLabel(row, ms[i].name))
    {
      ConditionMeans(ms[i], row);
    }
  }

  /** A label asked to hold two values at once is held by no row. */
  lemma TwoEqualitiesSelectNothing(ms: seq<LabelMatcher>, i: nat, j: nat, row: StoredSeries)
    requires i < |ms| && j < |ms| && ms[i].kind.EQ? && ms[j].kind.EQ?
    requires ms[i].name == ms[j].name && ms[i].value != ms[j].value
    ensures MeaningOfAll(ConditionsOf(ms), row) != Yes
  {
    var truths := Meanings(ConditionsOf(ms), row);
    AllMustHold(truths);
    ConditionMeans(ms[i], row);
    ConditionMeans(ms[j], row);
    assert truths[i] == Meaning(ConditionOf(ms[i]), row) && truths[j] == Meaning(ConditionOf(ms[j]), row);
  }
}
