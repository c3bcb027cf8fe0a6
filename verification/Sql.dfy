/** The SQL the query builder emits, as PostgreSQL reads it from text (string literals with
    standard_conforming_strings on, so a quote is doubled and nothing else is special), and what its conditions
    mean on a row, in three-valued logic. */
module Sql {
  import opened Text
  import opened Json
  import opened Regex
  import opened Domain

  datatype Operator = Equal | NotEqual | Matching | NotMatching

  datatype Condition =
    | Contains(name: string, value: string)                    // l.metric_labels @> '{"name":"value"}'
    | LabelIs(name: string, op: Operator, operand: string)     // COALESCE(l.metric_labels->>'name', '') op 'operand'
    | NameIs(op: Operator, operand: string)                    // l.metric_name op 'operand'
    | TimeFrom(literal: string)                                // v.metric_time >= 'literal'
    | TimeTo(literal: string)                                  // v.metric_time <= 'literal'

  /* ---- reading ---- */

  const CONTAINS := "l.metric_labels @> '"
  const COALESCE := "COALESCE(l.metric_labels->>'"
  const OR_EMPTY := ", '')"
  const METRIC_NAME := "l.metric_name"
  const TIME_FROM := "v.metric_time >= '"
  const TIME_TO := "v.metric_time <= '"
  const AND := " AND "
  const NO_MATCHER := "TRUE"

  /** A string literal, from after its opening quote: a doubled quote is a quote, a single one ends it. */
  function ReadLiteral(s: string): (r: Read<string>)
    ensures r.Ok? ==> |r.rest| < |s|
    decreases |s|
  {
    if s == "" then Malformed
    else if s[0] != '\'' then Prepend(s[0], ReadLiteral(s[1..]))
    else if |s| >= 2 && s[1] == '\'' then Prepend('\'', ReadLiteral(s[2..]))
    else Ok("", s[1..])
  }

  function ReadOperator(s: string): (r: Read<Operator>)
    ensures r.Ok? ==> |r.rest| < |s|
  {
    if |s| >= 4 && s[..4] == " = '" then Ok(Equal, s[4..])
    else if |s| >= 4 && s[..4] == " ~ '" then Ok(Matching, s[4..])
    else if |s| >= 5 && s[..5] == " != '" then Ok(NotEqual, s[5..])
    else if |s| >= 5 && s[..5] == " !~ '" then Ok(NotMatching, s[5..])
    else Malformed
  }

  /** An operator and the literal it compares with. */
  function ReadComparison(s: string): (r: Read<(Operator, string)>)
    ensures r.Ok? ==> |r.rest| < |s|
  {
    match ReadOperator(s)
    case Malformed => Malformed
    case Ok(op, afterOp) =>
      match ReadLiteral(afterOp)
      case Malformed => Malformed
      case Ok(operand, rest) => Ok((op, operand), rest)
  }

  /** The literal of a containment test has to be a JSON object of one label. */
  function ReadContainment(s: string): (r: Read<Condition>)
    ensures r.Ok? ==> |r.rest| < |s|
  {
    match ReadLiteral(s)
    case Malformed => Malformed
    case Ok(json, rest) =>
      match ParseObject(json)
      case None => Malformed
      case Some(labels) =>
        if |labels| != 1 then Malformed
        else OneMember(labels); var name :| name in labels; Ok(Contains(name, labels[name]), rest)
  }

  lemma OneMember(labels: map<string, string>)
    requires |labels| == 1
    ensures exists name :: name in labels
    ensures forall a, b :: a in labels && b in labels ==> a == b
  {
    var name :| name in labels.Keys;
    assert |labels.Keys - {name}| == 0;
  }

  function ReadLabelIs(s: string): (r: Read<Condition>)
    ensures r.Ok? ==> |r.rest| < |s|
  {
    match ReadLiteral(s)
    case Malformed => Malformed
    case Ok(name, afterName) =>
      if !(OR_EMPTY <= afterName) then Malformed
      else
        match ReadComparison(afterName[|OR_EMPTY|..])
        case Malformed => Malformed
        case Ok((op, operand), rest) => Ok(LabelIs(name, op, operand), rest)
  }

  function ReadCondition(s: string): (r: Read<Condition>)
    ensures r.Ok? ==> |r.rest| < |s|
  {
    if CONTAINS <= s then ReadContainment(s[|CONTAINS|..])
    else if COALESCE <= s then ReadLabelIs(s[|COALESCE|..])
    else if METRIC_NAME <= s then
      match ReadComparison(s[|METRIC_NAME|..])
      case Malformed => Malformed
      case Ok((op, operand), rest) => Ok(NameIs(op, operand), rest)
    else if TIME_FROM <= s then
      match ReadLiteral(s[|TIME_FROM|..])
      case Malformed => Malformed
      case Ok(literal, rest) => Ok(TimeFrom(literal), rest)
    else if TIME_TO <= s then
      match ReadLiteral(s[|TIME_TO|..])
      case Malformed => Malformed
      case Ok(literal, rest) => Ok(TimeTo(literal), rest)
    else Malformed
  }

  function ReadConjunction(s: string): (r: Read<seq<Condition>>)
    decreases |s|
  {
    match ReadCondition(s)
    case Malformed => Malformed
    case Ok(first, rest) =>
      if !(AND <= rest) then Ok([first], rest)
      else
        match ReadConjunction(rest[|AND|..])
        case Malformed => Malformed
        case Ok(others, more) => Ok([first] + others, more)
  }

  /** A predicate over the label table, as spliced into the metadata queries. */
  function ParsePredicate(s: string): Option<seq<Condition>> {
    if s == NO_MATCHER then Some([])
    else
      match ReadConjunction(s)
      case Malformed => None
      case Ok(conditions, rest) => if rest == "" then Some(conditions) else None
  }

  /* ---- reading a whole query ---- */

  datatype Table = ValuesTable | LabelsTable

  /** A table under the name the query gives it. */
  datatype Source = Source(table: Table, alias: char)

  datatype Field = MetricId | MetricTime | MetricValue | MetricName | MetricLabels

  datatype Column = Column(alias: char, field: Field)

  /** Two columns compared. */
  datatype JoinCondition = JoinCondition(left: Column, op: Operator, right: Column)

  /** SELECT columns FROM sources WHERE on AND conditions ORDER BY order. */
  datatype Select = Select(
    columns: seq<Column>, sources: seq<Source>, on: JoinCondition, conditions: seq<Condition>, order: seq<Column>)

  /** A keyword and the white space around it. */
  function ReadWord(word: string, s: string): (r: Read<()>) {
    var t := SkipSpace(s);
    if word <= t then Ok((), SkipSpace(t[|word|..])) else Malformed
  }

  function ReadField(s: string): (r: Read<Field>)
    ensures r.Ok? ==> |r.rest| < |s|
  {
    if "metric_id" <= s then Ok(MetricId, s[9..])
    else if "metric_time" <= s then Ok(MetricTime, s[11..])
    else if "metric_value" <= s then Ok(MetricValue, s[12..])
    else if "metric_name" <= s then Ok(MetricName, s[11..])
    else if "metric_labels" <= s then Ok(MetricLabels, s[13..])
    else Malformed
  }

  /** `v.metric_time`, say. */
  function ReadColumn(s: string): (r: Read<Column>)
    ensures r.Ok? ==> |r.rest| < |s|
  {
    if |s| < 2 || s[1] != '.' then Malformed
    else
      match ReadField(s[2..])
      case Malformed => Malformed
      case Ok(field, rest) => Ok(Column(s[0], field), rest)
  }

  function ReadColumns(s: string): (r: Read<seq<Column>>)
    decreases |s|
  {
    match ReadColumn(s)
    case Malformed => Malformed
    case Ok(first, rest) =>
      if !(", " <= rest) then Ok([first], rest)
      else
        match ReadColumns(rest[2..])
        case Malformed => Malformed
        case Ok(others, more) => Ok([first] + others, more)
  }

  /** `metric_values v`, say. */
  function ReadSource(s: string): (r: Read<Source>)
    ensures r.Ok? ==> |r.rest| < |s|
  {
    if "metric_values " <= s && |s| > 14 then Ok(Source(ValuesTable, s[14]), s[15..])
    else if "metric_labels " <= s && |s| > 14 then Ok(Source(LabelsTable, s[14]), s[15..])
    else Malformed
  }

  function ReadSources(s: string): (r: Read<seq<Source>>)
    decreases |s|
  {
    match ReadSource(s)
    case Malformed => Malformed
    case Ok(first, rest) =>
      if !(", " <= rest) then Ok([first], rest)
      else
        match ReadSources(rest[2..])
        case Malformed => Malformed
        case Ok(others, more) => Ok([first] + others, more)
  }

  function ReadJoinCondition(s: string): (r: Read<JoinCondition>) {
    match ReadColumn(s)
    case Malformed => Malformed
    case Ok(left, afterLeft) =>
      var (op, width) :=
        if " = " <= afterLeft then (Equal, 3) else if " != " <= afterLeft then (NotEqual, 4) else (Matching, 0);
      if width == 0 then Malformed
      else
        match ReadColumn(afterLeft[width..])
        case Malformed => Malformed
        case Ok(right, rest) => Ok(JoinCondition(left, op, right), rest)
  }

  /** From behind WHERE on. */
  function ReadWhere(s: string): (r: Read<(JoinCondition, seq<Condition>)>) {
    match ReadJoinCondition(s)
    case Malformed => Malformed
    case Ok(on, afterOn) =>
      match ReadWord("AND", afterOn)
      case Malformed => Malformed
      case Ok(_, afterAnd) =>
        match ReadConjunction(afterAnd)
        case Malformed => Malformed
        case Ok(conditions, rest) => Ok((on, conditions), rest)
  }

  /** From behind ORDER BY to the end. */
  function ReadOrder(s: string): (r: Option<seq<Column>>) {
    match ReadColumns(s)
    case Malformed => None
    case Ok(order, rest) => if SkipSpace(rest) == "" then Some(order) else None
  }

  /** From behind SELECT up to WHERE. */
  function ReadTables(s: string): (r: Read<(seq<Column>, seq<Source>)>) {
    match ReadColumns(s)
    case Malformed => Malformed
    case Ok(columns, afterColumns) =>
      match ReadWord("FROM", afterColumns)
      case Malformed => Malformed
      case Ok(_, afterFrom) =>
        match ReadSources(afterFrom)
        case Malformed => Malformed
        case Ok(sources, rest) => Ok((columns, sources), rest)
  }

  function ParseQuery(s: string): Option<Select> {
    match ReadWord("SELECT", s)
    case Malformed => None
    case Ok(_, afterSelect) =>
      match ReadTables(afterSelect)
      case Malformed => None
      case Ok((columns, sources), afterTables) =>
        match ReadWord("WHERE", afterTables)
        case Malformed => None
        case Ok(_, afterWhere) =>
          match ReadWhere(afterWhere)
          case Malformed => None
          case Ok((on, conditions), afterConditions) =>
            match ReadWord("ORDER BY", afterConditions)
            case Malformed => None
            case Ok(_, afterOrderBy) =>
              match ReadOrder(afterOrderBy)
              case None => None
              case Some(order) => Some(Select(columns, sources, on, conditions, order))
  }

  /* ---- meaning ---- */

  datatype Truth = Yes | No | Unknown

  /** One row of metric_labels, as far as conditions read it. */
  datatype StoredSeries = StoredSeries(name: string, labels: LabelsColumn)

  function Of(b: bool): Truth { if b then Yes else No }

  /** `~`, unknown where the pattern is not of the fragment. */
  function Matched(pattern: string, s: string): Truth {
    match ParseRegex(pattern)
    case None => Unknown
    case Some(r) => Of(Search(r, s))
  }

  function Not(t: Truth): Truth {
    match t
    case Yes => No
    case No => Yes
    case Unknown => Unknown
  }

  function Compare(op: Operator, a: string, b: string): Truth {
    match op
    case Equal => Of(a == b)
    case NotEqual => Of(a != b)
    case Matching => Matched(b, a)
    case NotMatching => Not(Matched(b, a))
  }

  /** COALESCE(l.metric_labels->>'name', ''): empty for a NULL column, a missing key and a JSON null. */
  function LabelOrEmpty(labels: LabelsColumn, name: string): string {
    if labels.Some? && name in labels.value && labels.value[name].JsonString? then labels.value[name].s else ""
  }

  /** `@>` is NULL on a NULL column, and otherwise asks for that very string. */
  function Containment(labels: LabelsColumn, name: string, value: string): Truth {
    match labels
    case None => Unknown
    case Some(m) => Of(name in m && m[name] == JsonString(value))
  }

  /** A label condition on a row. The metadata queries have no time to compare. */
  function Meaning(c: Condition, row: StoredSeries): Truth {
    match c
    case Contains(name, value) => Containment(row.labels, name, value)
    case LabelIs(name, op, operand) => Compare(op, LabelOrEmpty(row.labels, name), operand)
    case NameIs(op, operand) => Compare(op, row.name, operand)
    case TimeFrom(_) => Unknown
    case TimeTo(_) => Unknown
  }

  function Both(a: Truth, b: Truth): Truth {
    if a == No || b == No then No else if a == Unknown || b == Unknown then Unknown else Yes
  }

  /** Conditions joined by AND. */
  function Conjunction(truths: seq<Truth>): Truth {
    if truths == [] then Yes else Both(truths[0], Conjunction(truths[1..]))
  }

  lemma {:induction false} AllMustHold(truths: seq<Truth>)
    ensures Conjunction(truths) == Yes <==> forall i :: 0 <= i < |truths| ==> truths[i] == Yes
  {
    if truths != [] {
      AllMustHold(truths[1..]);
      assert truths == [truths[0]] + truths[1..];
    }
  }

  function Meanings(conditions: seq<Condition>, row: StoredSeries): seq<Truth> {
    seq(|conditions|, i requires 0 <= i < |conditions| => Meaning(conditions[i], row))
  }

  function MeaningOfAll(conditions: seq<Condition>, row: StoredSeries): Truth { Conjunction(Meanings(conditions, row)) }
}
