/** The query builder: label matchers compiled to SQL text. The text is read back by Sql's reader, and what
    it says is compared with what the matchers say in PromQL. */
module QueryBuilder {
  import opened Text
  import opened Json
  import opened Regex
  import opened Sql
  import opened MetricString
  import opened Timestamps

  /** proto3 enums are open: a client can send a type that has no name. */
  datatype MatchType = EQ | NEQ | RE | NRE | Unnamed(code: int)

  datatype LabelMatcher = LabelMatcher(kind: MatchType, name: string, value: string)

  datatype BuildError = UnknownMatchType(kind: MatchType) | UnknownMetricNameMatchType(kind: MatchType)

  datatype Built<+T> = Rejected(error: BuildError) | Built(value: T)

  /* ---- text ---- */

  /** `escapeValue`: every quote doubled. */
  function EscapeValue(s: string): string {
    if s == "" then "" else EscapeChar(s[0]) + EscapeValue(s[1..])
  }

  function EscapeChar(c: char): string { if c == '\'' then "''" else [c] }

  function LabelValueOrEmpty(escapedName: string): string {
    "COALESCE(l.metric_labels->>'" + escapedName + "', '')"
  }

  /** `json.Marshal` of a map of one string. */
  function MarshalPair(name: string, value: string): string {
    "{" + MarshalString(name) + ":" + MarshalString(value) + "}"
  }

  function EqualityCondition(escapedName: string, escapedValue: string): string {
    if escapedValue == "" then LabelValueOrEmpty(escapedName) + " = ''"
    else "l.metric_labels @> '" + MarshalPair(escapedName, escapedValue) + "'"
  }

  function PatternOf(kind: MatchType, escapedValue: string): string {
    if kind.RE? || kind.NRE? then AnchorPattern(escapedValue) else ""
  }

  /** The instants a text can say, written by `time.Format(time.RFC3339Nano)` and read by PostgreSQL. */
  datatype Calendar = Calendar(write: int -> string, read: string -> Option<int>)

  /** Between the bounds both sides agree, and the text holds no quote. */
  ghost predicate Agrees(calendar: Calendar) {
    forall t {:trigger calendar.write(t)} :: EARLIEST_QUERY_TIME <= t <= LATEST_QUERY_TIME ==>
      calendar.read(calendar.write(t)) == Some(t) && '\'' !in calendar.write(t)
  }

  /* ---- what a matcher asks for ---- */

  predicate IsName(m: LabelMatcher) { m.name == METRIC_NAME_LABEL }

  function ErrorOf(m: LabelMatcher): BuildError {
    if IsName(m) then UnknownMetricNameMatchType(m.kind) else UnknownMatchType(m.kind)
  }

  predicate AllNamed(ms: seq<LabelMatcher>) {
    forall i :: 0 <= i < |ms| ==> !ms[i].kind.Unnamed?
  }

  /** The condition a matcher stands for. */
  function ConditionOf(m: LabelMatcher): Condition {
    var (op, operand) := match m.kind
      case EQ => (Equal, m.value)
      case NEQ => (NotEqual, m.value)
      case RE => (Matching, AnchorPattern(m.value))
      case _ => (NotMatching, AnchorPattern(m.value));
    if IsName(m) then NameIs(op, operand)
    else if op.Equal? && m.value != "" then Contains(m.name, m.value)
    else LabelIs(m.name, op, operand)
  }

  function ConditionsOf(ms: seq<LabelMatcher>): seq<Condition> {
    seq(|ms|, i requires 0 <= i < |ms| => ConditionOf(ms[i]))
  }

  /** What may follow a condition: anything that does not go on with its last literal. */
  predicate Follows(rest: string) { rest == "" || rest[0] != '\'' }

  /** A text that reads as that condition, whatever follows. */
  ghost predicate Says(text: string, c: Condition) {
    forall rest: string :: Follows(rest) ==> ReadCondition(text + rest) == Ok(c, rest)
  }

  /* ---- reading back ---- */

  lemma {:induction false} LiteralReadsBack(s: string, rest: string)
    requires Follows(rest)
    ensures ReadLiteral(EscapeValue(s) + (['\''] + rest)) == Ok(s, rest)
  {
    if s == "" {
      assert EscapeValue(s) + (['\''] + rest) == ['\''] + rest;
      assert (['\''] + rest)[1..] == rest;
    } else {
      LiteralReadsBack(s[1..], rest);
      LiteralStep(s[0], s[1..], ['\''] + rest);
      assert s == [s[0]] + s[1..];
    }
  }

  lemma LiteralStep(c: char, tail: string, end: string)
    ensures ReadLiteral(EscapeChar(c) + EscapeValue(tail) + end) == Prepend(c, ReadLiteral(EscapeValue(tail) + end))
  {
    var after := EscapeValue(tail) + end;
    Associate(EscapeChar(c), EscapeValue(tail), end);
    assert (EscapeChar(c) + after)[|EscapeChar(c)|..] == after;
    assert (EscapeChar(c) + after)[0] == c;
  }

  lemma EscapeCons(c: char, tail: string)
    ensures EscapeValue([c] + tail) == EscapeChar(c) + EscapeValue(tail)
  {
    assert ([c] + tail)[1..] == tail;
  }

  lemma {:induction false} EscapeSplits(a: string, b: string)
    ensures EscapeValue(a + b) == EscapeValue(a) + EscapeValue(b)
  {
    if a == "" {
      assert a + b == b;
    } else {
      var tail := a[1..];
      EscapeSplits(tail, b);
      EscapeCons(a[0], tail + b);
      assert a + b == [a[0]] + (tail + b);
      Associate(EscapeChar(a[0]), EscapeValue(tail), EscapeValue(b));
    }
  }

  lemma Associate(a: string, b: string, c: string)
    ensures a + (b + c) == a + b + c
  {
  }

  lemma {:induction false} QuoteFreeEscapes(s: string)
    requires '\'' !in s
    ensures EscapeValue(s) == s
  {
    if s != "" {
      QuoteFreeEscapes(s[1..]);
      assert s[0] in s && s == [s[0]] + s[1..];
    }
  }

  lemma HexDigitIsNoQuote(n: int)
    requires 0 <= n < 16
    ensures HexDigit(n) != '\''
  {
  }

  lemma MarshalCharQuoteFree(c: char)
    requires c != '\''
    ensures '\'' !in MarshalChar(c)
  {
    if |MarshalChar(c)| == 6 {
      var n := c as int;
      HexDigitIsNoQuote(n / 4096);
      HexDigitIsNoQuote(n / 256 % 16);
      HexDigitIsNoQuote(n / 16 % 16);
      HexDigitIsNoQuote(n % 16);
    }
  }

  lemma MarshalCons(c: char, tail: string)
    ensures MarshalBody([c] + tail) == MarshalChar(c) + MarshalBody(tail)
  {
    assert ([c] + tail)[1..] == tail;
  }

  lemma TwoOf(c: char, tail: string)
    ensures [c, c] + tail == [c] + ([c] + tail)
  {
  }

  lemma QuoteIsPlain()
    ensures MarshalChar('\'') == ['\''] && EscapeChar('\'') == ['\'', '\'']
  {
  }

  /** A doubled quote stays one, written or marshalled. */
  lemma QuoteCommutes(tail: string, body: string)
    requires MarshalBody(EscapeValue(tail)) == EscapeValue(body)
    ensures MarshalBody(EscapeChar('\'') + EscapeValue(tail)) == EscapeValue(MarshalChar('\'') + body)
  {
    var q, written := '\'', EscapeValue(tail);
    QuoteIsPlain();
    TwoOf(q, written);
    TwoOf(q, EscapeValue(body));
    MarshalCons(q, [q] + written);
    MarshalCons(q, written);
    EscapeCons(q, body);
  }

  lemma CharCommutes(c: char, tail: string, body: string)
    requires c != '\'' && MarshalBody(EscapeValue(tail)) == EscapeValue(body)
    ensures MarshalBody(EscapeChar(c) + EscapeValue(tail)) == EscapeValue(MarshalChar(c) + body)
  {
    MarshalCons(c, EscapeValue(tail));
    EscapeSplits(MarshalChar(c), body);
    MarshalCharQuoteFree(c);
    QuoteFreeEscapes(MarshalChar(c));
  }

  /** Doubling the quotes and marshalling commute: marshalling neither makes nor escapes a quote. */
  lemma {:induction false} EscapingCommutesWithMarshalling(s: string)
    ensures MarshalBody(EscapeValue(s)) == EscapeValue(MarshalBody(s))
  {
    if s != "" {
      EscapingCommutesWithMarshalling(s[1..]);
      if s[0] == '\'' {
        QuoteCommutes(s[1..], MarshalBody(s[1..]));
      } else {
        CharCommutes(s[0], s[1..], MarshalBody(s[1..]));
      }
    }
  }

  lemma EscapeAround(before: string, s: string, after: string)
    requires '\'' !in before
    ensures EscapeValue(before + (s + after)) == before + (EscapeValue(s) + EscapeValue(after))
  {
    EscapeSplits(before, s + after);
    EscapeSplits(s, after);
    QuoteFreeEscapes(before);
  }

  lemma PairNested(n: string, v: string)
    ensures "{" + ("\"" + n + "\"") + ":" + ("\"" + v + "\"") + "}" == "{\"" + (n + ("\":\"" + (v + "\"}")))
  {
  }

  lemma EscapedPair(name: string, value: string)
    ensures MarshalPair(EscapeValue(name), EscapeValue(value)) == EscapeValue(MarshalPair(name, value))
  {
    EscapingCommutesWithMarshalling(name);
    EscapingCommutesWithMarshalling(value);
    var n, v := MarshalBody(name), MarshalBody(value);
    PairNested(n, v);
    PairNested(EscapeValue(n), EscapeValue(v));
    EscapeAround("{\"", n, "\":\"" + (v + "\"}"));
    EscapeAround("\":\"", v, "\"}");
    QuoteFreeEscapes("\"}");
  }

  lemma PairText(name: string, value: string)
    ensures MarshalPair(name, value) ==
            ['{'] + (['"'] + (MarshalBody(name) + "\"" + ([':'] + (['"'] + (MarshalBody(value) + "\"" + ['}'])))))
  {
  }

  lemma PairMember(name: string, value: string)
    ensures ReadMember(['"'] + (MarshalBody(name) + "\"" + ([':'] + (['"'] + (MarshalBody(value) + "\"" + ['}']))))) ==
            Ok((name, value), ['}'])
  {
    var valueWritten := MarshalBody(value) + "\"" + ['}'];
    MarshalReadsBack(value, ['}']);
    var afterName := [':'] + (['"'] + valueWritten);
    MarshalReadsBack(name, afterName);
    StringHere(MarshalBody(name) + "\"" + afterName, Ok(name, afterName));
    ExpectHere(':', ['"'] + valueWritten);
    StringHere(valueWritten, Ok(value, ['}']));
  }

  /** The containment literal is the object of that one label. */
  lemma PairReadsBack(name: string, value: string)
    ensures ParseObject(MarshalPair(name, value)) == Some(map[name := value])
  {
    PairText(name, value);
    PairMember(name, value);
    var inside := ['"'] + (MarshalBody(name) + "\"" + ([':'] + (['"'] + (MarshalBody(value) + "\"" + ['}']))));
    var end := ['}'];
    assert end == ['}'] + "";
    ExpectHere('}', "");
    ExpectOther(',', end);
    assert ReadMembers(inside, map[]) == Ok(map[name := value], "");
    ExpectOther('}', inside);
    ObjectHere(inside, Ok(map[name := value], ""));
  }

  /* ---- one condition ---- */

  function OperatorText(op: Operator): string {
    match op
    case Equal => " = '"
    case NotEqual => " != '"
    case Matching => " ~ '"
    case NotMatching => " !~ '"
  }

  /** A literal and what follows it. */
  function Literal(s: string, rest: string): string { EscapeValue(s) + (['\''] + rest) }

  lemma Prefixed(p: string, s: string)
    ensures p <= p + s && (p + s)[|p|..] == s
  {
  }

  lemma PrefixesDiffer(p: string, q: string, k: nat, s: string)
    requires k < |p| && k < |q| && p[k] != q[k]
    ensures !(p <= q + s)
  {
    assert (q + s)[k] == q[k];
  }

  lemma OperatorReads(op: Operator, s: string)
    ensures ReadOperator(OperatorText(op) + s) == Ok(op, s)
  {
    var text := OperatorText(op) + s;
    if op.Equal? || op.Matching? {
      assert text[..4] == OperatorText(op) && text[4..] == s;
      assert OperatorText(op)[1] == if op.Equal? then '=' else '~';
    } else {
      assert text[..5] == OperatorText(op) && text[5..] == s;
      assert text[..4][1] == '!';
      assert OperatorText(op)[2] == if op.NotEqual? then '=' else '~';
    }
    assert " = '"[1] == '=' && " ~ '"[1] == '~' && " != '"[2] == '=' && " !~ '"[2] == '~';
  }

  lemma ComparisonReads(op: Operator, operand: string, rest: string)
    requires Follows(rest)
    ensures ReadComparison(OperatorText(op) + Literal(operand, rest)) == Ok((op, operand), rest)
  {
    OperatorReads(op, Literal(operand, rest));
    LiteralReadsBack(operand, rest);
  }

  lemma NameConditionReads(op: Operator, operand: string, rest: string)
    requires Follows(rest)
    ensures ReadCondition(METRIC_NAME + (OperatorText(op) + Literal(operand, rest))) == Ok(NameIs(op, operand), rest)
  {
    var comparison := OperatorText(op) + Literal(operand, rest);
    Prefixed(METRIC_NAME, comparison);
    PrefixesDiffer(CONTAINS, METRIC_NAME, 9, comparison);
    PrefixesDiffer(COALESCE, METRIC_NAME, 0, comparison);
    ComparisonReads(op, operand, rest);
  }

  lemma LabelConditionReads(name: string, op: Operator, operand: string, rest: string)
    requires Follows(rest)
    ensures ReadCondition(COALESCE + Literal(name, OR_EMPTY + (OperatorText(op) + Literal(operand, rest)))) ==
            Ok(LabelIs(name, op, operand), rest)
  {
    var comparison := OperatorText(op) + Literal(operand, rest);
    var afterName := OR_EMPTY + comparison;
    Prefixed(COALESCE, Literal(name, afterName));
    PrefixesDiffer(CONTAINS, COALESCE, 0, Literal(name, afterName));
    Prefixed(OR_EMPTY, comparison);
    assert OR_EMPTY[0] == ',' && afterName[0] == OR_EMPTY[0];
    LiteralReadsBack(name, afterName);
    ComparisonReads(op, operand, rest);
  }

  lemma OneMemberMap(name: string, value: string)
    ensures |map[name := value]| == 1
    ensures forall other :: other in map[name := value] <==> other == name
  {
    var m := map[name := value];
    assert m.Keys == {name};
    assert |m| == |m.Keys|;
  }

  lemma ContainmentReads(name: string, value: string, rest: string)
    requires Follows(rest)
    ensures ReadCondition(CONTAINS + Literal(MarshalPair(name, value), rest)) == Ok(Contains(name, value), rest)
  {
    var pair := MarshalPair(name, value);
    Prefixed(CONTAINS, Literal(pair, rest));
    LiteralReadsBack(pair, rest);
    PairReadsBack(name, value);
    OneMemberMap(name, value);
    assert map[name := value][name] == value;
  }

  lemma TimeConditionsRead(literal: string, rest: string)
    requires Follows(rest)
    ensures ReadCondition(TIME_FROM + Literal(literal, rest)) == Ok(TimeFrom(literal), rest)
    ensures ReadCondition(TIME_TO + Literal(literal, rest)) == Ok(TimeTo(literal), rest)
  {
    var l := Literal(literal, rest);
    LiteralReadsBack(literal, rest);
    Prefixed(TIME_FROM, l);
    Prefixed(TIME_TO, l);
    PrefixesDiffer(CONTAINS, TIME_FROM, 0, l);
    PrefixesDiffer(COALESCE, TIME_FROM, 0, l);
    PrefixesDiffer(METRIC_NAME, TIME_FROM, 0, l);
    PrefixesDiffer(CONTAINS, TIME_TO, 0, l);
    PrefixesDiffer(COALESCE, TIME_TO, 0, l);
    PrefixesDiffer(METRIC_NAME, TIME_TO, 0, l);
    PrefixesDiffer(TIME_FROM, TIME_TO, 14, l);
  }

  lemma QuotedText(head: string, literal: string, rest: string)
    ensures head + literal + "'" + rest == head + (literal + (['\''] + rest))
  {
  }

  lemma NameText(op: string, operand: string, rest: string)
    ensures METRIC_NAME + op + operand + "'" + rest == METRIC_NAME + (op + (operand + (['\''] + rest)))
  {
  }

  lemma NameSays(op: Operator, operand: string)
    ensures Says(METRIC_NAME + OperatorText(op) + EscapeValue(operand) + "'", NameIs(op, operand))
  {
    forall rest: string | Follows(rest)
      ensures ReadCondition(METRIC_NAME + OperatorText(op) + EscapeValue(operand) + "'" + rest) ==
              Ok(NameIs(op, operand), rest)
    {
      NameConditionReads(op, operand, rest);
      NameText(OperatorText(op), EscapeValue(operand), rest);
    }
  }

  lemma LabelText(name: string, op: string, operand: string, rest: string)
    ensures LabelValueOrEmpty(name) + op + operand + "'" + rest ==
            COALESCE + (name + (['\''] + (OR_EMPTY + (op + (operand + (['\''] + rest))))))
  {
    assert "', '')" == "'" + OR_EMPTY;
  }

  lemma LabelSays(name: string, op: Operator, operand: string)
    ensures Says(LabelValueOrEmpty(EscapeValue(name)) + OperatorText(op) + EscapeValue(operand) + "'",
                 LabelIs(name, op, operand))
  {
    forall rest: string | Follows(rest)
      ensures ReadCondition(
                LabelValueOrEmpty(EscapeValue(name)) + OperatorText(op) + EscapeValue(operand) + "'" + rest) ==
              Ok(LabelIs(name, op, operand), rest)
    {
      LabelConditionReads(name, op, operand, rest);
      LabelText(EscapeValue(name), OperatorText(op), EscapeValue(operand), rest);
    }
  }

  lemma ContainmentSays(name: string, value: string)
    ensures Says(CONTAINS + MarshalPair(EscapeValue(name), EscapeValue(value)) + "'", Contains(name, value))
  {
    EscapedPair(name, value);
    forall rest: string | Follows(rest)
      ensures ReadCondition(CONTAINS + MarshalPair(EscapeValue(name), EscapeValue(value)) + "'" + rest) ==
              Ok(Contains(name, value), rest)
    {
      ContainmentReads(name, value, rest);
      QuotedText(CONTAINS, EscapeValue(MarshalPair(name, value)), rest);
    }
  }

  lemma EmptyEqualitySays(name: string)
    ensures Says(LabelValueOrEmpty(EscapeValue(name)) + " = ''", LabelIs(name, Equal, ""))
  {
    LabelSays(name, Equal, "");
    assert LabelValueOrEmpty(EscapeValue(name)) + " = ''" ==
           LabelValueOrEmpty(EscapeValue(name)) + OperatorText(Equal) + EscapeValue("") + "'";
  }

  lemma EqualitySays(name: string, value: string)
    ensures Says(EqualityCondition(EscapeValue(name), EscapeValue(value)),
                 if value == "" then LabelIs(name, Equal, "") else Contains(name, value))
  {
    if value == "" {
      EmptyEqualitySays(name);
    } else {
      ContainmentSays(name, value);
    }
  }

  /** An escaped pattern is anchored as the pattern itself would be. */
  lemma AnchoringEscaped(pattern: string)
    ensures AnchorPattern(EscapeValue(pattern)) == EscapeValue(AnchorPattern(pattern))
  {
    EscapeAround("^(?:", pattern, ")$");
    QuoteFreeEscapes(")$");
    Associate("^(?:", pattern, ")$");
    Associate("^(?:", EscapeValue(pattern), ")$");
  }

  ghost predicate Compiled(r: Built<string>, m: LabelMatcher) {
    match r
    case Rejected(error) => m.kind.Unnamed? && error == ErrorOf(m)
    case Built(text) => !m.kind.Unnamed? && Says(text, ConditionOf(m))
  }

  /** What the two switches below have to say for a comparison. */
  lemma ComparisonSays(m: LabelMatcher, op: Operator, operand: string)
    requires || (m.kind.EQ? && IsName(m) && op.Equal? && operand == m.value)
             || (m.kind.NEQ? && op.NotEqual? && operand == m.value)
             || (m.kind.RE? && op.Matching? && operand == AnchorPattern(m.value))
             || (m.kind.NRE? && op.NotMatching? && operand == AnchorPattern(m.value))
    ensures Says(if IsName(m)
                 then METRIC_NAME + OperatorText(op) + EscapeValue(operand) + "'"
                 else LabelValueOrEmpty(EscapeValue(m.name)) + OperatorText(op) + EscapeValue(operand) + "'",
                 ConditionOf(m))
  {
    if IsName(m) {
      NameSays(op, operand);
    } else {
      LabelSays(m.name, op, operand);
    }
  }

  /** The first switch: a matcher on any label but the metric name. */
  method LabelCondition(m: LabelMatcher, escapedName: string, escapedValue: string, pattern: string)
    returns (r: Built<string>)
    requires !IsName(m) && escapedName == EscapeValue(m.name) && escapedValue == EscapeValue(m.value)
    requires m.kind.RE? || m.kind.NRE? ==> pattern == EscapeValue(AnchorPattern(m.value))
    ensures Compiled(r, m)
  {
    match m.kind {
      case EQ =>
        EqualitySays(m.name, m.value);
        return Built(EqualityCondition(escapedName, escapedValue));
      case NEQ =>
        ComparisonSays(m, NotEqual, m.value);
        return Built(LabelValueOrEmpty(escapedName) + " != '" + escapedValue + "'");
      case RE =>
        ComparisonSays(m, Matching, AnchorPattern(m.value));
        return Built(LabelValueOrEmpty(escapedName) + " ~ '" + pattern + "'");
      case NRE =>
        ComparisonSays(m, NotMatching, AnchorPattern(m.value));
        return Built(LabelValueOrEmpty(escapedName) + " !~ '" + pattern + "'");
      case Unnamed(_) =>
        return Rejected(UnknownMatchType(m.kind));
    }
  }

  /** The second: a matcher on the metric name. */
  method NameCondition(m: LabelMatcher, escapedValue: string, pattern: string) returns (r: Built<string>)
    requires IsName(m) && escapedValue == EscapeValue(m.value)
    requires m.kind.RE? || m.kind.NRE? ==> pattern == EscapeValue(AnchorPattern(m.value))
    ensures Compiled(r, m)
  {
    match m.kind {
      case EQ =>
        ComparisonSays(m, Equal, m.value);
        return Built("l.metric_name" + " = '" + escapedValue + "'");
      case NEQ =>
        ComparisonSays(m, NotEqual, m.value);
        return Built("l.metric_name" + " != '" + escapedValue + "'");
      case RE =>
        ComparisonSays(m, Matching, AnchorPattern(m.value));
        return Built("l.metric_name" + " ~ '" + pattern + "'");
      case NRE =>
        ComparisonSays(m, NotMatching, AnchorPattern(m.value));
        return Built("l.metric_name" + " !~ '" + pattern + "'");
      case Unnamed(_) =>
        return Rejected(UnknownMetricNameMatchType(m.kind));
    }
  }

  /** The error the first matcher of a type without a name leads to. */
  ghost predicate FirstUnnamed(ms: seq<LabelMatcher>, error: BuildError) {
    exists i :: 0 <= i < |ms| && ms[i].kind.Unnamed? && AllNamed(ms[..i]) && error == ErrorOf(ms[i])
  }

  ghost predicate AllSay(texts: seq<string>, conditions: seq<Condition>) {
    |texts| == |conditions| && forall i :: 0 <= i < |texts| ==> Says(texts[i], conditions[i])
  }

  lemma OneMore(texts: seq<string>, text: string, ms: seq<LabelMatcher>, n: nat)
    requires n < |ms| && AllNamed(ms[..n]) && !ms[n].kind.Unnamed?
    requires AllSay(texts, ConditionsOf(ms[..n])) && Says(text, ConditionOf(ms[n]))
    ensures AllNamed(ms[..n + 1]) && AllSay(texts + [text], ConditionsOf(ms[..n + 1]))
  {
    var more := ConditionsOf(ms[..n + 1]);
    assert more == ConditionsOf(ms[..n]) + [ConditionOf(ms[n])];
    assert forall i :: 0 <= i < n ==> more[i] == ConditionsOf(ms[..n])[i];
  }

  /** `buildLabelConditions`: one condition per matcher, in their order, each text saying what its matcher
      stands for; or the error of the first matcher of a type without a name. */
  method BuildLabelConditions(labelMatchers: seq<LabelMatcher>) returns (r: Built<seq<string>>)
    ensures r.Built? <==> AllNamed(labelMatchers)
    ensures match r {
      case Rejected(error) => FirstUnnamed(labelMatchers, error)
      case Built(texts) => AllSay(texts, ConditionsOf(labelMatchers)) }
  {
    var matchers: seq<string> := [];
    for n := 0 to |labelMatchers|
      invariant AllNamed(labelMatchers[..n]) && AllSay(matchers, ConditionsOf(labelMatchers[..n]))
    {
      var m := labelMatchers[n];
      var escapedName, escapedValue := EscapeValue(m.name), EscapeValue(m.value);
      var pattern := PatternOf(m.kind, escapedValue);
      AnchoringEscaped(m.value);
      var condition;
      if m.name != METRIC_NAME_LABEL {
        condition := LabelCondition(m, escapedName, escapedValue, pattern);
      } else {
        condition := NameCondition(m, escapedValue, pattern);
      }
      if condition.Rejected? {
        return Rejected(condition.error);
      }
      OneMore(matchers, condition.value, labelMatchers, n);
      matchers := matchers + [condition.value];
    }
    assert labelMatchers[..|labelMatchers|] == labelMatchers;
    return Built(matchers);
  }

  /* ---- the joined conditions ---- */

  lemma ConditionSaid(text: string, c: Condition, rest: string)
    requires Says(text, c) && Follows(rest)
    ensures ReadCondition(text + rest) == Ok(c, rest)
  {
  }

  lemma AndFollows(tail: string)
    ensures Follows(AND + tail) && AND <= AND + tail && (AND + tail)[|AND|..] == tail
  {
    assert AND[0] == ' ' && (AND + tail)[0] == AND[0];
  }

  lemma ConjunctionStep(text: string, c: Condition, tail: string, others: seq<Condition>, rest: string)
    requires ReadCondition(text) == Ok(c, AND + tail) && ReadConjunction(tail) == Ok(others, rest)
    ensures ReadConjunction(text) == Ok([c] + others, rest)
  {
    AndFollows(tail);
  }

  lemma ConditionsSaid(texts: seq<string>, conditions: seq<Condition>)
    requires AllSay(texts, conditions) && texts != []
    ensures Says(texts[0], conditions[0]) && AllSay(texts[1..], conditions[1..])
    ensures conditions == [conditions[0]] + conditions[1..]
  {
    forall i | 0 <= i < |texts[1..]|
      ensures Says(texts[1..][i], conditions[1..][i])
    {
      assert Says(texts[i + 1], conditions[i + 1]);
    }
  }

  lemma JoinCons(texts: seq<string>, separator: string, rest: string)
    requires |texts| > 1
    ensures Join(texts, separator) + rest == texts[0] + (separator + (Join(texts[1..], separator) + rest))
  {
    var others := Join(texts[1..], separator);
    Associate(texts[0], separator, others);
    Associate(texts[0], separator + others, rest);
    Associate(separator, others, rest);
  }

  lemma {:induction false} JoinedReads(texts: seq<string>, conditions: seq<Condition>, rest: string)
    requires AllSay(texts, conditions) && texts != [] && Follows(rest) && !(AND <= rest)
    ensures ReadConjunction(Join(texts, AND) + rest) == Ok(conditions, rest)
    decreases |texts|
  {
    ConditionsSaid(texts, conditions);
    if |texts| == 1 {
      ConditionSaid(texts[0], conditions[0], rest);
      assert conditions == [conditions[0]];
    } else {
      var tail := Join(texts[1..], AND) + rest;
      JoinedReads(texts[1..], conditions[1..], rest);
      AndFollows(tail);
      ConditionSaid(texts[0], conditions[0], AND + tail);
      ConjunctionStep(texts[0] + (AND + tail), conditions[0], tail, conditions[1..], rest);
      JoinCons(texts, AND, rest);
    }
  }

  lemma NoMatcherIsNoCondition()
    ensures ReadCondition(NO_MATCHER) == Malformed
  {
    var s := NO_MATCHER;
    assert s[0] == 'T';
    assert CONTAINS[0] == 'l' && COALESCE[0] == 'C' && METRIC_NAME[0] == 'l' && TIME_FROM[0] == 'v' &&
           TIME_TO[0] == 'v';
  }

  lemma PredicateReads(texts: seq<string>, conditions: seq<Condition>)
    requires AllSay(texts, conditions) && texts != []
    ensures ParsePredicate(Join(texts, AND)) == Some(conditions)
  {
    JoinedReads(texts, conditions, "");
    NoMatcherIsNoCondition();
    assert Join(texts, AND) + "" == Join(texts, AND);
  }

  /** `BuildLabelsPredicate`: whatever the names and values hold, the text reads back as the condition list. */
  method BuildLabelsPredicate(matchers: seq<LabelMatcher>) returns (r: Built<string>)
    ensures r.Built? <==> AllNamed(matchers)
    ensures match r {
      case Rejected(error) => FirstUnnamed(matchers, error)
      case Built(text) => ParsePredicate(text) == Some(ConditionsOf(matchers)) }
  {
    var conditions := BuildLabelConditions(matchers);
    if conditions.Rejected? {
      return Rejected(conditions.error);
    }
    if conditions.value == [] {
      assert ConditionsOf(matchers) == [];
      return Built("TRUE");
    }
    PredicateReads(conditions.value, ConditionsOf(matchers));
    return Built(Join(conditions.value, " AND "));
  }

  /** `prompb.Query`. */
  datatype Query = Query(start: int, end: int, matchers: seq<LabelMatcher>)

  /** The conditions of a whole query: those of its matchers and its two bounds. */
  function QueryConditions(calendar: Calendar, query: Query): seq<Condition> {
    ConditionsOf(query.matchers) +
    [TimeFrom(calendar.write(ClampedInstant(query.start))), TimeTo(calendar.write(ClampedInstant(query.end)))]
  }

  lemma TimesSay(literal: string)
    requires '\'' !in literal
    ensures Says("v.metric_time >= '" + literal + "'", TimeFrom(literal))
    ensures Says("v.metric_time <= '" + literal + "'", TimeTo(literal))
  {
    QuoteFreeEscapes(literal);
    forall rest: string | Follows(rest)
      ensures ReadCondition("v.metric_time >= '" + literal + "'" + rest) == Ok(TimeFrom(literal), rest)
      ensures ReadCondition("v.metric_time <= '" + literal + "'" + rest) == Ok(TimeTo(literal), rest)
    {
      TimeConditionsRead(literal, rest);
      QuotedText(TIME_FROM, literal, rest);
      QuotedText(TIME_TO, literal, rest);
    }
  }

  /* ---- the whole query ---- */

  /** `sqlBaseQueryFormat`, up to where the conditions go in and from there on. */
  const SELECT_COLUMNS := "\n\t\tSELECT v.metric_time, " + "l.metric_name, v.metric_value, " + "l.metric_labels\n"
  const FROM_TABLES := "\t\tFROM metric_values v, " + "metric_labels l\n"
  const WHERE_JOINED := "\t\tWHERE " + "l.metric_id = v.metric_id\n" + "\t\t  AND "
  const ORDER_BY_TIME := "\n\t\tORDER BY " + "v.metric_time\n"

  /** What it is to be read as. */
  function SamplesSelect(conditions: seq<Condition>): Select {
    Select([Column('v', MetricTime), Column('l', MetricName), Column('v', MetricValue), Column('l', MetricLabels)],
           [Source(ValuesTable, 'v'), Source(LabelsTable, 'l')],
           JoinCondition(Column('l', MetricId), Equal, Column('v', MetricId)), conditions, [Column('v', MetricTime)])
  }

  function FieldText(field: Field): string {
    match field
    case MetricId => "metric_id"
    case MetricTime => "metric_time"
    case MetricValue => "metric_value"
    case MetricName => "metric_name"
    case MetricLabels => "metric_labels"
  }

  function ColumnText(column: Column): string { [column.alias, '.'] + FieldText(column.field) }

  lemma FieldReads(field: Field, rest: string)
    ensures ReadField(FieldText(field) + rest) == Ok(field, rest)
  {
    Prefixed(FieldText(field), rest);
    assert (FieldText(field) + rest)[7] == FieldText(field)[7];
  }

  lemma ColumnReads(column: Column, rest: string)
    ensures ReadColumn(ColumnText(column) + rest) == Ok(column, rest)
  {
    FieldReads(column.field, rest);
    assert (ColumnText(column) + rest)[2..] == FieldText(column.field) + rest;
  }

  lemma ColumnTexts()
    ensures ColumnText(Column('v', MetricTime)) == "v.metric_time"
    ensures ColumnText(Column('l', MetricName)) == "l.metric_name"
    ensures ColumnText(Column('v', MetricValue)) == "v.metric_value"
    ensures ColumnText(Column('l', MetricLabels)) == "l.metric_labels"
  {
  }

  lemma IdTexts()
    ensures ColumnText(Column('l', MetricId)) == "l.metric_id"
    ensures ColumnText(Column('v', MetricId)) == "v.metric_id"
  {
  }

  lemma OneColumn(s: string, column: Column, rest: string)
    requires ReadColumn(s) == Ok(column, rest) && (rest == "" || rest[0] != ',')
    ensures ReadColumns(s) == Ok([column], rest)
  {
    assert ", "[0] == ',';
  }

  lemma MoreColumns(s: string, column: Column, tail: string, others: seq<Column>, rest: string)
    requires ReadColumn(s) == Ok(column, ", " + tail) && ReadColumns(tail) == Ok(others, rest)
    ensures ReadColumns(s) == Ok([column] + others, rest)
  {
    Prefixed(", ", tail);
  }

  lemma WordHere(before: string, word: string, after: string, rest: string)
    requires SkipSpace(before + (word + (after + rest))) == word + (after + rest) && SkipSpace(after + rest) == rest
    ensures ReadWord(word, before + (word + (after + rest))) == Ok((), rest)
  {
    Prefixed(word, after + rest);
  }

  lemma SkipsSpaces(spaces: string, rest: string)
    requires (forall i :: 0 <= i < |spaces| ==> IsSpace(spaces[i])) && (rest == "" || !IsSpace(rest[0]))
    ensures SkipSpace(spaces + rest) == rest
    decreases |spaces|
  {
    if spaces == "" {
      assert spaces + rest == rest;
    } else {
      SkipsSpaces(spaces[1..], rest);
      assert (spaces + rest)[1..] == spaces[1..] + rest;
    }
  }

  /** A keyword in its place: white space, the keyword, a space, and no space. */
  lemma KeywordHere(spaces: string, word: string, rest: string)
    requires forall i :: 0 <= i < |spaces| ==> IsSpace(spaces[i])
    requires word != "" && !IsSpace(word[0]) && rest != "" && !IsSpace(rest[0])
    ensures ReadWord(word, spaces + (word + (" " + rest))) == Ok((), rest)
  {
    assert (word + (" " + rest))[0] == word[0];
    SkipsSpaces(spaces, word + (" " + rest));
    assert " "[0] == ' ';
    SkipsSpaces(" ", rest);
    WordHere(spaces, word, " ", rest);
  }

  /* ---- the query cut into words ---- */

  function ColumnsText(rest: string): string {
    "v.metric_time" + (", " + ("l.metric_name" + (", " + ("v.metric_value" + (", " + ("l.metric_labels" + rest))))))
  }

  lemma SelectInPieces()
    ensures "\n\t\tSELECT v.metric_time, " == "\n\t\t" + ("SELECT" + (" " + ("v.metric_time" + ", ")))
    ensures "l.metric_name, v.metric_value, " == "l.metric_name" + (", " + ("v.metric_value" + ", "))
    ensures "l.metric_labels\n" == "l.metric_labels" + "\n"
  {
  }

  lemma SelectInWords(rest: string)
    ensures SELECT_COLUMNS + rest == "\n\t\t" + ("SELECT" + (" " + ColumnsText("\n" + rest)))
  {
    SelectInPieces();
    var a := "\n\t\t" + ("SELECT" + (" " + ("v.metric_time" + ", ")));
    var b := "l.metric_name" + (", " + ("v.metric_value" + ", "));
    assert SELECT_COLUMNS + rest == a + (b + ("l.metric_labels" + ("\n" + rest)));
  }

  lemma FromInWords(rest: string)
    ensures FROM_TABLES + rest ==
            "\t\t" + ("FROM" + (" " + ("metric_values v" + (", " + ("metric_labels l" + ("\n" + rest))))))
  {
    assert "\t\tFROM metric_values v, " == "\t\t" + ("FROM" + (" " + ("metric_values v" + ", ")));
    assert "metric_labels l\n" == "metric_labels l" + "\n";
  }

  lemma WhereInWords(rest: string)
    ensures WHERE_JOINED + rest ==
            "\t\t" + ("WHERE" + (" " + ("l.metric_id" + (" = " + ("v.metric_id" + (
              "\n\t\t  " + ("AND" + (" " + rest))))))))
  {
    assert "\t\tWHERE " == "\t\t" + ("WHERE" + " ");
    assert "l.metric_id = v.metric_id\n" == "l.metric_id" + (" = " + ("v.metric_id" + "\n"));
    assert "\n" + "\t\t  AND " == "\n\t\t  " + ("AND" + " ");
  }

  lemma OrderInWords()
    ensures ORDER_BY_TIME == "\n\t\t" + ("ORDER BY" + (" " + ("v.metric_time" + "\n")))
  {
    assert "\n\t\tORDER BY " == "\n\t\t" + ("ORDER BY" + " ");
    assert "v.metric_time\n" == "v.metric_time" + "\n";
  }

  /* ---- the words read ---- */

  lemma TwoColumnsMore(a: Column, b: Column, tail: string, others: seq<Column>, rest: string)
    requires ReadColumns(tail) == Ok(others, rest)
    ensures ReadColumns(ColumnText(a) + (", " + (ColumnText(b) + (", " + tail)))) == Ok([a, b] + others, rest)
  {
    var second := ColumnText(b) + (", " + tail);
    ColumnReads(b, ", " + tail);
    MoreColumns(second, b, tail, others, rest);
    ColumnReads(a, ", " + second);
    MoreColumns(ColumnText(a) + (", " + second), a, second, [b] + others, rest);
    assert [a] + ([b] + others) == [a, b] + others;
  }

  lemma TwoColumns(a: Column, b: Column, rest: string)
    requires rest == "" || rest[0] != ','
    ensures ReadColumns(ColumnText(a) + (", " + (ColumnText(b) + rest))) == Ok([a, b], rest)
  {
    ColumnReads(b, rest);
    OneColumn(ColumnText(b) + rest, b, rest);
    ColumnReads(a, ", " + (ColumnText(b) + rest));
    MoreColumns(ColumnText(a) + (", " + (ColumnText(b) + rest)), a, ColumnText(b) + rest, [b], rest);
    assert [a] + [b] == [a, b];
  }

  lemma ColumnsRead(rest: string)
    requires rest == "" || rest[0] != ','
    ensures ReadColumns(ColumnsText(rest)) == Ok(SamplesSelect([]).columns, rest)
  {
    var a, b := Column('v', MetricTime), Column('l', MetricName);
    var c, d := Column('v', MetricValue), Column('l', MetricLabels);
    TwoColumns(c, d, rest);
    TwoColumnsMore(a, b, ColumnText(c) + (", " + (ColumnText(d) + rest)), [c, d], rest);
    ColumnTexts();
    assert [a, b] + [c, d] == [a, b, c, d];
  }

  lemma TableReads(table: Table, alias: char, rest: string)
    ensures ReadSource((if table == ValuesTable then "metric_values " else "metric_labels ") + ([alias] + rest)) ==
            Ok(Source(table, alias), rest)
  {
    var text := if table == ValuesTable then "metric_values " else "metric_labels ";
    Prefixed(text, [alias] + rest);
    assert |text| == 14 && (text + ([alias] + rest))[7] == text[7];
    assert (text + ([alias] + rest))[15..] == rest;
  }

  lemma SourceTexts(rest: string)
    ensures "metric_values v" + rest == "metric_values " + (['v'] + rest)
    ensures "metric_labels l" + rest == "metric_labels " + (['l'] + rest)
  {
    assert "metric_values v" == "metric_values " + ['v'];
    assert "metric_labels l" == "metric_labels " + ['l'];
  }

  lemma OneSource(s: string, source: Source, rest: string)
    requires ReadSource(s) == Ok(source, rest) && (rest == "" || rest[0] != ',')
    ensures ReadSources(s) == Ok([source], rest)
  {
    assert ", "[0] == ',';
  }

  lemma MoreSources(s: string, source: Source, tail: string, others: seq<Source>, rest: string)
    requires ReadSource(s) == Ok(source, ", " + tail) && ReadSources(tail) == Ok(others, rest)
    ensures ReadSources(s) == Ok([source] + others, rest)
  {
    Prefixed(", ", tail);
  }

  lemma SourcesRead(rest: string)
    requires rest == "" || rest[0] != ','
    ensures ReadSources("metric_values v" + (", " + ("metric_labels l" + rest))) == Ok(SamplesSelect([]).sources, rest)
  {
    var values, labels := Source(ValuesTable, 'v'), Source(LabelsTable, 'l');
    var tail := "metric_labels l" + rest;
    SourceTexts(rest);
    TableReads(LabelsTable, 'l', rest);
    OneSource(tail, labels, rest);
    SourceTexts(", " + tail);
    TableReads(ValuesTable, 'v', ", " + tail);
    MoreSources("metric_values v" + (", " + tail), values, tail, [labels], rest);
    assert [values] + [labels] == [values, labels];
  }

  lemma JoinRead(rest: string)
    ensures ReadJoinCondition("l.metric_id" + (" = " + ("v.metric_id" + rest))) == Ok(SamplesSelect([]).on, rest)
  {
    var left, right := Column('l', MetricId), Column('v', MetricId);
    IdTexts();
    ColumnReads(right, rest);
    ColumnReads(left, " = " + (ColumnText(right) + rest));
    Prefixed(" = ", ColumnText(right) + rest);
  }

  lemma OrderRead()
    ensures ReadOrder("v.metric_time" + "\n") == Some(SamplesSelect([]).order)
  {
    var column := Column('v', MetricTime);
    ColumnTexts();
    ColumnReads(column, "\n");
    OneColumn("v.metric_time" + "\n", column, "\n");
    SkipsSpaces("\n", "");
  }

  lemma NewLineThen(word: string, rest: string)
    ensures "\n" + ("\t\t" + (word + (" " + rest))) == "\n\t\t" + (word + (" " + rest))
  {
    assert "\n\t\t" == "\n" + "\t\t";
  }

  /** A keyword on a line of its own, with two tabs before it. */
  lemma LineStarts(word: string, rest: string)
    requires word != "" && !IsSpace(word[0]) && rest != "" && !IsSpace(rest[0])
    ensures ReadWord(word, "\n\t\t" + (word + (" " + rest))) == Ok((), rest)
    ensures ReadWord(word, "\n" + ("\t\t" + (word + (" " + rest)))) == Ok((), rest)
  {
    NewLineThen(word, rest);
    KeywordHere("\n\t\t", word, rest);
  }

  lemma TablesRead(rest: string)
    ensures ReadTables(ColumnsText("\n" + (FROM_TABLES + rest))) ==
            Ok((SamplesSelect([]).columns, SamplesSelect([]).sources), "\n" + rest)
  {
    var sources := "metric_values v" + (", " + ("metric_labels l" + ("\n" + rest)));
    ColumnsRead("\n" + (FROM_TABLES + rest));
    FromInWords(rest);
    assert sources[0] == 'm';
    LineStarts("FROM", sources);
    SourcesRead("\n" + rest);
  }

  lemma ConditionStarts(s: string)
    requires ReadCondition(s).Ok?
    ensures s != "" && !IsSpace(s[0])
  {
    assert CONTAINS[0] == 'l' && COALESCE[0] == 'C' && METRIC_NAME[0] == 'l' && TIME_FROM[0] == 'v' &&
           TIME_TO[0] == 'v';
  }

  lemma AndRead(text: string)
    requires text != "" && !IsSpace(text[0])
    ensures ReadWord("AND", "\n\t\t  " + ("AND" + (" " + text))) == Ok((), text)
  {
    KeywordHere("\n\t\t  ", "AND", text);
  }

  lemma WhereInParts(s: string, on: JoinCondition, afterOn: string, text: string, conditions: seq<Condition>,
          rest: string)
    requires ReadJoinCondition(s) == Ok(on, afterOn) && ReadWord("AND", afterOn) == Ok((), text)
    requires ReadConjunction(text) == Ok(conditions, rest)
    ensures ReadWhere(s) == Ok((on, conditions), rest)
  {
  }

  lemma WhereRead(text: string, conditions: seq<Condition>, rest: string)
    requires ReadConjunction(text) == Ok(conditions, rest)
    ensures ReadWhere("l.metric_id" + (" = " + ("v.metric_id" + ("\n\t\t  " + ("AND" + (" " + text)))))) ==
            Ok((SamplesSelect([]).on, conditions), rest)
  {
    var afterOn := "\n\t\t  " + ("AND" + (" " + text));
    JoinRead(afterOn);
    ConditionStarts(text);
    AndRead(text);
    WhereInParts("l.metric_id" + (" = " + ("v.metric_id" + afterOn)), SamplesSelect([]).on, afterOn, text, conditions,
                 rest);
  }

  /** Clause after clause, each read where the one before it ended. */
  lemma SelectRead(s: string, afterSelect: string, afterTables: string, afterWhere: string, conditions: seq<Condition>,
          afterConditions: string, afterOrderBy: string)
    requires ReadWord("SELECT", s) == Ok((), afterSelect)
    requires ReadTables(afterSelect) == Ok((SamplesSelect([]).columns, SamplesSelect([]).sources), afterTables)
    requires ReadWord("WHERE", afterTables) == Ok((), afterWhere)
    requires ReadWhere(afterWhere) == Ok((SamplesSelect([]).on, conditions), afterConditions)
    requires ReadWord("ORDER BY", afterConditions) == Ok((), afterOrderBy)
    requires ReadOrder(afterOrderBy) == Some(SamplesSelect([]).order)
    ensures ParseQuery(s) == Some(SamplesSelect(conditions))
  {
  }

  lemma OrderFollows()
    ensures Follows(ORDER_BY_TIME) && !(AND <= ORDER_BY_TIME)
    ensures ReadWord("ORDER BY", ORDER_BY_TIME) == Ok((), "v.metric_time" + "\n")
  {
    OrderInWords();
    assert ORDER_BY_TIME[0] == '\n' && AND[0] == ' ';
    assert ("v.metric_time" + "\n")[0] == 'v';
    LineStarts("ORDER BY", "v.metric_time" + "\n");
  }

  lemma WhereStarts(text: string)
    ensures ReadWord("WHERE", "\n" + (WHERE_JOINED + text)) ==
            Ok((), "l.metric_id" + (" = " + ("v.metric_id" + ("\n\t\t  " + ("AND" + (" " + text))))))
  {
    WhereInWords(text);
    var join := "l.metric_id" + (" = " + ("v.metric_id" + ("\n\t\t  " + ("AND" + (" " + text)))));
    assert join[0] == 'l';
    LineStarts("WHERE", join);
  }

  lemma SelectStarts(rest: string)
    ensures ReadWord("SELECT", SELECT_COLUMNS + rest) == Ok((), ColumnsText("\n" + rest))
  {
    SelectInWords(rest);
    assert ColumnsText("\n" + rest)[0] == 'v';
    LineStarts("SELECT", ColumnsText("\n" + rest));
  }

  /** The whole text, whatever the conditions: the four columns, the two tables, the join on the id, the
      conditions, the order. */
  lemma QueryReads(texts: seq<string>, conditions: seq<Condition>)
    requires AllSay(texts, conditions) && texts != []
    ensures ParseQuery(SELECT_COLUMNS + (FROM_TABLES + (WHERE_JOINED + (Join(texts, AND) + ORDER_BY_TIME)))) ==
            Some(SamplesSelect(conditions))
  {
    var text := Join(texts, AND) + ORDER_BY_TIME;
    var where := "l.metric_id" + (" = " + ("v.metric_id" + ("\n\t\t  " + ("AND" + (" " + text)))));
    var fromOn := FROM_TABLES + (WHERE_JOINED + text);
    OrderFollows();
    JoinedReads(texts, conditions, ORDER_BY_TIME);
    SelectStarts(fromOn);
    TablesRead(WHERE_JOINED + text);
    WhereStarts(text);
    WhereRead(text, conditions, ORDER_BY_TIME);
    OrderRead();
    SelectRead(SELECT_COLUMNS + fromOn, ColumnsText("\n" + fromOn), "\n" + (WHERE_JOINED + text), where, conditions,
               ORDER_BY_TIME, "v.metric_time" + "\n");
  }

  lemma ClampedInstantBounded(ms: int)
    ensures EARLIEST_QUERY_TIME <= ClampedInstant(ms) <= LATEST_QUERY_TIME
  {
  }

  /** `BuildSQLQuery`: the text reads back as the conditions of the matchers and then the two bounds. */
  method BuildSQLQuery(calendar: Calendar, query: Query) returns (r: Built<string>)
    requires Agrees(calendar)
    ensures r.Built? <==> AllNamed(query.matchers)
    ensures match r {
      case Rejected(error) => FirstUnnamed(query.matchers, error)
      case Built(text) => ParseQuery(text) == Some(SamplesSelect(QueryConditions(calendar, query))) }
  {
    var conditions := BuildLabelConditions(query.matchers);
    if conditions.Rejected? {
      return Rejected(conditions.error);
    }
    var from := TimestampLiteral(query.start);
    var to := TimestampLiteral(query.end);
    ClampedInstantBounded(query.start);
    ClampedInstantBounded(query.end);
    TimesSay(calendar.write(from));
    TimesSay(calendar.write(to));
    var all :=
      conditions.value +
      ["v.metric_time >= '" + calendar.write(from) + "'", "v.metric_time <= '" + calendar.write(to) + "'"];
    QueryReads(all, QueryConditions(calendar, query));
    return Built(SELECT_COLUMNS + (FROM_TABLES + (WHERE_JOINED + (Join(all, " AND ") + ORDER_BY_TIME))));
  }
}
