/** The canonical text of a metric and the way the writer takes it apart again. */
module MetricString {
  import opened Text
  import opened Json
  import GoQuote
  import Sorting

  /** `model.Metric`: label names to values, the metric name under `__name__` when there is one. */
  type Metric = map<string, string>

  const METRIC_NAME_LABEL := "__name__"

  function NameOf(m: Metric): string {
    if METRIC_NAME_LABEL in m then m[METRIC_NAME_LABEL] else ""
  }

  function LabelsOf(m: Metric): map<string, string> { m - {METRIC_NAME_LABEL} }

  /** A metric carrying a name and nothing else prints without braces. */
  predicate Bare(m: Metric) { METRIC_NAME_LABEL in m && LabelsOf(m) == map[] }

  predicate PlainLabelName(name: string) {
    forall c :: c in name ==> c != '"' && c != '\\' && c >= ' '
  }

  /** What the printer needs, and the legacy name syntax of Prometheus grants: label names are printed
      unescaped, and the first brace has to be the one that opens the labels. */
  predicate PlainNames(m: Metric) {
    '{' !in NameOf(m) && forall name :: name in LabelsOf(m) ==> PlainLabelName(name)
  }

  predicate SafeValues(labels: map<string, string>) {
    forall name :: name in labels ==> AllJsonSafe(labels[name])
  }

  function LabelText(name: string, value: string): string {
    "\"" + name + "\": " + Quote(value)
  }

  /* ---- the text as a function of the metric alone ---- */

  ghost function TextBag(labels: map<string, string>, names: set<string>): multiset<string>
    requires names <= labels.Keys
  {
    if names == {} then multiset{}
    else
      var name := Least(names);
      multiset{LabelText(name, labels[name])} + TextBag(labels, names - {name})
  }

  /** The bag does not depend on the order in which the names come. */
  lemma {:induction false} TextBagAdd(labels: map<string, string>, names: set<string>, name: string)
    requires names <= labels.Keys && name in labels && name !in names
    ensures TextBag(labels, names + {name}) == TextBag(labels, names) + multiset{LabelText(name, labels[name])}
    decreases names
  {
    var least := Least(names + {name});
    if least == name {
      assert names + {name} - {name} == names;
    } else {
      LeastStays(names, name);
      TextBagAdd(labels, names - {least}, name);
      assert names + {name} - {least} == names - {least} + {name};
    }
  }

  lemma LeastStays(names: set<string>, name: string)
    requires Least(names + {name}) != name
    ensures Least(names + {name}) in names && Least(names) == Least(names + {name})
  {
    var least, other := Least(names + {name}), Least(names);
    if other != least {
      BelowAsymmetric(least, other);
    }
  }

  lemma {:induction false} InTextBag(labels: map<string, string>, names: set<string>, text: string)
    requires names <= labels.Keys
    ensures text in TextBag(labels, names) <==> exists name :: name in names && text == LabelText(name, labels[name])
    decreases names
  {
    if names != {} {
      InTextBag(labels, names - {Least(names)}, text);
    }
  }

  ghost function LabelTexts(labels: map<string, string>): seq<string> {
    BelowIsTotalOrder();
    Sorting.Arranged(Below, TextBag(labels, labels.Keys))
  }

  ghost function Braced(labels: map<string, string>): string {
    ['{'] + Join(LabelTexts(labels), ", ") + ['}']
  }

  /** The text stored for a series of the given name and labels. */
  ghost function SeriesText(name: string, labels: map<string, string>): string {
    name + Braced(labels)
  }

  ghost function MetricText(m: Metric): string {
    if Bare(m) then NameOf(m) else SeriesText(NameOf(m), LabelsOf(m))
  }

  /** The loop of `transformToMetricString`. Go visits the labels of a map in any order. */
  method PrintLabels(m: Metric) returns (labelStrings: seq<string>)
    ensures multiset(labelStrings) == TextBag(LabelsOf(m), LabelsOf(m).Keys)
  {
    ghost var labels := LabelsOf(m);
    assert labels.Keys == m.Keys - {METRIC_NAME_LABEL};
    labelStrings := [];
    var pending := m.Keys;
    ghost var seen: set<string> := {};
    while pending != {}
      invariant seen <= labels.Keys
      invariant pending + seen <= m.Keys && seen !! pending
      invariant labels.Keys <= pending + seen
      invariant multiset(labelStrings) == TextBag(labels, seen)
      decreases pending
    {
      var key :| key in pending;
      pending := pending - {key};
      if key != METRIC_NAME_LABEL {
        TextBagAdd(labels, seen, key);
        labelStrings := labelStrings + [LabelText(key, m[key])];
        seen := seen + {key};
      }
    }
    assert seen == labels.Keys;
  }

  /** `transformToMetricString`: whatever the visiting order, the text is a function of the metric. */
  method TransformToMetricString(m: Metric) returns (text: string)
    ensures text == MetricText(m)
  {
    var hasName := METRIC_NAME_LABEL in m;
    var metricName := if hasName then m[METRIC_NAME_LABEL] else "";
    var numLabels := if hasName then |m| - 1 else |m|;
    var labelStrings := PrintLabels(m);
    CountLabels(m);
    if numLabels > 0 {
      BelowIsTotalOrder();
      labelStrings := Sorting.Sort(Below, labelStrings);
      TextsSorted(LabelsOf(m), labelStrings);
      return metricName + (['{'] + Join(labelStrings, ", ") + ['}']);
    }
    assert LabelsOf(m) == map[];
    if hasName {
      return metricName;
    }
    EmptyObject();
    return "{}";
  }

  lemma TextsSorted(labels: map<string, string>, texts: seq<string>)
    requires Sorting.SortedBy(Below, texts) && multiset(texts) == TextBag(labels, labels.Keys)
    ensures texts == LabelTexts(labels)
  {
    BelowIsTotalOrder();
    Sorting.SortedBagUnique(Below, texts, LabelTexts(labels));
  }

  lemma CountLabels(m: Metric)
    ensures |LabelsOf(m)| == if METRIC_NAME_LABEL in m then |m| - 1 else |m|
  {
    assert LabelsOf(m).Keys == m.Keys - {METRIC_NAME_LABEL};
    assert |LabelsOf(m)| == |LabelsOf(m).Keys| && |m| == |m.Keys|;
  }

  lemma BelowIsTotalOrder()
    ensures Sorting.TotalOrder(Below)
  {
    forall x, y
      ensures Below(x, y) ==> !Below(y, x)
      ensures Below(x, y) || x == y || Below(y, x)
    {
      BelowTotal(x, y);
      if Below(x, y) {
        BelowAsymmetric(x, y);
      }
    }
    forall x, y, z | Below(x, z)
      ensures Below(x, y) || Below(y, z)
    {
      BelowTotal(x, y);
      if Below(y, x) {
        BelowTransitive(y, x, z);
      }
    }
  }

  /* ---- taking the text apart ---- */

  /** What the parser gets out of a new series text. `NoBrace` is `strings.Index` returning -1, where the
      slice that follows is out of range and the process dies. */
  datatype Decoded = NoBrace | Refused | Series(name: string, labels: map<string, string>)

  function Decode(text: string): Decoded {
    match IndexOf(text, '{')
    case None => NoBrace
    case Some(index) =>
      match ParseObject(text[index..])
      case None => Refused
      case Some(labels) => Series(text[..index], labels)
  }

  function MemberTexts(pairs: seq<(string, string)>): seq<string> {
    seq(|pairs|, i requires 0 <= i < |pairs| => LabelText(pairs[i].0, pairs[i].1))
  }

  function Collect(pairs: seq<(string, string)>, sofar: map<string, string>): map<string, string> {
    if pairs == [] then sofar else Collect(pairs[1..], sofar[pairs[0].0 := pairs[0].1])
  }

  lemma {:induction false} PlainNameReads(name: string, rest: string)
    requires PlainLabelName(name)
    ensures ReadChars(name + "\"" + rest) == Ok(name, rest)
  {
    if name == "" {
      assert ("" + "\"" + rest)[1..] == rest;
    } else {
      var tail := name[1..] + "\"" + rest;
      assert forall c :: c in name[1..] ==> c in name;
      PlainNameReads(name[1..], rest);
      assert name[0] in name;
      ReadPlain(name[0], tail);
      assert name + "\"" + rest == [name[0]] + tail;
      assert [name[0]] + name[1..] == name;
    }
  }

  lemma MemberText(name: string, value: string, rest: string)
    ensures LabelText(name, value) + rest ==
            ['"'] + (name + "\"" + ([':'] + (" " + (['"'] + (QuoteBody(value) + "\"" + rest)))))
  {
    assert "\": " == ['"'] + ([':'] + " ");
  }

  lemma MemberReads(name: string, value: string, rest: string)
    requires PlainLabelName(name)
    ensures ReadMember(LabelText(name, value) + rest) ==
            if AllJsonSafe(value) then Ok((name, value), rest) else Malformed
    ensures ReadMember(" " + (LabelText(name, value) + rest)) == ReadMember(LabelText(name, value) + rest)
  {
    MemberText(name, value, rest);
    var valueWritten := QuoteBody(value) + "\"" + rest;
    var afterName := [':'] + (" " + (['"'] + valueWritten));
    PlainNameReads(name, afterName);
    QuoteReadsBack(value, rest);
    MemberHere(name + "\"" + afterName, name, valueWritten, ReadChars(valueWritten));
  }

  ghost predicate AllPlain(pairs: seq<(string, string)>) {
    forall i :: 0 <= i < |pairs| ==> PlainLabelName(pairs[i].0)
  }

  ghost predicate AllSafe(pairs: seq<(string, string)>) {
    forall i :: 0 <= i < |pairs| ==> AllJsonSafe(pairs[i].1)
  }

  /** What follows the first of the joined members. */
  function AfterFirst(texts: seq<string>): string
    requires texts != []
  {
    if |texts| == 1 then ['}'] else [','] + (" " + (Join(texts[1..], ", ") + ['}']))
  }

  lemma SplitMembers(texts: seq<string>)
    requires texts != []
    ensures Join(texts, ", ") + ['}'] == texts[0] + AfterFirst(texts)
  {
    assert ", " == [','] + " ";
  }

  lemma SplitPairs(pairs: seq<(string, string)>)
    requires pairs != []
    ensures MemberTexts(pairs)[0] == LabelText(pairs[0].0, pairs[0].1)
    ensures MemberTexts(pairs)[1..] == MemberTexts(pairs[1..])
    ensures AllPlain(pairs) <==> PlainLabelName(pairs[0].0) && AllPlain(pairs[1..])
    ensures AllSafe(pairs) <==> AllJsonSafe(pairs[0].1) && AllSafe(pairs[1..])
  {
    assert forall i :: 0 <= i < |pairs[1..]| ==> pairs[1..][i] == pairs[i + 1];
    assert forall i :: 1 <= i < |pairs| ==> pairs[i] == pairs[1..][i - 1];
  }

  /** Joined members read back as the map they describe, or not at all when a value is not JSON-safe. */
  lemma {:induction false} MembersRead(pairs: seq<(string, string)>, sofar: map<string, string>)
    requires pairs != [] && AllPlain(pairs)
    ensures ReadMembers(Join(MemberTexts(pairs), ", ") + ['}'], sofar) ==
            if AllSafe(pairs) then Ok(Collect(pairs, sofar), "") else Malformed
    ensures ReadMembers(" " + (Join(MemberTexts(pairs), ", ") + ['}']), sofar) ==
            if AllSafe(pairs) then Ok(Collect(pairs, sofar), "") else Malformed
    decreases |pairs|
  {
    var (name, value) := pairs[0];
    SplitPairs(pairs);
    SplitMembers(MemberTexts(pairs));
    var rest := AfterFirst(MemberTexts(pairs));
    MemberReads(name, value, rest);
    if |pairs| == 1 {
      ExpectHere('}', "");
      assert ['}'] + "" == rest;
      assert Collect(pairs, sofar) == sofar[name := value];
    } else {
      ExpectHere(',', " " + (Join(MemberTexts(pairs[1..]), ", ") + ['}']));
      MembersRead(pairs[1..], sofar[name := value]);
    }
  }

  ghost function PairOf(labels: map<string, string>, text: string): (pair: (string, string))
    requires PrintsSome(labels, text)
    ensures pair.0 in labels && pair.1 == labels[pair.0] && text == LabelText(pair.0, pair.1)
  {
    var name :| name in labels && text == LabelText(name, labels[name]);
    (name, labels[name])
  }

  ghost predicate PrintsSome(labels: map<string, string>, text: string) {
    exists name :: name in labels && text == LabelText(name, labels[name])
  }

  lemma TextsAreLabels(labels: map<string, string>)
    ensures forall i :: 0 <= i < |LabelTexts(labels)| ==> PrintsSome(labels, LabelTexts(labels)[i])
  {
    var texts := LabelTexts(labels);
    forall i | 0 <= i < |texts|
      ensures PrintsSome(labels, texts[i])
    {
      assert texts[i] in multiset(texts);
      InTextBag(labels, labels.Keys, texts[i]);
    }
  }

  lemma LabelsAreTexts(labels: map<string, string>, name: string)
    requires name in labels
    ensures LabelText(name, labels[name]) in LabelTexts(labels)
  {
    InTextBag(labels, labels.Keys, LabelText(name, labels[name]));
    assert LabelText(name, labels[name]) in multiset(LabelTexts(labels));
  }

  ghost predicate PairsFrom(labels: map<string, string>, pairs: seq<(string, string)>) {
    forall i :: 0 <= i < |pairs| ==> pairs[i].0 in labels && pairs[i].1 == labels[pairs[i].0]
  }

  /** The printed label texts, in printed order, as the name and value each of them shows. */
  lemma PairsOfTexts(labels: map<string, string>) returns (pairs: seq<(string, string)>)
    ensures MemberTexts(pairs) == LabelTexts(labels)
    ensures PairsFrom(labels, pairs)
  {
    TextsAreLabels(labels);
    var texts := LabelTexts(labels);
    pairs := seq(|texts|, i requires 0 <= i < |texts| => PairOf(labels, texts[i]));
    forall i | 0 <= i < |texts|
      ensures MemberTexts(pairs)[i] == texts[i]
    {
      assert pairs[i] == PairOf(labels, texts[i]);
    }
  }

  lemma LabelTextNames(name: string, value: string, other: string, otherValue: string)
    requires PlainLabelName(name) && PlainLabelName(other)
    requires LabelText(name, value) == LabelText(other, otherValue)
    ensures name == other
  {
    MemberText(name, value, "");
    MemberText(other, otherValue, "");
    var rest := [':'] + (" " + (['"'] + (QuoteBody(value) + "\"" + "")));
    var otherRest := [':'] + (" " + (['"'] + (QuoteBody(otherValue) + "\"" + "")));
    PlainNameReads(name, rest);
    PlainNameReads(other, otherRest);
    assert (LabelText(name, value) + "")[1..] == name + "\"" + rest;
    assert (LabelText(other, otherValue) + "")[1..] == other + "\"" + otherRest;
  }

  lemma {:induction false} CollectIsLabels(pairs: seq<(string, string)>, sofar: map<string, string>,
          labels: map<string, string>)
    requires PairsFrom(labels, pairs)
    requires forall name :: name in sofar ==> name in labels && sofar[name] == labels[name]
    requires forall name :: name in labels ==> name in sofar || exists i :: 0 <= i < |pairs| && pairs[i].0 == name
    ensures Collect(pairs, sofar) == labels
  {
    if pairs != [] {
      var next := sofar[pairs[0].0 := pairs[0].1];
      forall name | name in labels && name !in next
        ensures exists i :: 0 <= i < |pairs[1..]| && pairs[1..][i].0 == name
      {
        var i :| 0 <= i < |pairs| && pairs[i].0 == name;
        assert pairs[1..][i - 1].0 == name;
      }
      CollectIsLabels(pairs[1..], next, labels);
    } else {
      assert sofar == labels;
    }
  }

  lemma EmptyObject()
    ensures LabelTexts(map[]) == []
  {
    assert TextBag(map[], {}) == multiset{};
  }

  lemma PairsCover(labels: map<string, string>, pairs: seq<(string, string)>)
    requires forall name :: name in labels ==> PlainLabelName(name)
    requires PairsFrom(labels, pairs) && MemberTexts(pairs) == LabelTexts(labels)
    ensures AllPlain(pairs)
    ensures forall name :: name in labels ==> exists i :: 0 <= i < |pairs| && pairs[i].0 == name
  {
    forall name | name in labels
      ensures exists i :: 0 <= i < |pairs| && pairs[i].0 == name
    {
      LabelsAreTexts(labels, name);
      var i :| 0 <= i < |pairs| && MemberTexts(pairs)[i] == LabelText(name, labels[name]);
      LabelTextNames(pairs[i].0, pairs[i].1, name, labels[name]);
    }
  }

  lemma InsideReads(labels: map<string, string>, inside: string)
    requires labels != map[] && forall name :: name in labels ==> PlainLabelName(name)
    requires inside == Join(LabelTexts(labels), ", ") + ['}']
    ensures Expect('}', inside) == Malformed
    ensures ReadMembers(inside, map[]) == if SafeValues(labels) then Ok(labels, "") else Malformed
  {
    var pairs := PairsOfTexts(labels);
    PairsCover(labels, pairs);
    var name :| name in labels;
    LabelsAreTexts(labels, name);
    SplitMembers(LabelTexts(labels));
    assert inside[0] == LabelTexts(labels)[0][0] == '"';
    ExpectOther('}', inside);
    MembersRead(pairs, map[]);
    CollectIsLabels(pairs, map[], labels);
    assert SafeValues(labels) <==> AllSafe(pairs);
  }

  /** The printed object of labels decodes to those labels exactly when every value is JSON-safe. */
  lemma ObjectReads(labels: map<string, string>)
    requires forall name :: name in labels ==> PlainLabelName(name)
    ensures ParseObject(Braced(labels)) == if SafeValues(labels) then Some(labels) else None
  {
    var inside := Join(LabelTexts(labels), ", ") + ['}'];
    assert Braced(labels) == ['{'] + inside;
    if labels == map[] {
      EmptyObject();
      EmptyObjectHere();
      assert inside == ['}'];
    } else {
      InsideReads(labels, inside);
      ObjectHere(inside, if SafeValues(labels) then Ok(labels, "") else Malformed);
    }
  }

  lemma DecodeSeries(name: string, labels: map<string, string>)
    requires '{' !in name && forall label_ :: label_ in labels ==> PlainLabelName(label_)
    ensures Decode(SeriesText(name, labels)) == if SafeValues(labels) then Series(name, labels) else Refused
  {
    var inside := Join(LabelTexts(labels), ", ") + ['}'];
    assert Braced(labels) == ['{'] + inside;
    IndexOfFirst(name, '{', inside);
    var text := SeriesText(name, labels);
    assert text[|name|..] == Braced(labels) && text[..|name|] == name;
    ObjectReads(labels);
  }

  /** Printing and taking apart are inverse exactly on the metrics that carry a label (or no name) and
      whose values are JSON-safe; a bare name leaves no brace to find, any other metric is refused. */
  lemma DecodeExact(m: Metric)
    requires PlainNames(m)
    ensures Decode(MetricText(m)) ==
            if Bare(m) then NoBrace
            else if SafeValues(LabelsOf(m)) then Series(NameOf(m), LabelsOf(m))
            else Refused
  {
    if !Bare(m) {
      DecodeSeries(NameOf(m), LabelsOf(m));
    }
  }

  predicate Decodable(m: Metric) { PlainNames(m) && !Bare(m) && SafeValues(LabelsOf(m)) }

  /* ---- what the text tells apart ---- */

  lemma BehindFirstQuote(name: string, after: string)
    ensures ("\"" + name + ("\"" + after))[1..] == name + "\"" + after
  {
  }

  lemma NameApart(name: string, after: string, other: string, more: string)
    requires PlainLabelName(name) && PlainLabelName(other)
    requires "\"" + name + ("\"" + after) == "\"" + other + ("\"" + more)
    ensures name == other && after == more
  {
    PlainNameReads(name, after);
    PlainNameReads(other, more);
    BehindFirstQuote(name, after);
    BehindFirstQuote(other, more);
  }

  lemma LabelTextNested(name: string, value: string, rest: string)
    ensures LabelText(name, value) + rest == "\"" + name + ("\"" + (": " + (Quote(value) + rest)))
  {
    assert "\": " == "\"" + ": ";
  }

  lemma LabelTextApart(name: string, value: string, rest: string, other: string, otherValue: string, more: string)
    requires PlainLabelName(name) && PlainLabelName(other)
    requires LabelText(name, value) + rest == LabelText(other, otherValue) + more
    ensures name == other && value == otherValue && rest == more
  {
    LabelTextNested(name, value, rest);
    LabelTextNested(other, otherValue, more);
    var after, afterOther := ": " + (Quote(value) + rest), ": " + (Quote(otherValue) + more);
    NameApart(name, after, other, afterOther);
    assert after[2..] == Quote(value) + rest && afterOther[2..] == Quote(otherValue) + more;
    GoQuote.QuotedApart(value, rest, otherValue, more);
  }

  lemma AfterFirstApart(texts: seq<string>, others: seq<string>)
    requires texts != [] && others != [] && AfterFirst(texts) == AfterFirst(others)
    ensures |texts| == 1 <==> |others| == 1
    ensures Join(texts[1..], ", ") + ['}'] == Join(others[1..], ", ") + ['}']
  {
    assert AfterFirst(texts)[0] == if |texts| == 1 then '}' else ',';
    assert AfterFirst(others)[0] == if |others| == 1 then '}' else ',';
    if |texts| > 1 {
      assert AfterFirst(texts)[2..] == Join(texts[1..], ", ") + ['}'];
      assert AfterFirst(others)[2..] == Join(others[1..], ", ") + ['}'];
    }
  }

  lemma MembersStart(pairs: seq<(string, string)>)
    ensures (Join(MemberTexts(pairs), ", ") + ['}'])[0] == if pairs == [] then '}' else '"'
  {
    if pairs != [] {
      SplitMembers(MemberTexts(pairs));
    }
  }

  /** A list of members is told by its text, whatever the values. */
  lemma {:induction false} MembersApart(pairs: seq<(string, string)>, others: seq<(string, string)>)
    requires AllPlain(pairs) && AllPlain(others)
    requires Join(MemberTexts(pairs), ", ") + ['}'] == Join(MemberTexts(others), ", ") + ['}']
    ensures pairs == others
    decreases |pairs|
  {
    MembersStart(pairs);
    MembersStart(others);
    if pairs != [] {
      SplitPairs(pairs);
      SplitPairs(others);
      SplitMembers(MemberTexts(pairs));
      SplitMembers(MemberTexts(others));
      LabelTextApart(pairs[0].0, pairs[0].1, AfterFirst(MemberTexts(pairs)),
                     others[0].0, others[0].1, AfterFirst(MemberTexts(others)));
      AfterFirstApart(MemberTexts(pairs), MemberTexts(others));
      MembersApart(pairs[1..], others[1..]);
      assert pairs == [pairs[0]] + pairs[1..] && others == [others[0]] + others[1..];
    }
  }

  /** Two label maps with the same printed members are the same. */
  lemma InsideApart(labels: map<string, string>, others: map<string, string>)
    requires forall name :: name in labels ==> PlainLabelName(name)
    requires forall name :: name in others ==> PlainLabelName(name)
    requires Join(LabelTexts(labels), ", ") + ['}'] == Join(LabelTexts(others), ", ") + ['}']
    ensures labels == others
  {
    var pairs := PairsOfTexts(labels);
    var otherPairs := PairsOfTexts(others);
    PairsCover(labels, pairs);
    PairsCover(others, otherPairs);
    MembersApart(pairs, otherPairs);
    CollectIsLabels(pairs, map[], labels);
    CollectIsLabels(otherPairs, map[], others);
  }

  lemma FirstBraceApart(name: string, inside: string, other: string, more: string)
    requires '{' !in name && '{' !in other
    requires name + (['{'] + inside) == other + (['{'] + more)
    ensures name == other && inside == more
  {
    IndexOfFirst(name, '{', inside);
    IndexOfFirst(other, '{', more);
    assert (name + (['{'] + inside))[..|name|] == name && (name + (['{'] + inside))[|name| + 1..] == inside;
    assert (other + (['{'] + more))[..|other|] == other && (other + (['{'] + more))[|other| + 1..] == more;
  }

  lemma InBraces(name: string, inside: string)
    ensures name + (['{'] + inside + ['}']) == name + (['{'] + (inside + ['}']))
  {
  }

  lemma SeriesTextApart(name: string, labels: map<string, string>, other: string, others: map<string, string>)
    requires '{' !in name && '{' !in other
    requires forall label_ :: label_ in labels ==> PlainLabelName(label_)
    requires forall label_ :: label_ in others ==> PlainLabelName(label_)
    requires SeriesText(name, labels) == SeriesText(other, others)
    ensures name == other && labels == others
  {
    InBraces(name, Join(LabelTexts(labels), ", "));
    InBraces(other, Join(LabelTexts(others), ", "));
    FirstBraceApart(name, Join(LabelTexts(labels), ", ") + ['}'], other, Join(LabelTexts(others), ", ") + ['}']);
    InsideApart(labels, others);
  }

  lemma BracesTellBare(m: Metric)
    requires PlainNames(m)
    ensures Bare(m) <==> '{' !in MetricText(m)
  {
    if !Bare(m) {
      assert MetricText(m)[|NameOf(m)|] == '{';
    }
  }

  /** Metrics with plain names print alike exactly when they are one series, whatever their values: the same
      labels, the same name with a missing one read as empty, and both or neither a name and nothing else. */
  lemma TextIdentifiesSeries(a: Metric, b: Metric)
    requires PlainNames(a) && PlainNames(b)
    ensures MetricText(a) == MetricText(b) <==>
            NameOf(a) == NameOf(b) && LabelsOf(a) == LabelsOf(b) && (Bare(a) <==> Bare(b))
  {
    BracesTellBare(a);
    BracesTellBare(b);
    if MetricText(a) == MetricText(b) && !Bare(a) {
      SeriesTextApart(NameOf(a), LabelsOf(a), NameOf(b), LabelsOf(b));
    }
  }

  lemma PrintedOrder()
    ensures Below(LabelText("env", "b\"c"), LabelText("job", "a"))
  {
    var s, t := LabelText("env", "b\"c"), LabelText("job", "a");
    assert s[0] == t[0] == '"' && s[1] == 'e' && t[1] == 'j';
    assert s[1..][0] == s[1] && t[1..][0] == t[1];
  }

  lemma QuotedValues()
    ensures QuoteBody("b\"c") == "b\\\"c" && QuoteBody("a") == "a"
  {
    assert "b\"c"[1..] == "\"c" && "\"c"[1..] == "c" && "c"[1..] == "" && "a"[1..] == "";
    assert QuoteBody("c") == "c";
    assert QuoteBody("\"c") == "\\\"c";
  }

  lemma PrintedTexts()
    ensures LabelText("env", "b\"c") == "\"env\": \"b\\\"c\""
    ensures LabelText("job", "a") == "\"job\": \"a\""
  {
    QuotedValues();
  }

  lemma TwoLabelsPrinted(m: Metric, a: string, x: string, b: string, y: string)
    requires LabelsOf(m) == map[a := x, b := y] && a != b && Below(LabelText(a, x), LabelText(b, y))
    ensures MetricText(m) == NameOf(m) + (['{'] + (LabelText(a, x) + ", " + LabelText(b, y)) + ['}'])
  {
    assert a in LabelsOf(m);
    TwoTexts(a, x, b, y);
    JoinTwo(LabelText(a, x), LabelText(b, y), ", ");
  }

  lemma NamesDiffer()
    ensures "env" != "job" && "env" != "__name__" && "job" != "__name__"
  {
    assert |"env"| == 3 && |"job"| == 3 && |"__name__"| == 8 && "env"[0] != "job"[0];
  }

  lemma MetricInParts(name: string, a: string, x: string, b: string, y: string)
    requires a != b && a != METRIC_NAME_LABEL && b != METRIC_NAME_LABEL
    ensures var m: Metric := map[METRIC_NAME_LABEL := name, b := y, a := x];
            NameOf(m) == name && LabelsOf(m) == map[a := x, b := y]
  {
  }

  /** One text in full: the name, the labels in order, the separators, the escapes. */
  lemma PrintedInFull()
    ensures MetricText(map["__name__" := "up", "job" := "a", "env" := "b\"c"]) ==
            "up" + (['{'] + ("\"env\": \"b\\\"c\"" + ", " + "\"job\": \"a\"") + ['}'])
  {
    NamesDiffer();
    MetricInParts("up", "env", "b\"c", "job", "a");
    PrintedOrder();
    TwoLabelsPrinted(map["__name__" := "up", "job" := "a", "env" := "b\"c"], "env", "b\"c", "job", "a");
    PrintedTexts();
  }

  /* ---- names that are not plain ---- */

  lemma OneText(name: string, value: string)
    ensures LabelTexts(map[name := value]) == [LabelText(name, value)]
  {
    var labels := map[name := value];
    var texts := [LabelText(name, value)];
    TextBagAdd(labels, {}, name);
    assert {} + {name} == labels.Keys;
    assert multiset(texts) == multiset{LabelText(name, value)};
    TextsSorted(labels, texts);
  }

  lemma TwoNamesInBag(labels: map<string, string>, a: string, b: string)
    requires labels.Keys == {a, b} && a != b
    ensures TextBag(labels, labels.Keys) == multiset{LabelText(a, labels[a])} + multiset{LabelText(b, labels[b])}
  {
    TextBagAdd(labels, {}, a);
    TextBagAdd(labels, {a}, b);
    assert TextBag(labels, {}) == multiset{};
    assert {} + {a} == {a} && {a} + {b} == labels.Keys;
  }

  lemma TwoInBag(a: string, x: string, b: string, y: string)
    requires a != b
    ensures var labels := map[a := x, b := y];
            TextBag(labels, labels.Keys) == multiset{LabelText(a, x)} + multiset{LabelText(b, y)}
  {
    TwoNamesInBag(map[a := x, b := y], a, b);
  }

  lemma TwoSorted(s: string, t: string)
    requires Below(s, t)
    ensures Sorting.SortedBy(Below, [s, t]) && multiset([s, t]) == multiset{s} + multiset{t}
  {
    BelowAsymmetric(s, t);
    assert [s, t] == [s] + [t];
  }

  lemma TwoTexts(a: string, x: string, b: string, y: string)
    requires a != b && Below(LabelText(a, x), LabelText(b, y))
    ensures LabelTexts(map[a := x, b := y]) == [LabelText(a, x), LabelText(b, y)]
  {
    TwoInBag(a, x, b, y);
    TwoSorted(LabelText(a, x), LabelText(b, y));
    TextsSorted(map[a := x, b := y], [LabelText(a, x), LabelText(b, y)]);
  }

  /** A label name that quotes the text between two others. */
  function Swallowing(a: string, x: string, b: string): string { a + "\": " + Quote(x) + ", \"" + b }

  lemma SwallowingText(a: string, x: string, b: string, y: string)
    ensures LabelText(Swallowing(a, x, b), y) == LabelText(a, x) + ", " + LabelText(b, y)
  {
  }

  lemma SwallowingIsNoName(a: string, x: string, b: string)
    ensures Swallowing(a, x, b) != METRIC_NAME_LABEL
  {
    assert Swallowing(a, x, b)[|a|] == '"';
    assert METRIC_NAME_LABEL == ['_', '_', 'n', 'a', 'm', 'e', '_', '_'];
  }

  /** With a quote in a label name, as UTF-8 names allow, two metrics print alike: any two labels, and the one
      label whose name swallows the first of them. */
  lemma QuoteInNameCollides(a: string, x: string, b: string, y: string)
    requires a != b && a != METRIC_NAME_LABEL && b != METRIC_NAME_LABEL
    requires Below(LabelText(a, x), LabelText(b, y))
    ensures MetricText(map[a := x, b := y]) == MetricText(map[Swallowing(a, x, b) := y])
    ensures LabelsOf(map[a := x, b := y]) != LabelsOf(map[Swallowing(a, x, b) := y])
  {
    var two: Metric, one: Metric := map[a := x, b := y], map[Swallowing(a, x, b) := y];
    SwallowingIsNoName(a, x, b);
    assert LabelsOf(two) == two && LabelsOf(one) == one;
    assert a in two && b in two && (a !in one || b !in one);
    TwoTexts(a, x, b, y);
    OneText(Swallowing(a, x, b), y);
    SwallowingText(a, x, b, y);
    JoinTwo(LabelText(a, x), LabelText(b, y), ", ");
    assert NameOf(two) == NameOf(one) == "";
  }

  lemma JoinTwo(s: string, t: string, separator: string)
    ensures Join([s, t], separator) == s + separator + t
  {
    assert [s, t][1..] == [t];
  }

  /** With a brace in a metric name, a metric without labels prints like one with any labels. */
  lemma BraceInNameCollides(name: string, labels: map<string, string>)
    ensures MetricText(map[METRIC_NAME_LABEL := SeriesText(name, labels)]) == SeriesText(name, labels)
  {
    var m: Metric := map[METRIC_NAME_LABEL := SeriesText(name, labels)];
    assert LabelsOf(m) == map[];
  }
}
