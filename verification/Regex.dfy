/** Regular expressions, in the fragment that RE2 and PostgreSQL read alike: literals, escaped punctuation,
    any character, classes, groups, alternation, the three postfix operators, and the anchors. */
module Regex {
  import opened Text

  datatype Re =
    | Empty
    | Chr(c: char)
    | Any
    | Class(negated: bool, ranges: seq<(char, char)>)
    | Cat(first: Re, second: Re)
    | Alt(left: Re, right: Re)
    | Star(body: Re)
    | Start
    | End

  predicate InRanges(c: char, ranges: seq<(char, char)>) {
    exists i :: 0 <= i < |ranges| && ranges[i].0 <= c <= ranges[i].1
  }

  /** `r` matches `s[i..j]` where it stands: the anchors look at the whole text. */
  predicate Matches(r: Re, s: string, i: nat, j: nat)
    requires i <= j <= |s|
    decreases r, j - i
  {
    match r
    case Empty => i == j
    case Chr(c) => j == i + 1 && s[i] == c
    case Any => j == i + 1
    case Class(negated, ranges) => j == i + 1 && InRanges(s[i], ranges) != negated
    case Cat(a, b) => exists k :: i <= k <= j && Matches(a, s, i, k) && Matches(b, s, k, j)
    case Alt(a, b) => Matches(a, s, i, j) || Matches(b, s, i, j)
    case Star(a) => i == j || exists k :: i < k <= j && Matches(a, s, i, k) && Matches(r, s, k, j)
    case Start => i == j == 0
    case End => i == j == |s|
  }

  /** PostgreSQL's `~`: a match anywhere. */
  predicate Search(r: Re, s: string) {
    exists i: nat, j: nat :: i <= j <= |s| && Matches(r, s, i, j)
  }

  /** PromQL's `=~`: a match of all of it. */
  predicate MatchesAll(r: Re, s: string) { Matches(r, s, 0, |s|) }

  /* ---- concrete syntax ---- */

  datatype Parsed = Bad | Got(re: Re, rest: string)

  predicate IsQuantifier(c: char) { c == '*' || c == '+' || c == '?' }

  predicate IsSpecial(c: char) {
    c in {'\\', '.', '+', '*', '?', '(', ')', '|', '[', ']', '{', '}', '^', '$'}
  }

  predicate StartsWith(s: string, c: char) { s != "" && s[0] == c }

  predicate StartsQuantifier(s: string) { s != "" && IsQuantifier(s[0]) }

  /** Branches separated by bars. */
  function ParseAlt(s: string): (r: Parsed)
    ensures r.Got? ==> |r.rest| <= |s|
    decreases |s|, 3
  {
    match ParseCat(s)
    case Bad => Bad
    case Got(left, rest) =>
      if StartsWith(rest, '|') then
        match ParseAlt(rest[1..])
        case Bad => Bad
        case Got(right, more) => Got(Alt(left, right), more)
      else Got(left, rest)
  }

  /** Pieces up to a bar, a closing parenthesis or the end. */
  function ParseCat(s: string): (r: Parsed)
    ensures r.Got? ==> |r.rest| <= |s|
    decreases |s|, 2
  {
    if s == "" || s[0] == '|' || s[0] == ')' then Got(Empty, s)
    else
      match ParsePiece(s)
      case Bad => Bad
      case Got(first, rest) =>
        match ParseCat(rest)
        case Bad => Bad
        case Got(second, more) => Got(Cat(first, second), more)
  }

  function Quantified(c: char, r: Re): Re {
    if c == '*' then Star(r) else if c == '+' then Cat(r, Star(r)) else Alt(r, Empty)
  }

  /** An atom and at most one postfix operator, which anchors do not take. */
  function ParsePiece(s: string): (r: Parsed)
    ensures r.Got? ==> |r.rest| < |s|
    decreases |s|, 1
  {
    match ParseAtom(s)
    case Bad => Bad
    case Got(atom, rest) =>
      if !StartsQuantifier(rest) then Got(atom, rest)
      else if atom.Start? || atom.End? || StartsQuantifier(rest[1..]) then Bad
      else Got(Quantified(rest[0], atom), rest[1..])
  }

  function ParseAtom(s: string): (r: Parsed)
    ensures r.Got? ==> |r.rest| < |s|
    decreases |s|, 0
  {
    if s == "" then Bad
    else if s[0] == '(' then
      var inside := if |s| >= 3 && s[1] == '?' && s[2] == ':' then s[3..] else s[1..];
      if StartsWith(inside, '?') then Bad
      else
        match ParseAlt(inside)
        case Bad => Bad
        case Got(r, rest) => if StartsWith(rest, ')') then Got(r, rest[1..]) else Bad
    else if s[0] == '[' then
      var negated := StartsWith(s[1..], '^');
      ParseClass(negated, [], if negated then s[2..] else s[1..])
    else if s[0] == '\\' then
      if |s| >= 2 && IsSpecial(s[1]) then Got(Chr(s[1]), s[2..]) else Bad
    else if s[0] == '.' then Got(Any, s[1..])
    else if s[0] == '^' then Got(Start, s[1..])
    else if s[0] == '$' then Got(End, s[1..])
    else if IsSpecial(s[0]) then Bad
    else Got(Chr(s[0]), s[1..])
  }

  predicate IsClassChar(c: char) { c != '\\' && c != ']' && c != '[' && c != '^' && c != '-' }

  /** The members of a bracket expression, up to its closing bracket. */
  function ParseClass(negated: bool, ranges: seq<(char, char)>, s: string): (r: Parsed)
    ensures r.Got? ==> |r.rest| < |s|
    decreases |s|
  {
    if s == "" then Bad
    else if s[0] == ']' then if ranges == [] then Bad else Got(Class(negated, ranges), s[1..])
    else if !IsClassChar(s[0]) then Bad
    else if |s| >= 3 && s[1] == '-' && s[2] != ']' then
      if IsClassChar(s[2]) && s[0] <= s[2] then ParseClass(negated, ranges + [(s[0], s[2])], s[3..]) else Bad
    else ParseClass(negated, ranges + [(s[0], s[0])], s[1..])
  }

  /** The expression a pattern text says, if it is one of the fragment. */
  function ParseRegex(p: string): Option<Re> {
    match ParseAlt(p)
    case Bad => None
    case Got(r, rest) => if rest == "" then Some(r) else None
  }

  /* ---- the matcher Prometheus uses ---- */

  /** A pattern compiled to a test of a whole text; none for a pattern that does not compile. */
  function FragmentOnly(pattern: string): Option<string -> bool> {
    match ParseRegex(pattern)
    case None => None
    case Some(r) => Some((s: string) => MatchesAll(r, s))
  }

  /** It compiles the fragment, and reads it as this module does. Of other patterns nothing is said. */
  ghost predicate ReadsFragment(engine: string -> Option<string -> bool>) {
    forall p: string :: ParseRegex(p).Some? ==>
      engine(p).Some? && forall s: string :: engine(p).value(s) == MatchesAll(ParseRegex(p).value, s)
  }

  type Engine = f: string -> Option<string -> bool> | ReadsFragment(f) witness FragmentOnly

  /** RE2, anchored on both sides by Prometheus: a library, left arbitrary outside the fragment. */
  const RE2: Engine

  /* ---- a closing parenthesis after a complete expression changes nothing before it ---- */

  lemma {:induction false} ClassExtends(negated: bool, ranges: seq<(char, char)>, s: string, t: string)
    requires ParseClass(negated, ranges, s).Got?
    ensures ParseClass(negated, ranges, s + t) ==
            Got(ParseClass(negated, ranges, s).re, ParseClass(negated, ranges, s).rest + t)
    decreases |s|
  {
    var u := s + t;
    assert u[0] == s[0];
    if s[0] == ']' {
      assert u[1..] == s[1..] + t;
    } else if |s| >= 3 && s[1] == '-' && s[2] != ']' {
      assert u[1] == s[1] && u[2] == s[2] && u[3..] == s[3..] + t;
      ClassExtends(negated, ranges + [(s[0], s[2])], s[3..], t);
    } else {
      // A class needs its closing bracket, so the text goes on far enough to settle the range test.
      assert s[1..] != "";
      assert s[1..][0] != '-';
      assert u[1] == s[1] && u[1..] == s[1..] + t;
      ClassExtends(negated, ranges + [(s[0], s[0])], s[1..], t);
    }
  }

  lemma StartsExtends(s: string, t: string)
    requires StartsWith(t, ')')
    ensures StartsWith(s + t, '|') == StartsWith(s, '|')
    ensures StartsQuantifier(s + t) == StartsQuantifier(s)
    ensures StartsWith(s, ')') ==> StartsWith(s + t, ')')
    ensures s != "" ==> (s + t)[0] == s[0] && (s + t)[1..] == s[1..] + t
    ensures s == "" ==> s + t == t
  {
  }

  lemma {:induction false} GroupExtends(s: string, t: string)
    requires StartsWith(t, ')') && StartsWith(s, '(') && ParseAtom(s).Got?
    ensures ParseAtom(s + t) == Got(ParseAtom(s).re, ParseAtom(s).rest + t)
    decreases |s|, 0
  {
    var u := s + t;
    var bare := |s| >= 3 && s[1] == '?' && s[2] == ':';
    var inside := if bare then s[3..] else s[1..];
    StartsExtends(s, t);
    StartsExtends(s[1..], t);
    assert inside != "";
    assert |s| >= 2 && u[1] == s[1];
    assert bare ==> u[2] == s[2] && u[3..] == inside + t;
    assert !bare ==> s[1] != '?';
    StartsExtends(inside, t);
    AltExtends(inside, t);
    StartsExtends(ParseAlt(inside).rest, t);
  }

  lemma {:induction false} AtomExtends(s: string, t: string)
    requires StartsWith(t, ')') && ParseAtom(s).Got?
    ensures ParseAtom(s + t) == Got(ParseAtom(s).re, ParseAtom(s).rest + t)
    decreases |s|, 1
  {
    StartsExtends(s, t);
    if s[0] == '(' {
      GroupExtends(s, t);
    } else if s[0] == '[' {
      var negated := StartsWith(s[1..], '^');
      var inside := if negated then s[2..] else s[1..];
      assert s[1..] != "" && (s + t)[1] == s[1];
      assert (if negated then (s + t)[2..] else (s + t)[1..]) == inside + t;
      ClassExtends(negated, [], inside, t);
    } else if s[0] == '\\' {
      assert (s + t)[1] == s[1] && (s + t)[2..] == s[2..] + t;
    }
  }

  lemma {:induction false} PieceExtends(s: string, t: string)
    requires StartsWith(t, ')') && ParsePiece(s).Got?
    ensures ParsePiece(s + t) == Got(ParsePiece(s).re, ParsePiece(s).rest + t)
    decreases |s|, 2
  {
    AtomExtends(s, t);
    var rest := ParseAtom(s).rest;
    StartsExtends(rest, t);
    if StartsQuantifier(rest) {
      StartsExtends(rest[1..], t);
    }
  }

  lemma {:induction false} CatExtends(s: string, t: string)
    requires StartsWith(t, ')') && ParseCat(s).Got?
    ensures ParseCat(s + t) == Got(ParseCat(s).re, ParseCat(s).rest + t)
    decreases |s|, 3
  {
    StartsExtends(s, t);
    if s != "" && s[0] != '|' && s[0] != ')' {
      PieceExtends(s, t);
      CatExtends(ParsePiece(s).rest, t);
    }
  }

  lemma {:induction false} AltExtends(s: string, t: string)
    requires StartsWith(t, ')') && ParseAlt(s).Got?
    ensures ParseAlt(s + t) == Got(ParseAlt(s).re, ParseAlt(s).rest + t)
    decreases |s|, 4
  {
    CatExtends(s, t);
    var rest := ParseCat(s).rest;
    StartsExtends(rest, t);
    if StartsWith(rest, '|') {
      AltExtends(rest[1..], t);
    }
  }

  /* ---- anchoring ---- */

  /** `anchorPattern`. */
  function AnchorPattern(pattern: string): string { "^(?:" + pattern + ")$" }

  function Anchored(r: Re): Re { Cat(Start, Cat(r, Cat(End, Empty))) }

  lemma EndParses()
    ensures ParseCat("$") == Got(Cat(End, Empty), "")
  {
    assert "$"[1..] == "";
    assert ParseAtom("$") == Got(End, "");
    assert ParsePiece("$") == Got(End, "");
    assert ParseCat("") == Got(Empty, "");
  }

  lemma NoLeadingQuestion(p: string)
    requires ParseAlt(p).Got?
    ensures !StartsWith(p, '?')
  {
    assert StartsWith(p, '?') ==> ParseAtom(p) == Bad;
    assert StartsWith(p, '?') ==> ParsePiece(p) == Bad;
    assert StartsWith(p, '?') ==> ParseCat(p) == Bad;
  }

  lemma DollarIsNoQuantifier()
    ensures !StartsQuantifier("$")
  {
    var s := "$";
    assert s[0] == '$';
  }

  lemma GroupParses(p: string, r: Re)
    requires ParseRegex(p) == Some(r)
    ensures ParseCat("(?:" + (p + ")$")) == Got(Cat(r, Cat(End, Empty)), "")
  {
    var s := "(?:" + (p + ")$");
    AltExtends(p, ")$");
    assert s[3..] == p + ")$" && s[1] == '?' && s[2] == ':';
    NoLeadingQuestion(p);
    assert ParseAlt(p + ")$") == Got(r, "" + ")$");
    assert ")$" == [')', '$'] && "$" == ['$'];
    assert "" + ")$" == ")$" && ")$"[1..] == "$";
    assert !StartsWith(p + ")$", '?');
    assert ParseAtom(s) == Got(r, "$");
    DollarIsNoQuantifier();
    assert ParsePiece(s) == Got(r, "$");
    EndParses();
  }

  /** The anchored text parses, whatever the pattern, as the pattern's own expression between anchors. */
  lemma AnchoredParses(p: string, r: Re)
    requires ParseRegex(p) == Some(r)
    ensures ParseRegex(AnchorPattern(p)) == Some(Anchored(r))
  {
    var group := "(?:" + (p + ")$");
    assert AnchorPattern(p) == "^" + group;
    assert ("^" + group)[1..] == group;
    GroupParses(p, r);
    assert ParseAtom("^" + group) == Got(Start, group);
    assert ParsePiece("^" + group) == Got(Start, group);
    assert ParseCat("^" + group) == Got(Anchored(r), "");
  }

  lemma CatSplit(a: Re, b: Re, s: string, i: nat, j: nat) returns (k: nat)
    requires i <= j <= |s| && Matches(Cat(a, b), s, i, j)
    ensures i <= k <= j && Matches(a, s, i, k) && Matches(b, s, k, j)
  {
    k :| i <= k <= j && Matches(a, s, i, k) && Matches(b, s, k, j);
  }

  lemma AnchoredSearch(r: Re, s: string)
    ensures Search(Anchored(r), s) <==> MatchesAll(r, s)
  {
    var tail := Cat(End, Empty);
    if MatchesAll(r, s) {
      assert Matches(End, s, |s|, |s|) && Matches(Empty, s, |s|, |s|);
      assert Matches(tail, s, |s|, |s|);
      assert Matches(Cat(r, tail), s, 0, |s|);
      assert Matches(Start, s, 0, 0);
      assert Matches(Anchored(r), s, 0, |s|);
    }
    if Search(Anchored(r), s) {
      var i: nat, j: nat :| i <= j <= |s| && Matches(Anchored(r), s, i, j);
      var k := CatSplit(Start, Cat(r, tail), s, i, j);
      var l := CatSplit(r, tail, s, k, j);
      var m := CatSplit(End, Empty, s, l, j);
      assert k == 0 && l == |s|;
    }
  }

  /** For every pattern text of the fragment, searching the anchored text is matching all of the pattern. */
  lemma AnchoringIsFullMatch(p: string, s: string)
    requires ParseRegex(p).Some?
    ensures ParseRegex(AnchorPattern(p)).Some?
    ensures Search(ParseRegex(AnchorPattern(p)).value, s) <==> MatchesAll(ParseRegex(p).value, s)
  {
    AnchoredParses(p, ParseRegex(p).value);
    AnchoredSearch(ParseRegex(p).value, s);
  }

  /* ---- why the group is there, and why the pattern must stand on its own ---- */

  lemma TwoBranches(left: string, right: string, a: Re, b: Re)
    requires ParseCat(left + (['|'] + right)) == Got(a, ['|'] + right) && ParseCat(right) == Got(b, "")
    ensures ParseRegex(left + (['|'] + right)) == Some(Alt(a, b))
  {
    assert (['|'] + right)[1..] == right;
    assert ParseAlt(right) == Got(b, "");
  }

  lemma BranchesParse(x: char, y: char)
    requires !IsSpecial(x) && !IsSpecial(y)
    ensures ParseRegex([x, '|', y]) == Some(Alt(Cat(Chr(x), Empty), Cat(Chr(y), Empty)))
    ensures ParseRegex(['^', x, '|', y, '$']) == Some(Alt(Cat(Start, Cat(Chr(x), Empty)), Cat(Chr(y), Cat(End, Empty))))
  {
    CharParses(y, []);
    assert [y] == [y] + [];
    CharParses(x, ['|'] + [y]);
    TwoBranches([x], [y], Cat(Chr(x), Empty), Cat(Chr(y), Empty));
    assert [x, '|', y] == [x] + (['|'] + [y]);
    var right := [y, '$'];
    CharThenEnd(y);
    CharParses(x, ['|'] + right);
    var s := ['^', x] + (['|'] + right);
    assert s[1..] == [x] + (['|'] + right);
    assert ParseAtom(s) == Got(Start, s[1..]);
    assert ParsePiece(s) == Got(Start, s[1..]);
    TwoBranches(['^', x], right, Cat(Start, Cat(Chr(x), Empty)), Cat(Chr(y), Cat(End, Empty)));
    assert ['^', x, '|', y, '$'] == s;
  }

  lemma CharParses(x: char, rest: string)
    requires !IsSpecial(x) && (rest == "" || rest[0] == '|')
    ensures ParseCat([x] + rest) == Got(Cat(Chr(x), Empty), rest)
  {
    assert ([x] + rest)[1..] == rest;
    assert ParseAtom([x] + rest) == Got(Chr(x), rest);
    assert ParsePiece([x] + rest) == Got(Chr(x), rest);
    assert ParseCat(rest) == Got(Empty, rest);
  }

  lemma CharThenEnd(x: char)
    requires !IsSpecial(x)
    ensures ParseCat([x, '$']) == Got(Cat(Chr(x), Cat(End, Empty)), "")
  {
    assert [x, '$'][1..] == "$";
    assert ParseAtom([x, '$']) == Got(Chr(x), "$");
    assert ParsePiece([x, '$']) == Got(Chr(x), "$");
    EndParses();
  }

  /** Without the group the anchors bind to the first and the last branch only: of any two branches `x|y`,
      `^x|y$` selects a text that starts with x and goes on, which the pattern does not match. */
  lemma BareAnchorsOvermatch(x: char, y: char, z: char)
    requires !IsSpecial(x) && !IsSpecial(y)
    ensures ParseRegex([x, '|', y]).Some? && ParseRegex("^" + [x, '|', y] + "$").Some?
    ensures Search(ParseRegex("^" + [x, '|', y] + "$").value, [x, z])
    ensures !MatchesAll(ParseRegex([x, '|', y]).value, [x, z])
  {
    BranchesParse(x, y);
    assert "^" + [x, '|', y] + "$" == ['^', x, '|', y, '$'];
    var s := [x, z];
    var left := Cat(Start, Cat(Chr(x), Empty));
    assert Matches(Start, s, 0, 0) && Matches(Chr(x), s, 0, 1) && Matches(Empty, s, 1, 1);
    assert Matches(Cat(Chr(x), Empty), s, 0, 1);
    assert Matches(left, s, 0, 1);
    assert Matches(Alt(left, Cat(Chr(y), Cat(End, Empty))), s, 0, 1);
    assert Search(Alt(left, Cat(Chr(y), Cat(End, Empty))), s);
    OneCharOnly(x, s);
    OneCharOnly(y, s);
    assert !Matches(Alt(Cat(Chr(x), Empty), Cat(Chr(y), Empty)), s, 0, 2);
  }

  lemma OneCharOnly(x: char, s: string)
    requires |s| == 2
    ensures !Matches(Cat(Chr(x), Empty), s, 0, 2)
  {
    if Matches(Cat(Chr(x), Empty), s, 0, 2) {
      var k := CatSplit(Chr(x), Empty, s, 0, 2);
    }
  }
}
