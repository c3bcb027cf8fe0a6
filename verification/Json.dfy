/** JSON text (RFC 8259), as far as the adapter writes and reads it: objects whose members are strings.
    `Quote` is Go's `%q` verb, `MarshalString` is `json.Marshal` on a string, and `ParseObject` is the
    reading side shared by `json.Unmarshal` and PostgreSQL's jsonb input. */
module Json {
  import opened Text

  /** The characters above ASCII that `strconv.IsPrint` accepts: a table of Go's library, left arbitrary. */
  const PRINTABLE_BEYOND_ASCII: set<char>

  predicate IsPrint(c: char) {
    ' ' <= c <= '~' || (c > '\U{7F}' && c in PRINTABLE_BEYOND_ASCII)
  }

  /* ---- hexadecimal ---- */

  function HexDigit(n: int): char
    requires 0 <= n < 16
  {
    if n < 10 then '0' + n as char else 'a' + (n - 10) as char
  }

  function HexValue(c: char): Option<int>
    ensures HexValue(c).Some? ==> 0 <= HexValue(c).value < 16
  {
    if '0' <= c <= '9' then Some(c as int - '0' as int)
    else if 'a' <= c <= 'f' then Some(c as int - 'a' as int + 10)
    else if 'A' <= c <= 'F' then Some(c as int - 'A' as int + 10)
    else None
  }

  lemma HexDigitReadsBack(n: int)
    requires 0 <= n < 16
    ensures HexValue(HexDigit(n)) == Some(n)
  {
  }

  function Hex4(n: int): string
    requires 0 <= n < 0x1_0000
  {
    [HexDigit(n / 4096), HexDigit(n / 256 % 16), HexDigit(n / 16 % 16), HexDigit(n % 16)]
  }

  /** `getu4`: the code unit after `\u`. */
  function ReadHex4(s: string): Option<int>
    ensures ReadHex4(s).Some? ==> |s| >= 4 && 0 <= ReadHex4(s).value < 0x1_0000
  {
    if |s| < 4 then None
    else
      match (HexValue(s[0]), HexValue(s[1]), HexValue(s[2]), HexValue(s[3]))
      case (Some(a), Some(b), Some(c), Some(d)) => Some(a * 4096 + b * 256 + c * 16 + d)
      case _ => None
  }

  lemma Hex4Digits(n: int)
    requires 0 <= n < 0x1_0000
    ensures n / 4096 * 4096 + n / 256 % 16 * 256 + n / 16 % 16 * 16 + n % 16 == n
    ensures 0 <= n / 4096 < 16
  {
  }

  lemma Hex4ReadsBack(n: int, rest: string)
    requires 0 <= n < 0x1_0000
    ensures ReadHex4(Hex4(n) + rest) == Some(n)
  {
    Hex4Digits(n);
    var a, b, c, d := n / 4096, n / 256 % 16, n / 16 % 16, n % 16;
    HexDigitReadsBack(a);
    HexDigitReadsBack(b);
    HexDigitReadsBack(c);
    HexDigitReadsBack(d);
    var s := Hex4(n) + rest;
    assert s[0] == HexDigit(a) && s[1] == HexDigit(b) && s[2] == HexDigit(c) && s[3] == HexDigit(d);
  }

  /* ---- writing ---- */

  /** One character as `%q` writes it between double quotes. */
  function QuoteChar(c: char): string {
    if c == '"' then "\\\""
    else if c == '\\' then "\\\\"
    else if IsPrint(c) then [c]
    else if c == '\U{07}' then "\\a"
    else if c == '\U{08}' then "\\b"
    else if c == '\U{0C}' then "\\f"
    else if c == '\n' then "\\n"
    else if c == '\r' then "\\r"
    else if c == '\t' then "\\t"
    else if c == '\U{0B}' then "\\v"
    else if c < ' ' || c == '\U{7F}' then ['\\', 'x', HexDigit(c as int / 16), HexDigit(c as int % 16)]
    else if c as int < 0x1_0000 then "\\u" + Hex4(c as int)
    else "\\U" + Hex4(c as int / 0x1_0000) + Hex4(c as int % 0x1_0000)
  }

  /** One character as `json.Marshal` writes it, HTML escaping on as it is by default. */
  function MarshalChar(c: char): string {
    if c == '"' then "\\\""
    else if c == '\\' then "\\\\"
    else if c == '\U{08}' then "\\b"
    else if c == '\U{0C}' then "\\f"
    else if c == '\n' then "\\n"
    else if c == '\r' then "\\r"
    else if c == '\t' then "\\t"
    else if c < ' ' || c == '<' || c == '>' || c == '&' || c == '\U{2028}' || c == '\U{2029}' then
      "\\u" + Hex4(c as int)
    else [c]
  }

  function QuoteBody(s: string): string {
    if s == "" then "" else QuoteChar(s[0]) + QuoteBody(s[1..])
  }

  function MarshalBody(s: string): string {
    if s == "" then "" else MarshalChar(s[0]) + MarshalBody(s[1..])
  }

  function Quote(s: string): string { "\"" + QuoteBody(s) + "\"" }

  function MarshalString(s: string): string { "\"" + MarshalBody(s) + "\"" }

  /* ---- reading ---- */

  datatype Read<+T> = Malformed | Ok(value: T, rest: string)

  /** One escape, from the character after the backslash. An unpaired surrogate reads as U+FFFD. */
  function ReadEscape(s: string): (r: Read<char>)
    ensures r.Ok? ==> |r.rest| < |s|
  {
    if s == "" then Malformed
    else match s[0]
      case '"' => Ok('"', s[1..])
      case '\\' => Ok('\\', s[1..])
      case '/' => Ok('/', s[1..])
      case 'b' => Ok('\U{08}', s[1..])
      case 'f' => Ok('\U{0C}', s[1..])
      case 'n' => Ok('\n', s[1..])
      case 'r' => Ok('\r', s[1..])
      case 't' => Ok('\t', s[1..])
      case 'u' => ReadUnit(s[1..])
      case _ => Malformed
  }

  function ReadUnit(s: string): (r: Read<char>)
    ensures r.Ok? ==> |r.rest| < |s|
  {
    match ReadHex4(s)
    case None => Malformed
    case Some(n) =>
      if !(0xD800 <= n < 0xE000) then Ok(n as char, s[4..])
      else
        match if n < 0xDC00 && |s| > 6 && s[4] == '\\' && s[5] == 'u' then ReadHex4(s[6..]) else None
        case Some(low) =>
          if 0xDC00 <= low < 0xE000 then Ok((0x1_0000 + (n - 0xD800) * 1024 + (low - 0xDC00)) as char, s[10..])
          else Ok('\U{FFFD}', s[4..])
        case None => Ok('\U{FFFD}', s[4..])
  }

  function Prepend(c: char, r: Read<string>): Read<string> {
    match r
    case Malformed => Malformed
    case Ok(tail, rest) => Ok([c] + tail, rest)
  }

  /** The characters of a string, from after its opening quote to its closing one. */
  function ReadChars(s: string): (r: Read<string>)
    ensures r.Ok? ==> |r.rest| < |s|
    decreases |s|
  {
    if s == "" then Malformed
    else if s[0] == '"' then Ok("", s[1..])
    else if s[0] == '\\' then
      match ReadEscape(s[1..])
      case Malformed => Malformed
      case Ok(c, rest) => Prepend(c, ReadChars(rest))
    else if s[0] < ' ' then Malformed
    else Prepend(s[0], ReadChars(s[1..]))
  }

  predicate IsSpace(c: char) { c == ' ' || c == '\t' || c == '\n' || c == '\r' }

  function SkipSpace(s: string): (r: string)
    ensures |r| <= |s|
  {
    if s != "" && IsSpace(s[0]) then SkipSpace(s[1..]) else s
  }

  function Expect(c: char, s: string): (r: Read<()>)
    ensures r.Ok? ==> |r.rest| < |s|
  {
    var t := SkipSpace(s);
    if t != "" && t[0] == c then Ok((), t[1..]) else Malformed
  }

  function ReadString(s: string): (r: Read<string>)
    ensures r.Ok? ==> |r.rest| < |s|
  {
    match Expect('"', s)
    case Malformed => Malformed
    case Ok(_, rest) => ReadChars(rest)
  }

  function ReadMember(s: string): (r: Read<(string, string)>)
    ensures r.Ok? ==> |r.rest| < |s|
  {
    match ReadString(s)
    case Malformed => Malformed
    case Ok(name, afterName) =>
      match Expect(':', afterName)
      case Malformed => Malformed
      case Ok(_, afterColon) =>
        match ReadString(afterColon)
        case Malformed => Malformed
        case Ok(value, rest) => Ok((name, value), rest)
  }

  /** Members up to the closing brace; of two members of one name the later stays. */
  function ReadMembers(s: string, sofar: map<string, string>): (r: Read<map<string, string>>)
    decreases |s|
  {
    match ReadMember(s)
    case Malformed => Malformed
    case Ok((name, value), rest) =>
      match Expect(',', rest)
      case Ok(_, more) => ReadMembers(more, sofar[name := value])
      case Malformed =>
        match Expect('}', rest)
        case Malformed => Malformed
        case Ok(_, end) => Ok(sofar[name := value], end)
  }

  /** A whole text holding one object of strings, and nothing else but white space. */
  function ParseObject(s: string): Option<map<string, string>> {
    match Expect('{', s)
    case Malformed => None
    case Ok(_, inside) =>
      var r := match Expect('}', inside)
        case Ok(_, rest) => Ok(map[], rest)
        case Malformed => ReadMembers(inside, map[]);
      if r.Ok? && SkipSpace(r.rest) == "" then Some(r.value) else None
  }

  /* ---- a written character reads back ---- */

  lemma ReadEscaped(t: string, c: char, rest: string)
    requires ReadEscape(t) == Ok(c, rest)
    ensures ReadChars(['\\'] + t) == Prepend(c, ReadChars(rest))
  {
    assert (['\\'] + t)[1..] == t;
  }

  predicate ShortEscape(e: char, c: char) {
    || (e == '"' && c == '"') || (e == '\\' && c == '\\') || (e == 'b' && c == '\U{08}') || (e == 'f' && c == '\U{0C}')
    || (e == 'n' && c == '\n') || (e == 'r' && c == '\r') || (e == 't' && c == '\t')
  }

  lemma ReadShortEscape(e: char, c: char, rest: string)
    requires ShortEscape(e, c)
    ensures ReadChars(['\\', e] + rest) == Prepend(c, ReadChars(rest))
  {
    var t := [e] + rest;
    assert t[0] == e && t[1..] == rest;
    ReadEscaped(t, c, rest);
    assert ['\\', e] + rest == ['\\'] + t;
  }

  lemma ReadUnitEscape(c: char, rest: string)
    requires c as int < 0x1_0000
    ensures ReadChars("\\u" + Hex4(c as int) + rest) == Prepend(c, ReadChars(rest))
  {
    var digits := Hex4(c as int) + rest;
    var t := ['u'] + digits;
    Hex4ReadsBack(c as int, rest);
    assert digits[4..] == rest;
    assert ReadUnit(digits) == Ok(c, rest);
    assert t[0] == 'u' && t[1..] == digits;
    ReadEscaped(t, c, rest);
    assert "\\u" + Hex4(c as int) + rest == ['\\'] + t;
  }

  lemma ReadPlain(c: char, rest: string)
    requires c != '"' && c != '\\' && c >= ' '
    ensures ReadChars([c] + rest) == Prepend(c, ReadChars(rest))
  {
    assert ([c] + rest)[1..] == rest;
  }

  /** What `json.Marshal` writes for a character, a JSON reader reads as that character. */
  lemma MarshalCharReadsBack(c: char, rest: string)
    ensures ReadChars(MarshalChar(c) + rest) == Prepend(c, ReadChars(rest))
  {
    if c == '"' { ReadShortEscape('"', c, rest); }
    else if c == '\\' { ReadShortEscape('\\', c, rest); }
    else if c == '\U{08}' { ReadShortEscape('b', c, rest); }
    else if c == '\U{0C}' { ReadShortEscape('f', c, rest); }
    else if c == '\n' { ReadShortEscape('n', c, rest); }
    else if c == '\r' { ReadShortEscape('r', c, rest); }
    else if c == '\t' { ReadShortEscape('t', c, rest); }
    else if MarshalChar(c) == [c] { ReadPlain(c, rest); }
    else { ReadUnitEscape(c, rest); }
  }

  lemma ReadEnd(rest: string)
    ensures ReadChars("\"" + rest) == Ok("", rest)
  {
    assert ("\"" + rest)[1..] == rest;
  }

  lemma Regrouped(a: string, b: string, c: string, d: string)
    ensures a + b + c + d == a + (b + c + d)
  {
  }

  lemma {:induction false} MarshalReadsBack(s: string, rest: string)
    ensures ReadChars(MarshalBody(s) + "\"" + rest) == Ok(s, rest)
  {
    if s == "" {
      ReadEnd(rest);
      assert MarshalBody(s) + "\"" + rest == "\"" + rest;
    } else {
      var tail := MarshalBody(s[1..]) + "\"" + rest;
      MarshalReadsBack(s[1..], rest);
      MarshalCharReadsBack(s[0], tail);
      Regrouped(MarshalChar(s[0]), MarshalBody(s[1..]), "\"", rest);
      assert [s[0]] + s[1..] == s;
    }
  }

  /** The characters that `%q` writes the way JSON does. */
  predicate JsonSafe(c: char) {
    IsPrint(c) || c in {'\U{08}', '\U{0C}', '\n', '\r', '\t'} || 0x80 <= c as int < 0x1_0000
  }

  lemma QuoteCharReadsBack(c: char, rest: string)
    requires JsonSafe(c)
    ensures ReadChars(QuoteChar(c) + rest) == Prepend(c, ReadChars(rest))
  {
    if c == '"' { ReadShortEscape('"', c, rest); }
    else if c == '\\' { ReadShortEscape('\\', c, rest); }
    else if IsPrint(c) { ReadPlain(c, rest); }
    else if c == '\U{08}' { ReadShortEscape('b', c, rest); }
    else if c == '\U{0C}' { ReadShortEscape('f', c, rest); }
    else if c == '\n' { ReadShortEscape('n', c, rest); }
    else if c == '\r' { ReadShortEscape('r', c, rest); }
    else if c == '\t' { ReadShortEscape('t', c, rest); }
    else { ReadUnitEscape(c, rest); }
  }

  lemma QuoteCharRefused(c: char, rest: string)
    requires !JsonSafe(c)
    ensures ReadChars(QuoteChar(c) + rest) == Malformed
  {
    var s := QuoteChar(c) + rest;
    assert s[0] == '\\' && s[1] == QuoteChar(c)[1];
    assert s[1..][0] in {'a', 'v', 'x', 'U'};
  }

  predicate AllJsonSafe(s: string) {
    forall c :: c in s ==> JsonSafe(c)
  }

  /** `%q` output is a JSON string for the value it quotes exactly when every character is JSON-safe;
      otherwise no JSON reader accepts it, whatever follows. */
  lemma {:induction false} QuoteReadsBack(s: string, rest: string)
    ensures ReadChars(QuoteBody(s) + "\"" + rest) == if AllJsonSafe(s) then Ok(s, rest) else Malformed
  {
    if s == "" {
      assert (QuoteBody(s) + "\"" + rest)[1..] == rest;
    } else {
      var tail := QuoteBody(s[1..]) + "\"" + rest;
      assert QuoteBody(s) + "\"" + rest == QuoteChar(s[0]) + tail;
      assert [s[0]] + s[1..] == s;
      QuoteReadsBack(s[1..], rest);
      if JsonSafe(s[0]) {
        QuoteCharReadsBack(s[0], tail);
        assert AllJsonSafe(s) == AllJsonSafe(s[1..]);
      } else {
        QuoteCharRefused(s[0], tail);
        assert !AllJsonSafe(s);
      }
    }
  }

  /* ---- composing a member ---- */

  lemma ExpectHere(c: char, rest: string)
    requires !IsSpace(c)
    ensures Expect(c, [c] + rest) == Ok((), rest)
    ensures SkipSpace(" " + ([c] + rest)) == [c] + rest
    ensures Expect(c, " " + ([c] + rest)) == Ok((), rest)
  {
    var s := [c] + rest;
    assert SkipSpace(s) == s;
    assert s[1..] == rest;
    assert (" " + s)[1..] == s;
  }

  lemma ExpectOther(c: char, s: string)
    requires s != "" && !IsSpace(s[0]) && s[0] != c
    ensures Expect(c, s) == Malformed
  {
  }

  lemma StringHere(written: string, value: Read<string>)
    requires ReadChars(written) == value
    ensures ReadString(['"'] + written) == value
    ensures ReadString(" " + (['"'] + written)) == value
  {
    ExpectHere('"', written);
  }

  lemma ObjectHere(inside: string, members: Read<map<string, string>>)
    requires Expect('}', inside) == Malformed && ReadMembers(inside, map[]) == members
    ensures ParseObject(['{'] + inside) ==
            if members.Ok? && SkipSpace(members.rest) == "" then Some(members.value) else None
  {
    ExpectHere('{', inside);
  }

  lemma EmptyObjectHere()
    ensures ParseObject(['{'] + ['}']) == Some(map[])
  {
    ExpectHere('{', ['}']);
    ExpectHere('}', "");
    assert ['}'] + "" == ['}'];
  }

  lemma MemberInParts(s: string, name: string, afterName: string, afterColon: string, value: Read<string>)
    requires ReadString(s) == Ok(name, afterName)
    requires Expect(':', afterName) == Ok((), afterColon) && ReadString(afterColon) == value
    ensures ReadMember(s) == match value { case Malformed => Malformed case Ok(v, rest) => Ok((name, v), rest) }
  {
  }

  /** A member written as `"name": "value"`, given how its two strings read. */
  lemma MemberHere(nameWritten: string, name: string, valueWritten: string, value: Read<string>)
    requires ReadChars(nameWritten) == Ok(name, [':'] + (" " + (['"'] + valueWritten)))
    requires ReadChars(valueWritten) == value
    ensures ReadMember(['"'] + nameWritten) ==
            match value { case Malformed => Malformed case Ok(v, rest) => Ok((name, v), rest) }
    ensures ReadMember(" " + (['"'] + nameWritten)) == ReadMember(['"'] + nameWritten)
  {
    var afterColon := " " + (['"'] + valueWritten);
    var afterName := [':'] + afterColon;
    StringHere(nameWritten, Ok(name, afterName));
    ExpectHere(':', afterColon);
    StringHere(valueWritten, value);
    MemberInParts(['"'] + nameWritten, name, afterName, afterColon, value);
    MemberInParts(" " + (['"'] + nameWritten), name, afterName, afterColon, value);
  }
}
