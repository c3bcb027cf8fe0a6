/** Go's own reading of a quoted string, as `strconv.Unquote` has it: whatever the value, `%q` loses nothing. */
module GoQuote {
  import opened Text
  import opened Json

  /** A code point that is a character. */
  function ReadCode(n: int, s: string): (r: Read<char>) {
    if 0 <= n < 0xD800 || 0xE000 <= n < 0x11_0000 then Ok(n as char, s) else Malformed
  }

  function ReadHex2(s: string): (r: Option<int>)
    ensures r.Some? ==> |s| >= 2
  {
    if |s| < 2 then None
    else
      match (HexValue(s[0]), HexValue(s[1]))
      case (Some(a), Some(b)) => Some(a * 16 + b)
      case _ => None
  }

  /** One escape, from the character after the backslash. Bytes from `\x80` on are no text. */
  function ReadEscape(s: string): (r: Read<char>)
    ensures r.Ok? ==> |r.rest| < |s|
  {
    if s == "" then Malformed
    else match s[0]
      case '"' => Ok('"', s[1..])
      case '\\' => Ok('\\', s[1..])
      case 'a' => Ok('\U{07}', s[1..])
      case 'b' => Ok('\U{08}', s[1..])
      case 'f' => Ok('\U{0C}', s[1..])
      case 'n' => Ok('\n', s[1..])
      case 'r' => Ok('\r', s[1..])
      case 't' => Ok('\t', s[1..])
      case 'v' => Ok('\U{0B}', s[1..])
      case 'x' =>
        var n := ReadHex2(s[1..]);
        if n.Some? && n.value < 0x80 then ReadCode(n.value, s[3..]) else Malformed
      case 'u' =>
        var n := ReadHex4(s[1..]);
        if n.Some? then ReadCode(n.value, s[5..]) else Malformed
      case 'U' => ReadLong(s[1..])
      case _ => Malformed
  }

  /** Eight hexadecimal digits. */
  function ReadLong(s: string): (r: Read<char>)
    ensures r.Ok? ==> |r.rest| < |s|
  {
    var high := ReadHex4(s);
    if high.None? then Malformed
    else
      var low := ReadHex4(s[4..]);
      if low.None? then Malformed else ReadCode(high.value * 0x1_0000 + low.value, s[8..])
  }

  /** The characters of a quoted string, from after its opening quote to its closing one. */
  function ReadQuoted(s: string): (r: Read<string>)
    decreases |s|
  {
    if s == "" then Malformed
    else if s[0] == '"' then Ok("", s[1..])
    else if s[0] == '\\' then
      match ReadEscape(s[1..])
      case Malformed => Malformed
      case Ok(c, rest) => Prepend(c, ReadQuoted(rest))
    else Prepend(s[0], ReadQuoted(s[1..]))
  }

  lemma EscapeHere(t: string, c: char, rest: string)
    requires ReadEscape(t) == Ok(c, rest)
    ensures ReadQuoted(['\\'] + t) == Prepend(c, ReadQuoted(rest))
  {
    assert (['\\'] + t)[1..] == t;
  }

  lemma ShortHere(e: char, c: char, rest: string)
    requires ReadEscape([e] + rest) == Ok(c, rest)
    ensures ReadQuoted(['\\', e] + rest) == Prepend(c, ReadQuoted(rest))
  {
    EscapeHere([e] + rest, c, rest);
    assert ['\\', e] + rest == ['\\'] + ([e] + rest);
  }

  lemma ByteHere(c: char, rest: string)
    requires c as int < 0x80
    ensures ReadQuoted(['\\', 'x', HexDigit(c as int / 16), HexDigit(c as int % 16)] + rest) ==
            Prepend(c, ReadQuoted(rest))
  {
    var high, low := c as int / 16, c as int % 16;
    var t := ['x', HexDigit(high), HexDigit(low)] + rest;
    HexDigitReadsBack(high);
    HexDigitReadsBack(low);
    assert t[1..][0] == HexDigit(high) && t[1..][1] == HexDigit(low);
    assert ReadHex2(t[1..]) == Some(high * 16 + low);
    assert t[3..] == rest;
    EscapeHere(t, c, rest);
    assert ['\\', 'x', HexDigit(high), HexDigit(low)] + rest == ['\\'] + t;
  }

  lemma UnitHere(c: char, rest: string)
    requires c as int < 0x1_0000
    ensures ReadQuoted("\\u" + Hex4(c as int) + rest) == Prepend(c, ReadQuoted(rest))
  {
    var digits := Hex4(c as int) + rest;
    var t := ['u'] + digits;
    Hex4ReadsBack(c as int, rest);
    assert t[1..] == digits && t[5..] == rest;
    EscapeHere(t, c, rest);
    assert "\\u" + Hex4(c as int) + rest == ['\\'] + t;
  }

  lemma LongReads(high: int, low: int, c: char, rest: string)
    requires 0 <= high < 0x1_0000 && 0 <= low < 0x1_0000 && c as int == high * 0x1_0000 + low
    ensures ReadLong(Hex4(high) + (Hex4(low) + rest)) == Ok(c, rest)
  {
    var digits := Hex4(high) + (Hex4(low) + rest);
    Hex4ReadsBack(high, Hex4(low) + rest);
    Hex4ReadsBack(low, rest);
    assert digits[4..] == Hex4(low) + rest && digits[8..] == rest;
  }

  lemma LongHere(c: char, rest: string)
    requires 0x1_0000 <= c as int
    ensures ReadQuoted("\\U" + Hex4(c as int / 0x1_0000) + Hex4(c as int % 0x1_0000) + rest) ==
            Prepend(c, ReadQuoted(rest))
  {
    var high, low := c as int / 0x1_0000, c as int % 0x1_0000;
    LongReads(high, low, c, rest);
    LongEscapes(Hex4(high), Hex4(low), c, rest);
  }

  lemma InFront(high: string, low: string, rest: string)
    ensures "\\U" + high + low + rest == ['\\'] + (['U'] + (high + (low + rest)))
  {
    assert "\\U" == ['\\'] + ['U'];
    Associative(['\\'] + ['U'] + high, low, rest);
    Associative(['\\'] + ['U'], high, low + rest);
    Associative(['\\'], ['U'], high + (low + rest));
  }

  lemma LongEscapes(high: string, low: string, c: char, rest: string)
    requires ReadLong(high + (low + rest)) == Ok(c, rest)
    ensures ReadQuoted("\\U" + high + low + rest) == Prepend(c, ReadQuoted(rest))
  {
    var t := ['U'] + (high + (low + rest));
    assert t[1..] == high + (low + rest);
    EscapeHere(t, c, rest);
    InFront(high, low, rest);
  }

  lemma PlainHere(c: char, rest: string)
    requires c != '"' && c != '\\'
    ensures ReadQuoted([c] + rest) == Prepend(c, ReadQuoted(rest))
  {
    assert ([c] + rest)[1..] == rest;
  }

  lemma QuotedCharReads(c: char, rest: string)
    ensures ReadQuoted(QuoteChar(c) + rest) == Prepend(c, ReadQuoted(rest))
  {
    if c == '"' { ShortHere('"', c, rest); }
    else if c == '\\' { ShortHere('\\', c, rest); }
    else if IsPrint(c) { PlainHere(c, rest); }
    else if c == '\U{07}' { ShortHere('a', c, rest); }
    else if c == '\U{08}' { ShortHere('b', c, rest); }
    else if c == '\U{0C}' { ShortHere('f', c, rest); }
    else if c == '\n' { ShortHere('n', c, rest); }
    else if c == '\r' { ShortHere('r', c, rest); }
    else if c == '\t' { ShortHere('t', c, rest); }
    else if c == '\U{0B}' { ShortHere('v', c, rest); }
    else if c < ' ' || c == '\U{7F}' { ByteHere(c, rest); }
    else if c as int < 0x1_0000 { UnitHere(c, rest); }
    else { LongHere(c, rest); }
  }

  /** Every value reads back from what `%q` writes for it, whatever follows. */
  lemma {:induction false} QuotedReads(s: string, rest: string)
    ensures ReadQuoted(QuoteBody(s) + ("\"" + rest)) == Ok(s, rest)
  {
    if s == "" {
      assert QuoteBody(s) + ("\"" + rest) == "\"" + rest;
      assert ("\"" + rest)[1..] == rest;
    } else {
      var tail := QuoteBody(s[1..]) + ("\"" + rest);
      QuotedReads(s[1..], rest);
      QuotedCharReads(s[0], tail);
      Associative(QuoteChar(s[0]), QuoteBody(s[1..]), "\"" + rest);
      assert [s[0]] + s[1..] == s;
    }
  }

  lemma Associative(a: string, b: string, c: string)
    ensures a + b + c == a + (b + c)
  {
  }

  lemma BehindQuote(body: string, rest: string)
    ensures ("\"" + body + "\"" + rest)[1..] == body + ("\"" + rest)
  {
  }

  /** So where a quoted value ends can be told, and what it was. */
  lemma QuotedApart(s: string, rest: string, t: string, more: string)
    requires Quote(s) + rest == Quote(t) + more
    ensures s == t && rest == more
  {
    QuotedReads(s, rest);
    QuotedReads(t, more);
    BehindQuote(QuoteBody(s), rest);
    BehindQuote(QuoteBody(t), more);
    assert ReadQuoted((Quote(s) + rest)[1..]) == Ok(s, rest);
    assert ReadQuoted((Quote(t) + more)[1..]) == Ok(t, more);
  }
}
