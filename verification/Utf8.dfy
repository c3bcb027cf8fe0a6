/** UTF-8 (RFC 3629), as far as the separator of series keys and the order of strings depend on it. */
module Utf8 {
  import opened Text

  newtype byte = b: int | 0 <= b < 256

  type Bytes = seq<byte>

  function EncodeChar(c: char): Bytes {
    var n := c as int;
    if n < 0x80 then [n as byte]
    else if n < 0x800 then [(0xC0 + n / 64) as byte, (0x80 + n % 64) as byte]
    else if n < 0x1_0000 then [(0xE0 + n / 4096) as byte, (0x80 + n / 64 % 64) as byte, (0x80 + n % 64) as byte]
    else [(0xF0 + n / 262144) as byte, (0x80 + n / 4096 % 64) as byte, (0x80 + n / 64 % 64) as byte,
          (0x80 + n % 64) as byte]
  }

  function Encode(s: string): Bytes {
    if s == "" then [] else EncodeChar(s[0]) + Encode(s[1..])
  }

  const SEPARATOR: byte := 0xFF

  lemma CharHasNoSeparator(c: char)
    ensures SEPARATOR !in EncodeChar(c)
  {
  }

  /** "0xff cannot occur in valid UTF-8 sequences." */
  lemma {:induction false} TextHasNoSeparator(s: string)
    ensures SEPARATOR !in Encode(s)
  {
    if s != "" {
      CharHasNoSeparator(s[0]);
      TextHasNoSeparator(s[1..]);
    }
  }

  /** How many bytes a first byte announces. */
  function Width(first: byte): nat {
    if first < 0x80 then 1 else if first < 0xE0 then 2 else if first < 0xF0 then 3 else 4
  }

  lemma CharWidth(c: char)
    ensures |EncodeChar(c)| == Width(EncodeChar(c)[0])
  {
  }

  /** The code point a well-formed sequence stands for. */
  function CodePoint(e: Bytes): int
    requires e != [] && |e| == Width(e[0])
  {
    if |e| == 1 then e[0] as int
    else if |e| == 2 then (e[0] as int - 0xC0) * 64 + (e[1] as int - 0x80)
    else if |e| == 3 then (e[0] as int - 0xE0) * 4096 + (e[1] as int - 0x80) * 64 + (e[2] as int - 0x80)
    else (e[0] as int - 0xF0) * 262144 + (e[1] as int - 0x80) * 4096 + (e[2] as int - 0x80) * 64 + (e[3] as int - 0x80)
  }

  /** A quotient is the one number it can be. */
  lemma QuotientIs(n: int, q: int, r: int)
    requires n == 4096 * q + r && 0 <= r < 4096
    ensures n / 4096 == q
  {
  }

  lemma QuotientIsTop(n: int, q: int, r: int)
    requires n == 262144 * q + r && 0 <= r < 262144
    ensures n / 262144 == q
  {
  }

  lemma DividedTwice(n: int)
    requires 0 <= n
    ensures n / 4096 == n / 64 / 64
  {
    var m := n / 64;
    QuotientIs(n, m / 64, 64 * (m % 64) + n % 64);
  }

  lemma DividedThrice(n: int)
    requires 0 <= n
    ensures n / 262144 == n / 64 / 64 / 64
  {
    var m := n / 64;
    var l := m / 64;
    QuotientIsTop(n, l / 64, 4096 * (l % 64) + 64 * (m % 64) + n % 64);
  }

  /** The six-bit digits of a number put together again. */
  lemma Sixes(n: int)
    requires 0 <= n
    ensures n / 4096 * 4096 + n / 64 % 64 * 64 + n % 64 == n
    ensures n / 262144 * 262144 + n / 4096 % 64 * 4096 + n / 64 % 64 * 64 + n % 64 == n
  {
    DividedTwice(n);
    DividedThrice(n);
    var m := n / 64;
    var l := m / 64;
    assert n == 64 * m + n % 64;
    assert m == 64 * l + m % 64;
    assert l == 64 * (l / 64) + l % 64;
  }

  lemma CodePointReadsBack(c: char)
    ensures |EncodeChar(c)| == Width(EncodeChar(c)[0]) && CodePoint(EncodeChar(c)) == c as int
  {
    CharWidth(c);
    Sixes(c as int);
  }

  lemma EncodeNonEmpty(s: string)
    requires s != ""
    ensures Encode(s) != []
  {
    CharWidth(s[0]);
  }

  lemma {:induction false} EncodeInjective(a: string, b: string)
    requires Encode(a) == Encode(b)
    ensures a == b
  {
    if a != "" {
      EncodeNonEmpty(a);
    }
    if b != "" {
      EncodeNonEmpty(b);
    }
    if a != "" && b != "" {
      var x, y := EncodeChar(a[0]), EncodeChar(b[0]);
      CodePointReadsBack(a[0]);
      CodePointReadsBack(b[0]);
      assert Encode(a)[0] == x[0] && Encode(b)[0] == y[0];
      assert Encode(a)[..|x|] == x && Encode(b)[..|y|] == y;
      assert Encode(a)[|x|..] == Encode(a[1..]) && Encode(b)[|y|..] == Encode(b[1..]);
      EncodeInjective(a[1..], b[1..]);
      assert a == [a[0]] + a[1..] && b == [b[0]] + b[1..];
    }
  }

  /* ---- the order of strings ---- */

  /** The first byte at which the left one is smaller, or the end of the left one. */
  predicate SmallerAt(x: Bytes, y: Bytes, k: nat) {
    k <= |x| && k < |y| && x[..k] == y[..k] && (k == |x| || x[k] < y[k])
  }

  /** Go's `<` on strings: at the first byte that differs the left one is smaller, or it is a proper prefix. */
  ghost predicate BytesBefore(x: Bytes, y: Bytes) { exists k: nat :: SmallerAt(x, y, k) }

  lemma BytesAsymmetric(x: Bytes, y: Bytes)
    requires BytesBefore(x, y)
    ensures !BytesBefore(y, x)
  {
    var k: nat :| SmallerAt(x, y, k);
    forall j: nat
      ensures !SmallerAt(y, x, j)
    {
      assert k < j <= |x| && j <= |y| ==> x[..j][k] == x[k] && y[..j][k] == y[k];
      assert j < k <= |y| ==> x[..k][j] == x[j] && y[..k][j] == y[j];
    }
  }

  predicate Continues(e: Bytes) { forall i :: 1 <= i < |e| ==> 0x80 <= e[i] < 0xC0 }

  lemma CharContinues(c: char)
    ensures Continues(EncodeChar(c))
  {
  }

  /** Bytes of one width that say different numbers: the first that differs is smaller in the smaller one. */
  lemma SmallerNumber(e: Bytes, f: Bytes) returns (k: nat)
    requires |e| == |f| > 0 && |e| == Width(e[0]) == Width(f[0])
    requires Continues(e) && Continues(f) && CodePoint(e) < CodePoint(f)
    ensures k < |e| && SmallerAt(e, f, k)
  {
    k := if e[0] != f[0] then 0 else if e[1] != f[1] then 1 else if e[2] != f[2] then 2 else 3;
  }

  lemma SmallerChar(c: char, d: char) returns (k: nat)
    requires c < d
    ensures k < |EncodeChar(c)| && SmallerAt(EncodeChar(c), EncodeChar(d), k)
  {
    var e, f := EncodeChar(c), EncodeChar(d);
    CodePointReadsBack(c);
    CodePointReadsBack(d);
    CharContinues(c);
    CharContinues(d);
    if |e| == |f| {
      k := SmallerNumber(e, f);
    } else {
      assert e[0] < f[0];
      k := 0;
    }
  }

  lemma SmallerHead(e: Bytes, f: Bytes, more: Bytes, others: Bytes, k: nat)
    requires k < |e| && SmallerAt(e, f, k)
    ensures SmallerAt(e + more, f + others, k)
  {
    assert (e + more)[..k] == e[..k] && (f + others)[..k] == f[..k];
  }

  lemma SmallerTail(e: Bytes, x: Bytes, y: Bytes, k: nat)
    requires SmallerAt(x, y, k)
    ensures SmallerAt(e + x, e + y, |e| + k)
  {
    assert (e + x)[..|e| + k] == e + x[..k] && (e + y)[..|e| + k] == e + y[..k];
  }

  lemma {:induction false} BelowEncodes(a: string, b: string) returns (k: nat)
    requires Below(a, b)
    ensures SmallerAt(Encode(a), Encode(b), k)
  {
    if a == "" {
      EncodeNonEmpty(b);
      k := 0;
    } else if a[0] < b[0] {
      k := SmallerChar(a[0], b[0]);
      SmallerHead(EncodeChar(a[0]), EncodeChar(b[0]), Encode(a[1..]), Encode(b[1..]), k);
    } else {
      var j := BelowEncodes(a[1..], b[1..]);
      SmallerTail(EncodeChar(a[0]), Encode(a[1..]), Encode(b[1..]), j);
      k := |EncodeChar(a[0])| + j;
    }
  }

  /** The order by code points is the order of the bytes. */
  lemma BelowIsByteOrder(a: string, b: string)
    ensures Below(a, b) <==> BytesBefore(Encode(a), Encode(b))
  {
    if Below(a, b) {
      var _ := BelowEncodes(a, b);
    } else {
      BelowTotal(a, b);
      if a != b {
        var _ := BelowEncodes(b, a);
        BytesAsymmetric(Encode(b), Encode(a));
      }
    }
  }
}
