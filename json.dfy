/**
 * `json.dumps` of a string with its default `ensure_ascii=True` (the encoder of Python's `json`
 * module): quote and backslash escaped, the usual short escapes for control characters, every
 * other code point outside ' '..'~' as `\uXXXX` in lower-case hex, and code points above U+FFFF
 * as a surrogate pair.  The decoder is the string grammar of section 7 of RFC 8259.
 */
module Json {
  import opened Wrappers

  predicate IsPrintableAscii(c: char) {
    ' ' <= c <= '~'
  }

  predicate AllPrintableAscii(s: string) {
    forall i :: 0 <= i < |s| ==> IsPrintableAscii(s[i])
  }

  predicate IsHexDigit(c: char) {
    '0' <= c <= '9' || 'a' <= c <= 'f' || 'A' <= c <= 'F'
  }

  /** The lower-case hex digit for `d`. */
  function HexDigit(d: nat): (c: char)
    requires d < 16
    ensures IsHexDigit(c) && IsPrintableAscii(c)
  {
    if d < 10 then (('0' as int) + d) as char else (('a' as int) + d - 10) as char
  }

  function HexDigitValue(c: char): (d: nat)
    requires IsHexDigit(c)
    ensures d < 16
  {
    if c <= '9' then c as int - '0' as int
    else if c <= 'F' then c as int - 'A' as int + 10
    else c as int - 'a' as int + 10
  }

  function Pow16(n: nat): nat {
    if n == 0 then 1 else 16 * Pow16(n - 1)
  }

  /** `v` in exactly `n` lower-case hex digits, most significant first (`'{0:0nx}'.format(v)`). */
  function HexDigits(v: nat, n: nat): (s: string)
    ensures |s| == n
    ensures forall i :: 0 <= i < |s| ==> IsHexDigit(s[i]) && IsPrintableAscii(s[i])
  {
    if n == 0 then [] else HexDigits(v / 16, n - 1) + [HexDigit(v % 16)]
  }

  /** The number a string of hex digits denotes. */
  function HexValue(s: string): (v: nat)
    requires forall i :: 0 <= i < |s| ==> IsHexDigit(s[i])
    ensures v < Pow16(|s|)
  {
    if s == [] then 0 else 16 * HexValue(s[..|s| - 1]) + HexDigitValue(s[|s| - 1])
  }

  lemma HexDigitRoundTrip(d: nat)
    requires d < 16
    ensures HexDigitValue(HexDigit(d)) == d
  {
  }

  /** Reading back `n` written digits gives the number, when it fits in `n` digits. */
  lemma {:induction false} HexDigitsRoundTrip(v: nat, n: nat)
    requires v < Pow16(n)
    ensures HexValue(HexDigits(v, n)) == v
  {
    if n > 0 {
      var s := HexDigits(v, n);
      assert s[..|s| - 1] == HexDigits(v / 16, n - 1);
      HexDigitsRoundTrip(v / 16, n - 1);
      HexDigitRoundTrip(v % 16);
    }
  }

  /** `\uXXXX` for a 16-bit unit. */
  function UnitEscape(v: nat): (e: string)
    requires v < 0x10000
    ensures |e| == 6
  {
    "\\u" + HexDigits(v, 4)
  }

  /** The escape of one code point in `ensure_ascii` mode. */
  function EscapeChar(c: char): (e: string)
    ensures e != [] && AllPrintableAscii(e)
  {
    if c == '"' then "\\\""
    else if c == '\\' then "\\\\"
    else if c == '\n' then "\\n"
    else if c == '\r' then "\\r"
    else if c == '\t' then "\\t"
    else if c == '\U{8}' then "\\b"
    else if c == '\U{c}' then "\\f"
    else if IsPrintableAscii(c) then [c]
    else if (c as int) < 0x10000 then UnitEscape(c as int)
    else
      var n := c as int - 0x10000;
      UnitEscape(0xD800 + n / 0x400) + UnitEscape(0xDC00 + n % 0x400)
  }

  /** The escaped body of a string literal. */
  function EscapeString(s: string): (e: string)
    ensures AllPrintableAscii(e)
    ensures |e| >= |s|
  {
    if s == [] then [] else EscapeChar(s[0]) + EscapeString(s[1..])
  }

  /** `json.dumps(s)` for a string: the escaped body between double quotes. */
  function Quote(s: string): string {
    "\"" + EscapeString(s) + "\""
  }

  /** `json.dumps({key: value})` with the default separators. */
  function DumpsSingleField(key: string, value: string): string {
    "{" + Quote(key) + ": " + Quote(value) + "}"
  }

  /** The encoded text is printable ASCII: in particular it holds no line break. */
  lemma DumpsIsOneLine(key: string, value: string)
    ensures AllPrintableAscii(DumpsSingleField(key, value))
    ensures forall i :: 0 <= i < |DumpsSingleField(key, value)| ==>
              DumpsSingleField(key, value)[i] != '\n' && DumpsSingleField(key, value)[i] != '\r'
  {
  }

  function Prepend(c: char, rest: Option<string>): Option<string> {
    if rest.Some? then Some([c] + rest.value) else None
  }

  /** The code point a short escape `\x` stands for, if `x` names one. */
  function ShortEscape(x: char): Option<char> {
    if x == '"' then Some('"')
    else if x == '\\' then Some('\\')
    else if x == '/' then Some('/')
    else if x == 'n' then Some('\n')
    else if x == 'r' then Some('\r')
    else if x == 't' then Some('\t')
    else if x == 'b' then Some('\U{8}')
    else if x == 'f' then Some('\U{c}')
    else None
  }

  predicate IsHex4At(t: string, i: nat) {
    i + 4 <= |t| && forall k :: i <= k < i + 4 ==> IsHexDigit(t[k])
  }

  /**
   * The string a literal's escaped body denotes, or None when the body is malformed: an unescaped
   * quote or control character, an unknown escape, or a surrogate not in a proper pair.
   */
  function Unescape(t: string): Option<string>
    decreases |t|
  {
    if t == [] then Some([])
    else if t[0] == '"' || t[0] < ' ' then None
    else if t[0] != '\\' then Prepend(t[0], Unescape(t[1..]))
    else if |t| < 2 then None
    else if ShortEscape(t[1]).Some? then Prepend(ShortEscape(t[1]).value, Unescape(t[2..]))
    else if t[1] != 'u' || !IsHex4At(t, 2) then None
    else
      var high := HexValue(t[2..6]);
      assert Pow16(4) == 0x10000;
      if 0xDC00 <= high < 0xE000 then None
      else if high < 0xD800 || 0xE000 <= high then Prepend(high as char, Unescape(t[6..]))
      else if |t| >= 12 && t[6] == '\\' && t[7] == 'u' && IsHex4At(t, 8)
              && 0xDC00 <= HexValue(t[8..12]) < 0xE000 then
        var low := HexValue(t[8..12]);
        Prepend((0x10000 + (high - 0xD800) * 0x400 + (low - 0xDC00)) as char, Unescape(t[12..]))
      else None
  }

  lemma UnitEscapeValue(v: nat, rest: string)
    requires v < 0x10000
    ensures var t := UnitEscape(v) + rest;
            t[0] == '\\' && t[1] == 'u' && IsHex4At(t, 2) && HexValue(t[2..6]) == v && t[6..] == rest
  {
    var t := UnitEscape(v) + rest;
    assert t[2..6] == HexDigits(v, 4);
    HexDigitsRoundTrip(v, 4);
  }

  /** A code point written as itself or as a two-character short escape decodes back. */
  lemma UnescapeShortChar(c: char, rest: string)
    requires |EscapeChar(c)| <= 2
    ensures Unescape(EscapeChar(c) + rest) == Prepend(c, Unescape(rest))
  {
    ShortEscapeShape(c);
    var e := EscapeChar(c);
    var t := e + rest;
    if |e| == 1 {
      assert t[0] == c && t[1..] == rest;
      UnescapePlain(t);
    } else {
      assert t[0] == '\\' && t[1] == e[1] && t[2..] == rest;
      UnescapeShort(t);
    }
  }

  /** A code point escaped in at most two characters is itself, or a backslash and the letter naming it. */
  lemma ShortEscapeShape(c: char)
    requires |EscapeChar(c)| <= 2
    ensures var e := EscapeChar(c);
            (|e| == 1 && e[0] == c && c != '"' && c >= ' ' && c != '\\')
            || (|e| == 2 && e[0] == '\\' && ShortEscape(e[1]) == Some(c))
  {
  }

  /** An unescaped printable character decodes as itself. */
  lemma UnescapePlain(t: string)
    requires t != [] && t[0] != '"' && t[0] >= ' ' && t[0] != '\\'
    ensures Unescape(t) == Prepend(t[0], Unescape(t[1..]))
  {
  }

  /** A backslash and a letter naming a short escape decode as the character it names. */
  lemma UnescapeShort(t: string)
    requires |t| >= 2 && t[0] == '\\' && ShortEscape(t[1]).Some?
    ensures Unescape(t) == Prepend(ShortEscape(t[1]).value, Unescape(t[2..]))
  {
  }

  /** A code point below U+10000 written as `\uXXXX` decodes back. */
  lemma UnescapeUnitChar(c: char, rest: string)
    requires |EscapeChar(c)| > 2 && (c as int) < 0x10000
    ensures Unescape(EscapeChar(c) + rest) == Prepend(c, Unescape(rest))
  {
    UnitEscapeValue(c as int, rest);
  }

  /** A code point above U+FFFF written as a surrogate pair decodes back. */
  lemma UnescapePairChar(c: char, rest: string)
    requires (c as int) >= 0x10000
    ensures Unescape(EscapeChar(c) + rest) == Prepend(c, Unescape(rest))
  {
    var n := c as int - 0x10000;
    var high, low := 0xD800 + n / 0x400, 0xDC00 + n % 0x400;
    assert 0xD800 <= high < 0xDC00 && 0xDC00 <= low < 0xE000
           && 0x10000 + (high - 0xD800) * 0x400 + (low - 0xDC00) == c as int by {
      SurrogateSplit(n);
    }
    PairEscapeShape(c, rest);
    UnescapeSurrogates(EscapeChar(c) + rest, high, low);
  }

  /** The escape of a code point above U+FFFF: a high surrogate escape, then a low one. */
  lemma PairEscapeShape(c: char, rest: string)
    requires (c as int) >= 0x10000
    ensures var n := c as int - 0x10000;
            var high, low := 0xD800 + n / 0x400, 0xDC00 + n % 0x400;
            var t := EscapeChar(c) + rest;
            |t| >= 12 && t[0] == '\\' && t[1] == 'u' && IsHex4At(t, 2) && HexValue(t[2..6]) == high
            && t[6] == '\\' && t[7] == 'u' && IsHex4At(t, 8) && HexValue(t[8..12]) == low && t[12..] == rest
  {
    var n := c as int - 0x10000;
    SurrogateSplit(n);
    var high, low := 0xD800 + n / 0x400, 0xDC00 + n % 0x400;
    assert EscapeChar(c) == UnitEscape(high) + UnitEscape(low);
    TwoUnitEscapes(high, low, rest);
  }

  /** Two `\uXXXX` escapes in a row, read at their positions. */
  lemma TwoUnitEscapes(high: nat, low: nat, rest: string)
    requires high < 0x10000 && low < 0x10000
    ensures var t := UnitEscape(high) + UnitEscape(low) + rest;
            |t| >= 12 && t[0] == '\\' && t[1] == 'u' && IsHex4At(t, 2) && HexValue(t[2..6]) == high
            && t[6] == '\\' && t[7] == 'u' && IsHex4At(t, 8) && HexValue(t[8..12]) == low && t[12..] == rest
  {
    var t := UnitEscape(high) + UnitEscape(low) + rest;
    var u := UnitEscape(low) + rest;
    assert t == UnitEscape(high) + u && t[6..] == u;
    UnitEscapeValue(high, u);
    UnitEscapeValue(low, rest);
    assert u[2..6] == t[8..12] && u[6..] == t[12..] && u[0] == t[6] && u[1] == t[7];
    forall k | 8 <= k < 12 ensures IsHexDigit(t[k]) {
      assert t[k] == u[k - 6];
    }
  }

  /** A well-formed surrogate pair of escapes decodes to the code point the pair stands for. */
  lemma UnescapeSurrogates(t: string, high: int, low: int)
    requires 0xD800 <= high < 0xDC00 && 0xDC00 <= low < 0xE000
    requires |t| >= 12 && t[0] == '\\' && t[1] == 'u' && IsHex4At(t, 2) && HexValue(t[2..6]) == high
    requires t[6] == '\\' && t[7] == 'u' && IsHex4At(t, 8) && HexValue(t[8..12]) == low
    ensures Unescape(t) == Prepend((0x10000 + (high - 0xD800) * 0x400 + (low - 0xDC00)) as char, Unescape(t[12..]))
  {
    assert ShortEscape(t[1]).None?;
  }

  /** A code point above U+FFFF, less 0x10000, splits into a high and a low ten-bit half. */
  lemma SurrogateSplit(n: int)
    requires 0 <= n < 0x100000
    ensures 0 <= n / 0x400 < 0x400 && 0 <= n % 0x400 < 0x400
    ensures (n / 0x400) * 0x400 + n % 0x400 == n
  {
  }

  /** Decoding undoes the escape of one code point. */
  lemma UnescapeEscapedChar(c: char, rest: string)
    ensures Unescape(EscapeChar(c) + rest) == Prepend(c, Unescape(rest))
  {
    if |EscapeChar(c)| <= 2 {
      UnescapeShortChar(c, rest);
    } else if (c as int) < 0x10000 {
      UnescapeUnitChar(c, rest);
    } else {
      UnescapePairChar(c, rest);
    }
  }

  /** Decoding the escaped body gives back the original string. */
  lemma {:induction false} UnescapeEscapeString(s: string)
    ensures Unescape(EscapeString(s)) == Some(s)
  {
    if s != [] {
      UnescapeEscapedChar(s[0], EscapeString(s[1..]));
      UnescapeEscapeString(s[1..]);
      assert [s[0]] + s[1..] == s;
    }
  }
}
