/**
 * Shared vocabulary of the SmartHotel model: optional values, the character
 * classes the client (JavaScript) and the backend (Python) use when they trim
 * or match text, ASCII lower-casing, decimal digit strings and JavaScript's
 * parseInt.
 */
module Common {

  /** A value that may be absent: a missing request field, a JavaScript
      `null`/`undefined`, a SQL NULL. */
  datatype Option<T> = None | Some(value: T)

  /** Python truthiness of an integer request field: a missing field and 0 are falsy. */
  predicate IsTruthyInt(o: Option<int>) {
    o.Some? && o.value != 0
  }

  /** Python truthiness of a text field: a missing field and "" are falsy. */
  predicate IsTruthyText(o: Option<string>) {
    o.Some? && o.value != ""
  }

  // ---------------------------------------------------------------------------
  // Character classes

  /** White space as JavaScript's `String.prototype.trim` and the regex class `\s`
      see it (WhiteSpace and LineTerminator of ECMAScript). */
  predicate IsJsSpace(c: char) {
    c == ' ' || ('\t' <= c <= '\r') || c == '\U{A0}' || c == '\U{1680}'
    || ('\U{2000}' <= c <= '\U{200A}') || c == '\U{2028}' || c == '\U{2029}'
    || c == '\U{202F}' || c == '\U{205F}' || c == '\U{3000}' || c == '\U{FEFF}'
  }

  /** The characters a JavaScript regex `.` does not match (line terminators). */
  predicate IsJsLineTerminator(c: char) {
    c == '\n' || c == '\r' || c == '\U{2028}' || c == '\U{2029}'
  }

  /** White space as Python's `str.strip()` and `str.isspace()` see it. */
  predicate IsPySpace(c: char) {
    ('\t' <= c <= '\r') || ('\U{1C}' <= c <= '\U{1F}') || c == ' ' || c == '\U{85}'
    || c == '\U{A0}' || c == '\U{1680}' || ('\U{2000}' <= c <= '\U{200A}')
    || c == '\U{2028}' || c == '\U{2029}' || c == '\U{202F}' || c == '\U{205F}'
    || c == '\U{3000}'
  }

  /** The regex class `\d` (ASCII decimal digits). */
  predicate IsDigit(c: char) {
    '0' <= c <= '9'
  }

  /** The regex class `[A-Za-z]`. */
  predicate IsAsciiLetter(c: char) {
    ('A' <= c <= 'Z') || ('a' <= c <= 'z')
  }

  predicate AllDigits(s: string) {
    forall k :: 0 <= k < |s| ==> IsDigit(s[k])
  }

  /** The phone pattern `^\d{10}$` both screens use. */
  predicate TenDigits(s: string) {
    |s| == 10 && AllDigits(s)
  }

  // ---------------------------------------------------------------------------
  // Trimming

  /** Drops the leading characters that satisfy `ws`. */
  function TrimLeft(s: string, ws: char -> bool): (r: string)
    ensures |r| <= |s| && r == s[|s| - |r|..]
    ensures forall k :: 0 <= k < |s| - |r| ==> ws(s[k])
    ensures |r| > 0 ==> !ws(r[0])
    decreases |s|
  {
    if |s| > 0 && ws(s[0]) then TrimLeft(s[1..], ws) else s
  }

  /** Drops the trailing characters that satisfy `ws`. */
  function TrimRight(s: string, ws: char -> bool): (r: string)
    ensures |r| <= |s| && r == s[..|r|]
    ensures forall k :: |r| <= k < |s| ==> ws(s[k])
    ensures |r| > 0 ==> !ws(r[|r| - 1])
    decreases |s|
  {
    if |s| > 0 && ws(s[|s| - 1]) then TrimRight(s[..|s| - 1], ws) else s
  }

  /** Removes white space (in the sense of `ws`) from both ends. */
  function Trim(s: string, ws: char -> bool): string {
    TrimRight(TrimLeft(s, ws), ws)
  }

  /** JavaScript `s.trim()`. */
  function JsTrim(s: string): string {
    Trim(s, IsJsSpace)
  }

  /** Python `s.strip()`. */
  function PyStrip(s: string): string {
    Trim(s, IsPySpace)
  }

  /** A trimmed string is empty exactly when every character is white space,
      and otherwise it starts and ends with a non-space character. */
  lemma TrimEmptyIff(s: string, ws: char -> bool)
    ensures Trim(s, ws) == [] <==> forall k :: 0 <= k < |s| ==> ws(s[k])
    ensures |Trim(s, ws)| > 0 ==> !ws(Trim(s, ws)[0]) && !ws(Trim(s, ws)[|Trim(s, ws)| - 1])
  {
    var l := TrimLeft(s, ws);
    var t := TrimRight(l, ws);
    if |t| > 0 {
      assert t[0] == l[0];
    }
  }

  /** Trimming keeps everything between two non-space characters. */
  lemma TrimKeepsInner(s: string, ws: char -> bool, i: int, j: int)
    requires 0 <= i <= j < |s| && !ws(s[i]) && !ws(s[j])
    ensures |Trim(s, ws)| >= j - i + 1
  {
    var l := TrimLeft(s, ws);
    var a := |s| - |l|;
    assert a <= i;
    assert l[j - a] == s[j];
    var r := TrimRight(l, ws);
    assert |r| > j - a;
  }

  /** A string that trimming changes has white space at one of its ends. */
  lemma TrimChangedHasSpace(s: string, ws: char -> bool)
    requires Trim(s, ws) != s
    ensures |s| > 0 && (ws(s[0]) || ws(s[|s| - 1]))
  {
    var l := TrimLeft(s, ws);
    if l != s {
      assert |l| < |s|;
    } else {
      assert TrimRight(s, ws) != s;
    }
  }

  /** Trimming twice is trimming once. */
  lemma TrimIdempotent(s: string, ws: char -> bool)
    ensures Trim(Trim(s, ws), ws) == Trim(s, ws)
  {
    var t := Trim(s, ws);
    TrimEmptyIff(s, ws);
    TrimLeftKeeps(t, ws);
    TrimRightKeeps(t, ws);
  }

  /** Text that does not start with white space is not trimmed on the left. */
  lemma TrimLeftKeeps(t: string, ws: char -> bool)
    requires |t| == 0 || !ws(t[0])
    ensures TrimLeft(t, ws) == t
  {
  }

  /** Text that does not end with white space is not trimmed on the right. */
  lemma TrimRightKeeps(t: string, ws: char -> bool)
    requires |t| == 0 || !ws(t[|t| - 1])
    ensures TrimRight(t, ws) == t
  {
  }

  // ---------------------------------------------------------------------------
  // Lengths

  /** A character outside the Basic Multilingual Plane takes two UTF-16 code units. */
  predicate IsAstral(c: char) {
    c as int >= 0x1_0000
  }

  /** JavaScript `s.length`: UTF-16 code units, where Python's `len(s)` and
      `|s|` count characters. */
  function JsLength(s: string): (n: nat)
    ensures n >= |s|
    ensures (forall k :: 0 <= k < |s| ==> !IsAstral(s[k])) ==> n == |s|
    decreases |s|
  {
    if |s| == 0 then 0
    else
      assert forall k :: 1 <= k < |s| ==> s[1..][k - 1] == s[k];
      (if IsAstral(s[0]) then 2 else 1) + JsLength(s[1..])
  }

  // ---------------------------------------------------------------------------
  // Case and substrings

  /** `toLowerCase()` / `lower()` restricted to ASCII letters. */
  function LowerChar(c: char): char {
    if 'A' <= c <= 'Z' then (c as int + 32) as char else c
  }

  function Lower(s: string): (r: string)
    ensures |r| == |s|
  {
    seq(|s|, k requires 0 <= k < |s| => LowerChar(s[k]))
  }

  /** Lower-casing twice is lower-casing once. */
  lemma LowerIdempotent(s: string)
    ensures Lower(Lower(s)) == Lower(s)
  {
    assert forall k :: 0 <= k < |s| ==> LowerChar(LowerChar(s[k])) == LowerChar(s[k]);
  }

  predicate StartsWith(s: string, prefix: string) {
    |prefix| <= |s| && s[..|prefix|] == prefix
  }

  /** `needle` occurs in `hay` at position `i`. */
  predicate OccursAt(hay: string, needle: string, i: int) {
    0 <= i && i + |needle| <= |hay| && hay[i..i + |needle|] == needle
  }

  /** JavaScript `hay.includes(needle)`. */
  predicate Includes(hay: string, needle: string) {
    exists i | 0 <= i <= |hay| - |needle| :: OccursAt(hay, needle, i)
  }

  // ---------------------------------------------------------------------------
  // Decimal numbers

  function DigitValue(c: char): int
    requires IsDigit(c)
  {
    c as int - '0' as int
  }

  /** The value of a string of decimal digits (leading zeros allowed). */
  function DigitsValue(s: string): (v: nat)
    requires AllDigits(s)
    decreases |s|
  {
    if |s| == 0 then 0 else DigitsValue(s[..|s| - 1]) * 10 + DigitValue(s[|s| - 1])
  }

  /** A digit string denotes 0 exactly when all its digits are '0'. */
  lemma {:induction false} DigitsValueZeroIff(s: string)
    requires AllDigits(s)
    ensures DigitsValue(s) == 0 <==> forall k :: 0 <= k < |s| ==> s[k] == '0'
    decreases |s|
  {
    if |s| > 0 {
      var init := s[..|s| - 1];
      assert AllDigits(init);
      DigitsValueZeroIff(init);
      if DigitsValue(s) == 0 {
        forall k | 0 <= k < |s| ensures s[k] == '0' {
          if k < |s| - 1 {
            assert s[k] == init[k];
          }
        }
      } else if DigitsValue(init) != 0 {
        var k :| 0 <= k < |init| && init[k] != '0';
        assert s[k] == init[k];
      } else {
        assert s[|s| - 1] != '0';
      }
    }
  }

  /** The longest prefix of `s` made of decimal digits. */
  function DigitPrefix(s: string): (p: string)
    ensures |p| <= |s| && p == s[..|p|] && AllDigits(p)
    ensures |p| < |s| ==> !IsDigit(s[|p|])
    decreases |s|
  {
    if |s| > 0 && IsDigit(s[0]) then [s[0]] + DigitPrefix(s[1..]) else []
  }

  /** The digit run of digits followed by a non-digit is those digits. */
  lemma {:induction false} DigitPrefixOf(w: string, rest: string)
    requires AllDigits(w) && (|rest| == 0 || !IsDigit(rest[0]))
    ensures DigitPrefix(w + rest) == w
    decreases |w|
  {
    if |w| > 0 {
      assert (w + rest)[1..] == w[1..] + rest;
      assert AllDigits(w[1..]) by {
        forall k | 0 <= k < |w[1..]| ensures IsDigit(w[1..][k]) {
          assert w[1..][k] == w[k + 1];
        }
      }
      DigitPrefixOf(w[1..], rest);
      assert [w[0]] + w[1..] == w;
    } else {
      assert w + rest == rest;
    }
  }

  function DigitChar(d: int): (c: char)
    requires 0 <= d < 10
    ensures IsDigit(c) && DigitValue(c) == d
  {
    ('0' as int + d) as char
  }

  /** The decimal numeral of `n` without leading zeros, as JavaScript's
      `String(n)` writes a safe integer. */
  function DecimalText(n: nat): (s: string)
    ensures |s| > 0 && AllDigits(s) && DigitsValue(s) == n
    ensures s[0] == '0' ==> n == 0
    decreases n
  {
    if n < 10 then [DigitChar(n)]
    else
      var p := DecimalText(n / 10);
      var s := p + [DigitChar(n % 10)];
      assert s[..|s| - 1] == p;
      s
  }

  // ---------------------------------------------------------------------------
  // Hexadecimal numbers

  /** An ASCII hexadecimal digit of either case. */
  predicate IsHexDigit(c: char) {
    IsDigit(c) || ('a' <= c <= 'f') || ('A' <= c <= 'F')
  }

  predicate AllHexDigits(s: string) {
    forall k :: 0 <= k < |s| ==> IsHexDigit(s[k])
  }

  function HexDigitValue(c: char): (v: int)
    requires IsHexDigit(c)
    ensures 0 <= v < 16
    ensures IsDigit(c) ==> v == DigitValue(c)
  {
    if IsDigit(c) then DigitValue(c)
    else if 'a' <= c <= 'f' then c as int - 'a' as int + 10
    else c as int - 'A' as int + 10
  }

  /** The value of a string of hexadecimal digits. */
  function HexValue(s: string): (v: nat)
    requires AllHexDigits(s)
    decreases |s|
  {
    if |s| == 0 then 0 else HexValue(s[..|s| - 1]) * 16 + HexDigitValue(s[|s| - 1])
  }

  /** The longest prefix of `s` made of hexadecimal digits. */
  function HexPrefix(s: string): (p: string)
    ensures |p| <= |s| && p == s[..|p|] && AllHexDigits(p)
    ensures |p| < |s| ==> !IsHexDigit(s[|p|])
    decreases |s|
  {
    if |s| > 0 && IsHexDigit(s[0]) then [s[0]] + HexPrefix(s[1..]) else []
  }

  // ---------------------------------------------------------------------------
  // JavaScript parseInt

  /** The text after one leading sign, if there is one. */
  function Unsigned(t: string): (u: string)
    ensures |t| > 0 && (t[0] == '-' || t[0] == '+') ==> u == t[1..]
    ensures |t| == 0 || (t[0] != '-' && t[0] != '+') ==> u == t
  {
    if |t| > 0 && (t[0] == '-' || t[0] == '+') then t[1..] else t
  }

  /** A `0x` or `0X` prefix, which switches `parseInt` without a radix to
      base 16. */
  predicate HexMarked(u: string) {
    |u| >= 2 && u[0] == '0' && (u[1] == 'x' || u[1] == 'X')
  }

  /** The magnitude read from the unsigned text: the longest run of
      hexadecimal digits after a `0x`/`0X` prefix, otherwise the longest
      run of decimal digits; `None` when that run is empty. */
  function Magnitude(u: string): (m: Option<nat>)
    ensures HexMarked(u) ==> m == if HexPrefix(u[2..]) == [] then None else Some(HexValue(HexPrefix(u[2..])))
    ensures !HexMarked(u) ==> m == if DigitPrefix(u) == [] then None else Some(DigitsValue(DigitPrefix(u)))
  {
    if HexMarked(u) then
      var h := HexPrefix(u[2..]);
      if h == [] then None else Some(HexValue(h))
    else
      var d := DigitPrefix(u);
      if d == [] then None else Some(DigitsValue(d))
  }

  /** What `parseInt` reads from text that starts with no white space: one
      sign, then the magnitude. */
  function ReadSigned(t: string): (r: Option<int>)
    ensures r.None? <==> Magnitude(Unsigned(t)).None?
    ensures r.Some? && |t| > 0 && t[0] == '-' ==> r.value == -(Magnitude(Unsigned(t)).value as int)
    ensures r.Some? && (|t| == 0 || t[0] != '-') ==> r.value == Magnitude(Unsigned(t)).value as int
  {
    var m := Magnitude(Unsigned(t));
    if m.None? then None
    else if |t| > 0 && t[0] == '-' then Some(-(m.value as int))
    else Some(m.value as int)
  }

  /** JavaScript `parseInt(s)` with no radix argument (section 19.2.5 of
      ECMAScript 2024): leading white space is skipped, one sign is read,
      then a `0x`/`0X` prefix selects base 16 and otherwise base 10, and the
      longest run of digits of that base is read; `None` is NaN. */
  function JsParseInt(s: string): Option<int> {
    ReadSigned(TrimLeft(s, IsJsSpace))
  }

  /** `parseInt` reads back the numeral `String(n)` writes, with or without
      a minus sign. */
  lemma ParseIntOfDecimal(n: nat)
    ensures JsParseInt(DecimalText(n)) == Some(n)
    ensures JsParseInt("-" + DecimalText(n)) == Some(-(n as int))
  {
    var s := DecimalText(n);
    UnsignedDigits(s);
    UnsignedDigits(("-" + s)[1..]);
    assert ("-" + s)[1..] == s;
    ParseIntOfDigits(s);
    ParseIntOfNegatedDigits("-" + s);
  }

  /** A digit string carries no sign and no `0x` prefix, and its magnitude
      is its value. */
  lemma UnsignedDigits(s: string)
    requires |s| > 0 && AllDigits(s)
    ensures Unsigned(s) == s && !HexMarked(s)
    ensures Magnitude(s) == Some(DigitsValue(s))
  {
    assert !HexMarked(s) by {
      if |s| >= 2 {
        assert IsDigit(s[1]);
      }
    }
    DigitPrefixOf(s, "");
    assert s + "" == s;
  }

  lemma ParseIntOfDigits(s: string)
    requires |s| > 0 && AllDigits(s)
    ensures JsParseInt(s) == Some(DigitsValue(s) as int)
  {
    assert !IsJsSpace(s[0]);
    assert TrimLeft(s, IsJsSpace) == s;
    UnsignedDigits(s);
  }

  lemma ParseIntOfNegatedDigits(m: string)
    requires |m| > 1 && m[0] == '-' && AllDigits(m[1..])
    ensures JsParseInt(m) == Some(-(DigitsValue(m[1..]) as int))
  {
    assert !IsJsSpace(m[0]);
    assert TrimLeft(m, IsJsSpace) == m;
    UnsignedDigits(m[1..]);
  }

  /** A string of hexadecimal digits is its own longest hexadecimal run. */
  lemma {:induction false} HexPrefixAll(h: string)
    requires AllHexDigits(h)
    ensures HexPrefix(h) == h
    decreases |h|
  {
    if |h| > 0 {
      assert AllHexDigits(h[1..]) by {
        forall k | 0 <= k < |h[1..]| ensures IsHexDigit(h[1..][k]) {
          assert h[1..][k] == h[k + 1];
        }
      }
      HexPrefixAll(h[1..]);
      assert [h[0]] + h[1..] == h;
    }
  }

  /** Text made of a `0x` or `0X` prefix and hexadecimal digits, with or
      without a minus sign in front, is read in base 16, and is NaN when no
      digit follows the prefix. */
  lemma ParseIntOfHex(u: string)
    requires HexMarked(u) && AllHexDigits(u[2..])
    ensures JsParseInt(u) == if u[2..] == [] then None else Some(HexValue(u[2..]) as int)
    ensures JsParseInt("-" + u) == if u[2..] == [] then None else Some(-(HexValue(u[2..]) as int))
  {
    HexMagnitude(u);
    ParseIntOfUnsigned(u);
    var m := "-" + u;
    assert m[1..] == u;
    ParseIntOfNegated(m);
  }

  /** After the prefix, the hexadecimal digits are the magnitude. */
  lemma HexMagnitude(u: string)
    requires HexMarked(u) && AllHexDigits(u[2..])
    ensures Magnitude(u) == if u[2..] == [] then None else Some(HexValue(u[2..]))
  {
    HexPrefixAll(u[2..]);
  }

  /** Text with no leading white space or sign is read as its magnitude. */
  lemma ParseIntOfUnsigned(u: string)
    requires |u| > 0 && !IsJsSpace(u[0]) && u[0] != '-' && u[0] != '+'
    ensures JsParseInt(u) == if Magnitude(u).None? then None else Some(Magnitude(u).value as int)
  {
    TrimLeftKeeps(u, IsJsSpace);
  }

  /** Text with a minus sign in front of something unsigned is read as the
      negated magnitude of what follows the sign. */
  lemma ParseIntOfNegated(m: string)
    requires |m| > 1 && m[0] == '-' && m[1] != '-' && m[1] != '+'
    ensures JsParseInt(m) == if Magnitude(m[1..]).None? then None else Some(-(Magnitude(m[1..]).value as int))
  {
    TrimLeftKeeps(m, IsJsSpace);
    assert Unsigned(m) == m[1..];
  }


  /** Trimming the left skips a prefix of white space entirely. */
  lemma {:induction false} TrimLeftSkips(pad: string, s: string, ws: char -> bool)
    requires forall k :: 0 <= k < |pad| ==> ws(pad[k])
    ensures TrimLeft(pad + s, ws) == TrimLeft(s, ws)
    decreases |pad|
  {
    if |pad| > 0 {
      assert (pad + s)[1..] == pad[1..] + s;
      TrimLeftSkips(pad[1..], s, ws);
    } else {
      assert pad + s == s;
    }
  }

  /** Trimming the right drops a suffix of white space and nothing before it. */
  lemma {:induction false} TrimRightSkips(p: string, w: string, ws: char -> bool)
    requires |p| == 0 || !ws(p[|p| - 1])
    requires forall k :: 0 <= k < |w| ==> ws(w[k])
    ensures TrimRight(p + w, ws) == p
    decreases |w|
  {
    if |w| > 0 {
      var s := p + w;
      assert s[|s| - 1] == w[|w| - 1];
      assert s[..|s| - 1] == p + w[..|w| - 1];
      TrimRightSkips(p, w[..|w| - 1], ws);
    } else {
      assert p + w == p;
      TrimRightKeeps(p, ws);
    }
  }

  /** Leading white space never changes what `parseInt` reads. */
  lemma ParseIntSkipsSpace(pad: string, s: string)
    requires forall k :: 0 <= k < |pad| ==> IsJsSpace(pad[k])
    ensures JsParseInt(pad + s) == JsParseInt(s)
  {
    TrimLeftSkips(pad, s, IsJsSpace);
  }

  /** Text that does not start with white space is read as it stands. */
  lemma ParseIntUntrimmed(s: string)
    requires |s| > 0 && !IsJsSpace(s[0])
    ensures JsParseInt(s) == ReadSigned(s)
  {
  }

  /** What base 10 alone would get wrong: `0x5` is 5, `-0x1A` is -26 and a
      bare `0x` is NaN, where a decimal reading gives 0, -0 and 0. */
  lemma ParseIntHexExamples()
    ensures JsParseInt("0x5") == Some(5)
    ensures JsParseInt("-0x1A") == Some(-26)
    ensures JsParseInt("0x") == None
  {
    var a, b, c := "0x5", "-0x1A", "0x";
    ParseIntUntrimmed(a);
    ParseIntUntrimmed(b);
    ParseIntUntrimmed(c);
    assert Unsigned(a) == a && HexMarked(a) && a[2..] == "5";
    assert HexPrefix("5") == "5";
    assert Unsigned(b) == "0x1A" && HexMarked(Unsigned(b)) && Unsigned(b)[2..] == "1A";
    assert HexPrefix("1A") == "1A";
    assert HexValue("1A") == 26 by {
      assert "1A"[..1] == "1";
    }
    assert Unsigned(c) == c && HexMarked(c) && c[2..] == [];
  }
}
