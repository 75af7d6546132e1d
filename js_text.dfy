/**
 * The few JavaScript string primitives the planner relies on, written out so that
 * their edge cases are part of the model: `String.prototype.trim`, `String(n)` for an
 * integer, the global `parseInt` without a radix, `padStart` and the first piece of
 * `split`. The whitespace set and the parsing steps follow the ECMAScript language
 * specification (ECMA-262, sections 12.2 "White Space", 12.3 "Line Terminators",
 * 22.1.3.32 "String.prototype.trim" and 19.2.5 "parseInt").
 */
module JsText {
  import opened Wrappers

  // ---------------------------------------------------------------------------
  // Whitespace and trim
  // ---------------------------------------------------------------------------

  /** ECMAScript WhiteSpace or LineTerminator: exactly what `trim` and `parseInt` skip. */
  predicate IsJsSpace(c: char) {
    || c == '\t' || c == '\U{000B}' || c == '\U{000C}' || c == ' ' || c == '\U{00A0}'
    || c == '\U{FEFF}' || c == '\U{1680}' || ('\U{2000}' <= c <= '\U{200A}')
    || c == '\U{202F}' || c == '\U{205F}' || c == '\U{3000}'
    || c == '\n' || c == '\r' || c == '\U{2028}' || c == '\U{2029}'
  }

  /** Drops leading whitespace. */
  function TrimStart(s: string): string {
    if s == [] || !IsJsSpace(s[0]) then s else TrimStart(s[1..])
  }

  /** `TrimStart` keeps the longest suffix that starts with a non-space: only spaces are dropped. */
  lemma {:induction false} TrimStartSpec(s: string)
    ensures var r := TrimStart(s);
      && |r| <= |s| && r == s[|s| - |r|..]
      && (forall i :: 0 <= i < |s| - |r| ==> IsJsSpace(s[i]))
      && (r == [] || !IsJsSpace(r[0]))
  {
    if s != [] && IsJsSpace(s[0]) {
      var t := s[1..];
      var r := TrimStart(t);
      TrimStartSpec(t);
      assert r == t[|t| - |r|..] && r == s[|s| - |r|..];
      assert forall i :: 1 <= i < |s| ==> s[i] == t[i - 1];
    }
  }

  /** Drops trailing whitespace. */
  function TrimEnd(s: string): string {
    if s == [] || !IsJsSpace(s[|s| - 1]) then s else TrimEnd(s[..|s| - 1])
  }

  /** `TrimEnd` keeps the longest prefix that ends with a non-space: only spaces are dropped. */
  lemma {:induction false} TrimEndSpec(s: string)
    ensures var r := TrimEnd(s);
      && |r| <= |s| && r == s[..|r|]
      && (forall i :: |r| <= i < |s| ==> IsJsSpace(s[i]))
      && (r == [] || !IsJsSpace(r[|r| - 1]))
  {
    if s != [] && IsJsSpace(s[|s| - 1]) {
      TrimEndSpec(s[..|s| - 1]);
    }
  }

  /** `s.trim()`. */
  function Trim(s: string): string {
    TrimEnd(TrimStart(s))
  }

  /** A trimmed value is empty exactly when the input is all whitespace (JS `!s.trim()`). */
  lemma TrimEmptyIff(s: string)
    ensures Trim(s) == [] <==> forall i :: 0 <= i < |s| ==> IsJsSpace(s[i])
  {
    var t := TrimStart(s);
    TrimStartSpec(s);
    TrimEndSpec(t);
    if Trim(s) != [] {
      var c := Trim(s)[0];
      assert c == t[0];
      assert s[|s| - |t|] == c;
    }
  }

  /** Trimming is idempotent, and a trimmed non-empty string neither starts nor ends with a space. */
  lemma TrimIdempotent(s: string)
    ensures Trim(Trim(s)) == Trim(s)
    ensures Trim(s) != [] ==> !IsJsSpace(Trim(s)[0]) && !IsJsSpace(Trim(s)[|Trim(s)| - 1])
  {
    var t := TrimStart(s);
    var r := TrimEnd(t);
    TrimStartSpec(s);
    TrimEndSpec(t);
    TrimStartSpec(r);
    TrimEndSpec(r);
    if r != [] {
      assert r[0] == t[0];
    }
  }

  /** A string that neither starts nor ends with whitespace is its own trim. */
  lemma TrimOfUnpadded(s: string)
    requires s == [] || (!IsJsSpace(s[0]) && !IsJsSpace(s[|s| - 1]))
    ensures Trim(s) == s
  {
  }

  /** Trimming never lengthens a string and keeps a contiguous piece of it. */
  lemma TrimIsSlice(s: string)
    ensures exists i, j :: 0 <= i <= j <= |s| && Trim(s) == s[i..j]
  {
    var t := TrimStart(s);
    var r := TrimEnd(t);
    TrimStartSpec(s);
    TrimEndSpec(t);
    var i := |s| - |t|;
    assert r == t[..|r|] == s[i..i + |r|];
  }

  // ---------------------------------------------------------------------------
  // Decimal rendering of integers: `String(n)`
  // ---------------------------------------------------------------------------

  predicate IsDigit(c: char) { '0' <= c <= '9' }

  function DigitChar(d: nat): (c: char)
    requires d < 10
    ensures IsDigit(c) && DigitValue(c) == d
  {
    ['0', '1', '2', '3', '4', '5', '6', '7', '8', '9'][d]
  }

  function DigitValue(c: char): (d: nat)
    requires IsDigit(c)
    ensures d < 10
  {
    (c as int - '0' as int) as nat
  }

  predicate AllDigits(s: string) {
    forall i :: 0 <= i < |s| ==> IsDigit(s[i])
  }

  /** The value of a string of decimal digits, read from the left. */
  function DecimalValue(s: string): nat
    requires AllDigits(s)
  {
    if s == [] then 0 else 10 * DecimalValue(s[..|s| - 1]) + DigitValue(s[|s| - 1])
  }

  /** The shortest decimal numeral of `n`: digits only, no leading zero, denoting `n`. */
  function NatToString(n: nat): (r: string)
    ensures |r| >= 1 && AllDigits(r)
    ensures r[0] == '0' ==> n == 0 && r == "0"
    ensures DecimalValue(r) == n
  {
    if n < 10 then [DigitChar(n)]
    else
      var p := NatToString(n / 10);
      assert (p + [DigitChar(n % 10)])[..|p|] == p;
      p + [DigitChar(n % 10)]
  }

  /** `String(n)` for an integer `n` (a leading '-' for negatives). */
  function IntToString(n: int): (r: string)
    ensures |r| >= 1
    ensures r[0] == '-' <==> n < 0
    ensures r[0] != '-' ==> AllDigits(r)
  {
    if n < 0 then "-" + NatToString(-n) else NatToString(n)
  }

  // ---------------------------------------------------------------------------
  // `parseInt(s)` with no radix
  // ---------------------------------------------------------------------------

  predicate IsHexDigit(c: char) {
    IsDigit(c) || ('a' <= c <= 'f') || ('A' <= c <= 'F')
  }

  function HexDigitValue(c: char): (d: nat)
    requires IsHexDigit(c)
    ensures d < 16
  {
    if IsDigit(c) then DigitValue(c)
    else if 'a' <= c <= 'f' then (c as int - 'a' as int + 10) as nat
    else (c as int - 'A' as int + 10) as nat
  }

  function HexValue(s: string): nat
    requires forall i :: 0 <= i < |s| ==> IsHexDigit(s[i])
  {
    if s == [] then 0 else 16 * HexValue(s[..|s| - 1]) + HexDigitValue(s[|s| - 1])
  }

  /** The longest prefix of decimal digits. */
  function DecimalPrefix(s: string): (r: string)
    ensures r <= s && AllDigits(r)
    ensures |r| < |s| ==> !IsDigit(s[|r|])
  {
    if s == [] || !IsDigit(s[0]) then [] else [s[0]] + DecimalPrefix(s[1..])
  }

  /** The longest prefix of hexadecimal digits. */
  function HexPrefix(s: string): (r: string)
    ensures r <= s && forall i :: 0 <= i < |r| ==> IsHexDigit(r[i])
    ensures |r| < |s| ==> !IsHexDigit(s[|r|])
  {
    if s == [] || !IsHexDigit(s[0]) then [] else [s[0]] + HexPrefix(s[1..])
  }

  /**
   * `parseInt(s)`: skip leading whitespace, take an optional sign, switch to radix 16
   * after a "0x"/"0X" prefix, then read the longest run of digits; `None` stands for NaN.
   */
  function ParseInt(s: string): Option<int> {
    var t := TrimStart(s);
    var negative := t != [] && t[0] == '-';
    var u := if t != [] && (t[0] == '-' || t[0] == '+') then t[1..] else t;
    var sign := if negative then -1 else 1;
    if |u| >= 2 && u[0] == '0' && (u[1] == 'x' || u[1] == 'X') then
      var h := HexPrefix(u[2..]);
      if h == [] then None else Some(sign * HexValue(h))
    else
      var d := DecimalPrefix(u);
      if d == [] then None else Some(sign * DecimalValue(d))
  }

  /** The digit run of a numeral followed by a non-digit is the numeral. */
  lemma {:induction false} DecimalPrefixStops(s: string, rest: string)
    requires AllDigits(s)
    requires rest == [] || !IsDigit(rest[0])
    ensures DecimalPrefix(s + rest) == s
  {
    if s == [] {
      assert s + rest == rest;
    } else {
      assert (s + rest)[0] == s[0] && (s + rest)[1..] == s[1..] + rest;
      DecimalPrefixStops(s[1..], rest);
    }
  }

  /**
   * `parseInt` reads a numeral back from the front of a text, whatever follows it, as
   * long as the next character neither continues the numeral nor turns "0" into a
   * hexadecimal prefix.
   */
  lemma ParseIntOfNumeral(n: nat, rest: string)
    requires rest == [] || (!IsDigit(rest[0]) && rest[0] != 'x' && rest[0] != 'X')
    ensures ParseInt(NatToString(n) + rest) == Some(n)
  {
    var digits := NatToString(n);
    var s := digits + rest;
    assert s[0] == digits[0];
    if |s| >= 2 && s[0] == '0' {
      assert digits == "0" && s[1] == rest[0];
    }
    ParseIntOfDigits(s);
    DecimalPrefixStops(digits, rest);
  }

  /** A text that starts with a digit, and not with "0x" or "0X", is read as its leading digit run. */
  lemma ParseIntOfDigits(s: string)
    requires s != [] && IsDigit(s[0])
    requires !(|s| >= 2 && s[0] == '0' && (s[1] == 'x' || s[1] == 'X'))
    ensures ParseInt(s) == Some(DecimalValue(DecimalPrefix(s)))
  {
    assert !IsJsSpace(s[0]);
    assert TrimStart(s) == s;
    assert s[0] != '-' && s[0] != '+';
    var d := DecimalPrefix(s);
    assert d != [] by {
      assert d == [s[0]] + DecimalPrefix(s[1..]);
    }
  }

  /** `parseInt(String(n)) === n` for every integer: the round trip the calendar's id lookups rely on. */
  lemma ParseIntOfIntToString(n: int)
    ensures ParseInt(IntToString(n)) == Some(n)
  {
    var s := IntToString(n);
    var digits := if n < 0 then NatToString(-n) else NatToString(n);
    assert TrimStart(s) == s;
    if n < 0 {
      assert s[1..] == digits;
      assert digits + [] == digits;
      DecimalPrefixStops(digits, []);
    } else {
      ParseIntOfNumeral(n, []);
      assert digits + [] == digits;
    }
  }

  /** Distinct integers have distinct decimal renderings (a consequence of the round trip). */
  lemma IntToStringInjective(m: int, n: int)
    requires IntToString(m) == IntToString(n)
    ensures m == n
  {
    ParseIntOfIntToString(m);
    ParseIntOfIntToString(n);
  }

  // ---------------------------------------------------------------------------
  // `s.length`: UTF-16 code units
  // ---------------------------------------------------------------------------

  /** `s.length`: a character outside the Basic Multilingual Plane counts as a surrogate pair. */
  function Utf16Length(s: string): nat {
    if s == [] then 0 else (if s[0] as int > 0xFFFF then 2 else 1) + Utf16Length(s[1..])
  }

  lemma {:induction false} Utf16LengthConcat(a: string, b: string)
    ensures Utf16Length(a + b) == Utf16Length(a) + Utf16Length(b)
  {
    if a == [] {
      assert a + b == b;
    } else {
      assert (a + b)[0] == a[0] && (a + b)[1..] == a[1..] + b;
      Utf16LengthConcat(a[1..], b);
    }
  }

  /** The code-unit length is at least the character count, and equal to it for BMP-only text. */
  lemma {:induction false} Utf16LengthBounds(s: string)
    ensures |s| <= Utf16Length(s) <= 2 * |s|
    ensures (forall i :: 0 <= i < |s| ==> s[i] as int <= 0xFFFF) ==> Utf16Length(s) == |s|
  {
    if s != [] {
      Utf16LengthBounds(s[1..]);
    }
  }

  // ---------------------------------------------------------------------------
  // padStart, split, concatenation
  // ---------------------------------------------------------------------------

  function Repeat(c: char, n: nat): (r: string)
    ensures |r| == n && forall i :: 0 <= i < n ==> r[i] == c
  {
    if n == 0 then [] else [c] + Repeat(c, n - 1)
  }

  /** `s.padStart(width, c)` with a one-character filler. */
  function PadStart(s: string, width: nat, c: char): (r: string)
    ensures |s| >= width ==> r == s
    ensures |s| < width ==> |r| == width && r[width - |s|..] == s
                            && forall i :: 0 <= i < width - |s| ==> r[i] == c
  {
    if |s| >= width then s else Repeat(c, width - |s|) + s
  }

  /** `s.split(sep)[0]`: everything before the first `sep`, or all of `s` when there is none. */
  function BeforeFirst(s: string, sep: char): (r: string)
    ensures r <= s && sep !in r
    ensures |r| < |s| ==> s[|r|] == sep
  {
    if s == [] || s[0] == sep then [] else [s[0]] + BeforeFirst(s[1..], sep)
  }

  /** The in-order concatenation of text pieces, accumulated from the left as `acc += piece`. */
  function Concat(pieces: seq<string>): string {
    if pieces == [] then "" else Concat(pieces[..|pieces| - 1]) + pieces[|pieces| - 1]
  }

  lemma ConcatAppend(pieces: seq<string>, p: string)
    ensures Concat(pieces + [p]) == Concat(pieces) + p
  {
    assert (pieces + [p])[..|pieces|] == pieces;
  }
}
