/**
 * The few .NET string operations the core relies on, stated over `seq<char>`.
 * A .NET `string` is a reference and may be null, so a string-typed field or
 * JSON value of the source is a `Text`.
 */
module NetStrings {
  import opened Wrappers

  /** A .NET string reference: `Null` or a character sequence. */
  datatype Text = Null | Str(s: string)

  /** `string.IsNullOrEmpty`. */
  predicate IsNullOrEmpty(t: Text) {
    t == Null || t.s == ""
  }

  /** `char.IsWhiteSpace`: the Unicode separators plus the C0 and C1 control white space. */
  predicate IsWhiteSpace(c: char) {
    c == ' ' || '\t' <= c <= '\r' || c == '\U{0085}' || c == '\U{00A0}' || c == '\U{1680}'
    || '\U{2000}' <= c <= '\U{200A}' || c == '\U{2028}' || c == '\U{2029}' || c == '\U{202F}'
    || c == '\U{205F}' || c == '\U{3000}'
  }

  /** `string.IsNullOrWhiteSpace`. */
  predicate IsNullOrWhiteSpace(t: Text) {
    t == Null || forall i :: 0 <= i < |t.s| ==> IsWhiteSpace(t.s[i])
  }

  /** Lower-casing of one character (ASCII letters; other characters are kept). */
  function ToLowerChar(c: char): (r: char)
    ensures 'A' <= c <= 'Z' ==> r as int == c as int + 32
    ensures !('A' <= c <= 'Z') ==> r == c
    ensures !('A' <= r <= 'Z')
  {
    if 'A' <= c <= 'Z' then (c as int + 32) as char else c
  }

  /** `string.ToLower()`, character by character. */
  function ToLower(s: string): (r: string) {
    seq(|s|, i requires 0 <= i < |s| => ToLowerChar(s[i]))
  }

  /** `s.Replace(" ", "")`: every space character removed. */
  function RemoveSpaces(s: string): (r: string)
    ensures |r| <= |s|
    ensures forall i :: 0 <= i < |r| ==> r[i] != ' '
    ensures (forall i :: 0 <= i < |s| ==> s[i] != ' ') ==> r == s
  {
    if s == [] then []
    else if s[0] == ' ' then RemoveSpaces(s[1..])
    else [s[0]] + RemoveSpaces(s[1..])
  }

  /** `s.LastIndexOf(c)`: the last position of `c`, or -1. */
  function LastIndexOf(s: string, c: char): (r: int)
    ensures -1 <= r < |s|
    ensures r >= 0 ==> s[r] == c
    ensures forall i :: r < i < |s| ==> s[i] != c
  {
    if s == [] then -1
    else if s[|s| - 1] == c then |s| - 1
    else LastIndexOf(s[..|s| - 1], c)
  }

  /** The algorithm of `string.Trim`: every leading and trailing character that `strip` selects removed. */
  function TrimBy(s: string, strip: char -> bool): (r: string)
    ensures |r| <= |s|
    ensures r != [] ==> !strip(r[0]) && !strip(r[|r| - 1])
  {
    if s == [] then []
    else if strip(s[0]) then TrimBy(s[1..], strip)
    else if strip(s[|s| - 1]) then TrimBy(s[..|s| - 1], strip)
    else s
  }

  /** `s.Trim(c)`: every leading and trailing `c` removed. */
  function TrimChar(s: string, c: char): (r: string)
    ensures |r| <= |s|
    ensures r != [] ==> r[0] != c && r[|r| - 1] != c
  {
    TrimBy(s, x => x == c)
  }

  /** `s.Trim()`: leading and trailing white space removed. */
  function Trim(s: string): (r: string)
    ensures |r| <= |s|
    ensures r != [] ==> !IsWhiteSpace(r[0]) && !IsWhiteSpace(r[|r| - 1])
  {
    TrimBy(s, IsWhiteSpace)
  }

  /** The bounds of the slice `TrimBy` keeps: only selected characters lie outside them. */
  lemma {:induction false} TrimByBounds(s: string, strip: char -> bool) returns (a: nat, b: nat)
    decreases |s|, 1
    ensures a <= b <= |s| && TrimBy(s, strip) == s[a..b]
    ensures forall i :: 0 <= i < a ==> strip(s[i])
    ensures forall i :: b <= i < |s| ==> strip(s[i])
  {
    if s == [] {
      a, b := 0, 0;
    } else if strip(s[0]) {
      a, b := TrimByFront(s, strip);
    } else if strip(s[|s| - 1]) {
      a, b := TrimByBack(s, strip);
    } else {
      a, b := 0, |s|;
    }
  }

  /** `TrimByBounds` when the first character is removed. */
  lemma {:induction false} TrimByFront(s: string, strip: char -> bool) returns (a: nat, b: nat)
    requires s != [] && strip(s[0])
    decreases |s|, 0
    ensures a <= b <= |s| && TrimBy(s, strip) == s[a..b]
    ensures forall i :: 0 <= i < a ==> strip(s[i])
    ensures forall i :: b <= i < |s| ==> strip(s[i])
  {
    var t := s[1..];
    var a', b' := TrimByBounds(t, strip);
    a, b := a' + 1, b' + 1;
    assert t[a'..b'] == s[a..b];
    forall i | 0 < i < |s| ensures s[i] == t[i - 1] { }
  }

  /** `TrimByBounds` when the first character stays and the last is removed. */
  lemma {:induction false} TrimByBack(s: string, strip: char -> bool) returns (a: nat, b: nat)
    requires s != [] && !strip(s[0]) && strip(s[|s| - 1])
    decreases |s|, 0
    ensures a <= b <= |s| && TrimBy(s, strip) == s[a..b]
    ensures forall i :: 0 <= i < a ==> strip(s[i])
    ensures forall i :: b <= i < |s| ==> strip(s[i])
  {
    var t := s[..|s| - 1];
    a, b := TrimByBounds(t, strip);
    assert t[a..b] == s[a..b];
    forall i | 0 <= i < |t| ensures s[i] == t[i] { }
  }

  /** `Trim(c)` removes only ends: the result is a slice of `s` with nothing but `c` cut on either side. */
  lemma TrimCharIsSlice(s: string, c: char)
    ensures exists a, b :: 0 <= a <= b <= |s| && TrimChar(s, c) == s[a..b]
                           && (forall i :: 0 <= i < a ==> s[i] == c)
                           && (forall i :: b <= i < |s| ==> s[i] == c)
  {
    var a, b := TrimByBounds(s, x => x == c);
  }

  /** `Trim()` removes only ends: the result is a slice of `s` with nothing but white space cut on either side. */
  lemma TrimIsSlice(s: string)
    ensures exists a, b :: 0 <= a <= b <= |s| && Trim(s) == s[a..b]
                           && (forall i :: 0 <= i < a ==> IsWhiteSpace(s[i]))
                           && (forall i :: b <= i < |s| ==> IsWhiteSpace(s[i]))
  {
    var a, b := TrimByBounds(s, IsWhiteSpace);
  }

  /** `s.Contains(sub)`, ordinal. */
  predicate Contains(s: string, sub: string)
    decreases |s|
  {
    (|sub| <= |s| && s[..|sub|] == sub) || (s != [] && Contains(s[1..], sub))
  }

  // ---------------------------------------------------------------------
  // int.Parse with the default NumberStyles.Integer: optional white space
  // (U+0009..U+000D and U+0020) on both sides, an optional sign, decimal
  // digits, and a value that fits in a 32-bit signed integer.

  const IntMin: int := -0x8000_0000
  const IntMax: int := 0x7FFF_FFFF

  predicate IsDigit(c: char) { '0' <= c <= '9' }

  predicate IsNumberWhite(c: char) { c == ' ' || '\t' <= c <= '\r' }

  function DigitValue(c: char): (d: nat)
    requires IsDigit(c)
    ensures d < 10
  {
    c as int - '0' as int
  }

  function DigitChar(d: nat): (c: char)
    requires d < 10
    ensures IsDigit(c) && DigitValue(c) == d
  {
    ('0' as int + d) as char
  }

  predicate AllDigits(s: string) {
    forall i :: 0 <= i < |s| ==> IsDigit(s[i])
  }

  /** The value of a run of decimal digits, most significant first. */
  function DigitsValue(s: string): nat
    requires AllDigits(s)
  {
    if s == [] then 0 else DigitsValue(s[..|s| - 1]) * 10 + DigitValue(s[|s| - 1])
  }

  /** `n.ToString()` for a non-negative integer. */
  function NatToString(n: nat): (r: string)
    ensures r != [] && AllDigits(r)
  {
    if n < 10 then [DigitChar(n)] else NatToString(n / 10) + [DigitChar(n % 10)]
  }

  function TrimNumberWhite(s: string): string {
    if s == [] then []
    else if IsNumberWhite(s[0]) then TrimNumberWhite(s[1..])
    else if IsNumberWhite(s[|s| - 1]) then TrimNumberWhite(s[..|s| - 1])
    else s
  }

  /** `int.Parse(s)`; `None` where the source throws a FormatException or an OverflowException. */
  function ParseInt(s: string): (r: Option<int>)
    ensures r.Some? ==> IntMin <= r.value <= IntMax
  {
    var t := TrimNumberWhite(s);
    var negative := t != [] && t[0] == '-';
    var digits := if t != [] && (t[0] == '-' || t[0] == '+') then t[1..] else t;
    if digits == [] || !AllDigits(digits) then None
    else
      var magnitude: int := DigitsValue(digits);
      var v := if negative then 0 - magnitude else magnitude;
      if IntMin <= v <= IntMax then Some(v) else None
  }

  lemma {:induction false} DigitsOfNatToString(n: nat)
    ensures DigitsValue(NatToString(n)) == n
  {
    if n >= 10 {
      DigitsOfNatToString(n / 10);
      var s := NatToString(n / 10) + [DigitChar(n % 10)];
      assert s[..|s| - 1] == NatToString(n / 10);
    }
  }

  /** Printing a 32-bit value in decimal and parsing it back gives the value. */
  lemma ParseIntOfNatToString(n: nat)
    requires n <= IntMax
    ensures ParseInt(NatToString(n)) == Some(n)
  {
    var s := NatToString(n);
    DigitsOfNatToString(n);
    assert !IsNumberWhite(s[0]) && !IsNumberWhite(s[|s| - 1]);
    assert TrimNumberWhite(s) == s;
  }
}
