/**
  Text helpers standing in for the .NET library calls the core relies on:
  integer formatting and parsing (NumberStyles.Integer: surrounding white space,
  an optional sign, decimal digits), String.Split, String.PadLeft, TrimEnd,
  ASCII upper-casing and literal substring search.
*/
module Text {
  import opened Base

  const Int32Min: int := -0x8000_0000
  const Int32Max: int := 0x7FFF_FFFF
  const Int64Min: int := -0x8000_0000_0000_0000
  const Int64Max: int := 0x7FFF_FFFF_FFFF_FFFF

  predicate IsDigit(c: char) { '0' <= c <= '9' }

  /** char.IsWhiteSpace restricted to ASCII: U+0009..U+000D and the space. */
  predicate IsWhiteSpace(c: char) { c == ' ' || '\t' <= c <= '\r' }

  predicate AllDigits(s: string) { forall i :: 0 <= i < |s| ==> IsDigit(s[i]) }

  function DigitValue(c: char): nat
    requires IsDigit(c)
  {
    c as int - '0' as int
  }

  function DigitChar(d: nat): (c: char)
    requires d < 10
    ensures IsDigit(c) && DigitValue(c) == d
  {
    ('0' as int + d) as char
  }

  /** The number a string of decimal digits denotes (most significant first). */
  function DigitsValue(s: string): nat
    requires AllDigits(s)
    decreases |s|
  {
    if s == [] then 0 else DigitsValue(s[..|s| - 1]) * 10 + DigitValue(s[|s| - 1])
  }

  /** Int32/Int64.ToString() of a non-negative value: shortest decimal form. */
  function NatToString(n: nat): (s: string)
    ensures |s| > 0 && AllDigits(s)
    ensures n > 0 ==> s[0] != '0'
    decreases n
  {
    if n < 10 then [DigitChar(n)] else NatToString(n / 10) + [DigitChar(n % 10)]
  }

  /** Int32.ToString(): a leading '-' for negative values. */
  function IntToString(i: int): (s: string)
    ensures |s| > 0 && IsDigit(s[|s| - 1])
    ensures forall k :: 0 <= k < |s| ==> IsDigit(s[k]) || (k == 0 && s[k] == '-')
  {
    if i < 0 then "-" + NatToString(-i) else NatToString(i)
  }

  lemma {:induction false} DigitsValueOfNatToString(n: nat)
    ensures DigitsValue(NatToString(n)) == n
    decreases n
  {
    if n >= 10 {
      var s := NatToString(n);
      assert s[..|s| - 1] == NatToString(n / 10);
      DigitsValueOfNatToString(n / 10);
    }
  }

  /** String.TrimEnd(): drops trailing white space. */
  function TrimEnd(s: string): (r: string)
    ensures |r| <= |s| && r == s[..|r|]
    ensures r == [] || !IsWhiteSpace(r[|r| - 1])
    ensures forall k :: |r| <= k < |s| ==> IsWhiteSpace(s[k])
    decreases |s|
  {
    if s == [] || !IsWhiteSpace(s[|s| - 1]) then s else TrimEnd(s[..|s| - 1])
  }

  /** Drops leading white space. */
  function TrimStart(s: string): (r: string)
    ensures |r| <= |s| && r == s[|s| - |r|..]
    ensures r == [] || !IsWhiteSpace(r[0])
    ensures forall k :: 0 <= k < |s| - |r| ==> IsWhiteSpace(s[k])
    decreases |s|
  {
    if s == [] || !IsWhiteSpace(s[0]) then s else TrimStart(s[1..])
  }

  function Trim(s: string): string { TrimStart(TrimEnd(s)) }

  lemma TrimUnchanged(s: string)
    requires s == [] || (!IsWhiteSpace(s[0]) && !IsWhiteSpace(s[|s| - 1]))
    ensures Trim(s) == s
  {
  }

  /**
    Integer parsing with NumberStyles.Integer in the invariant culture:
    white space around, an optional '+' or '-', at least one digit, and the
    value within [lo, hi].
  */
  function TryParseInteger(s: string, lo: int, hi: int): (r: Option<int>)
    ensures r.Some? ==> lo <= r.value <= hi
  {
    var t := Trim(s);
    var signed := |t| > 0 && (t[0] == '-' || t[0] == '+');
    var digits := if signed then t[1..] else t;
    if |digits| == 0 || !AllDigits(digits) then None
    else
      var v: int := if signed && t[0] == '-' then 0 - DigitsValue(digits) as int else DigitsValue(digits);
      if lo <= v <= hi then Some(v) else None
  }

  /** int.TryParse: the value when the text is a 32-bit integer. */
  function TryParseInt32(s: string): Option<int>
  {
    TryParseInteger(s, Int32Min, Int32Max)
  }

  /** Int32.Parse: FormatException on malformed text, OverflowException out of range. */
  function ParseInt32(s: string): (r: Result<int>)
    ensures r.Ok? <==> TryParseInteger(s, Int32Min, Int32Max).Some?
    ensures r.Ok? ==> r.value == TryParseInteger(s, Int32Min, Int32Max).value
  {
    match TryParseInteger(s, Int32Min, Int32Max)
    case Some(v) => Ok(v)
    case None =>
      if ParsesUnbounded(s) then Err(Overflow)
      else Err(Format)
  }

  /** The text has integer syntax, whatever its magnitude. */
  predicate ParsesUnbounded(s: string)
  {
    var t := Trim(s);
    var signed := |t| > 0 && (t[0] == '-' || t[0] == '+');
    var digits := if signed then t[1..] else t;
    |digits| > 0 && AllDigits(digits)
  }

  /** Formatting an integer and parsing it back gives the integer again. */
  lemma ParseIntToString(i: int, lo: int, hi: int)
    requires lo <= i <= hi
    ensures TryParseInteger(IntToString(i), lo, hi) == Some(i)
  {
    var s := IntToString(i);
    TrimUnchanged(s);
    if i < 0 {
      assert s[1..] == NatToString(-i);
      DigitsValueOfNatToString(-i);
    } else {
      DigitsValueOfNatToString(i);
    }
  }

  /** int.Parse reads back the text of every 32-bit integer. */
  lemma ParseInt32Formatted(i: int)
    requires Int32Min <= i <= Int32Max
    ensures ParseInt32(IntToString(i)) == Ok(i)
  {
    ParseIntToString(i, Int32Min, Int32Max);
  }

  /** The text of an integer outside 32 bits raises OverflowException, not FormatException. */
  lemma ParseInt32Overflow(i: int)
    requires !(Int32Min <= i <= Int32Max)
    ensures ParseInt32(IntToString(i)) == Err(Overflow)
  {
    ParseIntToString(i, i, i);
  }

  /** Trimming only removes characters. */
  lemma TrimKeepsChars(s: string)
    ensures forall c :: c in Trim(s) ==> c in s
  {
    var e := TrimEnd(s);
    assert forall c :: c in TrimStart(e) ==> c in e;
    assert forall c :: c in e ==> c in s;
  }

  /** Text without a single digit has no integer syntax, so it raises FormatException. */
  lemma ParseInt32NoDigits(s: string)
    requires forall k :: 0 <= k < |s| ==> !IsDigit(s[k])
    ensures !ParsesUnbounded(s)
    ensures ParseInt32(s) == Err(Format)
  {
    TrimKeepsChars(s);
    var t := Trim(s);
    var signed := |t| > 0 && (t[0] == '-' || t[0] == '+');
    var digits := if signed then t[1..] else t;
    if |digits| > 0 {
      var c := digits[0];
      assert c in t;
      assert !IsDigit(c);
    }
  }

  /** Two integers with the same decimal text are equal. */
  lemma IntToStringInjective(i: int, j: int)
    requires IntToString(i) == IntToString(j)
    ensures i == j
  {
    var lo := if i < j then i else j;
    var hi := if i < j then j else i;
    ParseIntToString(i, lo, hi);
    ParseIntToString(j, lo, hi);
  }

  /** String.Split(sep): the maximal separator-free pieces, empty ones included. */
  function Split(s: string, sep: char): (parts: seq<string>)
    ensures |parts| >= 1
    decreases |s|
  {
    if s == [] then [""]
    else
      var rest := Split(s[1..], sep);
      if s[0] == sep then [""] + rest else [[s[0]] + rest[0]] + rest[1..]
  }

  lemma {:induction false} SplitNoSeparator(a: string, sep: char)
    requires sep !in a
    ensures Split(a, sep) == [a]
    decreases |a|
  {
    if a != [] {
      SplitNoSeparator(a[1..], sep);
      assert [a[0]] + a[1..] == a;
    }
  }

  lemma {:induction false} SplitAfterPiece(a: string, rest: string, sep: char)
    requires sep !in a
    ensures Split(a + [sep] + rest, sep) == [a] + Split(rest, sep)
    decreases |a|
  {
    if a == [] {
      assert (a + [sep] + rest)[1..] == rest;
    } else {
      assert (a + [sep] + rest)[1..] == a[1..] + [sep] + rest;
      SplitAfterPiece(a[1..], rest, sep);
      assert [a[0]] + a[1..] == a;
    }
  }

  /** String.PadLeft(width, c): pads on the left, never truncates. */
  function PadLeft(s: string, width: nat, c: char): (r: string)
    ensures |r| == if |s| >= width then |s| else width
    ensures r[|r| - |s|..] == s
    ensures forall k :: 0 <= k < |r| - |s| ==> r[k] == c
  {
    if |s| >= width then s else Repeat(c, width - |s|) + s
  }

  function Repeat<T>(x: T, n: nat): (r: seq<T>)
    ensures |r| == n && forall k :: 0 <= k < n ==> r[k] == x
  {
    seq(n, _ => x)
  }

  /** Zero padding does not change the number a digit string denotes. */
  lemma {:induction false} ZeroPadPreservesValue(s: string, width: nat)
    requires AllDigits(s)
    ensures AllDigits(PadLeft(s, width, '0'))
    ensures DigitsValue(PadLeft(s, width, '0')) == DigitsValue(s)
    decreases width
  {
    if |s| < width {
      var r := PadLeft(s, width, '0');
      assert r == "0" + PadLeft(s, width - 1, '0');
      ZeroPadPreservesValue(s, width - 1);
      LeadingZero(PadLeft(s, width - 1, '0'));
    }
  }

  lemma {:induction false} LeadingZero(s: string)
    requires AllDigits(s)
    ensures DigitsValue("0" + s) == DigitsValue(s)
    decreases |s|
  {
    if s != [] {
      assert ("0" + s)[..|"0" + s| - 1] == "0" + s[..|s| - 1];
      LeadingZero(s[..|s| - 1]);
    }
  }

  /** Boolean.ToString(). */
  function BoolText(b: bool): string { if b then "True" else "False" }

  /** Boolean.TryParse: "true" or "false" in any letter case, surrounding white space ignored. */
  function TryParseBool(s: Option<string>): (r: Option<bool>)
    ensures r.Some? ==> s.Some?
  {
    match s
    case None => None
    case Some(t) =>
      var u := ToUpperAscii(Trim(t));
      if u == "TRUE" then Some(true) else if u == "FALSE" then Some(false) else None
  }

  /** Boolean.TryParse reads back Boolean.ToString. */
  lemma TryParseBoolText(b: bool)
    ensures TryParseBool(Some(BoolText(b))) == Some(b)
  {
    TrimUnchanged(BoolText(b));
  }

  function UpperChar(c: char): char
  {
    if 'a' <= c <= 'z' then (c as int - 'a' as int + 'A' as int) as char else c
  }

  /** String.ToUpper() restricted to ASCII letters. */
  function ToUpperAscii(s: string): (r: string)
    ensures |r| == |s| && forall k :: 0 <= k < |s| ==> r[k] == UpperChar(s[k])
  {
    seq(|s|, k requires 0 <= k < |s| => UpperChar(s[k]))
  }

  predicate IsPrefix(p: string, s: string) { |p| <= |s| && s[..|p|] == p }

  /** A concatenation starts s exactly when its first part does and its second part starts the rest. */
  lemma PrefixSplit(a: string, b: string, s: string)
    ensures IsPrefix(a + b, s) <==> IsPrefix(a, s) && IsPrefix(b, s[|a|..])
  {
    if IsPrefix(a + b, s) {
      assert s[..|a|] == (a + b)[..|a|] == a;
      assert s[|a|..][..|b|] == (a + b)[|a|..] == b;
    }
    if IsPrefix(a, s) && IsPrefix(b, s[|a|..]) {
      assert s[..|a + b|] == s[..|a|] + s[|a|..][..|b|];
    }
  }

  /** Regex.IsMatch for a pattern without metacharacters: literal substring search. */
  predicate Contains(s: string, pattern: string)
  {
    exists k :: 0 <= k <= |s| - |pattern| && OccursAt(s, pattern, k)
  }

  predicate OccursAt(s: string, pattern: string, k: int)
  {
    0 <= k <= |s| - |pattern| && s[k..k + |pattern|] == pattern
  }

  lemma ContainsItself(s: string, rest: string)
    ensures Contains(s + rest, s)
  {
    assert OccursAt(s + rest, s, 0);
  }
}
