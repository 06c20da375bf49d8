/** The parts of the JavaScript host's string handling the engine leans on:
    white space as String.prototype.trim and Number() see it, line
    terminators (which `.` in a regular expression does not match), decimal
    integer text, the array-index test on property keys, Number() on
    integer literals, and toLowerCase as far as the engine compares its
    result. */
module JsText {
  import opened Base

  /** WhiteSpace and LineTerminator code points of ECMA-262, the set both
      String.prototype.trim and Number() strip. */
  predicate IsJsSpace(c: char) {
    || c == '\t' || c == '\n' || c == '\U{B}' || c == '\U{C}' || c == '\r' || c == ' '
    || c == '\U{A0}' || c == '\U{1680}' || ('\U{2000}' <= c <= '\U{200A}')
    || c == '\U{2028}' || c == '\U{2029}' || c == '\U{202F}' || c == '\U{205F}'
    || c == '\U{3000}' || c == '\U{FEFF}'
  }

  /** The characters `.` does not match in a regular expression without the s flag. */
  predicate IsLineTerminator(c: char) {
    c == '\n' || c == '\r' || c == '\U{2028}' || c == '\U{2029}'
  }

  predicate AllSpace(s: string) {
    forall i :: 0 <= i < |s| ==> IsJsSpace(s[i])
  }

  function TrimStart(s: string): (r: string)
    ensures |r| <= |s|
  {
    if s != [] && IsJsSpace(s[0]) then TrimStart(s[1..]) else s
  }

  /** TrimStart drops exactly the leading white space. */
  lemma {:induction false} TrimStartFacts(s: string)
    ensures var r := TrimStart(s); r == s[|s| - |r|..] && (r != [] ==> !IsJsSpace(r[0]))
    ensures forall i :: 0 <= i < |s| - |TrimStart(s)| ==> IsJsSpace(s[i])
  {
    if s != [] && IsJsSpace(s[0]) {
      TrimStartFacts(s[1..]);
    }
  }

  function TrimEnd(s: string): (r: string)
    ensures |r| <= |s|
  {
    if s != [] && IsJsSpace(s[|s| - 1]) then TrimEnd(s[..|s| - 1]) else s
  }

  /** TrimEnd drops exactly the trailing white space. */
  lemma {:induction false} TrimEndFacts(s: string)
    ensures var r := TrimEnd(s); r == s[..|r|] && (r != [] ==> !IsJsSpace(r[|r| - 1]))
    ensures forall i :: |TrimEnd(s)| <= i < |s| ==> IsJsSpace(s[i])
  {
    if s != [] && IsJsSpace(s[|s| - 1]) {
      TrimEndFacts(s[..|s| - 1]);
    }
  }

  /** String.prototype.trim. */
  function Trim(s: string): (r: string)
    ensures r == [] <==> AllSpace(s)
    ensures r != [] ==> !IsJsSpace(r[0]) && !IsJsSpace(r[|r| - 1])
    ensures s == [] || (!IsJsSpace(s[0]) && !IsJsSpace(s[|s| - 1])) ==> r == s
  {
    var t := TrimStart(s);
    var r := TrimEnd(t);
    TrimFacts(s, t, r);
    r
  }

  lemma TrimFacts(s: string, t: string, r: string)
    requires t == TrimStart(s) && r == TrimEnd(t)
    ensures r == [] <==> AllSpace(s)
    ensures r != [] ==> !IsJsSpace(r[0]) && !IsJsSpace(r[|r| - 1])
    ensures s == [] || (!IsJsSpace(s[0]) && !IsJsSpace(s[|s| - 1])) ==> r == s
  {
    TrimStartFacts(s);
    TrimEndFacts(t);
    if r != [] {
      assert r[0] == t[0];
    }
    if s != [] && !IsJsSpace(s[0]) && !IsJsSpace(s[|s| - 1]) {
      assert |t| == |s|;
      assert t == s;
      assert |r| == |t|;
    }
  }

  predicate IsDigit(c: char) {
    '0' <= c <= '9'
  }

  predicate AllDigits(s: string) {
    forall i :: 0 <= i < |s| ==> IsDigit(s[i])
  }

  /** Length of the run of decimal digits s starts with. */
  function DigitRun(s: string): (n: nat)
    ensures n <= |s| && AllDigits(s[..n]) && (n < |s| ==> !IsDigit(s[n]))
  {
    if s != [] && IsDigit(s[0]) then
      var n := 1 + DigitRun(s[1..]);
      assert s[..n] == [s[0]] + s[1..][..n - 1];
      n
    else 0
  }

  function DigitValue(c: char): nat
    requires IsDigit(c)
  {
    c as int - '0' as int
  }

  function DigitChar(d: nat): (c: char)
    requires d < 10
    ensures IsDigit(c) && DigitValue(c) == d
  {
    (d + '0' as int) as char
  }

  /** The number a run of decimal digits denotes. */
  function DigitsValue(s: string): nat
    requires AllDigits(s)
  {
    if s == [] then 0 else 10 * DigitsValue(s[..|s| - 1]) + DigitValue(s[|s| - 1])
  }

  /** Decimal digits with no leading zero: the only spelling Number.prototype.toString
      gives a natural number, and the only spelling of an array index key. */
  predicate Canonical(s: string) {
    |s| >= 1 && AllDigits(s) && (s[0] == '0' ==> |s| == 1)
  }

  /** The decimal text of a natural number (Number.prototype.toString on integers). */
  function NatText(n: nat): (r: string)
    ensures Canonical(r)
    ensures DigitsValue(r) == n
  {
    if n < 10 then [DigitChar(n)]
    else
      var r := NatText(n / 10) + [DigitChar(n % 10)];
      assert r[..|r| - 1] == NatText(n / 10);
      r
  }

  /** The decimal text of an integer, with a leading minus when negative. */
  function IntText(i: int): (r: string)
    ensures |r| >= 1 && IsDigit(r[|r| - 1])
    ensures r[0] == '-' || IsDigit(r[0])
  {
    if i < 0 then "-" + NatText(-i) else NatText(i)
  }

  lemma {:induction false} LeadingDigitPositive(s: string)
    requires AllDigits(s) && |s| >= 1 && s[0] != '0'
    ensures DigitsValue(s) >= 1
  {
    if |s| > 1 {
      LeadingDigitPositive(s[..|s| - 1]);
    }
  }

  /** Reading a canonical digit string and printing the number back gives the
      same text: NatText is a bijection onto canonical strings. */
  lemma {:induction false} CanonicalRoundTrip(s: string)
    requires Canonical(s)
    ensures NatText(DigitsValue(s)) == s
  {
    if |s| > 1 {
      var front := s[..|s| - 1];
      LeadingDigitPositive(front);
      CanonicalRoundTrip(front);
      assert s == front + [s[|s| - 1]];
    }
  }

  /** Array indices: canonical numeric keys below 2^32 - 1. Object.keys lists
      them first, in ascending order, and on arrays they address elements. */
  predicate IsArrayIndex(k: string) {
    Canonical(k) && DigitsValue(k) < 0xFFFF_FFFF
  }

  function IndexValue(k: string): nat
    requires IsArrayIndex(k)
  {
    DigitsValue(k)
  }

  /** The property key that names element i. */
  function IndexKey(i: nat): (k: string)
    requires i < 0xFFFF_FFFF
    ensures IsArrayIndex(k) && IndexValue(k) == i
  {
    NatText(i)
  }

  /** Two index keys are equal exactly when their values are. */
  lemma IndexKeyInjective(a: string, b: string)
    requires IsArrayIndex(a) && IsArrayIndex(b)
    ensures a == b <==> IndexValue(a) == IndexValue(b)
  {
    CanonicalRoundTrip(a);
    CanonicalRoundTrip(b);
  }

  /** The integer literals Number() accepts in this model, once trimmed: an
      optional sign and one or more decimal digits. */
  predicate IsIntegerLiteral(t: string) {
    || (|t| >= 1 && AllDigits(t))
    || (|t| >= 2 && (t[0] == '-' || t[0] == '+') && AllDigits(t[1..]))
  }

  predicate IsRadixDigit(c: char, radix: char) {
    if radix == 'x' || radix == 'X' then IsDigit(c) || ('a' <= c <= 'f') || ('A' <= c <= 'F')
    else if radix == 'o' || radix == 'O' then '0' <= c <= '7'
    else '0' <= c <= '1'
  }

  /** 0x.., 0o.. or 0b.. with at least one digit of that radix; no sign. */
  predicate IsNonDecimalLiteral(t: string) {
    && |t| >= 3 && t[0] == '0'
    && (t[1] in "xXoObB")
    && forall i :: 2 <= i < |t| ==> IsRadixDigit(t[i], t[1])
  }

  /** Nothing, or e/E with an optionally signed digit run. */
  predicate IsExponentPart(e: string) {
    || e == []
    || (&& |e| >= 2 && (e[0] == 'e' || e[0] == 'E')
        && var f := if e[1] == '+' || e[1] == '-' then e[2..] else e[1..];
           f != [] && AllDigits(f))
  }

  /** Infinity, or digits with an optional fraction and exponent, at least
      one digit before or after the point. */
  predicate IsUnsignedDecimal(u: string) {
    || u == "Infinity"
    || (var a := DigitRun(u);
        var r := u[a..];
        if r != [] && r[0] == '.' then
          var b := DigitRun(r[1..]);
          (a > 0 || b > 0) && IsExponentPart(r[1..][b..])
        else a > 0 && IsExponentPart(r))
  }

  /** A StrNumericLiteral of ECMA-262 (section 7.1.4.1.1), white space removed. */
  predicate IsNumericLiteral(t: string) {
    || IsNonDecimalLiteral(t)
    || (t != [] && (t[0] == '+' || t[0] == '-') && IsUnsignedDecimal(t[1..]))
    || IsUnsignedDecimal(t)
  }

  /** Every integer literal is a numeric literal. */
  lemma IntegerIsNumeric(t: string)
    requires IsIntegerLiteral(t)
    ensures IsNumericLiteral(t)
  {
    var u := if t[0] == '-' || t[0] == '+' then t[1..] else t;
    assert DigitRun(u) == |u| by { DigitRunAll(u); }
    assert u[|u|..] == [];
  }

  lemma {:induction false} DigitRunAll(u: string)
    requires AllDigits(u)
    ensures DigitRun(u) == |u|
  {
    if u != [] {
      DigitRunAll(u[1..]);
    }
  }

  /** What Number() gives: an integer, some other number (a fraction, an
      exponent form, a radix literal, an infinity) which this model does not
      hold, or NaN. */
  datatype NumberValue = NumInt(n: int) | NumOther | NaN

  /** Number(s): blank text is 0, the surrounding white space is ignored. */
  function JsNumber(s: string): (r: NumberValue)
    ensures r.NumInt? <==> AllSpace(s) || IsIntegerLiteral(Trim(s))
    ensures r.NaN? <==> !AllSpace(s) && !IsNumericLiteral(Trim(s))
  {
    var t := Trim(s);
    if t == [] then NumInt(0)
    else if IsIntegerLiteral(t) then
      IntegerIsNumeric(t);
      if t[0] == '-' then NumInt(0 - DigitsValue(t[1..]))
      else if t[0] == '+' then NumInt(DigitsValue(t[1..]))
      else NumInt(DigitsValue(t))
    else if IsNumericLiteral(t) then NumOther
    else NaN
  }

  /** Number() reads back the decimal text of every integer. */
  lemma NumberOfIntText(n: int)
    ensures JsNumber(IntText(n)) == NumInt(n)
  {
    var t := IntText(n);
    assert !IsJsSpace(t[0]) && !IsJsSpace(t[|t| - 1]);
    assert Trim(t) == t;
    if n < 0 {
      var d := NatText(-n);
      assert t == "-" + d;
      assert t[1..] == d;
      assert |t| > 1 && t[0] == '-' && AllDigits(t[1..]);
    } else {
      assert t == NatText(n);
      assert t[0] != '-' && t[0] != '+';
      assert AllDigits(t);
    }
  }

  /** Number() of blank text is 0. */
  lemma NumberOfBlank(s: string)
    requires AllSpace(s)
    ensures JsNumber(s) == NumInt(0)
  {
  }

  /** 'A'..'Z' lowered; no other character lower-cases to an ASCII letter of
      "true" or "false", so this is toLowerCase as far as the engine uses it. */
  function LowerAscii(c: char): char {
    if 'A' <= c <= 'Z' then (c as int + 32) as char else c
  }

  function ToLowerCase(s: string): (r: string)
    ensures |r| == |s|
  {
    if s == [] then [] else [LowerAscii(s[0])] + ToLowerCase(s[1..])
  }

  /** Lower-casing works character by character. */
  lemma {:induction false} LowerAt(s: string, i: nat)
    requires i < |s|
    ensures ToLowerCase(s)[i] == LowerAscii(s[i])
  {
    if i > 0 {
      LowerAt(s[1..], i - 1);
    }
  }
}
