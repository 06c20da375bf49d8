/** JSON.stringify and JSON.parse on the values of this model, and the fact
    that parsing what JSON.stringify wrote gives the value back. Numbers are
    integers here: the parser follows the whole JSON grammar, but a number
    with a fraction or an exponent, like a lone surrogate in a string, makes
    the parsed value one this model cannot hold. */
module Json {
  import opened Base
  import opened JsText
  import opened JsValues

  // ---------------------------------------------------------------------
  // JSON.stringify

  function HexDigit(d: nat): (c: char)
    requires d < 16
    ensures HexValue(c) == Some(d)
  {
    if d < 10 then DigitChar(d) else (d - 10 + 'a' as int) as char
  }

  /** How JSON.stringify writes one character inside a string literal:
      the quote, the backslash and the control characters are escaped,
      every other character stands for itself. */
  function EscapeChar(c: char): string
  {
    if c == '"' then "\\\""
    else if c == '\\' then "\\\\"
    else if c == '\U{8}' then "\\b"
    else if c == '\U{C}' then "\\f"
    else if c == '\n' then "\\n"
    else if c == '\r' then "\\r"
    else if c == '\t' then "\\t"
    else if c < ' ' then "\\u00" + [HexDigit(c as int / 16), HexDigit(c as int % 16)]
    else [c]
  }

  function Escape(s: string): string
  {
    if s == [] then [] else EscapeChar(s[0]) + Escape(s[1..])
  }

  /** A JSON string literal. */
  function Quote(s: string): string
  {
    "\"" + Escape(s) + "\""
  }

  /** JSON.stringify(v) for an object or array v, and the text of v where it
      stands inside one: an undefined array element is written null. */
  function JsonText(v: Value): string
    decreases v, 1
  {
    match v
    case Undefined => "null"
    case Null => "null"
    case Bool(b) => if b then "true" else "false"
    case Num(n) => IntText(n)
    case Str(s) => Quote(s)
    case Arr(_, _) => "[" + ElementsText(v, 0) + "]"
    case Obj(_) => "{" + MembersText(v, 0, false) + "}"
  }

  /** The elements of array v from index i on, comma-separated; a hole is
      written null. Named properties of an array are not written. */
  function ElementsText(v: Value, i: nat): string
    requires v.Arr? && i <= |v.slots|
    decreases v, 0, |v.slots| - i
  {
    if i == |v.slots| then ""
    else
      var item := if v.slots[i].Some? then JsonText(v.slots[i].value) else "null";
      if i + 1 == |v.slots| then item else item + "," + ElementsText(v, i + 1)
  }

  /** The members of object v from index i on, as "key":value; members whose
      value is undefined are left out. `started` tells whether a member has
      been written already, so that a comma is due before the next. */
  function MembersText(v: Value, i: nat, started: bool): string
    requires v.Obj? && i <= |v.props|
    decreases v, 0, |v.props| - i
  {
    if i == |v.props| then ""
    else if v.props[i].1 == Undefined then MembersText(v, i + 1, started)
    else if started then
      "," + Quote(v.props[i].0) + ":" + JsonText(v.props[i].1) + MembersText(v, i + 1, true)
    else
      Quote(v.props[i].0) + ":" + JsonText(v.props[i].1) + MembersText(v, i + 1, true)
  }

  // ---------------------------------------------------------------------
  // JSON.parse

  predicate IsJsonWs(c: char) {
    c == ' ' || c == '\t' || c == '\n' || c == '\r'
  }

  function SkipWs(s: string): (r: string)
    ensures |r| <= |s| && r == s[|s| - |r|..]
    ensures r == [] || !IsJsonWs(r[0])
  {
    if s != [] && IsJsonWs(s[0]) then SkipWs(s[1..]) else s
  }

  lemma SkipWsNone(s: string)
    requires s != [] && !IsJsonWs(s[0])
    ensures SkipWs(s) == s
  {
  }

  function HexValue(c: char): Option<nat>
  {
    if '0' <= c <= '9' then Some(c as int - '0' as int)
    else if 'a' <= c <= 'f' then Some(c as int - 'a' as int + 10)
    else if 'A' <= c <= 'F' then Some(c as int - 'A' as int + 10)
    else None
  }

  /** The code unit four hexadecimal digits denote. */
  function Hex4(s: string): (r: Option<nat>)
    requires |s| == 4
    ensures r.Some? ==> r.value < 0x10000
  {
    match (HexValue(s[0]), HexValue(s[1]), HexValue(s[2]), HexValue(s[3]))
    case (Some(a), Some(b), Some(c), Some(d)) =>
      if a < 16 && b < 16 && c < 16 && d < 16 then Some(((a * 16 + b) * 16 + c) * 16 + d) else None
    case _ => None
  }

  /** The outcome of reading a prefix of JSON text: what was read and the
      text after it, or a syntax error, on which JSON.parse throws. The
      grammar is followed exactly; `exact` is false when what was read holds
      a value this model cannot represent (a number with a fraction or an
      exponent, a lone surrogate), and a stand-in takes its place. */
  datatype Parsed<+T> = Done(value: T, rest: string, exact: bool) | Fail

  /** The low surrogate a \u escape at the start of s denotes, if it is one. */
  function LowSurrogate(s: string): (r: Option<nat>)
    ensures r.Some? ==> |s| >= 6 && 0xDC00 <= r.value <= 0xDFFF
  {
    if |s| >= 6 && s[0] == '\\' && s[1] == 'u' then
      match Hex4(s[2..6])
      case Some(lo) => if 0xDC00 <= lo <= 0xDFFF then Some(lo) else None
      case None => None
    else None
  }

  /** The character a backslash escape denotes, s being the text after the
      backslash. A \u escape of a high surrogate followed by the \u escape
      of a low surrogate is one character; any other surrogate stands alone. */
  function ParseEscape(s: string): (r: Parsed<char>)
    ensures r.Done? ==> |r.rest| < |s|
  {
    if s == [] then Fail
    else if s[0] == '"' then Done('"', s[1..], true)
    else if s[0] == '\\' then Done('\\', s[1..], true)
    else if s[0] == '/' then Done('/', s[1..], true)
    else if s[0] == 'b' then Done('\U{8}', s[1..], true)
    else if s[0] == 'f' then Done('\U{C}', s[1..], true)
    else if s[0] == 'n' then Done('\n', s[1..], true)
    else if s[0] == 'r' then Done('\r', s[1..], true)
    else if s[0] == 't' then Done('\t', s[1..], true)
    else if s[0] == 'u' && |s| >= 5 then
      match Hex4(s[1..5])
      case None => Fail
      case Some(u) =>
        if 0xD800 <= u <= 0xDBFF && LowSurrogate(s[5..]).Some? then
          var lo := LowSurrogate(s[5..]).value;
          Done((0x10000 + (u - 0xD800) * 0x400 + (lo - 0xDC00)) as char, s[11..], true)
        else if 0xD800 <= u <= 0xDFFF then Done('\U{FFFD}', s[5..], false)
        else Done(u as char, s[5..], true)
    else Fail
  }

  /** The characters of a string literal up to its closing quote, and the
      text after that quote. */
  function ParseChars(s: string): (r: Parsed<string>)
    ensures r.Done? ==> |r.rest| < |s|
  {
    if s == [] then Fail
    else if s[0] == '"' then Done([], s[1..], true)
    else if s[0] == '\\' then
      match ParseEscape(s[1..])
      case Fail => Fail
      case Done(c, rest, e1) =>
        match ParseChars(rest)
        case Fail => Fail
        case Done(t, r, e2) => Done([c] + t, r, e1 && e2)
    else if s[0] < ' ' then Fail
    else
      match ParseChars(s[1..])
      case Fail => Fail
      case Done(t, r, e) => Done([s[0]] + t, r, e)
  }

  /** The length of the exponent part s starts with: 0 when there is none,
      None when it is malformed. */
  function ExponentLength(s: string): (r: Option<nat>)
    ensures r.Some? ==> r.value <= |s|
  {
    if s == [] || (s[0] != 'e' && s[0] != 'E') then Some(0)
    else
      var signed := if |s| > 1 && (s[1] == '+' || s[1] == '-') then 2 else 1;
      var d := DigitRun(s[signed..]);
      if d == 0 then None else Some(signed + d)
  }

  /** The length of the fraction and exponent s starts with: 0 when there
      are none, None when they are malformed. */
  function FractionLength(s: string): (r: Option<nat>)
    ensures r.Some? ==> r.value <= |s|
  {
    if s != [] && s[0] == '.' then
      var d := DigitRun(s[1..]);
      if d == 0 then None
      else
        match ExponentLength(s[1 + d..])
        case None => None
        case Some(e) => Some(1 + d + e)
    else ExponentLength(s)
  }

  /** The magnitude of a JSON number: 0 or a digit run without a leading
      zero, then an optional fraction and exponent. Only the integers are
      exact; the integer part stands in for any other number. */
  function ParseDigits(t: string): (r: Parsed<nat>)
    ensures r.Done? ==> |r.rest| < |t|
  {
    if t == [] || !IsDigit(t[0]) then Fail
    else
      var n := if t[0] == '0' then 1 else DigitRun(t);
      match FractionLength(t[n..])
      case None => Fail
      case Some(f) => Done(DigitsValue(t[..n]), t[n + f..], f == 0)
  }

  /** A number: an optional minus, then its magnitude. */
  function ParseNumber(s: string): (r: Parsed<Value>)
    ensures r.Done? ==> |r.rest| < |s|
  {
    if s != [] && s[0] == '-' then
      match ParseDigits(s[1..])
      case Fail => Fail
      case Done(m, rest, e) => Done(Num(0 - m), rest, e)
    else
      match ParseDigits(s)
      case Fail => Fail
      case Done(m, rest, e) => Done(Num(m), rest, e)
  }

  /** One JSON value after optional white space, and the text after it. */
  function ParseValue(s: string): (r: Parsed<Value>)
    ensures r.Done? ==> |r.rest| < |s|
    decreases |s|, 0
  {
    var t := SkipWs(s);
    if t == [] then Fail
    else if t[0] == '{' then ParseObject(t[1..])
    else if t[0] == '[' then ParseArray(t[1..])
    else if t[0] == '"' then
      match ParseChars(t[1..])
      case Fail => Fail
      case Done(str, rest, e) => Done(Str(str), rest, e)
    else if t[0] == 't' then
      if |t| >= 4 && t[1] == 'r' && t[2] == 'u' && t[3] == 'e' then Done(Bool(true), t[4..], true) else Fail
    else if t[0] == 'f' then
      if |t| >= 5 && t[1] == 'a' && t[2] == 'l' && t[3] == 's' && t[4] == 'e' then Done(Bool(false), t[5..], true) else Fail
    else if t[0] == 'n' then
      if |t| >= 4 && t[1] == 'u' && t[2] == 'l' && t[3] == 'l' then Done(Null, t[4..], true) else Fail
    else ParseNumber(t)
  }

  /** An array, after its opening bracket. */
  function ParseArray(s: string): (r: Parsed<Value>)
    ensures r.Done? ==> |r.rest| < |s|
    decreases |s|, 2
  {
    var t := SkipWs(s);
    if t != [] && t[0] == ']' then Done(Arr([], []), t[1..], true)
    else ParseElements(s, [], true)
  }

  /** The elements of an array from the next one on, acc holding those read
      so far and exact telling whether all of them were read exactly. */
  function ParseElements(s: string, acc: seq<Option<Value>>, exact: bool): (r: Parsed<Value>)
    ensures r.Done? ==> |r.rest| < |s|
    decreases |s|, 1
  {
    match ParseValue(s)
    case Fail => Fail
    case Done(x, rest, e) =>
      var t := SkipWs(rest);
      if t != [] && t[0] == ',' then ParseElements(t[1..], acc + [Some(x)], exact && e)
      else if t != [] && t[0] == ']' then Done(Arr(acc + [Some(x)], []), t[1..], exact && e)
      else Fail
  }

  /** An object, after its opening brace. */
  function ParseObject(s: string): (r: Parsed<Value>)
    ensures r.Done? ==> |r.rest| < |s|
    decreases |s|, 3
  {
    var t := SkipWs(s);
    if t != [] && t[0] == '}' then Done(Obj([]), t[1..], true)
    else ParseMembers(s, [], true)
  }

  /** One member of an object: its key, a colon, its value, and the text
      after the value with white space skipped. */
  function ParseMember(s: string): (r: Parsed<Prop>)
    ensures r.Done? ==> |r.rest| < |s|
    decreases |s|, 1
  {
    var t := SkipWs(s);
    if t == [] || t[0] != '"' then Fail
    else
      match ParseChars(t[1..])
      case Fail => Fail
      case Done(key, r1, e1) =>
        match ParseColonValue(r1)
        case Fail => Fail
        case Done(x, r, e2) => Done((key, x), r, e1 && e2)
  }

  /** The colon after a member's key, then the member's value, and the text
      after the value with white space skipped. */
  function ParseColonValue(s: string): (r: Parsed<Value>)
    ensures r.Done? ==> |r.rest| < |s|
    decreases |s|, 1
  {
    var t := SkipWs(s);
    if t == [] || t[0] != ':' then Fail
    else
      match ParseValue(t[1..])
      case Fail => Fail
      case Done(x, r, e) => Done(x, SkipWs(r), e)
  }

  /** The members of an object from the next one on. A repeated key keeps
      its first position and takes the later value, as property creation does. */
  function ParseMembers(s: string, acc: seq<Prop>, exact: bool): (r: Parsed<Value>)
    ensures r.Done? ==> |r.rest| < |s|
    decreases |s|, 2
  {
    match ParseMember(s)
    case Fail => Fail
    case Done(m, t, e) =>
      if t != [] && t[0] == ',' then ParseMembers(t[1..], Put(acc, m.0, m.1), exact && e)
      else if t != [] && t[0] == '}' then Done(Obj(Put(acc, m.0, m.1)), t[1..], exact && e)
      else Fail
  }

  /** What JSON.parse(s) does: returns a value, throws a SyntaxError (Malformed), or
      returns a value this model cannot hold exactly, of the same type as
      the stand-in (an array stays an array, a number a number). */
  datatype JsonOutcome = Parsed(value: Value) | Malformed | Beyond(standIn: Value)

  function JsonParse(s: string): JsonOutcome
  {
    match ParseValue(s)
    case Fail => Malformed
    case Done(v, rest, exact) =>
      if SkipWs(rest) != [] then Malformed
      else if exact then Parsed(v)
      else Beyond(v)
  }

  // ---------------------------------------------------------------------
  // Round trip

  /** The values JSON.stringify writes faithfully: no undefined, no holes,
      no named properties on arrays, and objects a program can build. */
  predicate IsJsonData(v: Value)
    decreases v
  {
    match v
    case Undefined => false
    case Arr(slots, named) =>
      named == [] && forall i :: 0 <= i < |slots| ==> slots[i].Some? && IsJsonData(slots[i].value)
    case Obj(props) =>
      WellFormedProps(props) && forall i :: 0 <= i < |props| ==> IsJsonData(props[i].1)
    case _ => true
  }

  /** What may follow a value inside JSON text: nothing, or the separator or
      closing bracket of the enclosing array or object. */
  predicate Delimited(rest: string) {
    rest == [] || rest[0] == ',' || rest[0] == ']' || rest[0] == '}'
  }

  // Regrouping concatenations, kept apart so that each proof sees only sequences.

  lemma Regroup3<T>(a: seq<T>, b: seq<T>, c: seq<T>)
    ensures a + b + c == a + (b + c)
  {
  }

  lemma Regroup4(a: string, b: string, c: string, d: string)
    ensures a + b + c + d == a + (b + c + d)
    ensures a + b + c + d == a + (b + (c + d))
  {
  }

  lemma Regroup5(a: string, b: string, c: string, d: string, e: string)
    ensures a + b + c + d + e == a + (b + (c + d + e))
    ensures a + b + c + d + e == a + (b + c + d + e)
  {
  }

  lemma Regroup6(a: string, b: string, c: string, d: string, e: string, f: string)
    ensures a + b + c + d + e + f == a + (b + (c + (d + e + f)))
  {
  }

  lemma Snoc<T>(s: seq<T>, i: nat)
    requires i < |s|
    ensures s[..i] + [s[i]] == s[..i + 1]
    ensures i + 1 == |s| ==> s[..i] + [s[i]] == s
  {
  }

  lemma Uncons<T>(s: seq<T>)
    requires s != []
    ensures [s[0]] + s[1..] == s
    ensures forall m :: 0 <= m < |s| - 1 ==> s[1..][m] == s[m + 1]
  {
  }

  lemma AfterFirst(a: string, b: string)
    requires |a| == 1
    ensures (a + b)[0] == a[0] && (a + b)[1..] == b
  {
  }

  /** Parsing the escaped text of c in front of a string literal's remaining text. */
  lemma EscapeCharThen(c: char, tail: string)
    requires ParseChars(tail).Done?
    ensures ParseChars(EscapeChar(c) + tail) == Done([c] + ParseChars(tail).value, ParseChars(tail).rest, ParseChars(tail).exact)
  {
    var e := EscapeChar(c);
    Prefixed(e, tail);
    if c == '"' || c == '\\' || c == '\U{8}' || c == '\U{C}' || c == '\n' || c == '\r' || c == '\t' {
      SimpleEscape(c, tail);
    } else if c < ' ' {
      ControlEscape(c, tail);
    } else {
      assert e == [c];
    }
  }

  lemma SimpleEscape(c: char, tail: string)
    requires c == '"' || c == '\\' || c == '\U{8}' || c == '\U{C}' || c == '\n' || c == '\r' || c == '\t'
    ensures ParseEscape((EscapeChar(c) + tail)[1..]) == Done(c, tail, true)
  {
    var e := EscapeChar(c);
    assert |e| == 2;
    Prefixed(e, tail);
    AfterFirst([e[1]], tail);
    assert (e + tail)[1..] == [e[1]] + tail;
  }

  lemma ControlEscape(c: char, tail: string)
    requires c < ' '
    requires c != '\U{8}' && c != '\U{C}' && c != '\n' && c != '\r' && c != '\t'
    ensures ParseEscape((EscapeChar(c) + tail)[1..]) == Done(c, tail, true)
  {
    var e := EscapeChar(c);
    var s := (e + tail)[1..];
    assert s == e[1..] + tail;
    assert s[0] == 'u';
    assert s[1..5] == ['0', '0', HexDigit(c as int / 16), HexDigit(c as int % 16)];
    assert s[5..] == tail;
  }

  /** The escaped text of a string, then its closing quote, reads back as the string. */
  lemma {:induction false} CharsRoundTrip(s: string, rest: string)
    ensures ParseChars(Escape(s) + "\"" + rest) == Done(s, rest, true)
  {
    if s == [] {
      assert Escape(s) + "\"" + rest == "\"" + rest;
      AfterFirst("\"", rest);
    } else {
      var e := EscapeChar(s[0]);
      Regroup4(e, Escape(s[1..]), "\"", rest);
      CharsRoundTrip(s[1..], rest);
      EscapeCharThen(s[0], Escape(s[1..]) + "\"" + rest);
      assert [s[0]] + s[1..] == s;
    }
  }

  lemma {:induction false} DigitRunOf(d: string, rest: string)
    requires AllDigits(d)
    requires rest == [] || !IsDigit(rest[0])
    ensures DigitRun(d + rest) == |d|
  {
    if d != [] {
      assert (d + rest)[1..] == d[1..] + rest;
      DigitRunOf(d[1..], rest);
    } else {
      assert d + rest == rest;
    }
  }

  lemma NaturalRoundTrip(m: nat, rest: string)
    requires Delimited(rest)
    ensures ParseDigits(NatText(m) + rest) == Done(m, rest, true)
  {
    var d := NatText(m);
    var t := d + rest;
    assert t[0] == d[0];
    var n := if t[0] == '0' then 1 else DigitRun(t);
    assert n == |d| by {
      if d[0] != '0' {
        DigitRunOf(d, rest);
      }
    }
    assert t[n..] == rest;
    assert t[..n] == d;
    assert FractionLength(rest) == Some(0);
  }

  lemma NumberRoundTrip(n: int, rest: string)
    requires Delimited(rest)
    ensures ParseNumber(IntText(n) + rest) == Done(Num(n), rest, true)
  {
    var s := IntText(n) + rest;
    if n < 0 {
      var d := NatText(-n);
      assert IntText(n) == "-" + d;
      Regroup3("-", d, rest);
      AfterFirst("-", d + rest);
      NaturalRoundTrip(-n, rest);
      assert ParseDigits(s[1..]) == Done(-n, rest, true);
    } else {
      NaturalRoundTrip(n, rest);
      assert IntText(n) == NatText(n);
      assert s[0] == NatText(n)[0];
    }
  }

  /** ParseValue on text that starts with the first character of a value. */
  lemma OpenDispatch(s: string)
    requires s != [] && (s[0] == '{' || s[0] == '[')
    ensures s[0] == '{' ==> ParseValue(s) == ParseObject(s[1..])
    ensures s[0] == '[' ==> ParseValue(s) == ParseArray(s[1..])
  {
  }

  lemma StringDispatch(s: string)
    requires s != [] && s[0] == '"' && ParseChars(s[1..]).Done?
    ensures ParseValue(s) == Done(Str(ParseChars(s[1..]).value), ParseChars(s[1..]).rest, ParseChars(s[1..]).exact)
  {
    SkipWsNone(s);
  }

  lemma NumberDispatch(s: string)
    requires s != [] && (s[0] == '-' || IsDigit(s[0]))
    ensures ParseValue(s) == ParseNumber(s)
  {
    SkipWsNone(s);
    assert s[0] != '{' && s[0] != '[' && s[0] != '"' && s[0] != 't' && s[0] != 'f' && s[0] != 'n';
  }

  lemma Prefixed(a: string, rest: string)
    ensures |a + rest| == |a| + |rest|
    ensures forall i :: 0 <= i < |a| ==> (a + rest)[i] == a[i]
    ensures (a + rest)[|a|..] == rest
  {
  }

  lemma TrueRoundTrip(rest: string)
    ensures ParseValue("true" + rest) == Done(Bool(true), rest, true)
  {
    Prefixed("true", rest);
    SkipWsNone("true" + rest);
  }

  lemma FalseRoundTrip(rest: string)
    ensures ParseValue("false" + rest) == Done(Bool(false), rest, true)
  {
    Prefixed("false", rest);
    SkipWsNone("false" + rest);
  }

  lemma NullRoundTrip(rest: string)
    ensures ParseValue("null" + rest) == Done(Null, rest, true)
  {
    Prefixed("null", rest);
    SkipWsNone("null" + rest);
  }

  lemma StringRoundTrip(str: string, rest: string)
    ensures ParseValue(Quote(str) + rest) == Done(Str(str), rest, true)
  {
    var s := Quote(str) + rest;
    Regroup4("\"", Escape(str), "\"", rest);
    AfterFirst("\"", Escape(str) + "\"" + rest);
    CharsRoundTrip(str, rest);
    StringDispatch(s);
  }

  lemma JsonTextStart(v: Value)
    ensures |JsonText(v)| > 0 && !IsJsonWs(JsonText(v)[0])
    ensures JsonText(v)[0] != ']' && JsonText(v)[0] != '}'
  {
  }

  lemma NumberValueRoundTrip(n: int, rest: string)
    requires Delimited(rest)
    ensures ParseValue(JsonText(Num(n)) + rest) == Done(Num(n), rest, true)
  {
    var t := IntText(n);
    assert JsonText(Num(n)) == t;
    NumberRoundTrip(n, rest);
    assert (t + rest)[0] == t[0];
    NumberDispatch(t + rest);
  }

  /** Parsing the text JSON.stringify writes gives the value back, with the
      text after it untouched. */
  lemma {:induction false} ValueRoundTrip(v: Value, rest: string)
    requires IsJsonData(v) && Delimited(rest)
    ensures ParseValue(JsonText(v) + rest) == Done(v, rest, true)
    decreases v, 2
  {
    match v
    case Null => NullRoundTrip(rest);
    case Bool(b) =>
      if b { TrueRoundTrip(rest); } else { FalseRoundTrip(rest); }
    case Num(n) =>
      NumberValueRoundTrip(n, rest);
    case Str(s) => StringRoundTrip(s, rest);
    case Arr(_, _) => ArrayRoundTrip(v, rest);
    case Obj(_) => ObjectRoundTrip(v, rest);
  }

  /** ParseArray and ParseObject on the text after the opening bracket or brace. */
  lemma Opening(inner: string)
    requires inner != [] && !IsJsonWs(inner[0])
    ensures inner[0] == ']' ==> ParseArray(inner) == Done(Arr([], []), inner[1..], true)
    ensures inner[0] != ']' ==> ParseArray(inner) == ParseElements(inner, [], true)
    ensures inner[0] == '}' ==> ParseObject(inner) == Done(Obj([]), inner[1..], true)
    ensures inner[0] != '}' ==> ParseObject(inner) == ParseMembers(inner, [], true)
  {
    SkipWsNone(inner);
  }

  /** One element step of ParseElements: a value, then a comma or the closing bracket. */
  lemma ElementsStep(s: string, acc: seq<Option<Value>>, x: Value, after: string)
    requires ParseValue(s) == Done(x, after, true)
    requires after != [] && (after[0] == ',' || after[0] == ']')
    ensures after[0] == ',' ==> ParseElements(s, acc, true) == ParseElements(after[1..], acc + [Some(x)], true)
    ensures after[0] == ']' ==> ParseElements(s, acc, true) == Done(Arr(acc + [Some(x)], []), after[1..], true)
  {
    SkipWsNone(after);
  }

  lemma {:induction false} ArrayRoundTrip(v: Value, rest: string)
    requires IsJsonData(v) && v.Arr?
    ensures ParseValue(JsonText(v) + rest) == Done(v, rest, true)
    decreases v, 1
  {
    var text := JsonText(v) + rest;
    var e := ElementsText(v, 0);
    var inner := e + "]" + rest;
    assert JsonText(v) == "[" + e + "]";
    Regroup4("[", e, "]", rest);
    AfterFirst("[", inner);
    OpenDispatch(text);
    if v.slots == [] {
      AfterFirst("]", rest);
      Opening(inner);
    } else {
      ElementsTextStart(v);
      assert inner[0] == e[0];
      Opening(inner);
      ElementsRoundTrip(v, 0, rest);
      assert v.slots[..0] == [];
    }
  }

  /** The text of a non-empty array's elements starts with its first element's text. */
  lemma ElementsTextStart(v: Value)
    requires IsJsonData(v) && v.Arr? && v.slots != []
    ensures ElementsText(v, 0) != [] && !IsJsonWs(ElementsText(v, 0)[0]) && ElementsText(v, 0)[0] != ']'
  {
    var x := v.slots[0].value;
    var item := JsonText(x);
    JsonTextStart(x);
    if |v.slots| > 1 {
      assert ElementsText(v, 0) == item + "," + ElementsText(v, 1);
      assert (item + "," + ElementsText(v, 1))[0] == item[0];
    } else {
      assert ElementsText(v, 0) == item;
    }
  }

  lemma {:induction false} ElementsRoundTrip(v: Value, i: nat, rest: string)
    requires IsJsonData(v) && v.Arr? && i < |v.slots|
    ensures ParseElements(ElementsText(v, i) + "]" + rest, v.slots[..i], true) == Done(v, rest, true)
    decreases v, 0, |v.slots| - i
  {
    var x := v.slots[i].value;
    assert IsJsonData(x);
    var j := JsonText(x);
    Snoc(v.slots, i);
    if i + 1 == |v.slots| {
      Regroup3(j, "]", rest);
      ValueRoundTrip(x, "]" + rest);
      AfterFirst("]", rest);
      ElementsStep(j + ("]" + rest), v.slots[..i], x, "]" + rest);
    } else {
      var tail := ElementsText(v, i + 1) + "]" + rest;
      Regroup5(j, ",", ElementsText(v, i + 1), "]", rest);
      ValueRoundTrip(x, "," + tail);
      AfterFirst(",", tail);
      ElementsStep(j + ("," + tail), v.slots[..i], x, "," + tail);
      ElementsRoundTrip(v, i + 1, rest);
    }
  }

  lemma {:induction false} InsertAppends(front: seq<Prop>, k: string, x: Value)
    requires k !in KeysOf(front)
    requires forall m :: 0 <= m < |front| ==> !GoesBefore(k, front[m].0)
    ensures Insert(front, k, x) == front + [(k, x)]
  {
    if front != [] {
      var tail := front[1..];
      Uncons(front);
      InsertStep(front, k, x);
      InsertAppends(tail, k, x);
      Regroup3([front[0]], tail, [(k, x)]);
    }
  }

  lemma InsertStep(front: seq<Prop>, k: string, x: Value)
    requires front != [] && k !in KeysOf(front) && !GoesBefore(k, front[0].0)
    ensures k !in KeysOf(front[1..])
    ensures Insert(front, k, x) == [front[0]] + Insert(front[1..], k, x)
  {
    KeysOfCons(front);
  }

  /** Adding the next key of a well-formed property list to the part before
      it appends it: that key belongs after all of them. */
  lemma PutNext(props: seq<Prop>, i: nat)
    requires WellFormedProps(props) && i < |props|
    ensures Put(props[..i], props[i].0, props[i].1) == props[..i + 1]
  {
    var k := props[i].0;
    var front := props[..i];
    forall m | 0 <= m < |front|
      ensures KeysOf(front)[m] != k && !GoesBefore(k, front[m].0)
    {
      assert front[m] == props[m];
    }
    assert k !in KeysOf(front);
    InsertAppends(front, k, props[i].1);
    Snoc(props, i);
  }

  lemma {:induction false} ObjectRoundTrip(v: Value, rest: string)
    requires IsJsonData(v) && v.Obj?
    ensures ParseValue(JsonText(v) + rest) == Done(v, rest, true)
    decreases v, 1
  {
    var text := JsonText(v) + rest;
    var m := MembersText(v, 0, false);
    var inner := m + "}" + rest;
    assert JsonText(v) == "{" + m + "}";
    Regroup4("{", m, "}", rest);
    AfterFirst("{", inner);
    OpenDispatch(text);
    if v.props == [] {
      AfterFirst("}", rest);
      Opening(inner);
    } else {
      MemberText(v, 0);
      assert inner[0] == m[0];
      Opening(inner);
      MembersRoundTrip(v, 0, rest);
      assert v.props[..0] == [];
    }
  }

  /** The text of the members from i on, with and without the comma before them. */
  lemma MemberText(v: Value, i: nat)
    requires IsJsonData(v) && v.Obj? && i < |v.props|
    ensures MembersText(v, i, false) ==
      Quote(v.props[i].0) + ":" + JsonText(v.props[i].1) + MembersText(v, i + 1, true)
    ensures MembersText(v, i, true) == "," + MembersText(v, i, false)
    ensures MembersText(v, i, false)[0] == '"'
  {
    var q := Quote(v.props[i].0);
    var j := JsonText(v.props[i].1);
    var m := MembersText(v, i + 1, true);
    assert IsJsonData(v.props[i].1);
    Regroup5(",", q, ":", j, m);
    Regroup4(q, ":", j, m);
  }

  /** One member step of ParseMembers: a key, a colon, a value, then a comma or the closing brace. */
  lemma MemberStep(text: string, k: string, r1: string, x: Value, after: string)
    requires text != [] && text[0] == '"' && ParseChars(text[1..]) == Done(k, r1, true)
    requires ParseColonValue(r1) == Done(x, after, true)
    ensures ParseMember(text) == Done((k, x), after, true)
  {
    SkipWsNone(text);
  }

  lemma ColonStep(r1: string, x: Value, after: string)
    requires r1 != [] && r1[0] == ':' && ParseValue(r1[1..]) == Done(x, after, true)
    requires after != [] && (after[0] == ',' || after[0] == '}')
    ensures ParseColonValue(r1) == Done(x, after, true)
  {
    SkipWsNone(r1);
    SkipWsNone(after);
  }

  lemma MembersStep(text: string, acc: seq<Prop>, k: string, x: Value, after: string)
    requires ParseMember(text) == Done((k, x), after, true)
    requires after != [] && (after[0] == ',' || after[0] == '}')
    ensures after[0] == ',' ==> ParseMembers(text, acc, true) == ParseMembers(after[1..], Put(acc, k, x), true)
    ensures after[0] == '}' ==> ParseMembers(text, acc, true) == Done(Obj(Put(acc, k, x)), after[1..], true)
  {
  }

  /** The text of member i of v followed by the rest of the object: the
      quoted key, then r1 = ":" + the value's text + what follows it. */
  lemma MemberPieces(v: Value, i: nat, rest: string)
    requires IsJsonData(v) && v.Obj? && i < |v.props|
    ensures var text := MembersText(v, i, false) + "}" + rest;
      var after := MembersText(v, i + 1, true) + "}" + rest;
      var r1 := ":" + (JsonText(v.props[i].1) + after);
      && text[0] == '"' && text[1..] == Escape(v.props[i].0) + "\"" + r1
      && r1[0] == ':' && r1[1..] == JsonText(v.props[i].1) + after
  {
    var k := v.props[i].0;
    var j := JsonText(v.props[i].1);
    var m := MembersText(v, i + 1, true);
    var after := m + "}" + rest;
    var r1 := ":" + (j + after);
    MemberText(v, i);
    Regroup6(Quote(k), ":", j, m, "}", rest);
    Regroup4("\"", Escape(k), "\"", r1);
    AfterFirst("\"", Escape(k) + "\"" + r1);
    AfterFirst(":", j + after);
  }

  /** What follows a member: the closing brace after the last one, a comma and the next member otherwise. */
  lemma AfterMember(v: Value, i: nat, rest: string)
    requires IsJsonData(v) && v.Obj? && i < |v.props|
    ensures i + 1 == |v.props| ==> MembersText(v, i + 1, true) + "}" + rest == "}" + rest
    ensures i + 1 < |v.props| ==>
      var after := MembersText(v, i + 1, true) + "}" + rest;
      after[0] == ',' && after[1..] == MembersText(v, i + 1, false) + "}" + rest
  {
    if i + 1 < |v.props| {
      MemberText(v, i + 1);
      Regroup4(",", MembersText(v, i + 1, false), "}", rest);
      AfterFirst(",", MembersText(v, i + 1, false) + "}" + rest);
    }
  }

  lemma {:induction false} MembersRoundTrip(v: Value, i: nat, rest: string)
    requires IsJsonData(v) && v.Obj? && i < |v.props|
    ensures ParseMembers(MembersText(v, i, false) + "}" + rest, v.props[..i], true) == Done(v, rest, true)
    decreases v, 0, |v.props| - i
  {
    var k := v.props[i].0;
    var x := v.props[i].1;
    assert IsJsonData(x);
    var after := MembersText(v, i + 1, true) + "}" + rest;
    var r1 := ":" + (JsonText(x) + after);
    MemberPieces(v, i, rest);
    AfterMember(v, i, rest);
    CharsRoundTrip(k, r1);
    ValueRoundTrip(x, after);
    ColonStep(r1, x, after);
    MemberStep(MembersText(v, i, false) + "}" + rest, k, r1, x, after);
    MembersStep(MembersText(v, i, false) + "}" + rest, v.props[..i], k, x, after);
    PutNext(v.props, i);
    Snoc(v.props, i);
    if i + 1 < |v.props| {
      MembersRoundTrip(v, i + 1, rest);
    }
  }

  /** JSON.parse(JSON.stringify(v)) gives v back. */
  lemma JsonRoundTrip(v: Value)
    requires IsJsonData(v)
    ensures JsonParse(JsonText(v)) == Parsed(v)
  {
    ValueRoundTrip(v, []);
    assert JsonText(v) + [] == JsonText(v);
    assert ParseValue(JsonText(v)) == Done(v, [], true);
    assert SkipWs([]) == [];
  }
}
