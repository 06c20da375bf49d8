/** The engine's conversions between text and values: convertValue turns a
    resolved string into a value, stringifyValue turns a value into what a
    substitution writes, tryParseJSON accepts JSON text for objects and
    arrays only, and getTypeArrayOrObject picks the kind of accumulator the
    template walker starts with. */
module Coercion {
  import opened Base
  import opened JsText
  import opened JsValues
  import opened Json

  /** `value.trim().toLowerCase()`, the text compared with "true" and "false". */
  function Keyword(s: string): string
  {
    ToLowerCase(Trim(s))
  }

  /** typeof o === "object" and o truthy: an object or an array, not null. */
  predicate IsContainer(v: Value) {
    v.Obj? || v.Arr?
  }

  /** The boolean s spells, as convertValue reads it: "true" or "false"
      after trimming and lower-casing. */
  function Word(s: string): (r: Option<bool>)
    ensures r == Some(true) <==> Keyword(s) == "true"
    ensures r == Some(false) <==> Keyword(s) == "false"
  {
    var k := Keyword(s);
    if k == "true" then
      assert k[0] != "false"[0];
      Some(true)
    else if k == "false" then Some(false)
    else None
  }

  /** tryParseJSON(s), json being what JSON.parse(s) does: the parsed value
      when it is an object or an array, s itself when JSON.parse returns
      anything else or throws. */
  function TryParseJson(s: string, json: JsonOutcome): (r: Result<Value, Error>)
    ensures r.Ok? && IsContainer(r.value) <==> json.Parsed? && IsContainer(json.value)
    ensures r.Ok? && IsContainer(r.value) ==> json == Parsed(r.value)
    ensures r.Ok? && !IsContainer(r.value) ==> r.value == Str(s)
    ensures r.Err? <==> json.Beyond? && IsContainer(json.standIn)
    ensures r.Err? ==> r.error == NotModelled(InexactJson)
  {
    match json
    case Parsed(o) => if IsContainer(o) then Ok(o) else Ok(Str(s))
    case Beyond(o) => if IsContainer(o) then Err(NotModelled(InexactJson)) else Ok(Str(s))
    case Malformed => Ok(Str(s))
  }

  /** convertValue(s), number, word and json being what Number(s), the
      trimmed lower-cased s and JSON.parse(s) give. The steps are tried in
      order: the empty string is undefined; text Number() reads as a number
      is that number (beyond this model unless it is a decimal integer);
      "true" and "false" are booleans; and tryParseJSON has the last word. */
  function ConvertWith(s: string, number: NumberValue, word: Option<bool>, json: JsonOutcome): (r: Result<Value, Error>)
    ensures r == Ok(Undefined) <==> s == []
    ensures r.Ok? && r.value.Num? <==> s != [] && number.NumInt?
    ensures r.Ok? && r.value.Num? ==> number == NumInt(r.value.n)
    ensures r.Ok? && r.value.Bool? <==> s != [] && number.NaN? && word.Some?
    ensures r.Ok? && r.value.Bool? ==> word == Some(r.value.b)
    ensures s != [] && number.NaN? && word.None? ==> r == TryParseJson(s, json)
    ensures r.Ok? && r.value.Str? ==> r.value.s == s
    ensures r.Ok? ==> !r.value.Null?
    ensures r.Err? <==> s != [] && (number.NumOther? || (number.NaN? && word.None? && TryParseJson(s, json).Err?))
  {
    if |s| == 0 then Ok(Undefined)
    else
      match number
      case NumInt(n) => Ok(Num(n))
      case NumOther => Err(NotModelled(NonIntegerNumber))
      case NaN =>
        match word
        case Some(b) => Ok(Bool(b))
        case None => TryParseJson(s, json)
  }

  /** convertValue(s). */
  function ConvertValue(s: string): (r: Result<Value, Error>)
    ensures r == Ok(Undefined) <==> s == []
    ensures r.Ok? ==> !r.value.Null?
    ensures r.Ok? && r.value.Str? ==> r.value.s == s
  {
    ConvertWith(s, JsNumber(s), Word(s), JsonParse(s))
  }

  /** stringifyValue(v): undefined and null become "", objects and arrays
      their JSON text, and every other value is returned as it is. */
  function StringifyValue(v: Value): (r: Value)
    ensures r.Str? || r.Num? || r.Bool?
    ensures r == Str("") <==> v.Undefined? || v.Null? || v == Str("") || (IsContainer(v) && JsonText(v) == "")
    ensures v.Str? || v.Num? || v.Bool? ==> r == v
    ensures IsContainer(v) ==> r == Str(JsonText(v))
  {
    if v.Undefined? || v.Null? then Str("")
    else if IsObjectType(v) then Str(JsonText(v))
    else v
  }

  /** String(v) for a primitive: what a replace callback's result turns into. */
  function ToText(v: Value): (t: string)
    requires v.Str? || v.Num? || v.Bool?
  {
    match v
    case Str(s) => s
    case Num(n) => IntText(n)
    case Bool(b) => if b then "true" else "false"
  }

  /** The text that replaces a match whose computed value is v. */
  function Substitute(v: Value): (t: string)
    ensures v.Undefined? || v.Null? ==> t == ""
    ensures v.Str? ==> t == v.s
    ensures IsContainer(v) ==> t == JsonText(v)
  {
    ToText(StringifyValue(v))
  }

  /** What getTypeArrayOrObject reports: "array", "object", or undefined. */
  datatype Kind = ArrayKind | ObjectKind | NoKind

  function GetTypeArrayOrObject(v: Value): (k: Kind)
    ensures k == ArrayKind <==> v.Arr?
    ensures k == ObjectKind <==> v.Obj?
  {
    if v.Arr? then ArrayKind else if v.Obj? then ObjectKind else NoKind
  }

  // ---------------------------------------------------------------------
  // What convertValue gives back

  /** Text Number() accepts starts with a digit, a sign, a point or "Infinity". */
  lemma NumericStart(t: string)
    requires IsNumericLiteral(t)
    ensures t != [] && (IsDigit(t[0]) || t[0] == '+' || t[0] == '-' || t[0] == '.' || t[0] == 'I')
  {
    if !IsNonDecimalLiteral(t) && !(t != [] && (t[0] == '+' || t[0] == '-') && IsUnsignedDecimal(t[1..])) {
      var a := DigitRun(t);
      if a > 0 {
        assert t[..a][0] == t[0];
      }
    }
  }

  /** The decimal text of an integer converts back to that integer. */
  lemma ConvertIntText(n: int)
    ensures ConvertValue(IntText(n)) == Ok(Num(n))
  {
    NumberOfIntText(n);
  }

  /** Text of white space only converts to 0. */
  lemma ConvertBlank(s: string)
    requires s != [] && AllSpace(s)
    ensures ConvertValue(s) == Ok(Num(0))
  {
    NumberOfBlank(s);
  }

  /** Text whose trimmed form starts with a character no number starts with
      is NaN to Number(). */
  lemma NotNumber(s: string)
    requires !AllSpace(s)
    requires var t := Trim(s); !(IsDigit(t[0]) || t[0] == '+' || t[0] == '-' || t[0] == '.' || t[0] == 'I')
    ensures JsNumber(s) == NaN
  {
    if IsNumericLiteral(Trim(s)) {
      NumericStart(Trim(s));
    }
  }

  /** "true" and "false", in any case and with any surrounding white space,
      convert to booleans. */
  lemma ConvertKeyword(s: string)
    requires Keyword(s) == "true" || Keyword(s) == "false"
    ensures ConvertValue(s) == Ok(Bool(Keyword(s) == "true"))
  {
    var t := Trim(s);
    LowerAt(t, 0);
    NotNumber(s);
  }

  /** JSON text of an object or array is bracketed. */
  lemma ContainerText(v: Value)
    requires IsContainer(v)
    ensures var t := JsonText(v);
      t != [] && (t[0] == '{' || t[0] == '[') && (t[|t| - 1] == '}' || t[|t| - 1] == ']')
  {
  }

  /** Bracketed text is neither a number nor a boolean to convertValue. */
  lemma BracketedText(t: string)
    requires t != [] && (t[0] == '{' || t[0] == '[') && (t[|t| - 1] == '}' || t[|t| - 1] == ']')
    ensures JsNumber(t) == NaN && Word(t) == None
  {
    assert Trim(t) == t;
    NotNumber(t);
    BracketedKeyword(t);
  }

  lemma BracketedKeyword(t: string)
    requires Trim(t) == t && t != [] && (t[0] == '{' || t[0] == '[')
    ensures Word(t) == None
  {
    LowerAt(t, 0);
  }

  /** The JSON text of an object or array converts back to it: what the
      {{…}} pass writes for such a value is read back by the final
      convertValue of parseValue. */
  lemma ConvertJsonText(v: Value)
    requires IsJsonData(v) && IsContainer(v)
    ensures ConvertValue(JsonText(v)) == Ok(v)
  {
    ContainerText(v);
    BracketedText(JsonText(v));
    JsonRoundTrip(v);
  }

  /** The text a substitution writes for an integer, a boolean, an object or an array. */
  lemma SubstituteText(v: Value)
    ensures v.Num? ==> Substitute(v) == IntText(v.n)
    ensures v.Bool? ==> Substitute(v) == if v.b then "true" else "false"
  {
  }

  /** A substitution that makes up the whole of a string is read back by
      convertValue as the value it was computed from, for integers,
      booleans, and objects and arrays that JSON text describes. */
  lemma SubstituteThenConvert(v: Value)
    requires v.Num? || v.Bool? || (IsJsonData(v) && IsContainer(v))
    ensures ConvertValue(Substitute(v)) == Ok(v)
  {
    SubstituteText(v);
    if v.Num? {
      ConvertIntText(v.n);
    } else if v.Bool? {
      BoolWord(v.b);
    } else {
      ConvertJsonText(v);
    }
  }

  lemma BoolWord(b: bool)
    ensures ConvertValue(if b then "true" else "false") == Ok(Bool(b))
  {
    var w := if b then "true" else "false";
    LowerWord(w);
    ConvertKeyword(w);
  }

  /** A word of lower-case letters is its own keyword. */
  lemma LowerWord(w: string)
    requires w != [] && forall i :: 0 <= i < |w| ==> 'a' <= w[i] <= 'z'
    ensures Keyword(w) == w
  {
    var a, z := w[0], w[|w| - 1];
    assert 'a' <= a <= 'z' && 'a' <= z <= 'z';
    assert !IsJsSpace(a) && !IsJsSpace(z);
    assert Trim(w) == w;
    LowerFixed(w);
  }

  lemma LowerFixed(w: string)
    requires forall i :: 0 <= i < |w| ==> 'a' <= w[i] <= 'z'
    ensures ToLowerCase(w) == w
  {
    forall i | 0 <= i < |w|
      ensures ToLowerCase(w)[i] == w[i]
    {
      LowerAt(w, i);
    }
  }
}
