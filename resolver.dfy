/** parseValue: how a template string is resolved. The first pass replaces
    every {{expression}} with the stringified value of the trimmed
    expression; the second replaces every #name(arguments) with the
    stringified result of the function helper called with the arguments,
    split on commas and converted one by one; convertValue then turns the
    final text into a value. */
module Resolver {
  import opened Base
  import opened JsText
  import opened JsValues
  import opened Coercion
  import opened Host
  import opened Scanner

  // ---------------------------------------------------------------------
  // String.prototype.split(",") and its inverse

  /** s.split(","): the pieces between the commas; text without a comma is
      one piece, the empty text included. */
  function Split(s: string): (parts: seq<string>)
    ensures |parts| >= 1
    ensures forall i :: 0 <= i < |parts| ==> ',' !in parts[i]
  {
    if s == [] then [""]
    else
      var rest := Split(s[1..]);
      if s[0] == ',' then [""] + rest
      else [[s[0]] + rest[0]] + rest[1..]
  }

  /** parts.join(","). */
  function Join(parts: seq<string>): string
    requires |parts| >= 1
  {
    if |parts| == 1 then parts[0] else parts[0] + "," + Join(parts[1..])
  }

  /** Joining the pieces with commas gives the text back. */
  lemma {:induction false} JoinSplit(s: string)
    ensures Join(Split(s)) == s
  {
    if s != [] {
      JoinSplit(s[1..]);
      var rest := Split(s[1..]);
      if s[0] == ',' {
        assert Split(s)[1..] == rest;
      } else if |rest| > 1 {
        assert Split(s)[1..] == rest[1..];
      }
    }
  }

  /** Comma-free pieces are what splitting their join gives. */
  lemma {:induction false} SplitJoin(parts: seq<string>)
    requires |parts| >= 1 && forall i :: 0 <= i < |parts| ==> ',' !in parts[i]
    ensures Split(Join(parts)) == parts
    decreases |Join(parts)|, |parts|
  {
    if |parts| == 1 {
      SplitPiece(parts[0]);
    } else {
      var tail := Join(parts[1..]);
      SplitJoin(parts[1..]);
      SplitPrefix(parts[0], tail);
      assert parts == [parts[0]] + parts[1..];
    }
  }

  /** Text without a comma is one piece. */
  lemma {:induction false} SplitPiece(p: string)
    requires ',' !in p
    ensures Split(p) == [p]
  {
    if p != [] {
      SplitPiece(p[1..]);
      assert [p[0]] + p[1..] == p;
    }
  }

  /** A comma-free prefix followed by a comma is the first piece. */
  lemma {:induction false} SplitPrefix(p: string, tail: string)
    requires ',' !in p
    ensures Split(p + "," + tail) == [p] + Split(tail)
  {
    if p == [] {
      assert p + "," + tail == [','] + tail;
      assert (p + "," + tail)[1..] == tail;
    } else {
      SplitPrefix(p[1..], tail);
      assert (p + "," + tail)[1..] == p[1..] + "," + tail;
      assert [p[0]] + p[1..] == p;
    }
  }

  // ---------------------------------------------------------------------
  // The {{…}} pass

  /** match[1].trim(): the expression inside a {{…}} match. */
  function Expression(s: string, m: Span): string
    requires m.start + 4 <= m.end <= |s|
  {
    Trim(s[m.start + 2 .. m.end - 2])
  }

  predicate BracesMatches(s: string, ms: seq<Span>) {
    forall m :: m in ms ==> m.start + 4 <= m.end <= |s|
  }

  /** What the replace callback does for each match, in match order:
      evaluate its trimmed expression against the data context. */
  function Evaluations(evaluate: Evaluator, s: string, ms: seq<Span>, scope: Scope): (rs: seq<Result<Value, Error>>)
    requires BracesMatches(s, ms)
    ensures |rs| == |ms|
    ensures forall i :: 0 <= i < |ms| ==> rs[i] == EvaluateExpression(evaluate, Expression(s, ms[i]), scope)
    decreases |ms|
  {
    if ms == [] then []
    else [EvaluateExpression(evaluate, Expression(s, ms[0]), scope)] + Evaluations(evaluate, s, ms[1..], scope)
  }

  /** The text the callback returns for each value: stringifyValue's
      result, as replace writes it. */
  function Substitutions(vs: seq<Value>): (ts: seq<string>)
    ensures |ts| == |vs|
    ensures forall i :: 0 <= i < |vs| ==> ts[i] == Substitute(vs[i])
    decreases |vs|
  {
    if vs == [] then [] else [Substitute(vs[0])] + Substitutions(vs[1..])
  }

  lemma BracesSpans(s: string)
    ensures BracesMatches(s, Matches(Braces, s, 0))
  {
  }

  /** value.replace(/{{(.*?)}}/g, …): the callback runs on the matches in
      order, and the first evaluation that throws ends the replace with
      its error. */
  function Interpolate(evaluate: Evaluator, s: string, scope: Scope): Result<string, Error>
  {
    var ms := Matches(Braces, s, 0);
    BracesSpans(s);
    match AllOk(Evaluations(evaluate, s, ms, scope))
    case Err(e) => Err(e)
    case Ok(vs) => Ok(Splice(s, ms, Substitutions(vs), 0))
  }

  /** The {{…}} pass fails exactly when the evaluation of one of the
      matches fails, and then with the failure of the first that fails. */
  lemma InterpolateFails(evaluate: Evaluator, s: string, scope: Scope)
    ensures var ms := Matches(Braces, s, 0);
      BracesMatches(s, ms) &&
      var rs := Evaluations(evaluate, s, ms, scope);
      && (Interpolate(evaluate, s, scope).Err? <==> exists i :: 0 <= i < |rs| && rs[i].Err?)
      && (Interpolate(evaluate, s, scope).Err? ==>
            exists i :: 0 <= i < |rs| && rs[i] == Err(Interpolate(evaluate, s, scope).error) && forall j :: 0 <= j < i ==> rs[j].Ok?)
  {
  }

  /** When every evaluation succeeds, the {{…}} pass keeps the text between
      the matches and puts the i-th value's text where the i-th match was;
      the text is those same gaps with the matched text in between. */
  lemma InterpolateLayout(evaluate: Evaluator, s: string, scope: Scope)
    ensures var ms := Matches(Braces, s, 0);
      BracesMatches(s, ms) &&
      var rs := Evaluations(evaluate, s, ms, scope);
      && ((forall i :: 0 <= i < |rs| ==> rs[i].Ok?) ==>
            Interpolate(evaluate, s, scope) == Ok(Interleave(Gaps(s, ms, 0), Substitutions(seq(|rs|, i requires 0 <= i < |rs| => rs[i].value)))))
      && s == Interleave(Gaps(s, ms, 0), Matched(s, ms, 0))
  {
    var ms := Matches(Braces, s, 0);
    var rs := Evaluations(evaluate, s, ms, scope);
    if forall i :: 0 <= i < |rs| ==> rs[i].Ok? {
      var vs := AllOk(rs).value;
      assert vs == seq(|rs|, i requires 0 <= i < |rs| => rs[i].value);
      SpliceKeepsGaps(s, ms, Substitutions(vs), 0);
    }
    GapsAndMatches(s, ms, 0);
  }

  // ---------------------------------------------------------------------
  // The #name(arguments) pass

  /** Every result when all are values, otherwise the first failure in list
      order: how Promise.all settles, and how the converted arguments of a
      call are taken. */
  function AllOk<T>(rs: seq<Result<T, Error>>): (r: Result<seq<T>, Error>)
    ensures r.Ok? <==> forall i :: 0 <= i < |rs| ==> rs[i].Ok?
    ensures r.Ok? ==> |r.value| == |rs| && forall i :: 0 <= i < |rs| ==> rs[i] == Ok(r.value[i])
    ensures r.Err? ==> exists i :: 0 <= i < |rs| && rs[i] == Err(r.error) && forall j :: 0 <= j < i ==> rs[j].Ok?
  {
    if rs == [] then Ok([])
    else
      match rs[0]
      case Err(e) => Err(e)
      case Ok(v) =>
        match AllOk(rs[1..])
        case Err(e) =>
          var i :| 0 <= i < |rs[1..]| && rs[1..][i] == Err(e) && forall j :: 0 <= j < i ==> rs[1..][j].Ok?;
          assert rs[i + 1] == Err(e) && forall j :: 0 <= j < i + 1 ==> rs[j].Ok?;
          Err(e)
        case Ok(vs) => Ok([v] + vs)
  }

  /** pieces.map(convertValue). */
  function Conversions(pieces: seq<string>): (rs: seq<Result<Value, Error>>)
    ensures |rs| == |pieces|
  {
    if pieces == [] then [] else [ConvertValue(pieces[0])] + Conversions(pieces[1..])
  }

  /** The spread arguments of a call: the pieces converted left to right,
      the first conversion that fails failing the call. */
  function Arguments(pieces: seq<string>): (r: Result<seq<Value>, Error>)
    ensures r.Ok? ==> |r.value| == |pieces|
  {
    if pieces == [] then Ok([])
    else
      match ConvertValue(pieces[0])
      case Err(e) => Err(e)
      case Ok(v) =>
        match Arguments(pieces[1..])
        case Err(e) => Err(e)
        case Ok(vs) => Ok([v] + vs)
  }

  /** The arguments are pieces.map(convertValue), taken in order: every
      converted value when none fails, otherwise the first failure. */
  lemma {:induction false} ArgumentsInOrder(pieces: seq<string>)
    ensures Arguments(pieces) == AllOk(Conversions(pieces))
  {
    if pieces != [] {
      ArgumentsInOrder(pieces[1..]);
      assert Conversions(pieces)[1..] == Conversions(pieces[1..]);
    }
  }

  /** match[2]: the helper name of the call at i, '#' included. */
  function HelperName(s: string, i: nat): string
    requires CallAt(s, i).Some?
  {
    s[i .. CallAt(s, i).value.0]
  }

  /** match[3]: the argument text between the parentheses. */
  function ArgumentText(s: string, i: nat): string
    requires CallAt(s, i).Some?
  {
    var pk := CallAt(s, i).value;
    s[pk.0 + 1 .. pk.1]
  }

  predicate Primitive(v: Value) {
    v.Str? || v.Num? || v.Bool?
  }

  /** `await this._helpersFunctions[name](...args)`, stringified: the
      arguments are evaluated before the call, so a failed conversion comes
      first; a name nothing is registered under is not a function, and
      calling it throws a TypeError; a helper that throws fails the call. */
  function Invoke(functions: map<string, FunctionHelper>, name: string, args: Result<seq<Value>, Error>): (r: Result<Value, Error>)
  {
    match args
    case Err(e) => Err(e)
    case Ok(vs) =>
      if name !in functions then Err(TypeError("helper is not a function"))
      else
        match functions[name](vs)
        case Normal(v) => Ok(StringifyValue(v))
        case Throw(x) => Err(Thrown(x))
  }

  /** What a call settles to: a failed argument conversion first, then a
      name with no helper behind it, then the helper's own outcome. */
  lemma InvokeCases(functions: map<string, FunctionHelper>, name: string, args: Result<seq<Value>, Error>)
    ensures args.Err? ==> Invoke(functions, name, args) == Err(args.error)
    ensures args.Ok? && name !in functions ==> Invoke(functions, name, args).Err? && Invoke(functions, name, args).error.TypeError?
    ensures args.Ok? && name in functions ==>
      match functions[name](args.value)
      case Normal(v) => Invoke(functions, name, args) == Ok(StringifyValue(v)) && Primitive(Invoke(functions, name, args).value)
      case Throw(x) => Invoke(functions, name, args) == Err(Thrown(x))
  {
  }

  /** The awaited result of the replace callback for the call at i. */
  function CallResult(functions: map<string, FunctionHelper>, s: string, i: nat): (r: Result<Value, Error>)
    requires CallAt(s, i).Some?
    ensures r.Ok? ==> Primitive(r.value)
  {
    var args := Arguments(Split(ArgumentText(s, i)));
    InvokeCases(functions, HelperName(s, i), args);
    Invoke(functions, HelperName(s, i), args)
  }

  predicate CallMatches(s: string, ms: seq<Span>) {
    forall m :: m in ms ==> CallAt(s, m.start).Some?
  }

  /** The replace callback of the call pass over s: defined on the spans
      where a call starts, and settling to that call's result. */
  function Callback(functions: map<string, FunctionHelper>, s: string): (call: Span --> Result<Value, Error>)
    ensures forall m: Span :: CallAt(s, m.start).Some? ==> call.requires(m) && call(m) == CallResult(functions, s, m.start)
  {
    (m: Span) requires CallAt(s, m.start).Some? => CallResult(functions, s, m.start)
  }

  ghost predicate Callable(call: Span --> Result<Value, Error>, ms: seq<Span>) {
    forall m :: m in ms ==> call.requires(m)
  }

  /** The promises the first str.replace of replaceAsync collects: call
      run on each match, in order. */
  function Outcomes(call: Span --> Result<Value, Error>, ms: seq<Span>): (os: seq<Result<Value, Error>>)
    requires Callable(call, ms)
    ensures |os| == |ms|
    decreases |ms|
  {
    if ms == [] then []
    else
      var last := |ms| - 1;
      Outcomes(call, ms[..last]) + [call(ms[last])]
  }

  /** The i-th promise is the callback's result on the i-th match. */
  lemma {:induction false} OutcomesAt(call: Span --> Result<Value, Error>, ms: seq<Span>, i: nat)
    requires Callable(call, ms) && i < |ms|
    ensures Outcomes(call, ms)[i] == call(ms[i])
    decreases |ms|
  {
    var last := |ms| - 1;
    if i < last {
      assert ms[..last][i] == ms[i];
      OutcomesAt(call, ms[..last], i);
    }
  }

  /** Collecting one more match adds the callback's result on it at the end. */
  lemma OutcomesNext(call: Span --> Result<Value, Error>, ms: seq<Span>, i: nat)
    requires Callable(call, ms) && i < |ms|
    ensures Callable(call, ms[..i]) && Callable(call, ms[..i + 1])
    ensures Outcomes(call, ms[..i + 1]) == Outcomes(call, ms[..i]) + [call(ms[i])]
  {
    assert ms[..i + 1][..i] == ms[..i];
    assert ms[..i + 1][i] == ms[i];
  }

  /** The promises of the call pass over s: every call's result, in order. */
  lemma CallOutcomes(functions: map<string, FunctionHelper>, s: string, ms: seq<Span>)
    requires CallMatches(s, ms)
    ensures Callable(Callback(functions, s), ms)
    ensures var os := Outcomes(Callback(functions, s), ms);
      forall i :: 0 <= i < |ms| ==> os[i] == CallResult(functions, s, ms[i].start)
  {
    var call := Callback(functions, s);
    forall i | 0 <= i < |ms|
      ensures Outcomes(call, ms)[i] == CallResult(functions, s, ms[i].start)
    {
      OutcomesAt(call, ms, i);
    }
  }

  /** Every promise that succeeds holds a primitive, as stringifyValue
      makes it. */
  predicate Settled(os: seq<Result<Value, Error>>) {
    forall i :: 0 <= i < |os| && os[i].Ok? ==> Primitive(os[i].value)
  }

  /** Every promise of the call pass that succeeds holds a primitive. */
  lemma SettledPrimitive(functions: map<string, FunctionHelper>, s: string, ms: seq<Span>)
    requires CallMatches(s, ms)
    ensures Callable(Callback(functions, s), ms)
    ensures Settled(Outcomes(Callback(functions, s), ms))
  {
    CallOutcomes(functions, s, ms);
  }

  predicate AllPrimitive(vs: seq<Value>) {
    forall i :: 0 <= i < |vs| ==> Primitive(vs[i])
  }

  /** String(x) for each awaited result. */
  function Texts(vs: seq<Value>): (ts: seq<string>)
    requires AllPrimitive(vs)
    ensures |ts| == |vs| && forall i :: 0 <= i < |vs| ==> ts[i] == ToText(vs[i])
    decreases |vs|
  {
    if vs == [] then []
    else
      assert Primitive(vs[0]);
      [ToText(vs[0])] + Texts(vs[1..])
  }

  lemma TextsNext(vs: seq<Value>)
    requires AllPrimitive(vs) && vs != []
    ensures AllPrimitive(vs[1..]) && Texts(vs) == [ToText(vs[0])] + Texts(vs[1..])
  {
  }

  lemma CallSpans(s: string)
    ensures CallMatches(s, Matches(Call, s, 0))
  {
  }

  /** The settled promises os of the calls at ms put in place of them, or
      the first failure among them. */
  function SpliceResults(s: string, ms: seq<Span>, os: seq<Result<Value, Error>>): (r: Result<string, Error>)
    requires Ordered(ms, 0, |s|) && |os| == |ms|
    requires Settled(os)
  {
    match AllOk(os)
    case Err(e) => Err(e)
    case Ok(vs) =>
      assert AllPrimitive(vs) by {
        forall i | 0 <= i < |vs| ensures Primitive(vs[i]) {
          assert os[i] == Ok(vs[i]);
        }
      }
      Ok(Splice(s, ms, Texts(vs), 0))
  }

  /** replaceAsync(s, /((#.+?)\((.*?)\)).*?/g, …). */
  function ReplaceCalls(functions: map<string, FunctionHelper>, s: string): (r: Result<string, Error>)
  {
    var ms := Matches(Call, s, 0);
    CallSpans(s);
    SettledPrimitive(functions, s, ms);
    SpliceResults(s, ms, Outcomes(Callback(functions, s), ms))
  }

  /** The call pass fails exactly when one of the promises does, with the
      failure of the first that fails. */
  lemma ReplaceFails(s: string, ms: seq<Span>, os: seq<Result<Value, Error>>)
    requires Ordered(ms, 0, |s|) && |os| == |ms|
    requires Settled(os)
    ensures SpliceResults(s, ms, os).Err? <==> exists i :: 0 <= i < |os| && os[i].Err?
    ensures SpliceResults(s, ms, os).Err? ==>
      exists i :: 0 <= i < |os| && os[i] == Err(SpliceResults(s, ms, os).error) && forall j :: 0 <= j < i ==> os[j].Ok?
  {
  }

  /** When every promise succeeds, the call pass keeps the text between
      the matches and puts the i-th result where the i-th match was. */
  lemma ReplaceLayout(s: string, ms: seq<Span>, os: seq<Result<Value, Error>>)
    requires Ordered(ms, 0, |s|) && |os| == |ms|
    requires forall i :: 0 <= i < |os| ==> os[i].Ok? && Primitive(os[i].value)
    ensures var vs := seq(|os|, i requires 0 <= i < |os| => os[i].value);
      AllPrimitive(vs) && SpliceResults(s, ms, os) == Ok(Interleave(Gaps(s, ms, 0), Texts(vs)))
  {
    var vs := AllOk(os).value;
    assert vs == seq(|os|, i requires 0 <= i < |os| => os[i].value);
    SpliceKeepsGaps(s, ms, Texts(vs), 0);
  }

  // ---------------------------------------------------------------------
  // parseValue

  /** parseValue(s): both passes, then convertValue. */
  function ResolveString(evaluate: Evaluator, functions: map<string, FunctionHelper>, s: string, scope: Scope): (r: Result<Value, Error>)
    ensures r.Ok? ==> !r.value.Null?
  {
    match Interpolate(evaluate, s, scope)
    case Err(e) => Err(e)
    case Ok(t) =>
      match ReplaceCalls(functions, t)
      case Err(e) => Err(e)
      case Ok(u) => ConvertValue(u)
  }

  /** parseValue rejects when one of the {{…}} expressions does not compile
      or throws null or undefined, with the failure of the first such
      match. */
  lemma ExpressionFails(evaluate: Evaluator, functions: map<string, FunctionHelper>, s: string, scope: Scope, k: nat)
    requires var ms := Matches(Braces, s, 0);
      BracesMatches(s, ms) && k < |ms| && EvaluateExpression(evaluate, Expression(s, ms[k]), scope).Err?
    ensures var ms := Matches(Braces, s, 0);
      var rs := Evaluations(evaluate, s, ms, scope);
      var r := ResolveString(evaluate, functions, s, scope);
      r.Err? && exists i :: 0 <= i <= k && rs[i] == Err(r.error) && forall j :: 0 <= j < i ==> rs[j].Ok?
  {
    var ms := Matches(Braces, s, 0);
    var rs := Evaluations(evaluate, s, ms, scope);
    FirstFailure(rs, k);
    InterpolateFails(evaluate, s, scope);
    assert ResolveString(evaluate, functions, s, scope) == Err(Interpolate(evaluate, s, scope).error);
  }

  /** When the k-th result fails, the first failure is at or before k. */
  lemma FirstFailure(rs: seq<Result<Value, Error>>, k: nat)
    requires k < |rs| && rs[k].Err?
    ensures AllOk(rs).Err?
    ensures exists i :: 0 <= i <= k && rs[i] == Err(AllOk(rs).error) && forall j :: 0 <= j < i ==> rs[j].Ok?
  {
    var i :| 0 <= i < |rs| && rs[i] == Err(AllOk(rs).error) && forall j :: 0 <= j < i ==> rs[j].Ok?;
    assert i <= k;
  }


  /** Text with no {{…}} match is left alone by the first pass, and text
      with no #name(…) match by the second. */
  lemma NoMatchUnchanged(evaluate: Evaluator, functions: map<string, FunctionHelper>, s: string, scope: Scope)
    ensures Matches(Braces, s, 0) == [] ==> Interpolate(evaluate, s, scope) == Ok(s)
    ensures Matches(Call, s, 0) == [] ==> ReplaceCalls(functions, s) == Ok(s)
  {
    if Matches(Call, s, 0) == [] {
      assert SpliceResults(s, [], []) == Ok(s);
    }
  }


  /** A string with neither a '{' nor a '#' resolves to convertValue of itself. */
  lemma PlainString(evaluate: Evaluator, functions: map<string, FunctionHelper>, s: string, scope: Scope)
    requires forall k :: 0 <= k < |s| ==> s[k] != '{' && s[k] != '#'
    ensures ResolveString(evaluate, functions, s, scope) == ConvertValue(s)
  {
    NoStartNoMatch(Braces, s);
    NoStartNoMatch(Call, s);
    NoMatchUnchanged(evaluate, functions, s, scope);
  }

  /** A template string of white space only resolves to the number 0. */
  lemma BlankString(evaluate: Evaluator, functions: map<string, FunctionHelper>, s: string, scope: Scope)
    requires s != [] && AllSpace(s)
    ensures ResolveString(evaluate, functions, s, scope) == Ok(Num(0))
  {
    forall k | 0 <= k < |s| ensures s[k] != '{' && s[k] != '#' {
      assert IsJsSpace(s[k]);
    }
    PlainString(evaluate, functions, s, scope);
    ConvertBlank(s);
  }

  /** The decimal text of an integer holds neither a '{' nor a '#'. */
  lemma IntTextPlain(n: int)
    ensures forall k :: 0 <= k < |IntText(n)| ==> IntText(n)[k] != '{' && IntText(n)[k] != '#'
  {
    if n < 0 {
      assert IntText(n) == "-" + NatText(-n);
    }
  }

  /** A string that is one {{expression}} and nothing else resolves to the
      expression's value when that is an integer or a boolean: the value
      goes through its text and back unchanged. */
  lemma WholeExpression(evaluate: Evaluator, functions: map<string, FunctionHelper>, s: string, scope: Scope)
    requires IsBraces(s, 0, |s|)
    requires var r := EvaluateExpression(evaluate, Expression(s, Span(0, |s|)), scope);
      r.Ok? && (r.value.Num? || r.value.Bool?)
    ensures ResolveString(evaluate, functions, s, scope) == EvaluateExpression(evaluate, Expression(s, Span(0, |s|)), scope)
  {
    var v := EvaluateExpression(evaluate, Expression(s, Span(0, |s|)), scope).value;
    InterpolateWhole(evaluate, s, scope);
    SubstitutionPlain(v);
    CallsPlain(functions, Substitute(v));
    SubstituteThenConvert(v);
  }

  /** A string that is one {{expression}} whose evaluation fails rejects
      with that failure. */
  lemma WholeExpressionFails(evaluate: Evaluator, functions: map<string, FunctionHelper>, s: string, scope: Scope)
    requires IsBraces(s, 0, |s|)
    requires EvaluateExpression(evaluate, Expression(s, Span(0, |s|)), scope).Err?
    ensures ResolveString(evaluate, functions, s, scope) == EvaluateExpression(evaluate, Expression(s, Span(0, |s|)), scope)
  {
    InterpolateWhole(evaluate, s, scope);
  }

  /** Through the proxy, a string that is one {{name}} whose data property
      is a function resolves to what calling the function returns, for an
      evaluator under which the bare name reads that property of the data
      context, when the function returns an integer or a boolean. */
  lemma FunctionProperty(evaluate: Evaluator, functions: map<string, FunctionHelper>, s: string, data: Data, name: string)
    requires IsBraces(s, 0, |s|) && Expression(s, Span(0, |s|)) == name
    requires evaluate.compiles(name) && evaluate.run(name, Proxy(data)) == Proxy(data).read(name)
    requires name in data.entries && data.entries[name].Function? && data.entries[name].call.Normal?
    requires var v := data.entries[name].call.value; v.Num? || v.Bool?
    ensures ResolveString(evaluate, functions, s, Proxy(data)) == Ok(data.entries[name].call.value)
  {
    ProxyCalls(data, name);
    WholeExpression(evaluate, functions, s, Proxy(data));
  }

  /** The text written for an integer or a boolean has no '#'. */
  lemma SubstitutionPlain(v: Value)
    requires v.Num? || v.Bool?
    ensures forall k :: 0 <= k < |Substitute(v)| ==> Substitute(v)[k] != '#'
  {
    SubstituteText(v);
    if v.Num? {
      IntTextPlain(v.n);
    }
  }

  /** Text without a '#' passes the call pass unchanged. */
  lemma CallsPlain(functions: map<string, FunctionHelper>, t: string)
    requires forall k :: 0 <= k < |t| ==> t[k] != '#'
    ensures ReplaceCalls(functions, t) == Ok(t)
  {
    NoStartNoMatch(Call, t);
    assert SpliceResults(t, [], []) == Ok(t);
  }

  /** The first pass on a string that is one {{…}} match writes the
      expression's substitution only, or fails as its evaluation does. */
  lemma InterpolateWhole(evaluate: Evaluator, s: string, scope: Scope)
    requires IsBraces(s, 0, |s|)
    ensures Interpolate(evaluate, s, scope) ==
      match EvaluateExpression(evaluate, Expression(s, Span(0, |s|)), scope)
      case Ok(v) => Ok(Substitute(v))
      case Err(e) => Err(e)
  {
    OneMatch(s);
    var r := EvaluateExpression(evaluate, Expression(s, Span(0, |s|)), scope);
    assert Evaluations(evaluate, s, [Span(0, |s|)], scope) == [r];
    if r.Ok? {
      assert [r][1..] == [] && AllOk([r][1..]) == Ok([]);
      assert [r.value] + [] == [r.value];
      assert AllOk([r]) == Ok([r.value]);
      var t := Substitute(r.value);
      assert Substitutions([r.value]) == [t];
      assert Splice(s, [Span(0, |s|)], [t], 0) == s[0..0] + t + Splice(s, [], [], |s|);
      assert Splice(s, [Span(0, |s|)], [t], 0) == t;
      assert Evaluations(evaluate, s, Matches(Braces, s, 0), scope) == [r];
    }
  }

  /** A string that is one {{…}} match has that match only. */
  lemma OneMatch(s: string)
    requires IsBraces(s, 0, |s|)
    ensures Matches(Braces, s, 0) == [Span(0, |s|)]
  {
    BracesIff(s, 0, |s|);
    assert NextMatch(Braces, s, 0) == Some(Span(0, |s|));
    assert NextMatch(Braces, s, |s|) == None;
  }
}
