/** The JSONTemplateEngine class: its two registries, updated in place by
    registerHelper and registerFunctionHelper, and the methods that resolve
    a template against them. Each method is proved to compute what the
    functions of modules Walker and Resolver specify. */
module Engine {
  import opened Base
  import opened JsValues
  import opened Coercion
  import opened Host
  import opened Scanner
  import opened Resolver
  import opened Walker

  /** `directive in registry`, then `registry[directive] = handler`: a name
      already there, or one every plain object inherits, is refused with
      the error registerHelper throws; any other name is added, and nothing
      else changes. */
  function Register<T>(registry: map<string, T>, directive: string, handler: T): (r: Result<map<string, T>, Error>)
    ensures r.Err? <==> directive in registry || directive in InheritedNames
    ensures r.Err? ==> r.error == ConfigError(directive + " already exist.")
    ensures r.Ok? ==> r.value.Keys == registry.Keys + {directive} && r.value[directive] == handler
    ensures r.Ok? ==> forall k :: k in registry ==> r.value[k] == registry[k]
  {
    if directive in registry || directive in InheritedNames then Err(ConfigError(directive + " already exist."))
    else Ok(registry[directive := handler])
  }

  /** A name can be registered once: registering it again is refused, with
      whatever handler. */
  lemma RegisterOnce<T>(registry: map<string, T>, directive: string, handler: T, other: T)
    requires Register(registry, directive, handler).Ok?
    ensures Register(Register(registry, directive, handler).value, directive, other).Err?
  {
  }

  /** Names that start with '#', like the built-in ones, are not inherited. */
  lemma HashNotInherited(name: string)
    requires name != [] && name[0] == '#'
    ensures name !in InheritedNames
  {
  }

  lemma Regroup(a: string, b: string, c: string)
    ensures a + b + c == a + (b + c)
  {
  }

  class JsonTemplateEngine {
    /** this._helpers: the directive handlers, by directive key. */
    var helpers: map<string, Handler>
    /** this._helpersFunctions: the function helpers, by name. */
    var helpersFunctions: map<string, FunctionHelper>
    /** What evaluateExpression runs an expression with. */
    const evaluate: Evaluator

    function Context(): Env
      reads this
    {
      Env(helpers, helpersFunctions, evaluate)
    }

    /** The constructor registers the built-in directives #comment, #if and
        #each and the built-in function helper #range. */
    constructor(evaluate: Evaluator, comment: Handler, ifHelper: Handler, each: Handler, range: FunctionHelper)
      ensures helpers == map["#comment" := comment, "#if" := ifHelper, "#each" := each]
      ensures helpersFunctions == map["#range" := range]
      ensures this.evaluate == evaluate
    {
      this.evaluate := evaluate;
      helpers := map[];
      helpersFunctions := map[];
      new;
      HashNotInherited("#comment");
      HashNotInherited("#if");
      HashNotInherited("#each");
      HashNotInherited("#range");
      var r1 := RegisterHelper("#comment", comment);
      var r2 := RegisterHelper("#if", ifHelper);
      var r3 := RegisterHelper("#each", each);
      var r4 := RegisterFunctionHelper("#range", range);
    }

    /** registerHelper(directive, handler). */
    method RegisterHelper(directive: string, handler: Handler) returns (r: Result<(), Error>)
      modifies this
      ensures match Register(old(helpers), directive, handler)
        case Ok(m) => r.Ok? && helpers == m
        case Err(e) => r == Err(e) && helpers == old(helpers)
      ensures helpersFunctions == old(helpersFunctions)
    {
      if directive in helpers || directive in InheritedNames {
        return Err(ConfigError(directive + " already exist."));
      }
      helpers := helpers[directive := handler];
      return Ok(());
    }

    /** registerFunctionHelper(directive, handler). */
    method RegisterFunctionHelper(directive: string, handler: FunctionHelper) returns (r: Result<(), Error>)
      modifies this
      ensures match Register(old(helpersFunctions), directive, handler)
        case Ok(m) => r.Ok? && helpersFunctions == m
        case Err(e) => r == Err(e) && helpersFunctions == old(helpersFunctions)
      ensures helpers == old(helpers)
    {
      if directive in helpersFunctions || directive in InheritedNames {
        return Err(ConfigError(directive + " already exist."));
      }
      helpersFunctions := helpersFunctions[directive := handler];
      return Ok(());
    }

    /** parseTemplate(template, data). */
    method ParseTemplate(template: Value, scope: Scope) returns (r: Result<Value, Error>)
      ensures r == Walk(Context(), template, scope)
      decreases Size(template), 3
    {
      WalkSteps(Context(), template, scope);
      var kind := GetTypeArrayOrObject(template);
      var own := OwnKeys(template);
      if own.Err? {
        return Err(own.error);
      }
      var folded := ParseKeys(template, kind, own.value, scope);
      if folded.Err? {
        return Err(folded.error);
      }
      var result := folded.value;
      var remaining := OwnKeys(result);
      if remaining.Err? {
        return Err(remaining.error);
      }
      if |remaining.value| != 0 {
        return Ok(result);
      } else {
        return Ok(Undefined);
      }
    }

    /** The loop of parseTemplate over the own keys of template. */
    method ParseKeys(template: Value, kind: Kind, keys: seq<string>, scope: Scope) returns (r: Result<Value, Error>)
      ensures r == Fold(Context(), template, kind, keys, Start(kind), scope)
      decreases Size(template), 2
    {
      ghost var env := Context();
      var result := if kind == ArrayKind then Arr([], []) else Obj([]);
      assert result == Start(kind);
      var i := 0;
      while i < |keys|
        invariant i <= |keys|
        invariant Fold(env, template, kind, keys, Start(kind), scope) == Fold(env, template, kind, keys[i..], result, scope)
      {
        FoldStep(env, template, kind, keys[i..], result, scope);
        assert keys[i..][1..] == keys[i + 1..];
        var next := ParseKey(template, kind, keys[i], result, scope);
        if next.Err? {
          return Err(next.error);
        }
        result := next.value;
        i := i + 1;
      }
      return Ok(result);
    }

    /** The loop body of parseTemplate for one key. */
    method ParseKey(template: Value, kind: Kind, key: string, result: Value, scope: Scope) returns (r: Result<Value, Error>)
      ensures r == Step(Context(), template, kind, key, result, scope)
      decreases Size(template), 1
    {
      if key in helpers {
        r := RunDirective(template, kind, key, result, scope);
        return;
      }
      if key in InheritedNames {
        return Err(NotModelled(InheritedKey));
      }
      var leaf := ParseLeaf(template, key, scope);
      StoreStep(Context(), template, kind, key, result, scope);
      if leaf.Err? {
        return Err(leaf.error);
      }
      if leaf.value == Undefined {
        return Ok(result);
      }
      if IsObjectType(GetProp(template, key)) && kind != ObjectKind {
        return Push(result, leaf.value);
      }
      return SetProp(result, key, leaf.value);
    }

    /** A directive key: its handler's result replaces the accumulator, or
        the key is deleted when that is undefined. */
    method RunDirective(template: Value, kind: Kind, key: string, result: Value, scope: Scope) returns (r: Result<Value, Error>)
      requires key in helpers
      ensures r == Step(Context(), template, kind, key, result, scope)
    {
      DirectiveStep(Context(), template, kind, key, result, scope);
      var reservedKeysResult := helpers[key](GetProp(template, key), scope);
      if reservedKeysResult.Throw? {
        return Err(Thrown(reservedKeysResult.exception));
      }
      if reservedKeysResult.value != Undefined {
        return Ok(reservedKeysResult.value);
      }
      return DeleteProp(result, key);
    }

    /** The typeof tests of the loop body: what a number, a string or a
        nested template at key contributes. */
    method ParseLeaf(template: Value, key: string, scope: Scope) returns (r: Result<Value, Error>)
      ensures r == Leaf(Context(), template, key, scope)
      decreases Size(template), 0
    {
      var child := GetProp(template, key);
      if child.Num? {
        return Ok(child);
      }
      if child.Str? {
        r := ParseValue(child.s, scope);
        return;
      }
      if IsObjectType(child) {
        ChildSmaller(template, key);
        var resultCompile := ParseTemplate(child, scope);
        if resultCompile.Err? {
          return Err(resultCompile.error);
        }
        if Truthy(resultCompile.value) {
          return Ok(resultCompile.value);
        }
      }
      return Ok(Undefined);
    }

    /** parseValue(value, data). */
    method ParseValue(value: string, scope: Scope) returns (r: Result<Value, Error>)
      ensures r == ResolveString(evaluate, helpersFunctions, value, scope)
    {
      var resultParseValue := Interpolate(evaluate, value, scope);
      if resultParseValue.Err? {
        return Err(resultParseValue.error);
      }
      var resultParseFunction := ReplaceAsync(resultParseValue.value);
      if resultParseFunction.Err? {
        return Err(resultParseFunction.error);
      }
      return ConvertValue(resultParseFunction.value);
    }

    /** replaceAsync(str, regFunction, callback): a first scan collects one
        pending result per match, Promise.all waits for all of them, and a
        second scan replaces each match with the next result shifted off
        the front of the list. */
    method ReplaceAsync(str: string) returns (r: Result<string, Error>)
      ensures r == ReplaceCalls(helpersFunctions, str)
    {
      var matches := Matches(Call, str, 0);
      CallSpans(str);
      SettledPrimitive(helpersFunctions, str, matches);
      var promises := CollectCalls(str, matches);
      var data := AllOk(promises);
      if data.Err? {
        return Err(data.error);
      }
      assert AllPrimitive(data.value) by {
        forall i | 0 <= i < |data.value| ensures Primitive(data.value[i]) {
          assert promises[i] == Ok(data.value[i]);
        }
      }
      var out := ShiftResults(str, matches, data.value);
      return Ok(out);
    }

    /** The first str.replace of replaceAsync: one pending result per
        match, in order. */
    method CollectCalls(str: string, matches: seq<Span>) returns (promises: seq<Result<Value, Error>>)
      requires CallMatches(str, matches)
      ensures Callable(Callback(helpersFunctions, str), matches)
      ensures promises == Outcomes(Callback(helpersFunctions, str), matches)
    {
      ghost var call := Callback(helpersFunctions, str);
      assert Callable(call, matches);
      promises := [];
      var i := 0;
      while i < |matches|
        invariant i <= |matches|
        invariant promises == Outcomes(call, matches[..i])
      {
        OutcomesNext(call, matches, i);
        var promise := CallHelper(str, matches[i].start);
        promises := promises + [promise];
        i := i + 1;
      }
      assert matches[..i] == matches;
    }

    /** The replace callback of the first scan, for the call at i. */
    method CallHelper(str: string, i: nat) returns (promise: Result<Value, Error>)
      requires CallAt(str, i).Some?
      ensures promise == CallResult(helpersFunctions, str, i)
    {
      var args := Arguments(Split(ArgumentText(str, i)));
      InvokeCases(helpersFunctions, HelperName(str, i), args);
      promise := Invoke(helpersFunctions, HelperName(str, i), args);
    }

    /** The second str.replace of replaceAsync: the matches in order, each
        giving way to String(data.shift()). */
    method ShiftResults(str: string, matches: seq<Span>, data: seq<Value>) returns (out: string)
      requires Ordered(matches, 0, |str|)
      requires AllPrimitive(data) && |data| == |matches|
      ensures out == Splice(str, matches, Texts(data), 0)
    {
      var queue := data;
      var rest := matches;
      out := "";
      var pos: nat := 0;
      while rest != []
        invariant pos <= |str| && Ordered(rest, pos, |str|)
        invariant AllPrimitive(queue) && |queue| == |rest|
        invariant out + Splice(str, rest, Texts(queue), pos) == Splice(str, matches, Texts(data), 0)
        decreases |rest|
      {
        var m := rest[0];
        TextsNext(queue);
        SpliceNext(str, m, rest[1..], Texts(queue), pos);
        assert rest == [m] + rest[1..];
        ghost var tail := Splice(str, rest[1..], Texts(queue[1..]), m.end);
        Regroup(out, str[pos..m.start] + ToText(queue[0]), tail);
        out := out + str[pos..m.start] + ToText(queue[0]);
        queue := queue[1..];
        rest := rest[1..];
        pos := m.end;
      }
      out := out + str[pos..];
    }

    /** compile(template, data): the walk, with the data context wrapped in
        the proxy whose get trap calls function-valued properties. */
    method Compile(template: Value, data: Data) returns (r: Result<Value, Error>)
      ensures r == Walk(Context(), template, Proxy(data))
    {
      var proxyData := Proxy(data);
      r := ParseTemplate(template, proxyData);
    }
  }
}
