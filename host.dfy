/** What the engine receives from outside and cannot see into: the data
    context that compile wraps in a proxy, the JavaScript evaluator behind
    evaluateExpression, and the directive handlers and function helpers
    that are registered with it. Each of them is a parameter of the model;
    only the engine's side of each call is modelled. */
module Host {
  import opened Base
  import opened JsValues

  /** How a call returned: with a value, or by throwing one. An awaited
      promise that rejects is a throw. */
  datatype Completion = Normal(value: Value) | Throw(exception: Value)

  /** A property of the data context: a plain value, or a function, given
      by what calling it without arguments does. */
  datatype Entry = Plain(value: Value) | Function(call: Completion)

  /** compile's `data`: the caller's data context, by property name. */
  datatype Data = Data(entries: map<string, Entry>)

  /** The proxy's get trap: a function-valued property is called and its
      result returned; any other property is returned as it is, and a name
      the data does not have reads as undefined. */
  function Get(data: Data, name: string): (r: Completion)
    ensures name !in data.entries ==> r == Normal(Undefined)
    ensures name in data.entries && data.entries[name].Plain? ==> r == Normal(data.entries[name].value)
    ensures name in data.entries && data.entries[name].Function? ==> r == data.entries[name].call
  {
    if name !in data.entries then Normal(Undefined)
    else
      match data.entries[name]
      case Plain(v) => Normal(v)
      case Function(c) => c
  }

  /** The data context as the code holding the proxy sees it: the names the
      `in` test finds (the proxy has no `has` trap, so these are the
      data's own), and what reading each name gives. */
  datatype Scope = Scope(names: set<string>, read: string -> Completion)

  /** new Proxy(data, this._handlerProxyData): every read goes through the
      get trap. */
  function Proxy(data: Data): (scope: Scope)
    ensures scope.names == data.entries.Keys
    ensures forall name :: scope.read(name) == Get(data, name)
  {
    Scope(data.entries.Keys, name => Get(data, name))
  }

  /** Reading a function-valued property through the proxy calls it: the
      read gives what the call gives, not the function. */
  lemma ProxyCalls(data: Data, name: string)
    requires name in data.entries && data.entries[name].Function?
    ensures name in Proxy(data).names
    ensures Proxy(data).read(name) == data.entries[name].call
  {
  }

  /** A directive handler: given the value of the directive's key and the
      proxied data context, the value it resolves to (awaited). */
  type Handler = (Value, Scope) -> Completion

  /** A function helper: given its converted arguments, its result (awaited). */
  type FunctionHelper = seq<Value> -> Completion

  /** The JavaScript evaluator behind evaluateExpression: whether
      `new Function("data", "with (data) { return <expression>; }")`
      accepts the expression's text, and what calling that function on the
      proxied data context does. */
  datatype Evaluator = Evaluator(compiles: string -> bool, run: (string, Scope) -> Completion)

  /** evaluateExpression: building the function is outside the try, so an
      expression that is not valid JavaScript throws its SyntaxError to
      the caller; the value of the expression is returned; a throw is
      caught and becomes undefined (the message goes to console.error),
      except that reading `e.message` of a thrown null or undefined throws
      a TypeError from inside the catch block. */
  function EvaluateExpression(evaluate: Evaluator, expression: string, scope: Scope): (r: Result<Value, Error>)
    ensures !evaluate.compiles(expression) ==> r.Err? && r.error.SyntaxError?
    ensures evaluate.compiles(expression) ==>
      match evaluate.run(expression, scope)
      case Normal(v) => r == Ok(v)
      case Throw(x) =>
        if x.Null? || x.Undefined? then r.Err? && r.error.TypeError?
        else r == Ok(Undefined)
  {
    if !evaluate.compiles(expression) then Err(SyntaxError("Unexpected token in " + expression))
    else
      match evaluate.run(expression, scope)
      case Normal(v) => Ok(v)
      case Throw(x) =>
        if x.Null? || x.Undefined? then Err(TypeError("Cannot read properties of " + (if x.Null? then "null" else "undefined") + " (reading 'message')"))
        else Ok(Undefined)
  }

  /** evaluateExpression fails exactly when the expression does not compile
      or its evaluation throws null or undefined. */
  lemma EvaluateFails(evaluate: Evaluator, expression: string, scope: Scope)
    ensures EvaluateExpression(evaluate, expression, scope).Err? <==>
      !evaluate.compiles(expression) ||
      (evaluate.run(expression, scope).Throw? &&
       (evaluate.run(expression, scope).exception.Null? || evaluate.run(expression, scope).exception.Undefined?))
  {
  }

  /** The properties every plain object inherits from Object.prototype. The
      registries are plain objects, so `name in registry` holds for these
      names before anything is registered, and reading them gives a value. */
  const InheritedNames: set<string> := {
    "constructor", "hasOwnProperty", "isPrototypeOf", "propertyIsEnumerable",
    "toLocaleString", "toString", "valueOf", "__proto__",
    "__defineGetter__", "__defineSetter__", "__lookupGetter__", "__lookupSetter__"
  }
}
