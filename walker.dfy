/** parseTemplate as a specification: the walk over a template's keys in
    Object.keys order, building the result the method returns. The method
    of the engine class follows these functions step by step. */
module Walker {
  import opened Base
  import opened JsText
  import opened JsValues
  import opened Coercion
  import opened Host
  import opened Resolver

  /** What the walk consults: the two registries and the evaluator. */
  datatype Env = Env(helpers: map<string, Handler>, functions: map<string, FunctionHelper>, evaluate: Evaluator)

  /** The accumulator parseTemplate starts with: [] for an array template,
      {} for anything else. */
  function Start(kind: Kind): (r: Value)
    ensures r.Arr? <==> kind == ArrayKind
    ensures r.Arr? ==> r == Arr([], [])
    ensures !r.Arr? ==> r == Obj([])
  {
    if kind == ArrayKind then Arr([], []) else Obj([])
  }

  /** A key the walk treats as a leaf: neither a registered directive nor
      a name the registry inherits. */
  predicate PlainKey(env: Env, key: string) {
    key !in env.helpers && key !in InheritedNames
  }

  /** parseTemplate(template, data). */
  function Walk(env: Env, template: Value, scope: Scope): (r: Result<Value, Error>)
    decreases Size(template), 3, 0
  {
    var kind := GetTypeArrayOrObject(template);
    match OwnKeys(template)
    case Err(e) => Err(e)
    case Ok(keys) =>
      match Fold(env, template, kind, keys, Start(kind), scope)
      case Err(e) => Err(e)
      case Ok(result) => Finish(result)
  }

  /** The loop over the keys, from acc on. */
  function Fold(env: Env, template: Value, kind: Kind, keys: seq<string>, acc: Value, scope: Scope): (r: Result<Value, Error>)
    decreases Size(template), 2, |keys|
  {
    if keys == [] then Ok(acc)
    else
      match Step(env, template, kind, keys[0], acc, scope)
      case Err(e) => Err(e)
      case Ok(next) => Fold(env, template, kind, keys[1..], next, scope)
  }

  /** One pass of the loop body, for key. A directive's handler gets the
      key's value and the data; a defined result replaces the accumulator
      and an undefined one deletes key from it. Any other key gets its leaf
      value, which is stored unless it is undefined: pushed when it came
      from a nested template and the template is not an object, assigned at
      key otherwise. */
  function Step(env: Env, template: Value, kind: Kind, key: string, acc: Value, scope: Scope): (r: Result<Value, Error>)
    decreases Size(template), 1, 0
  {
    var child := GetProp(template, key);
    if key in env.helpers then
      match env.helpers[key](child, scope)
      case Throw(x) => Err(Thrown(x))
      case Normal(v) => if v == Undefined then DeleteProp(acc, key) else Ok(v)
    else if key in InheritedNames then Err(NotModelled(InheritedKey))
    else
      match Leaf(env, template, key, scope)
      case Err(e) => Err(e)
      case Ok(x) =>
        if x == Undefined then Ok(acc)
        else if IsObjectType(child) && kind != ObjectKind then Push(acc, x)
        else SetProp(acc, key, x)
  }

  /** What a leaf key contributes, undefined meaning nothing: a number as it
      is, a string as parseValue resolves it, a nested template (null
      included, since typeof null is "object") as parseTemplate walks it
      when that is truthy; anything else, a boolean among them, nothing. */
  function Leaf(env: Env, template: Value, key: string, scope: Scope): (r: Result<Value, Error>)
    decreases Size(template), 0, 0
  {
    var child := GetProp(template, key);
    if child.Num? then Ok(child)
    else if child.Str? then ResolveString(env.evaluate, env.functions, child.s, scope)
    else if IsObjectType(child) then
      ChildSmaller(template, key);
      match Walk(env, child, scope)
      case Err(e) => Err(e)
      case Ok(w) => Ok(if Truthy(w) then w else Undefined)
    else Ok(Undefined)
  }

  /** The end of parseTemplate: undefined for a result without own keys. */
  function Finish(result: Value): (r: Result<Value, Error>)
  {
    match OwnKeys(result)
    case Err(e) => Err(e)
    case Ok(ks) => if |ks| == 0 then Ok(Undefined) else Ok(result)
  }

  /** Walk, unfolded. */
  lemma WalkSteps(env: Env, template: Value, scope: Scope)
    ensures OwnKeys(template).Err? ==> Walk(env, template, scope) == Err(OwnKeys(template).error)
    ensures OwnKeys(template).Ok? ==>
      var kind := GetTypeArrayOrObject(template);
      var f := Fold(env, template, kind, OwnKeys(template).value, Start(kind), scope);
      Walk(env, template, scope) == if f.Err? then Err(f.error) else Finish(f.value)
  {
  }

  /** One turn of the loop, unfolded. */
  lemma FoldStep(env: Env, template: Value, kind: Kind, keys: seq<string>, acc: Value, scope: Scope)
    requires keys != []
    ensures Fold(env, template, kind, keys, acc, scope) ==
      match Step(env, template, kind, keys[0], acc, scope)
      case Err(e) => Err(e)
      case Ok(next) => Fold(env, template, kind, keys[1..], next, scope)
  {
  }

  /** Step for a directive key, unfolded. */
  lemma DirectiveStep(env: Env, template: Value, kind: Kind, key: string, acc: Value, scope: Scope)
    requires key in env.helpers
    ensures Step(env, template, kind, key, acc, scope) ==
      match env.helpers[key](GetProp(template, key), scope)
      case Throw(x) => Err(Thrown(x))
      case Normal(v) => if v == Undefined then DeleteProp(acc, key) else Ok(v)
  {
  }

  /** Step for a leaf key, unfolded. */
  lemma StoreStep(env: Env, template: Value, kind: Kind, key: string, acc: Value, scope: Scope)
    requires PlainKey(env, key)
    ensures Step(env, template, kind, key, acc, scope) ==
      match Leaf(env, template, key, scope)
      case Err(e) => Err(e)
      case Ok(x) =>
        if x == Undefined then Ok(acc)
        else if IsObjectType(GetProp(template, key)) && kind != ObjectKind then Push(acc, x)
        else SetProp(acc, key, x)
  {
  }

  // ---------------------------------------------------------------------
  // The result

  /** What parseTemplate returns is undefined, or a value with own keys,
      which makes it truthy; it is undefined exactly when the accumulator
      the loop ends with has no own keys. */
  lemma WalkResult(env: Env, template: Value, scope: Scope)
    ensures var r := Walk(env, template, scope);
      r.Ok? && r.value != Undefined ==> OwnKeys(r.value).Ok? && OwnKeys(r.value).value != [] && Truthy(r.value)
    ensures var r := Walk(env, template, scope);
      var kind := GetTypeArrayOrObject(template);
      r.Ok? ==>
        var acc := Fold(env, template, kind, OwnKeys(template).value, Start(kind), scope).value;
        (r.value == Undefined <==> OwnKeys(acc) == Ok([]))
  {
    var r := Walk(env, template, scope);
    if r.Ok? {
      var kind := GetTypeArrayOrObject(template);
      var keys := OwnKeys(template).value;
      FoldDefined(env, template, kind, keys, Start(kind), scope);
      var acc := Fold(env, template, kind, keys, Start(kind), scope).value;
      if r.value != Undefined && r.value.Str? {
        assert |r.value.s| != 0;
      }
    }
  }

  /** The accumulator is never undefined: a directive's undefined result
      deletes instead of replacing. */
  lemma {:induction false} FoldDefined(env: Env, template: Value, kind: Kind, keys: seq<string>, acc: Value, scope: Scope)
    requires acc != Undefined
    ensures var r := Fold(env, template, kind, keys, acc, scope); r.Ok? ==> r.value != Undefined
    decreases |keys|
  {
    if keys != [] {
      var s := Step(env, template, kind, keys[0], acc, scope);
      if s.Ok? {
        StepDefined(env, template, kind, keys[0], acc, scope);
        FoldDefined(env, template, kind, keys[1..], s.value, scope);
      }
    }
  }

  lemma StepDefined(env: Env, template: Value, kind: Kind, key: string, acc: Value, scope: Scope)
    requires acc != Undefined
    ensures var r := Step(env, template, kind, key, acc, scope); r.Ok? ==> r.value != Undefined
  {
  }

  // ---------------------------------------------------------------------
  // Directives

  /** A directive's handler decides the key alone: a defined result becomes
      the accumulator the later keys are written into. */
  lemma DirectiveReplaces(env: Env, template: Value, kind: Kind, keys: seq<string>, acc: Value, scope: Scope, v: Value)
    requires keys != [] && keys[0] in env.helpers
    requires env.helpers[keys[0]](GetProp(template, keys[0]), scope) == Normal(v) && v != Undefined
    ensures Fold(env, template, kind, keys, acc, scope) == Fold(env, template, kind, keys[1..], v, scope)
  {
    assert Step(env, template, kind, keys[0], acc, scope) == Ok(v);
  }

  /** A directive whose handler throws fails the walk with what it threw. */
  lemma DirectiveThrows(env: Env, template: Value, kind: Kind, keys: seq<string>, acc: Value, scope: Scope, x: Value)
    requires keys != [] && keys[0] in env.helpers
    requires env.helpers[keys[0]](GetProp(template, keys[0]), scope) == Throw(x)
    ensures Fold(env, template, kind, keys, acc, scope) == Err(Thrown(x))
  {
    assert Step(env, template, kind, keys[0], acc, scope) == Err(Thrown(x));
  }

  /** A directive whose handler gives undefined removes its key from the
      accumulator and changes nothing else. */
  lemma DirectiveDeletes(env: Env, template: Value, kind: Kind, key: string, acc: Value, scope: Scope)
    requires key in env.helpers && env.helpers[key](GetProp(template, key), scope) == Normal(Undefined)
    ensures var d := Step(env, template, kind, key, acc, scope);
      && d == DeleteProp(acc, key)
      && (d.Ok? ==> GetProp(d.value, key) == Undefined && forall k :: k != key ==> GetProp(d.value, k) == GetProp(acc, k))
  {
  }

  // ---------------------------------------------------------------------
  // Leaves

  /** Numbers are copied, booleans dropped, and a null value fails the walk
      with the TypeError Object.keys(null) throws. */
  lemma LeafKinds(env: Env, template: Value, key: string, scope: Scope)
    ensures GetProp(template, key).Num? ==> Leaf(env, template, key, scope) == Ok(GetProp(template, key))
    ensures GetProp(template, key).Bool? ==> Leaf(env, template, key, scope) == Ok(Undefined)
    ensures GetProp(template, key).Null? ==> Leaf(env, template, key, scope).Err? && Leaf(env, template, key, scope).error.TypeError?
  {
  }

  /** If the loop gets through the keys, every leaf key among them got a value. */
  lemma {:induction false} FoldLeaves(env: Env, template: Value, kind: Kind, keys: seq<string>, acc: Value, scope: Scope, k: string)
    requires k in keys && PlainKey(env, k)
    requires Fold(env, template, kind, keys, acc, scope).Ok?
    ensures Leaf(env, template, k, scope).Ok?
    decreases |keys|
  {
    var s := Step(env, template, kind, keys[0], acc, scope);
    if keys[0] != k {
      FoldLeaves(env, template, kind, keys[1..], s.value, scope, k);
    }
  }

  /** A walk that succeeds met no null leaf. */
  lemma NullLeafFails(env: Env, template: Value, scope: Scope, k: string)
    requires Walk(env, template, scope).Ok?
    requires k in OwnKeys(template).value && PlainKey(env, k)
    ensures GetProp(template, k) != Null
  {
    var kind := GetTypeArrayOrObject(template);
    FoldLeaves(env, template, kind, OwnKeys(template).value, Start(kind), scope, k);
    LeafKinds(env, template, k, scope);
  }

  // ---------------------------------------------------------------------
  // Templates without directives

  predicate Distinct(keys: seq<string>) {
    forall i, j :: 0 <= i < j < |keys| ==> keys[i] != keys[j]
  }

  /** The value a leaf key ends with in the result of a walk that got
      through: its leaf value, undefined meaning absent. */
  function LeafValue(env: Env, template: Value, key: string, scope: Scope): Value
  {
    match Leaf(env, template, key, scope)
    case Ok(x) => x
    case Err(_) => Undefined
  }

  /** In an object template without directives, the loop writes each key
      once, with its leaf value, and no other key. */
  lemma {:induction false} FoldObject(env: Env, template: Value, keys: seq<string>, acc: Value, scope: Scope, k: string)
    requires acc.Obj? && Distinct(keys)
    requires forall key :: key in keys ==> PlainKey(env, key) && GetProp(acc, key) == Undefined
    requires Fold(env, template, ObjectKind, keys, acc, scope).Ok?
    ensures var r := Fold(env, template, ObjectKind, keys, acc, scope).value;
      && r.Obj?
      && GetProp(r, k) == (if k in keys then LeafValue(env, template, k, scope) else GetProp(acc, k))
      && forall k' :: k' in KeysOf(r.props) ==> k' in KeysOf(acc.props) || k' in keys
    decreases |keys|
  {
    if keys != [] {
      var key := keys[0];
      var next := Step(env, template, ObjectKind, key, acc, scope).value;
      ObjectStep(env, template, key, acc, scope);
      forall key' | key' in keys[1..] ensures PlainKey(env, key') && GetProp(next, key') == Undefined {
        assert key' != key by {
          var j :| 0 <= j < |keys[1..]| && keys[1..][j] == key';
          assert keys[j + 1] == key';
        }
      }
      assert Distinct(keys[1..]) by {
        forall i, j | 0 <= i < j < |keys[1..]| ensures keys[1..][i] != keys[1..][j] {
          assert keys[1..][i] == keys[i + 1] && keys[1..][j] == keys[j + 1];
        }
      }
      FoldObject(env, template, keys[1..], next, scope, k);
      if k == key {
        assert k !in keys[1..];
      }
    }
  }

  /** One leaf key of an object template: its leaf value is written at it,
      unless that is undefined. */
  lemma ObjectStep(env: Env, template: Value, key: string, acc: Value, scope: Scope)
    requires acc.Obj? && PlainKey(env, key) && GetProp(acc, key) == Undefined
    requires Step(env, template, ObjectKind, key, acc, scope).Ok?
    ensures var next := Step(env, template, ObjectKind, key, acc, scope).value;
      && next.Obj?
      && GetProp(next, key) == LeafValue(env, template, key, scope)
      && (forall k' :: k' != key ==> GetProp(next, k') == GetProp(acc, k'))
      && forall k' :: k' in KeysOf(next.props) ==> k' in KeysOf(acc.props) || k' == key
  {
    var x := LeafValue(env, template, key, scope);
    if x != Undefined {
      forall k' ensures GetProp(SetProp(acc, key, x).value, k') == if k' == key then x else GetProp(acc, k') {
        SetPropReads(acc, key, x, k');
      }
    }
  }

  /** Walking an object template whose keys are all leaves gives each key
      its leaf value and nothing else: numbers copied, strings as resolved
      and present only when that is not undefined, nested templates as
      walked when truthy, booleans absent, and no key the template lacks. */
  lemma PlainObject(env: Env, props: seq<Prop>, scope: Scope, k: string)
    requires DistinctKeys(props)
    requires forall key :: key in KeysOf(props) ==> PlainKey(env, key)
    requires Walk(env, Obj(props), scope).Ok?
    ensures var v := Walk(env, Obj(props), scope).value;
      && GetProp(v, k) == (if k in KeysOf(props) then LeafValue(env, Obj(props), k, scope) else Undefined)
      && (v != Undefined ==> v.Obj? && forall k' :: k' in KeysOf(v.props) ==> k' in KeysOf(props))
  {
    var keys := KeysOf(props);
    assert Distinct(keys);
    FoldObject(env, Obj(props), keys, Obj([]), scope, k);
  }

  // ---------------------------------------------------------------------
  // Number leaves, in any template

  /** Storing a value or pushing one keeps a key that already has a value. */
  lemma {:induction false} FoldKeeps(env: Env, template: Value, kind: Kind, keys: seq<string>, acc: Value, scope: Scope, k: string)
    requires GetProp(acc, k) != Undefined && k !in keys
    requires forall key :: key in keys ==> PlainKey(env, key)
    requires Fold(env, template, kind, keys, acc, scope).Ok?
    ensures GetProp(Fold(env, template, kind, keys, acc, scope).value, k) == GetProp(acc, k)
    decreases |keys|
  {
    if keys != [] {
      KeepStep(env, template, kind, keys[0], acc, scope, k);
      FoldKeeps(env, template, kind, keys[1..], Step(env, template, kind, keys[0], acc, scope).value, scope, k);
    }
  }

  lemma KeepStep(env: Env, template: Value, kind: Kind, key: string, acc: Value, scope: Scope, k: string)
    requires GetProp(acc, k) != Undefined && k != key && PlainKey(env, key)
    requires Step(env, template, kind, key, acc, scope).Ok?
    ensures GetProp(Step(env, template, kind, key, acc, scope).value, k) == GetProp(acc, k)
  {
    var x := LeafValue(env, template, key, scope);
    if x != Undefined {
      if IsObjectType(GetProp(template, key)) && kind != ObjectKind {
        PushKeeps(acc, x, k);
      } else {
        SetPropReads(acc, key, x, k);
      }
    }
  }

  /** push appends past every filled slot. */
  lemma PushKeeps(target: Value, x: Value, k: string)
    requires Push(target, x).Ok? && GetProp(target, k) != Undefined
    ensures GetProp(Push(target, x).value, k) == GetProp(target, k)
  {
  }

  /** In a template without directives, a number is copied to the same key
      of the result, array templates included: later keys write other keys,
      and a push lands past every filled slot. */
  lemma {:induction false} NumberCopied(env: Env, template: Value, kind: Kind, keys: seq<string>, acc: Value, scope: Scope, k: string)
    requires Distinct(keys) && k in keys && GetProp(template, k).Num?
    requires forall key :: key in keys ==> PlainKey(env, key)
    requires Fold(env, template, kind, keys, acc, scope).Ok?
    ensures GetProp(Fold(env, template, kind, keys, acc, scope).value, k) == GetProp(template, k)
    decreases |keys|
  {
    var next := Step(env, template, kind, keys[0], acc, scope).value;
    assert Distinct(keys[1..]) by {
      forall i, j | 0 <= i < j < |keys[1..]| ensures keys[1..][i] != keys[1..][j] {
        assert keys[1..][i] == keys[i + 1] && keys[1..][j] == keys[j + 1];
      }
    }
    if keys[0] == k {
      LeafKinds(env, template, k, scope);
      assert Step(env, template, kind, k, acc, scope) == SetProp(acc, k, GetProp(template, k));
      SetPropReads(acc, k, GetProp(template, k), k);
      FoldKeeps(env, template, kind, keys[1..], next, scope, k);
    } else {
      NumberCopied(env, template, kind, keys[1..], next, scope, k);
    }
  }

  /** parseTemplate copies every number of a template without directives. */
  lemma NumberLeaf(env: Env, template: Value, scope: Scope, k: string)
    requires OwnKeys(template).Ok? && Distinct(OwnKeys(template).value)
    requires forall key :: key in OwnKeys(template).value ==> PlainKey(env, key)
    requires k in OwnKeys(template).value && GetProp(template, k).Num?
    requires Walk(env, template, scope).Ok?
    ensures GetProp(Walk(env, template, scope).value, k) == GetProp(template, k)
  {
    var kind := GetTypeArrayOrObject(template);
    var keys := OwnKeys(template).value;
    NumberCopied(env, template, kind, keys, Start(kind), scope, k);
    var acc := Fold(env, template, kind, keys, Start(kind), scope).value;
    ValueHasKeys(acc, k);
  }

  /** A value with something at k has own keys. */
  lemma ValueHasKeys(v: Value, k: string)
    requires GetProp(v, k) != Undefined
    ensures OwnKeys(v).Ok? && OwnKeys(v).value != []
  {
    match v
    case Obj(props) =>
    case Arr(slots, named) =>
      if IsArrayIndex(k) {
        FilledNonEmpty(slots, IndexValue(k));
      }
    case Str(t) =>
    case _ =>
  }

  lemma {:induction false} FilledNonEmpty(slots: seq<Option<Value>>, i: nat)
    requires i < |slots| && slots[i].Some?
    ensures FilledKeys(slots) != []
    decreases |slots|
  {
    if i < |slots| - 1 {
      FilledNonEmpty(slots[..|slots| - 1], i);
    }
  }

  // ---------------------------------------------------------------------
  // Array templates

  /** In an array template a dropped string leaves its index free, and a
      nested result pushed later takes that index: ["", [1]] gives [[1]],
      whose element 0 came from the template's element 1. */
  lemma ArrayIndexReused(env: Env, scope: Scope)
    requires PlainKey(env, "0") && PlainKey(env, "1")
    ensures var inner := Arr([Some(Num(1))], []);
      Walk(env, Arr([Some(Str("")), Some(inner)], []), scope) == Ok(Arr([Some(inner)], []))
  {
    var inner := Arr([Some(Num(1))], []);
    var template := Arr([Some(Str("")), Some(inner)], []);
    var keys := ["0", "1"];
    TwoKeys(template);
    WalkSteps(env, template, scope);
    FoldStep(env, template, ArrayKind, keys, Arr([], []), scope);
    FirstDropped(env, scope);
    assert keys[1..] == ["1"];
    FoldStep(env, template, ArrayKind, ["1"], Arr([], []), scope);
    SecondPushed(env, scope);
    assert FilledKeys([Some(inner)]) == ["0"];
  }

  lemma TwoKeys(template: Value)
    requires template.Arr? && |template.slots| == 2 && template.slots[0].Some? && template.slots[1].Some? && template.named == []
    ensures OwnKeys(template) == Ok(["0", "1"])
  {
    SmallKeys();
    var slots := template.slots;
    assert slots[..1] == [slots[0]];
    assert [slots[0]][..0] == [];
    assert FilledKeys([slots[0]]) == FilledKeys([]) + [NatText(0)];
    assert FilledKeys(slots) == FilledKeys(slots[..1]) + [NatText(1)];
    assert FilledKeys(slots) == ["0", "1"];
    assert KeysOf(template.named) == [];
    assert ["0", "1"] + [] == ["0", "1"];
  }

  /** "0" and "1" are the index keys of elements 0 and 1. */
  lemma SmallKeys()
    ensures NatText(0) == "0" && NatText(1) == "1"
    ensures IsArrayIndex("0") && IndexValue("0") == 0
    ensures IsArrayIndex("1") && IndexValue("1") == 1
  {
    assert NatText(0) == [DigitChar(0)];
    assert NatText(1) == [DigitChar(1)];
    var z := IndexKey(0);
    var o := IndexKey(1);
  }

  lemma FirstDropped(env: Env, scope: Scope)
    requires PlainKey(env, "0")
    ensures var template := Arr([Some(Str("")), Some(Arr([Some(Num(1))], []))], []);
      Step(env, template, ArrayKind, "0", Arr([], []), scope) == Ok(Arr([], []))
  {
    var template := Arr([Some(Str("")), Some(Arr([Some(Num(1))], []))], []);
    EmptyStringDropped(env, scope);
    StoreStep(env, template, ArrayKind, "0", Arr([], []), scope);
    assert GetProp(template, "0") == Str("");
  }

  lemma SecondPushed(env: Env, scope: Scope)
    requires PlainKey(env, "0") && PlainKey(env, "1")
    ensures var inner := Arr([Some(Num(1))], []);
      var template := Arr([Some(Str("")), Some(inner)], []);
      Step(env, template, ArrayKind, "1", Arr([], []), scope) == Ok(Arr([Some(inner)], []))
  {
    var inner := Arr([Some(Num(1))], []);
    var template := Arr([Some(Str("")), Some(inner)], []);
    SecondLeaf(env, scope);
    StoreStep(env, template, ArrayKind, "1", Arr([], []), scope);
    assert IsObjectType(GetProp(template, "1"));
    assert [] + [Some(inner)] == [Some(inner)];
    assert Push(Arr([], []), inner) == Ok(Arr([Some(inner)], []));
  }

  lemma SecondLeaf(env: Env, scope: Scope)
    requires PlainKey(env, "0")
    ensures var inner := Arr([Some(Num(1))], []);
      var template := Arr([Some(Str("")), Some(inner)], []);
      GetProp(template, "1") == inner && Leaf(env, template, "1", scope) == Ok(inner)
  {
    var inner := Arr([Some(Num(1))], []);
    var template := Arr([Some(Str("")), Some(inner)], []);
    InnerWalk(env, scope);
    SmallKeys();
    assert GetProp(template, "1") == inner;
    assert Truthy(inner);
  }

  /** The empty string resolves to undefined. */
  lemma EmptyStringDropped(env: Env, scope: Scope)
    ensures ResolveString(env.evaluate, env.functions, "", scope) == Ok(Undefined)
  {
    PlainString(env.evaluate, env.functions, "", scope);
  }

  /** [1] walks to itself. */
  lemma InnerWalk(env: Env, scope: Scope)
    requires PlainKey(env, "0")
    ensures Walk(env, Arr([Some(Num(1))], []), scope) == Ok(Arr([Some(Num(1))], []))
  {
    var inner := Arr([Some(Num(1))], []);
    assert FilledKeys(inner.slots) == ["0"];
    WalkSteps(env, inner, scope);
    FoldStep(env, inner, ArrayKind, ["0"], Arr([], []), scope);
    StoreStep(env, inner, ArrayKind, "0", Arr([], []), scope);
    assert SetSlot([], 0, Num(1)) == [Some(Num(1))];
    assert Step(env, inner, ArrayKind, "0", Arr([], []), scope) == Ok(inner);
  }
}
