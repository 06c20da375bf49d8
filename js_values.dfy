/** JavaScript values as the engine handles them, and the property operations
    the template walker performs on them: Object.keys, reading a key,
    assignment, `delete` and Array.prototype.push, with the TypeErrors that
    strict-mode code (every class body is strict) gets from them. */
module JsValues {
  import opened Base
  import opened JsText

  /** A value of the JavaScript host. Functions appear only in the data
      context (see module Host), never inside a template or a result. */
  datatype Value =
    | Undefined
    | Null
    | Bool(b: bool)
    | Num(n: int)
    | Str(s: string)
      /** An array: one slot per element up to its length, None for a hole,
          and the non-index properties that were assigned to it. */
    | Arr(slots: seq<Option<Value>>, named: seq<Prop>)
      /** A plain object: its own properties, in the order Object.keys lists them. */
    | Obj(props: seq<Prop>)

  type Prop = (string, Value)

  /** What a failed operation throws. */
  datatype Error =
      /** Raised by the host itself: a property write on a primitive, Object.keys(null), calling undefined. */
    | TypeError(message: string)
      /** Raised by new Function on text that is not valid JavaScript. */
    | SyntaxError(message: string)
      /** registerHelper / registerFunctionHelper on a name already registered. */
    | ConfigError(message: string)
      /** Whatever a directive handler or function helper threw. */
    | Thrown(exception: Value)
      /** A host behaviour this model does not cover. */
    | NotModelled(gap: Gap)

  /** The host behaviours outside this model. */
  datatype Gap =
      /** Assigning the length of an array. */
    | ArrayLength
      /** A number Number() reads that is not written as a decimal integer:
          a fraction, an exponent, a radix prefix, an infinity. */
    | NonIntegerNumber
      /** JSON text whose object or array holds such a number, or a string
          with a lone surrogate. */
    | InexactJson
      /** A template key naming a property every plain object inherits, such
          as "constructor": reading it from the directive registry finds the
          inherited member and calls it as a handler. */
    | InheritedKey

  /** typeof v === "object" */
  predicate IsObjectType(v: Value) {
    v.Obj? || v.Arr? || v.Null?
  }

  /** ToBoolean: the truthiness `if (x)` tests. */
  predicate Truthy(v: Value) {
    match v
    case Undefined => false
    case Null => false
    case Bool(b) => b
    case Num(n) => n != 0
    case Str(s) => s != []
    case _ => true
  }

  // ---------------------------------------------------------------------
  // Property lists

  function KeysOf(props: seq<Prop>): (ks: seq<string>)
    ensures |ks| == |props| && forall i :: 0 <= i < |props| ==> ks[i] == props[i].0
  {
    if props == [] then [] else [props[0].0] + KeysOf(props[1..])
  }

  lemma KeysOfCons(props: seq<Prop>)
    requires props != []
    ensures KeysOf(props) == [props[0].0] + KeysOf(props[1..])
  {
  }

  /** The value stored under k, if any (the first entry, when keys repeat). */
  function Lookup(props: seq<Prop>, k: string): (r: Option<Value>)
    ensures r.Some? <==> k in KeysOf(props)
  {
    if props == [] then None
    else if props[0].0 == k then Some(props[0].1)
    else
      assert KeysOf(props) == [props[0].0] + KeysOf(props[1..]);
      Lookup(props[1..], k)
  }

  predicate DistinctKeys(props: seq<Prop>) {
    forall i, j :: 0 <= i < j < |props| ==> props[i].0 != props[j].0
  }

  /** Object.keys order: an array-index key is preceded only by smaller
      array-index keys; the other keys follow in creation order. */
  predicate EnumOrdered(props: seq<Prop>) {
    forall i, j :: 0 <= i < j < |props| && IsArrayIndex(props[j].0) ==>
      IsArrayIndex(props[i].0) && IndexValue(props[i].0) < IndexValue(props[j].0)
  }

  /** A property list a JavaScript object can have. */
  predicate WellFormedProps(props: seq<Prop>) {
    DistinctKeys(props) && EnumOrdered(props)
  }

  lemma {:induction false} LookupAt(props: seq<Prop>, i: nat)
    requires DistinctKeys(props) && i < |props|
    ensures Lookup(props, props[i].0) == Some(props[i].1)
  {
    if i > 0 {
      LookupAt(props[1..], i - 1);
    }
  }

  /** Overwrites the value of an existing key in place. */
  function Replace(props: seq<Prop>, k: string, v: Value): (r: seq<Prop>)
    ensures KeysOf(r) == KeysOf(props)
    ensures k in KeysOf(props) ==> Lookup(r, k) == Some(v)
    ensures forall k' :: k' != k ==> Lookup(r, k') == Lookup(props, k')
  {
    if props == [] then []
    else
      var rest := Replace(props[1..], k, v);
      var r := [if props[0].0 == k then (k, v) else props[0]] + rest;
      assert r[1..] == rest;
      assert KeysOf(r) == [props[0].0] + KeysOf(rest);
      assert KeysOf(props) == [props[0].0] + KeysOf(props[1..]);
      r
  }

  /** A fresh key k goes in front of an existing key `other`: k is an array
      index and `other` is not an index smaller than it. */
  predicate GoesBefore(k: string, other: string) {
    IsArrayIndex(k) && !(IsArrayIndex(other) && IndexValue(other) < IndexValue(k))
  }

  /** Adds a key that is not there yet where Object.keys will list it:
      an array index before the first larger index or non-index key,
      any other key last. */
  function Insert(props: seq<Prop>, k: string, v: Value): (r: seq<Prop>)
    requires k !in KeysOf(props)
    ensures |r| == |props| + 1
    ensures Lookup(r, k) == Some(v)
    ensures forall k' :: k' != k ==> Lookup(r, k') == Lookup(props, k')
    ensures forall k' :: k' in KeysOf(r) <==> k' in KeysOf(props) || k' == k
    ensures exists n :: InsertedAt(props, k, v, r, n)
  {
    if props == [] || GoesBefore(k, props[0].0) then
      var r := [(k, v)] + props;
      assert r[1..] == props;
      assert KeysOf(r) == [k] + KeysOf(props);
      InsertedFirst(props, k, v);
      r
    else
      assert KeysOf(props) == [props[0].0] + KeysOf(props[1..]);
      var rest := Insert(props[1..], k, v);
      var r := [props[0]] + rest;
      assert r[1..] == rest;
      assert KeysOf(r) == [props[0].0] + KeysOf(rest);
      var n :| InsertedAt(props[1..], k, v, rest, n);
      InsertedAfter(props, k, v, rest, n);
      r
  }

  /** r is props with (k, v) put at position n: every entry before n is one
      k does not go in front of, and the entry at n is one it does. */
  predicate InsertedAt(props: seq<Prop>, k: string, v: Value, r: seq<Prop>, n: int) {
    && 0 <= n <= |props|
    && r == props[..n] + [(k, v)] + props[n..]
    && (forall m :: 0 <= m < n ==> !GoesBefore(k, props[m].0))
    && (n < |props| ==> GoesBefore(k, props[n].0))
  }

  lemma InsertedFirst(props: seq<Prop>, k: string, v: Value)
    requires props == [] || GoesBefore(k, props[0].0)
    ensures InsertedAt(props, k, v, [(k, v)] + props, 0)
  {
    assert props[..0] == [] && props[0..] == props;
  }

  lemma InsertedAfter(props: seq<Prop>, k: string, v: Value, rest: seq<Prop>, n: int)
    requires props != [] && !GoesBefore(k, props[0].0)
    requires InsertedAt(props[1..], k, v, rest, n)
    ensures InsertedAt(props, k, v, [props[0]] + rest, n + 1)
  {
    var tail := props[1..];
    assert props[..n + 1] == [props[0]] + tail[..n];
    assert props[n + 1..] == tail[n..];
    assert forall m :: 0 < m < n + 1 ==> props[m] == tail[m - 1];
  }

  /** Key a is listed before every array-index key of rest, as EnumOrdered
      requires of an entry that precedes them. */
  predicate Precedes(a: string, rest: seq<Prop>) {
    forall x :: x in KeysOf(rest) && IsArrayIndex(x) ==> IsArrayIndex(a) && IndexValue(a) < IndexValue(x)
  }

  lemma ConsWellFormed(p: Prop, rest: seq<Prop>)
    ensures WellFormedProps([p] + rest) <==>
      WellFormedProps(rest) && p.0 !in KeysOf(rest) && Precedes(p.0, rest)
  {
    if WellFormedProps([p] + rest) {
      ConsWellFormedTail(p, rest);
    }
    if WellFormedProps(rest) && p.0 !in KeysOf(rest) && Precedes(p.0, rest) {
      ConsWellFormedHead(p, rest);
    }
  }

  lemma ConsWellFormedTail(p: Prop, rest: seq<Prop>)
    requires WellFormedProps([p] + rest)
    ensures WellFormedProps(rest) && p.0 !in KeysOf(rest) && Precedes(p.0, rest)
  {
    var r := [p] + rest;
    assert forall j :: 0 < j < |r| ==> r[j] == rest[j - 1];
    assert WellFormedProps(rest) by {
      forall i, j | 0 <= i < j < |rest| ensures rest[i].0 != rest[j].0 {
        assert r[i + 1] == rest[i] && r[j + 1] == rest[j];
      }
      forall i, j | 0 <= i < j < |rest| && IsArrayIndex(rest[j].0)
        ensures IsArrayIndex(rest[i].0) && IndexValue(rest[i].0) < IndexValue(rest[j].0)
      {
        assert r[i + 1] == rest[i] && r[j + 1] == rest[j];
      }
    }
    forall x | x in KeysOf(rest) ensures x != p.0 && (IsArrayIndex(x) ==> IsArrayIndex(p.0) && IndexValue(p.0) < IndexValue(x)) {
      var m :| 0 <= m < |rest| && KeysOf(rest)[m] == x;
      assert r[m + 1].0 == x && r[0] == p;
    }
  }

  lemma ConsWellFormedHead(p: Prop, rest: seq<Prop>)
    requires WellFormedProps(rest) && p.0 !in KeysOf(rest) && Precedes(p.0, rest)
    ensures WellFormedProps([p] + rest)
  {
    var r := [p] + rest;
    assert forall j :: 0 < j < |r| ==> r[j] == rest[j - 1];
    forall i, j | 0 <= i < j < |r| ensures r[i].0 != r[j].0 {
      if i == 0 {
        assert KeysOf(rest)[j - 1] == r[j].0;
      }
    }
    forall i, j | 0 <= i < j < |r| && IsArrayIndex(r[j].0)
      ensures IsArrayIndex(r[i].0) && IndexValue(r[i].0) < IndexValue(r[j].0)
    {
      if i == 0 {
        assert KeysOf(rest)[j - 1] == r[j].0;
      }
    }
  }

  lemma {:induction false} InsertWellFormed(props: seq<Prop>, k: string, v: Value)
    requires k !in KeysOf(props)
    ensures WellFormedProps(props) ==> WellFormedProps(Insert(props, k, v))
  {
    if props != [] && WellFormedProps(props) {
      var p := props[0];
      var tail := props[1..];
      KeysOfCons(props);
      if GoesBefore(k, p.0) {
        InsertAtFront(props, k, v);
      } else {
        assert props == [p] + tail;
        ConsWellFormed(p, tail);
        InsertWellFormed(tail, k, v);
        InsertBehind(props, k, v);
      }
    }
  }

  lemma InsertAtFront(props: seq<Prop>, k: string, v: Value)
    requires props != [] && WellFormedProps(props) && k !in KeysOf(props)
    requires GoesBefore(k, props[0].0)
    ensures WellFormedProps(Insert(props, k, v))
  {
    assert props == [props[0]] + props[1..];
    ConsWellFormed(props[0], props[1..]);
    InsertFrontPrecedes(props, k);
    ConsWellFormed((k, v), props);
  }

  lemma InsertBehind(props: seq<Prop>, k: string, v: Value)
    requires props != [] && WellFormedProps(props) && k !in KeysOf(props)
    requires !GoesBefore(k, props[0].0)
    requires k !in KeysOf(props[1..]) && WellFormedProps(Insert(props[1..], k, v))
    ensures WellFormedProps(Insert(props, k, v))
  {
    var p := props[0];
    var tail := props[1..];
    assert props == [p] + tail;
    ConsWellFormed(p, tail);
    var rest := Insert(tail, k, v);
    assert Insert(props, k, v) == [p] + rest;
    KeysOfCons(props);
    assert p.0 != k;
    assert Precedes(p.0, rest) by {
      forall x | x in KeysOf(rest) && IsArrayIndex(x)
        ensures IsArrayIndex(p.0) && IndexValue(p.0) < IndexValue(x)
      {
        if x != k {
          assert x in KeysOf(tail);
        }
      }
    }
    ConsWellFormed(p, rest);
  }

  lemma InsertFrontPrecedes(props: seq<Prop>, k: string)
    requires props != [] && k !in KeysOf(props) && GoesBefore(k, props[0].0)
    requires Precedes(props[0].0, props[1..])
    ensures Precedes(k, props)
  {
    var p := props[0].0;
    assert KeysOf(props) == [p] + KeysOf(props[1..]);
    assert p in KeysOf(props);
    forall x | x in KeysOf(props) && IsArrayIndex(x) ensures IndexValue(k) < IndexValue(x) {
      if x == p {
        IndexKeyInjective(p, k);
      } else {
        assert x in KeysOf(props[1..]);
        IndexKeyInjective(p, k);
      }
    }
  }

  lemma ReplaceWellFormed(props: seq<Prop>, k: string, v: Value)
    ensures WellFormedProps(props) ==> WellFormedProps(Replace(props, k, v))
  {
    var r := Replace(props, k, v);
    assert forall i :: 0 <= i < |r| ==> r[i].0 == KeysOf(r)[i] == KeysOf(props)[i] == props[i].0;
  }

  /** `o[k] = v` on an ordinary object: the key now holds v, every other key
      keeps its value, and the list stays in Object.keys order. */
  function Put(props: seq<Prop>, k: string, v: Value): (r: seq<Prop>)
    ensures Lookup(r, k) == Some(v)
    ensures forall k' :: k' != k ==> Lookup(r, k') == Lookup(props, k')
    ensures forall k' :: k' in KeysOf(r) <==> k' in KeysOf(props) || k' == k
    ensures k in KeysOf(props) ==> KeysOf(r) == KeysOf(props)
    ensures WellFormedProps(props) ==> WellFormedProps(r)
  {
    if k in KeysOf(props) then
      ReplaceWellFormed(props, k, v);
      Replace(props, k, v)
    else
      InsertWellFormed(props, k, v);
      Insert(props, k, v)
  }

  /** `delete o[k]` on an ordinary object: the key is gone and nothing else changes. */
  function Remove(props: seq<Prop>, k: string): (r: seq<Prop>)
    ensures Lookup(r, k) == None
    ensures forall k' :: k' != k ==> Lookup(r, k') == Lookup(props, k')
    ensures forall k' :: k' in KeysOf(r) <==> k' in KeysOf(props) && k' != k
    ensures |r| <= |props|
  {
    if props == [] then []
    else
      var rest := Remove(props[1..], k);
      assert KeysOf(props) == [props[0].0] + KeysOf(props[1..]);
      if props[0].0 == k then rest
      else
        var r := [props[0]] + rest;
        assert r[1..] == rest;
        assert KeysOf(r) == [props[0].0] + KeysOf(rest);
        r
  }

  lemma {:induction false} RemoveWellFormed(props: seq<Prop>, k: string)
    ensures WellFormedProps(props) ==> WellFormedProps(Remove(props, k))
  {
    if props != [] && WellFormedProps(props) {
      var p := props[0];
      var tail := props[1..];
      assert props == [p] + tail;
      ConsWellFormed(p, tail);
      RemoveWellFormed(tail, k);
      if p.0 != k {
        var rest := Remove(tail, k);
        assert Remove(props, k) == [p] + rest;
        ConsWellFormed(p, rest);
      }
    }
  }

  // ---------------------------------------------------------------------
  // Object.keys and property access

  /** The index keys of the filled slots, in ascending order. */
  function FilledKeys(slots: seq<Option<Value>>): seq<string>
  {
    if slots == [] then []
    else FilledKeys(slots[..|slots| - 1]) + (if slots[|slots| - 1].Some? then [NatText(|slots| - 1)] else [])
  }

  /** Object.keys(v). */
  function OwnKeys(v: Value): (r: Result<seq<string>, Error>)
    ensures r.Err? <==> v.Undefined? || v.Null?
  {
    match v
    case Undefined => Err(TypeError("Cannot convert undefined or null to object"))
    case Null => Err(TypeError("Cannot convert undefined or null to object"))
    case Bool(_) => Ok([])
    case Num(_) => Ok([])
    case Str(s) => Ok(seq(|s|, i requires 0 <= i < |s| => NatText(i)))
    case Arr(slots, named) => Ok(FilledKeys(slots) + KeysOf(named))
    case Obj(props) => Ok(KeysOf(props))
  }

  function LookupOrUndefined(props: seq<Prop>, k: string): Value {
    match Lookup(props, k)
    case Some(x) => x
    case None => Undefined
  }

  /** v[k] for an own key k (keys come from Object.keys, so nothing is
      inherited from a prototype). */
  function GetProp(v: Value, k: string): Value
  {
    match v
    case Obj(props) => LookupOrUndefined(props, k)
    case Arr(slots, named) =>
      if IsArrayIndex(k) then
        var i := IndexValue(k);
        if i < |slots| && slots[i].Some? then slots[i].value else Undefined
      else LookupOrUndefined(named, k)
    case Str(s) =>
      if IsArrayIndex(k) && IndexValue(k) < |s| then Str([s[IndexValue(k)]]) else Undefined
    case _ => Undefined
  }

  function Holes(n: nat): (r: seq<Option<Value>>)
    ensures |r| == n && forall i :: 0 <= i < n ==> r[i] == None
  {
    seq(n, _ => None)
  }

  /** `a[i] = x`: writing past the end lengthens the array with holes. */
  function SetSlot(slots: seq<Option<Value>>, i: nat, x: Value): (r: seq<Option<Value>>)
    ensures |r| == if i < |slots| then |slots| else i + 1
    ensures r[i] == Some(x)
    ensures forall j :: 0 <= j < |slots| && j != i ==> r[j] == slots[j]
    ensures forall j :: |slots| <= j < |r| && j != i ==> r[j] == None
  {
    if i < |slots| then slots[i := Some(x)] else slots + Holes(i - |slots|) + [Some(x)]
  }

  /** `target[k] = x` in strict mode: only objects and arrays take new
      properties; a primitive, null or undefined throws. */
  function SetProp(target: Value, k: string, x: Value): (r: Result<Value, Error>)
    ensures r.Ok? <==> target.Obj? || (target.Arr? && k != "length")
    ensures r.Err? && !target.Arr? ==> r.error.TypeError?
  {
    match target
    case Obj(props) => Ok(Obj(Put(props, k, x)))
    case Arr(slots, named) =>
      if IsArrayIndex(k) then Ok(Arr(SetSlot(slots, IndexValue(k), x), named))
      else if k == "length" then Err(NotModelled(ArrayLength))
      else Ok(Arr(slots, Put(named, k, x)))
    case Null => Err(TypeError("Cannot set properties of null"))
    case Undefined => Err(TypeError("Cannot set properties of undefined"))
    case _ => Err(TypeError("Cannot create property on a primitive value"))
  }

  /** After `target[k] = x`, reading k gives x and every other key reads as before. */
  lemma SetPropReads(target: Value, k: string, x: Value, k': string)
    requires SetProp(target, k, x).Ok?
    ensures GetProp(SetProp(target, k, x).value, k) == x
    ensures k' != k ==> GetProp(SetProp(target, k, x).value, k') == GetProp(target, k')
  {
    if target.Arr? && IsArrayIndex(k) && IsArrayIndex(k') {
      IndexKeyInjective(k, k');
    }
  }

  /** `delete target[k]` in strict mode: deleting a non-configurable property
      (an array's length, a string's characters or length) throws. */
  function DeleteProp(target: Value, k: string): (r: Result<Value, Error>)
    ensures r.Err? <==> || target.Null? || target.Undefined?
                        || (target.Arr? && k == "length")
                        || (target.Str? && (k == "length" || (IsArrayIndex(k) && IndexValue(k) < |target.s|)))
    ensures r.Err? ==> r.error.TypeError?
    ensures r.Ok? ==> GetProp(r.value, k) == Undefined
    ensures r.Ok? ==> forall k' :: k' != k ==> GetProp(r.value, k') == GetProp(target, k')
  {
    match target
    case Obj(props) => Ok(Obj(Remove(props, k)))
    case Arr(slots, named) =>
      if IsArrayIndex(k) then
        var i := IndexValue(k);
        forall k' | k' != k && IsArrayIndex(k') ensures IndexValue(k') != i {
          IndexKeyInjective(k, k');
        }
        Ok(Arr(if i < |slots| then slots[i := None] else slots, named))
      else if k == "length" then Err(TypeError("Cannot delete property 'length' of an array"))
      else Ok(Arr(slots, Remove(named, k)))
    case Str(s) =>
      if k == "length" || (IsArrayIndex(k) && IndexValue(k) < |s|) then
        Err(TypeError("Cannot delete a property of a string"))
      else
        Ok(target)
    case Null => Err(TypeError("Cannot convert undefined or null to object"))
    case Undefined => Err(TypeError("Cannot convert undefined or null to object"))
    case _ => Ok(target)
  }

  /** `target.push(x)`: only arrays have a push method. */
  function Push(target: Value, x: Value): (r: Result<Value, Error>)
    ensures r.Ok? <==> target.Arr?
    ensures r.Err? ==> r.error.TypeError?
    ensures r.Ok? ==> r.value.Arr? && r.value.named == target.named
    ensures r.Ok? ==> |r.value.slots| == |target.slots| + 1 && r.value.slots[|target.slots|] == Some(x)
    ensures r.Ok? ==> forall i :: 0 <= i < |target.slots| ==> r.value.slots[i] == target.slots[i]
  {
    match target
    case Arr(slots, named) => Ok(Arr(slots + [Some(x)], named))
    case _ => Err(TypeError("result.push is not a function"))
  }

  // ---------------------------------------------------------------------
  // Size, for termination of the recursive walk

  function Sum(xs: seq<nat>): nat
  {
    if xs == [] then 0 else xs[0] + Sum(xs[1..])
  }

  lemma {:induction false} SumAtLeast(xs: seq<nat>, i: nat)
    requires i < |xs|
    ensures xs[i] <= Sum(xs)
  {
    if i > 0 {
      SumAtLeast(xs[1..], i - 1);
    }
  }

  /** Number of value nodes in v, counting v itself. */
  function Size(v: Value): nat
  {
    match v
    case Arr(slots, named) =>
      1 + Sum(seq(|slots|, i requires 0 <= i < |slots| => if slots[i].Some? then Size(slots[i].value) else 0))
        + Sum(seq(|named|, i requires 0 <= i < |named| => Size(named[i].1)))
    case Obj(props) =>
      1 + Sum(seq(|props|, i requires 0 <= i < |props| => Size(props[i].1)))
    case _ => 1
  }

  lemma {:induction false} LookupIndex(props: seq<Prop>, k: string) returns (i: nat)
    requires Lookup(props, k).Some?
    ensures i < |props| && props[i].1 == Lookup(props, k).value
  {
    if props[0].0 == k {
      i := 0;
    } else {
      var j := LookupIndex(props[1..], k);
      i := j + 1;
    }
  }

  /** A nested object, array or null read from a container is smaller than it. */
  lemma ChildSmaller(v: Value, k: string)
    requires IsObjectType(GetProp(v, k))
    ensures Size(GetProp(v, k)) < Size(v)
  {
    match v
    case Obj(props) =>
      var i := LookupIndex(props, k);
      SumAtLeast(seq(|props|, i requires 0 <= i < |props| => Size(props[i].1)), i);
    case Arr(slots, named) =>
      if IsArrayIndex(k) {
        SumAtLeast(seq(|slots|, i requires 0 <= i < |slots| => if slots[i].Some? then Size(slots[i].value) else 0), IndexValue(k));
      } else {
        var i := LookupIndex(named, k);
        SumAtLeast(seq(|named|, i requires 0 <= i < |named| => Size(named[i].1)), i);
      }
    case _ =>
  }
}
