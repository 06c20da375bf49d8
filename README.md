# JSONTemplateEngine in Dafny

A model of the `JSONTemplateEngine` class (index.js) with proofs about it.
The engine takes a JSON template and a data context and builds a new JSON
value. It walks the template's keys in `Object.keys` order:

- a key naming a registered directive runs that directive's handler;
- a number is copied;
- a string is resolved by `parseValue`:
  - every `{{expression}}` is replaced by the stringified value of the expression;
  - every `#name(arguments)` is replaced by the stringified result of the registered function helper;
  - the resulting text is converted back into a value (`convertValue`);
- a nested object or array is walked recursively.

An accumulator with no own keys comes back as `undefined`.

## Modules

- `base.dfy` (Base): Option and Result.
- `js_text.dfy` (JsText): the host's string facts the engine uses:
  - `trim`, `Number()` on integer text, `toLowerCase`;
  - decimal text of integers;
  - array-index keys.
- `js_values.dfy` (JsValues): JavaScript values, and the property operations in strict mode:
  - `Object.keys`, with array indices first in ascending order;
  - read, assign, `delete` and `push`, with the TypeErrors each can throw.
- `json.dfy` (Json): `JSON.stringify` and `JSON.parse` on these values, and their round trip.
- `coercion.dfy` (Coercion): `convertValue`, `stringifyValue`, `tryParseJSON` and `getTypeArrayOrObject`.
- `host.dfy` (Host): what the engine cannot see into, as parameters:
  - the proxied data context;
  - the expression evaluator;
  - directive handlers and function helpers.
- `scanner.dfy` (Scanner): the two global regular expressions as leftmost, lazy span finders, and splicing replacements into the text.
- `resolver.dfy` (Resolver): `parseValue` as functions:
  - the `{{…}}` pass;
  - the `#name(…)` pass with its comma split and argument conversion;
  - `replaceAsync`'s collect, `Promise.all` and shift.
- `walker.dfy` (Walker): `parseTemplate` as functions (`Walk`, `Fold`, `Step`, `Leaf`), and the lemmas about what it returns.
- `engine.dfy` (Engine): the class itself.
  - The two registries are fields that `registerHelper` and `registerFunctionHelper` update in place.
  - `parseTemplate`, `parseValue`, `replaceAsync` and `compile` are methods, each proved equal to the functions above.
  - The loops are the key loop of `parseTemplate` (`ParseKeys`), and the two scans of `replaceAsync`: collecting one result per match (`CollectCalls`) and replacing each match with the next shifted result (`ShiftResults`).

Two behaviours of the code that a reader might not expect:

- Booleans in a template are dropped. The loop body of `parseTemplate` has no branch for them (index.js:59-80).
- A `null` value in a template is walked as a nested template, because `typeof null === "object"`. `Object.keys(null)` then throws a TypeError, so compile rejects.

## Model

| member | source | states |
|---|---|---|
| Engine.JsonTemplateEngine.constructor | index.js:7-25 | the directive registry holds exactly #comment, #if and #each, and the function registry holds exactly #range |
| Engine.Register | index.js:26-37 | registration fails, with the "already exist." error, exactly when the name is in the registry (inherited names included); otherwise it adds that one entry and keeps every other |
| Engine.RegisterOnce | index.js:27-28 | a name that was registered once cannot be registered again, whatever the handler |
| Engine.HashNotInherited | index.js:20-24 | names starting with '#', like the built-in ones, are never inherited names |
| Engine.JsonTemplateEngine.RegisterHelper | index.js:26-31 | the directive registry changes exactly as Register says, and the function registry is untouched |
| Engine.JsonTemplateEngine.RegisterFunctionHelper | index.js:32-37 | the function registry changes exactly as Register says, and the directive registry is untouched |
| Engine.JsonTemplateEngine.ParseTemplate | index.js:38-87 | the method returns what Walker.Walk specifies |
| Engine.JsonTemplateEngine.ParseKeys | index.js:42-81 | the loop over the own keys computes Walker.Fold from the starting accumulator |
| Engine.JsonTemplateEngine.ParseKey | index.js:43-80 | one loop body computes Walker.Step |
| Engine.JsonTemplateEngine.RunDirective | index.js:43-57 | the directive branch computes Walker.Step for a directive key |
| Engine.JsonTemplateEngine.ParseLeaf | index.js:59-80 | the typeof branches compute Walker.Leaf |
| Engine.JsonTemplateEngine.ParseValue | index.js:88-107 | the method returns what Resolver.ResolveString specifies |
| Engine.JsonTemplateEngine.ReplaceAsync | index.js:164-172 | collecting, awaiting and shifting computes Resolver.ReplaceCalls |
| Engine.JsonTemplateEngine.CollectCalls | index.js:165-169 | the promises list holds one result per match, in match order |
| Engine.JsonTemplateEngine.CallHelper | index.js:98-104 | the callback's result for one call is Resolver.CallResult |
| Engine.JsonTemplateEngine.ShiftResults | index.js:171 | replacing each match with the next shifted result gives the splice of the results' texts into the matches |
| Engine.JsonTemplateEngine.Compile | index.js:173-176 | compile is parseTemplate on the data wrapped in the proxy, whose reads go through the get trap |
| Host.Get | index.js:11-17 | a function-valued property is called and its completion returned, any other property is returned as it is, and a missing name reads undefined |
| Host.Proxy | index.js:10-18 | the proxy has the data's names, and every read through it is the get trap's result |
| Host.ProxyCalls | index.js:12-13 | reading a function-valued property through the proxy gives what calling the function gives |
| Host.EvaluateExpression | index.js:108-122 | text that is not valid JavaScript fails with a SyntaxError (new Function is outside the try); the expression's value is returned; a throw of null or undefined fails with a TypeError (reading e.message in the catch); any other throw gives undefined |
| Host.EvaluateFails | index.js:108-122 | evaluateExpression fails exactly when the expression does not compile or its evaluation throws null or undefined |
| Walker.Start | index.js:39-40 | the accumulator starts as [] exactly for an array template, and as {} otherwise |
| Walker.WalkSteps | index.js:38-87 | parseTemplate fails if Object.keys does, and otherwise folds the keys and finishes with the final own-keys test |
| Walker.FoldStep | index.js:42 | the loop handles the first key, stops at its failure, and continues from its result |
| Walker.DirectiveStep | index.js:43-57 | a directive key is decided by its handler alone: a throw fails, a defined result replaces the accumulator, and undefined deletes the key |
| Walker.StoreStep | index.js:59-80 | a non-directive key stores its defined leaf value: pushed when it came from a nested template and the template is not an object, assigned at the key otherwise |
| Walker.WalkResult | index.js:82-86 | parseTemplate returns undefined exactly when the final accumulator has no own keys, and any other result has own keys and is truthy |
| Walker.FoldDefined | index.js:52-56 | the accumulator never becomes undefined, because an undefined handler result deletes instead of replacing |
| Walker.StepDefined | index.js:43-80 | one step never makes the accumulator undefined |
| Walker.DirectiveReplaces | index.js:52-53 | after a directive with a defined result, the remaining keys are written into that result |
| Walker.DirectiveThrows | index.js:44-51 | a handler that throws fails the walk with what it threw |
| Walker.DirectiveDeletes | index.js:54-55 | an undefined handler result removes that key from the accumulator and leaves every other key as it was |
| Walker.LeafKinds | index.js:59-80 | numbers are copied, booleans are dropped, and a null value fails with a TypeError |
| Walker.FoldLeaves | index.js:42-80 | if the loop gets through, every leaf key's value was computed without failure |
| Walker.NullLeafFails | index.js:70-71 | a walk that succeeds met no null at a leaf key |
| Walker.FoldObject | index.js:42-80 | in an object template without directives, the loop writes each key exactly once, with its leaf value, and adds no other key |
| Walker.ObjectStep | index.js:59-74 | one leaf key of an object template sets that key to its leaf value and leaves every other key unchanged |
| Walker.PlainObject | index.js:38-87 | walking an object template of leaf keys gives each key its leaf value (absent when that is undefined) and no key the template lacks |
| Walker.FoldKeeps | index.js:59-78 | later leaf keys never overwrite a key that already holds a value |
| Walker.KeepStep | index.js:59-78 | one assignment or push keeps every other key that holds a value |
| Walker.PushKeeps | index.js:76 | push writes past every filled slot |
| Walker.NumberCopied | index.js:59-61 | in a template without directives, a number reaches the same key of the accumulator unchanged, array templates included |
| Walker.NumberLeaf | index.js:59-61 | parseTemplate copies every number of a template without directives to the same key of its result |
| Walker.ValueHasKeys | index.js:82 | a value holding something at a key has own keys, so it is not turned into undefined |
| Walker.ArrayIndexReused | index.js:63-78 | in the array template ["", [1]] the dropped string frees index 0 and the pushed nested result takes it, giving [[1]] |
| Walker.EmptyStringDropped | index.js:63-67 | the empty string resolves to undefined, so nothing is stored for it |
| Walker.InnerWalk | index.js:59-61 | the array template [1] walks to [1] |
| Resolver.ResolveString | index.js:88-107 | parseValue never gives null |
| Resolver.Split | index.js:101 | the pieces of split(",") contain no comma, and there is at least one |
| Resolver.JoinSplit | index.js:101 | joining the pieces with commas gives the text back |
| Resolver.SplitJoin | index.js:101 | splitting a join of comma-free pieces gives the pieces back |
| Resolver.Evaluations | index.js:90-91 | the i-th callback evaluates the i-th match's trimmed expression |
| Resolver.Substitutions | index.js:92 | the i-th replacement text is the stringified i-th value |
| Resolver.InterpolateFails | index.js:89-93 | the {{…}} pass fails exactly when one of its evaluations fails, and then with the first failure in match order |
| Resolver.InterpolateLayout | index.js:89-93 | when every evaluation succeeds, the {{…}} pass keeps the text between matches and puts the i-th value's text in place of the i-th match |
| Resolver.InterpolateWhole | index.js:89-93 | a string that is a single {{…}} becomes that expression's substitution alone, or fails as its evaluation does |
| Resolver.ExpressionFails | index.js:88-93 | parseValue rejects when some {{…}} expression does not compile or throws null or undefined, with the failure of the first failing match at or before it |
| Resolver.OneMatch | index.js:89-90 | a string that is a single {{…}} has exactly that one match |
| Resolver.AllOk | index.js:170 | Promise.all gives every value when all succeed, and otherwise the first failure in list order |
| Resolver.Arguments | index.js:101 | the converted arguments are one per piece |
| Resolver.ArgumentsInOrder | index.js:101 | the arguments are pieces.map(convertValue), failing with the first conversion that fails |
| Resolver.InvokeCases | index.js:99-103 | a failed argument conversion comes first, then a TypeError for a name with no helper, then the helper's throw or its stringified, primitive result |
| Resolver.CallResult | index.js:98-104 | a call that succeeds gives a primitive |
| Resolver.Callback | index.js:98-104 | the callback is defined at every call match and gives that call's result |
| Resolver.Outcomes | index.js:165-169 | there is one promise per match |
| Resolver.OutcomesAt | index.js:165-169 | the i-th promise is the callback's result on the i-th match |
| Resolver.OutcomesNext | index.js:166-168 | handling one more match appends its result at the end of the list |
| Resolver.CallOutcomes | index.js:165-169 | the i-th promise of the call pass is the result of the call at the i-th match |
| Resolver.SettledPrimitive | index.js:99-104 | every promise that succeeds holds a primitive |
| Resolver.Texts | index.js:171 | each replacement text is String of the corresponding result |
| Resolver.ReplaceFails | index.js:170 | the call pass fails exactly when a promise fails, with the failure of the first one that fails |
| Resolver.ReplaceLayout | index.js:170-171 | when every promise succeeds, the text between matches is kept and the i-th result replaces the i-th match |
| Resolver.NoMatchUnchanged | index.js:88-105 | text with no {{…}} match is unchanged by the first pass, and text with no #…(…) match by the second |
| Resolver.PlainString | index.js:88-107 | a string with no '{' and no '#' resolves to convertValue of itself |
| Resolver.BlankString | index.js:106 | a string of white space only resolves to the number 0 |
| Resolver.WholeExpression | index.js:88-107 | a string that is a single {{…}} holding an integer or boolean expression resolves to that value itself |
| Resolver.WholeExpressionFails | index.js:88-93 | a string that is a single {{…}} whose evaluation fails rejects with that failure |
| Resolver.FunctionProperty | index.js:11-17 | through the proxy, a single {{name}} naming a function-valued property resolves to what the function returns, when the bare name reads that property |
| Resolver.SubstitutionPlain | index.js:92 | the text written for an integer or a boolean has no '#' |
| Resolver.CallsPlain | index.js:94-105 | text without '#' passes the call pass unchanged |
| Resolver.IntTextPlain | index.js:92 | the decimal text of an integer has neither '{' nor '#' |
| Scanner.CloseBracesIff | index.js:89 | the search finds the first "}}" with no line terminator before it, and nothing else |
| Scanner.CloseParenIff | index.js:94 | the search finds the first ")" with no line terminator before it, and nothing else |
| Scanner.BracesIff | index.js:89 | a {{…}} match at i ends at e exactly when the text there is "{{", text with no "}}" and no line terminator, then "}}" |
| Scanner.CallFromIff | index.js:94 | the lazy name search finds exactly the shortest name followed by "(" that has a ")" after it on the same line |
| Scanner.CallAtIff | index.js:94 | a #…(…) match at i has its parentheses at p and k exactly when the text there is a call with the shortest name and the first ")" |
| Scanner.NextMatch | index.js:90 | the next match starts at the leftmost position where a match exists, and none exists when it finds none |
| Scanner.Matches | index.js:90 | the global matches are ordered, do not overlap, and each is a match |
| Scanner.MatchesLeftmost | index.js:90 | the global search finds the leftmost matches, each search starting where the previous match ended, and they are the only such sequence |
| Scanner.GapsAndMatches | index.js:90 | the gaps and the matched texts, taken in turn, make up the text |
| Scanner.SpliceKeepsGaps | index.js:171 | replacing keeps the gaps and puts the i-th text where the i-th match was |
| Scanner.NoStartNoMatch | index.js:89-94 | text without '{' has no {{…}} match, and text without '#' has no call match |
| Scanner.SpliceNext | index.js:171 | splicing takes the gap before the first match, its replacement, and then the rest |
| Coercion.ConvertWith | index.js:123-137 | the ordered case analysis: "" is undefined; text Number() reads is that number; "true" or "false" is the boolean; otherwise tryParseJSON decides; the result is never null, and a string result is the text itself |
| Coercion.ConvertValue | index.js:123-137 | convertValue is undefined exactly for "", never null, and any string it returns is the input |
| Coercion.TryParseJson | index.js:147-156 | an object or array from JSON.parse is returned, and anything else, thrown or parsed, gives the text back |
| Coercion.Word | index.js:130-135 | the boolean is true exactly when the trimmed, lower-cased text is "true", and false exactly when it is "false" |
| Coercion.StringifyValue | index.js:138-146 | undefined and null give "", objects and arrays their JSON text, and every other value itself; the result is always a primitive |
| Coercion.Substitute | index.js:90-93 | the text a replacement writes: "" for undefined and null, the string itself, or the JSON text of an object or array |
| Coercion.GetTypeArrayOrObject | index.js:157-163 | "array" exactly for arrays, and "object" exactly for plain objects |
| Coercion.ConvertIntText | index.js:127-128 | the decimal text of an integer converts back to that integer |
| Coercion.ConvertBlank | index.js:124-128 | non-empty white space converts to 0 |
| Coercion.NotNumber | index.js:127 | trimmed text starting with no digit, sign, point or "I" is NaN to Number() |
| Coercion.ConvertKeyword | index.js:130-135 | "true" and "false", in any case and with surrounding white space, convert to the boolean |
| Coercion.BoolWord | index.js:130-135 | "true" and "false" convert to their boolean |
| Coercion.ConvertJsonText | index.js:136 | the JSON text of an object or array converts back to it |
| Coercion.SubstituteThenConvert | index.js:92 | what a substitution writes for an integer, a boolean, or a JSON object or array converts back to that value |
| Coercion.BracketedText | index.js:127-135 | bracketed text is neither a number nor a boolean to convertValue |
| Json.JsonRoundTrip | index.js:149 | JSON.parse of JSON.stringify(v) gives v back, for every value JSON describes |
| Json.ValueRoundTrip | index.js:143 | parsing the JSON text of a value, with any delimiter after it, gives the value and leaves the delimiter |
| Json.ArrayRoundTrip | index.js:143 | the same for arrays |
| Json.ObjectRoundTrip | index.js:143 | the same for objects |
| Json.CharsRoundTrip | index.js:143 | parsing an escaped string literal gives the string back |
| Json.NumberRoundTrip | index.js:143 | parsing the decimal text of an integer gives the integer back |
| JsValues.OwnKeys | index.js:42 | Object.keys throws exactly on undefined and null |
| JsValues.Put | index.js:60 | assignment sets the key, keeps every other key's value, adds at most that key, and keeps the Object.keys order of the list |
| JsValues.Insert | index.js:60 | a new key is added in its Object.keys position: after every entry it does not go before, in front of the first one it does, with the other entries in their order |
| JsValues.InsertWellFormed | index.js:42 | adding a key keeps the keys distinct and in Object.keys order |
| JsValues.Remove | index.js:55 | delete removes the key and nothing else |
| JsValues.RemoveWellFormed | index.js:42 | deleting keeps the keys distinct and in Object.keys order |
| JsValues.SetProp | index.js:60 | a strict-mode assignment succeeds exactly on objects and arrays, and throws a TypeError on primitives, null and undefined |
| JsValues.SetPropReads | index.js:60 | after an assignment, the key reads the new value and every other key reads as before |
| JsValues.SetSlot | index.js:60 | writing element i past the end lengthens the array with holes |
| JsValues.DeleteProp | index.js:55 | a strict-mode delete throws exactly on null, undefined, an array's length and a string's own characters and length; otherwise the key reads undefined and every other key reads as before |
| JsValues.Push | index.js:76 | push succeeds exactly on arrays and appends the value after every existing slot |
| JsValues.ConsWellFormed | index.js:42 | a property list with a first entry is well formed exactly when the rest is, the first key is new, and it precedes the rest in Object.keys order |
| JsValues.ChildSmaller | index.js:70-71 | a nested template is smaller than its parent, so the recursive walk terminates |
| JsText.Trim | index.js:91 | trim gives empty text exactly for white space, drops the white space at both ends, and leaves untrimmed text alone |
| JsText.TrimStartFacts | index.js:91 | trimming the start drops exactly the leading white space |
| JsText.TrimEndFacts | index.js:91 | trimming the end drops exactly the trailing white space |
| JsText.JsNumber | index.js:127 | Number() gives an integer exactly for blank text and integer literals, and NaN exactly for text that is no numeric literal |
| JsText.NumberOfIntText | index.js:127-128 | Number() reads back the decimal text of every integer |
| JsText.NumberOfBlank | index.js:127-128 | Number() of blank text is 0 |
| JsText.LowerAt | index.js:130 | lower-casing works character by character |
| JsText.CanonicalRoundTrip | index.js:42 | printing the number that a canonical digit string denotes gives that string back |
| JsText.IndexKeyInjective | index.js:42 | two array-index keys are equal exactly when their indices are |

## Left out

- Asynchrony: every `await` is taken as the value it waits for. `Promise.all` settles the collected results in list order, so the failure it reports is the first one in the list, not the first one in time.
- Expression evaluation is an `Evaluator` parameter: which texts `new Function` accepts, and what running the function with `with (data)` gives. `console.error` is not modelled, and the messages of the SyntaxError and TypeError are not the host's exact wording.
- Handlers and helpers are total functions of their arguments. This covers the built-in helpers from `./helpers` (#comment, #if, #each, #range), whose source is not part of this model, and the registered ones.
  - They do not receive the toolkit object with `parseTemplate` and `parseValue`, so they cannot re-enter the engine.
  - They cannot mutate the template, the accumulator or the data.
  - The objects they return are not shared with anything else: the model has no aliasing.
- Registering `undefined` or another non-function as a handler is not representable, so the TypeError from calling one is not modelled.
- Template keys naming a property every plain object inherits (`constructor`, `toString`, `__proto__`, …) fail with a NotModelled error. In the source, `this._helpers[key]` finds the inherited member and calls it as a directive.
- Host.Get: names the data object inherits (such as `toString`) read as undefined; the proxy would call the inherited function. Host.Proxy likewise lists only the data's own names, where the `in` test of `with` also finds inherited ones.
- Numbers are integers. Any of the following gives a NotModelled error:
  - text `Number()` reads as a fraction, an exponent, a radix literal or an infinity;
  - JSON text holding such a number, or a lone surrogate.
- Rounding to the nearest double is not modelled. Neither is the exponent form `toString` uses for integers of 21 digits or more.
- Assigning an array's `length` fails with a NotModelled error. Arrays longer than 2^32 - 1 are not modelled.
- Strings are sequences of Unicode scalar values, not UTF-16 code units. This affects string indexing in `Object.keys` on a string template, for characters outside the Basic Multilingual Plane.
- JsText.LowerAscii: only ASCII letters are lowered. No other character lowers to a letter of "true" or "false", so the comparisons in convertValue are unaffected.
- The two regular expressions are modelled as the two specific span finders, not as a general regular-expression engine.
- `compile`'s default `data = {}`: the caller passes the data.
- `getTypeArrayOrObject`'s `instanceof` tests are read as "is an array" and "is a plain object". Functions, class instances and objects from other realms do not occur in JSON templates.
- Walker.PlainObject: stated for object templates only. In an array template, a string leaf that resolves to undefined leaves its index free, and a later push can take that index, as Walker.ArrayIndexReused shows.
- Resolver.WholeExpression: stated for integer and boolean values only. A string value is converted again by convertValue, and an object or array comes back only when JSON describes it (Coercion.SubstituteThenConvert).
