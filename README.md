# custom-cache-decorator, modelled in Dafny

`createCacheDecorator` (packages/core/src/index.ts) builds a method decorator
from a pair of adapter functions, `getItem` and `setItem`, and an optional
`generateKey`. The decorated method derives a cache key from the receiver's class
name, the method name and the call's arguments. It then asks the adapter for that
key. A defined value comes back as the method's result. On `undefined` the
original method runs, its result is written back under the same key with the
decorator's own options, and that result is returned. Without a custom
`generateKey` the key is `className#methodName(JSON.stringify(args))`.

The model has these modules:

- `Wrappers` (wrappers.dfy): `Option`, `Result` and `Outcome`. A rejected promise
  is a `Failure`.
- `Json` (json.dfy): JSON values and the text `JSON.stringify` produces for them.
  Integers are written as decimal digits with an optional minus sign, which is
  what JavaScript prints for safe integers (magnitude at most 2^53 − 1). Strings
  are quoted with the escapes of ECMA-262 `QuoteJSONString`. Arrays and objects
  have no whitespace, and object members keep their insertion order.
- `JsonParse` (json_parse.dfy): a parser for the same text, following ECMA-404.
  It serves as the reference against which the serializer is proved: parsing
  what was serialized gives back the value, so the serializer is injective.
- `Keys` (keys.dfy): `defaultGenerateKey` and the choice between it and a custom
  `generateKey`. `SplitKey` reads a default key back into its three inputs.
  `KeyExamples` and `ExampleText` (key_examples.dfy) work out two concrete keys.
- `Cache` (cache.dfy): one call of the installed wrapper, as a pure function
  `Invoke` over a value-level adapter state `Store`. It returns the result, the
  trace of adapter calls and method runs, and the new state. The lemmas state
  the hit, miss and failure behaviour, the number of reads, computations and
  writes, and what a second call sees.
- `Decorator` (decorator.dfy): the same behaviour written imperatively. There is
  a map-backed adapter class, a factory class bound to it (`createCacheDecorator`),
  and one `CachedMethod` object per decorated method (the replaced
  `descriptor.value`). `CachedMethod.Call` is proved to equal `Cache.CachedCall`
  on the adapter's state before the call.

Two properties of the default key are worth knowing:

- The default key is unique across (class, method) pairs only when the class
  name has no `#`, because the key only concatenates the names around that
  character. A `#` in a class name lets two pairs share a key
  (`Keys.SeparatorInNameCollides`).
- Object members keep their insertion order, as `JSON.stringify` does, so
  structurally equal arguments whose members were given in a different order
  give a different key (`Keys.InsertionOrderMatters`).

## Model

| member | source | states |
|---|---|---|
| Json.EscapeChar | packages/core/src/index.ts:15 | a code point is written as itself exactly when it is at least U+0020 and is neither `"` nor `\`; otherwise its escape starts with a backslash; no character of the output is a control character |
| Json.Escape | packages/core/src/index.ts:15 | escaping a string never makes it shorter |
| Json.EscapeIsPrintable | packages/core/src/index.ts:15 | no control character below U+0020 appears in an escaped string |
| Json.Quote | packages/core/src/index.ts:15 | a string literal starts and ends with a quotation mark |
| JsonParse.EscapeCharRoundTrip | packages/core/src/index.ts:15 | reading back the escape of any code point gives that code point, followed by whatever the rest of the text reads as |
| JsonParse.StringRoundTrip | packages/core/src/index.ts:15 | parsing the quoted text of any string gives back exactly that string and the text after it |
| Json.NatDigits | packages/core/src/index.ts:15 | the decimal text of a number is non-empty and all digits; it is "0" for zero and has no leading zero otherwise |
| Json.IntText | packages/core/src/index.ts:15 | the text of an integer is non-empty, starts with `-` exactly when the integer is negative, and starts with a digit otherwise |
| Json.Serialize | packages/core/src/index.ts:15 | `JSON.stringify` of a value: non-empty text that starts with a character that can begin a JSON value; `JsonParse.ValueRoundTrip` is its inverse |
| Json.SerializeElements | packages/core/src/index.ts:15 | the comma-joined elements of a non-empty array start with the first character of the first element's text |
| Json.SerializeMember | packages/core/src/index.ts:15 | a member's text starts with the quotation mark of its name |
| Json.SerializeMembers | packages/core/src/index.ts:15 | the comma-joined members of a non-empty object start with a quotation mark |
| JsonParse.ValueRoundTrip | packages/core/src/index.ts:15 | parsing the serialized text of any JSON value, followed by any text that does not continue a number, gives back the value and that exact remaining text |
| JsonParse.SerializeInjective | packages/core/src/index.ts:15 | two JSON values with the same serialized text are equal |
| Keys.DefaultKey | packages/core/src/index.ts:10-16 | `defaultGenerateKey`; it has no contract of its own: `Keys.SplitDefaultKey` inverts it, and `Keys.DefaultKeyInjective` and `Keys.ArgumentsDetermineKey` state which calls it keeps apart |
| Keys.DeriveKey | packages/core/src/index.ts:85-89 | the custom `generateKey` when one is given, else `defaultGenerateKey`; it has no contract of its own: `Cache.CustomKeyIsUsed` and `Cache.DefaultKeyIsUsed` state which key a call uses |
| Keys.SplitDefaultKey | packages/core/src/index.ts:10-16 | when the class name has no `#` and the method name has no `(`, the default key can be split back into its class name, method name and argument list |
| Keys.DefaultKeyInjective | packages/core/src/index.ts:10-16 | under that naming condition, equal default keys mean equal class names, method names and argument lists |
| Keys.SameClassKeyInjective | packages/core/src/index.ts:15 | within one class, whatever its name, calls of methods whose names have no `(` get equal default keys only when the method names and argument lists are equal |
| Keys.ArgumentsDetermineKey | packages/core/src/index.ts:15 | for one class and method, whatever their names, equal default keys mean equal argument lists |
| Keys.SeparatorInNameCollides | packages/core/src/index.ts:15 | class `A#b` with method `c` and class `A` with method `b#c` get the same default key |
| Keys.InsertionOrderMatters | packages/core/src/index.ts:15 | `{"a":1,"b":2}` and `{"b":2,"a":1}` as the argument give different default keys |
| KeyExamples.ExampleKeyOneString | packages/core/src/index.ts:15 | the default key of `TestClass.testMethod("test")` is `TestClass#testMethod(["test"])` |
| KeyExamples.ExampleKeyMixed | packages/core/src/index.ts:15 | the default key of `TestClass.testMethod(1, "arg2", {key: "value"})` is `TestClass#testMethod([1,"arg2",{"key":"value"}])` |
| Cache.ReadItem | packages/core/src/index.ts:25-31 | `getItem` fails exactly when the adapter's read fault is set, with that error; otherwise it gives the stored value, or `undefined` for a missing key |
| Cache.WriteItem | packages/core/src/index.ts:33-41 | `setItem` fails exactly when the write fault is set; otherwise the key then reads as the written value, every other key reads as before, the key set gains only that key, and the faults are unchanged |
| Cache.CachedCall | packages/core/src/index.ts:84-99 | the whole installed body: `Invoke` on the derived key; it has no contract of its own: the `Cache` lemmas state its behaviour and `Decorator.CachedMethod.Call` is proved equal to it |
| Cache.Invoke | packages/core/src/index.ts:90-98 | every call starts with one read of its key; no key other than the call's key changes; the faults are unchanged |
| Cache.ReadFailurePropagates | packages/core/src/index.ts:90 | a failing `getItem` is the call's result; nothing runs, nothing is written, and the state is unchanged |
| Cache.HitReturnsCachedValue | packages/core/src/index.ts:90-93 | a defined stored value is returned as it is; the original method does not run and the state is unchanged |
| Cache.MissComputesWritesReturns | packages/core/src/index.ts:94-97 | on a miss, the original runs once on the call's arguments, its result is written under the same key with the decorator's options, and that result is returned |
| Cache.ComputeFailureIsNotCached | packages/core/src/index.ts:95-96 | an original method that fails on a miss has its error returned, and nothing is written |
| Cache.WriteFailurePropagates | packages/core/src/index.ts:96-97 | when the write after a successful computation fails, the write's error is returned instead of the computed value |
| Cache.StepCounts | packages/core/src/index.ts:90-97 | each call reads exactly once; the original runs once on a miss and never otherwise; the call writes once exactly when a miss computed successfully |
| Cache.WriteIsLastAndOfComputedValue | packages/core/src/index.ts:95-96 | any write is the last step, comes right after the computation, and stores the computed value under the call's key with the decorator's options |
| Cache.DefinedResultThenHit | packages/core/src/index.ts:90-97 | after a call that returned a defined value, the next call with the same key is a hit that returns the same value, whatever the method would now compute |
| Cache.UndefinedIsRecomputed | packages/core/src/index.ts:92 | when the method returns `undefined` on a miss, the key still reads as a miss, and the next call runs the method again |
| Cache.EvictionRecomputes | packages/core/src/index.ts:90-97 | once the key is removed from the adapter, the next call runs the method once and, if that and the write succeed, stores the new result |
| Cache.ColdStart | packages/core/src/index.ts:94-97 | the first successful call on an empty adapter runs the method once and leaves exactly one entry, under the call's key |
| Cache.CustomKeyIsUsed | packages/core/src/index.ts:85-89 | with a custom `generateKey`, every read and write uses its output for the call's class name, method name and arguments |
| Cache.DefaultKeyIsUsed | packages/core/src/index.ts:85-89 | without one, the call reads `className#methodName(JSON.stringify(args))` |
| Cache.DefaultKeysIsolateCalls | packages/core/src/index.ts:85-97 | with default keys and method names free of `(`, a call leaves the entry of every other method or other argument list of the same class as it was, whatever the class name |
| Decorator.MapAdapter.constructor | packages/core/src/index.ts:24-41 | a new adapter holds no entries and has neither fault set |
| Decorator.MapAdapter.GetItem | packages/core/src/index.ts:31 | the adapter's `getItem` returns what `Cache.ReadItem` gives for its current state |
| Decorator.MapAdapter.SetItem | packages/core/src/index.ts:41 | the adapter's `setItem` moves to the state `Cache.WriteItem` gives and reports success, or reports its error and leaves its state unchanged |
| Decorator.CacheDecorator.constructor | packages/core/src/index.ts:67-69 | the factory holds the adapter and the optional `generateKey` it was given |
| Decorator.CacheDecorator.Decorate | packages/core/src/index.ts:76-84 | decorating a method gives a new cached method that shares the factory's adapter and key deriver and holds the decorator's options, the method name and the original body |
| Decorator.CachedMethod.constructor | packages/core/src/index.ts:82-84 | the replaced method holds the adapter, the key deriver, the decorator's options, the method name and the original body it was given |
| Decorator.CachedMethod.Call | packages/core/src/index.ts:84-99 | one call returns the result and trace of `Cache.CachedCall` on the adapter's state before the call, and leaves the adapter in that invocation's final state |

## Left out

- Promises and scheduling: each `await` is one step in order, and concurrent calls of a wrapped method (several misses of one key running at once) are not modelled.
- Decorator mechanics: `target`, the property descriptor and the two-step currying become `CacheDecorator.Decorate`. The receiver's `this.constructor.name` is a per-call `className` argument.
- `originalMethod.apply(this, args)`: the original body is a pure function of the arguments, so its dependence on the receiver or on outside state is not modelled.
- A custom `generateKey` is a pure total function; one that throws or is not deterministic is not modelled. Only an absent `generateKey` selects the default, not other falsy values.
- Keys.SameClassKeyInjective: assumes that neither method name contains `(`, because its proof splits the key at the first `(`; the key itself does not need this, for the reason given on the next line.
- Keys.DefaultKeyInjective: also assumes that neither method name contains `(`. `Keys.SplitKey` splits at the first `(` and needs that, but the key itself stays injective without it, since a `(` inside serialized arguments can only occur within a string; the stronger statement is not proved.
- Cache.DefaultKeysIsolateCalls: it rests on `Keys.SameClassKeyInjective`, so for the same reason it also assumes no `(` in either method name, which isolation itself does not need. It places no condition on the class name.
- Json.IntText: exact only for safe integers, whose magnitude is at most 2^53 − 1 (`Number.MAX_SAFE_INTEGER`). A JavaScript number is a double, so a larger integer is either not representable or is printed by `JSON.stringify` as its shortest round-trip digits, padded with zeros below 10^21 (2^60 prints as `1152921504606847000`) and in exponent notation from 10^21 (`1e+21`), while the model prints every digit.
- Arguments and values outside JSON: non-integer numbers, `-0`, `NaN` and the infinities, `undefined`, functions and symbols inside arguments, `toJSON`, and the `TypeError` that `JSON.stringify` throws for cycles and `BigInt`.
- JavaScript's own member order for integer-like property names is not modelled; members keep the order in which they are given.
- Lone UTF-16 surrogates cannot occur, because Dafny characters are Unicode scalar values.
- Only a map-backed adapter is modelled. The options passed to `setItem` (a time to live) are recorded but not interpreted, and expiry appears only as a removed key (`Cache.EvictionRecomputes`). The Redis and LRU adapters in examples/core/src are example programs and are not part of this model.
- JsonParse.ValueRoundTrip: the parser is a reference definition of the serializer's text, not code of the repository. It accepts no whitespace and no surrogate-pair `\u` escapes, which the serializer never produces.
- The repository's tests exercise `corePrint`, which is not part of this model. `KeyExamples` works out the default keys of two example calls.
