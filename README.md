# falbricate core, modelled in Dafny

falbricate generates fake structured data ("falsa") from a declarative
schema. A schema names a randomizer and maps each field name to a field
definition. A definition is one of three things:
- a standard string: `!ref-<path>`, `!const-<json>` or a plain generator name;
- an object `{ type, config }`;
- or anything else, which is refused.

Compilation resolves every definition against an **ecosystem**: two
registries, one of randomizer factories and one of value generator
factories, filled by plugins. The result is a compiled schema of value
generators. Generating one record then runs the generators field by field.
Each generator gets a context holding the record index, the run's
randomizer, the field's name, and copies of the caller's context and of
the record made so far.

Around this core sit:
- **value generators:** random booleans, integers, strings, picking and
  sampling, references into the context, constants, the string switch,
  xor, nested arrays and the nullability wrapper;
- **randomizers:** seeded, contextually seeded and constant;
- **pipes:** key ordering, snake-casing, and rename, drop and pick field;
- **utilities:** deep copy, dot-path referencing, `key=value&…`
  configuration strings, string templates and charsets.

## How the model is built

- **Values.** JavaScript values are `Json.Value`: `undefined`, `null`,
  booleans, numbers, strings, arrays, objects and opaque functions.
  - Numbers are exact reals, so no rounding or Infinity is modelled. A
    `NaN` from `Number(text)` is an absent value.
  - Objects are association lists in key order. Assigning `o[k] = v` is
    `AssocLists.Put`: it replaces an existing key in place and appends a
    new one.
- **Truthiness** (`!x`), `typeof`, `??`, property reads on
  `null`/`undefined` (a `TypeError`) and `String(x)` are written out in
  `Json`.
- **Errors.** Thrown errors are `Wrappers.Result` values that carry the
  error class and the source's message text.
- **Randomizers** are values (`Randomness.Randomizer`). Their state is
  threaded through every draw and returned with each result. The seeded
  randomizer's step `(seed * 9301 + 49297) % 233280 / 233280` is exact,
  with JavaScript's truncating `%`.
- **Generators.** A compiled value generator is a `Generators.Generator`
  descriptor, and `Generators.Eval` interprets it against a context and
  a randomizer. Factories are `Generators.Factory` descriptors, and
  `Schemas.Build` turns a factory and its configuration into a generator.
- **Ecosystem.** The ecosystem is a class over two `Registries.Registry`
  objects whose `records` field `register`, `registerAll` and `remove`
  reassign. Schema compilation reads a snapshot of the ecosystem
  (`Schemas.Env`), made by `Ecosystems.Ecosystem.Capabilities`.
- **State-changing code is imperative:**
  - registries and the ecosystem are classes;
  - the seeded randomizer is a class with a `seed` field;
  - `orderItems` sorts an `array` in place with a loop.

  Each of these is proved against a specification function whose own
  properties are lemmas. The loops in `parseConfigString`,
  `compileSchemaInput`, `generateFalsum`, `stringTemplate`,
  `randomString`, the field pipes and the nested-array generator are
  methods with invariants.

Where the repository's own tests or doc comments describe something the
code does not do, the model follows the code:
- `compileStandard` knows only the `!ref-` and `!const-` prefixes. The
  integration tests use a `!conf-` form
  (`__integration_tests__/compilation/preconfigurations.test.ts`, line 30)
  and a `type?query` form (`__integration_tests__/generation.test.ts`,
  line 7; `__integration_tests__/compilation/inline-configurations.test.ts`,
  line 9). The code has neither form, and neither does the model.
- The doc comment of `deepCopy` (src/utils/deep-copy.ts, lines 1-11)
  promises a deep copy of the given value. In the code `deepCopy(null)` is
  `{}` (`typeof null` is `'object'`). So a copy equals its original when
  the value holds no `null` and its objects have unique keys
  (`DeepCopy.CopyIdentity`), but not in general.
- The doc comment of `constantRandomizer` (src/core-randomizers/constant.ts,
  lines 8-16) documents errors for a missing value, a non-number and a
  value outside `[0, 1]`; it does not mention `0`, which the code refuses
  as falsy (`!config.value`). The code accepts `1`.
  With a draw of exactly 1, `randomInteger` returns `max + 1`
  (`Randomness.RandomIntegerAtOne`).

The model also keeps two behaviours of the code that the doc comments do
not mention:
- The core `randomStringGenerator` accepts an empty charset array when it
  is built. It fails only when it generates, through `randomString`'s
  check.
- `Object.keys` of an array or a string gives the index keys. So a
  string-switch whose `handlers` is a non-empty string or array passes
  the handler-count check (`Generators.OwnKeys`).

## Model

| member | source | states |
|---|---|---|
| Registries.GetIn | src/ecosystem/registry.ts:48-58 | `get` succeeds exactly when the name holds a truthy item, returns that stored item, and otherwise fails with "No item '…' found in registry …" |
| Registries.FalsyItemReadsAbsent | src/ecosystem/registry.ts:33-58 | a name stored with a falsy item is reported absent by `has` and refused by `get` |
| Registries.PutFacts | src/ecosystem/registry.ts:83 | after `records[name] = item`, that name reads the item, every other name reads as before, and a new name is appended to the key order while a known one keeps its place |
| Registries.RegisterIn | src/ecosystem/registry.ts:71-84 | `register` refuses an empty name, then an already present name, then an empty item, each with its own message and in that order; it succeeds exactly when none applies, and then the records are the assignment |
| Registries.RegisterUpdates | src/ecosystem/registry.ts:71-84 | after a successful `register` the name is present and `get` returns the item; no other name changes and unique keys stay unique |
| Registries.RegisterKeepsPresent | src/ecosystem/registry.ts:74-78 | a successful `register` never overwrites a name already present |
| Registries.RegisterAllUnfold | src/ecosystem/registry.ts:93-98 | `registerAll` registers its first entry and, only if that succeeds, goes on with the rest |
| Registries.RegisterAllKeepsPresent | src/ecosystem/registry.ts:93-98 | `registerAll`, successful or not, leaves every present name's item as it was and keeps keys unique |
| Registries.RegisterAllRegisters | src/ecosystem/registry.ts:93-98 | after a successful `registerAll` every given entry had a non-empty name and a truthy item and is retrievable under its name |
| Registries.RegisterAllStops | src/ecosystem/registry.ts:93-98 | a failing `registerAll` stops at the first entry whose `register` fails: the entries before it are registered, its error is the result, and the later ones are not registered |
| Registries.RemoveFacts | src/ecosystem/registry.ts:105-115 | after `remove(name)` the name is absent, every other name reads as before, the key order is kept, and removing an absent name changes nothing |
| Registries.RemoveThenRegister | src/ecosystem/registry.ts:105-115 | a removed name can be registered again, and `get` then returns the new item |
| Registries.Registry.constructor | src/ecosystem/registry.ts:16-23 | a registry starts with the given type and initial records |
| Registries.Registry.Has | src/ecosystem/registry.ts:33-35 | `has(name)` is true exactly when the name holds a truthy item |
| Registries.Registry.Get | src/ecosystem/registry.ts:48-58 | `get(name)` on the registry's current records |
| Registries.Registry.Register | src/ecosystem/registry.ts:71-84 | `register` changes the records exactly as `RegisterIn` says on success and leaves them alone on failure, returning its error |
| Registries.Registry.RegisterAll | src/ecosystem/registry.ts:93-98 | the loop over the map's entries leaves the records `RegisterAllIn` computes and reports its failure |
| Registries.Registry.Remove | src/ecosystem/registry.ts:105-115 | the loop copying every other key leaves exactly the records without `name` |
| Registries.NewRegistry | src/ecosystem/registry.ts:16-23 | the constructor refuses exactly the empty type, with "Registry type must be a non-empty string" |
| Ecosystems.Ecosystem.constructor | src/ecosystem/ecosystem.ts:10-13 | a new ecosystem holds two distinct empty registries, of types `randomizer` and `value-generator` |
| Ecosystems.Ecosystem.Register | src/ecosystem/ecosystem.ts:42-45 | `register(plugin)` registers the plugin's randomizers and then its value generators, each with `?? {}`; the first failure ends it |
| Ecosystems.Ecosystem.GetRandomizerFactory | src/ecosystem/ecosystem.ts:56-58 | succeeds exactly when the randomizer registry has the name; otherwise it fails with that registry's not-found message |
| Ecosystems.Ecosystem.Capabilities | src/schema/schema.ts:57-64 | what schema compilation reads from an ecosystem: its value generator factories are the registry's entries, and a truthy randomizer name resolves through `getRandomizerFactory` |
| Ecosystems.RandomizerFailureStops | src/ecosystem/ecosystem.ts:42-45 | when the randomizers cannot all be registered, no value generator of the plugin is registered and the randomizer registry's error is the result |
| Ecosystems.RandomizerCollision | src/ecosystem/ecosystem.ts:42-45 | a plugin whose first randomizer name is taken is refused with "already exists", and both registries stay as they were |
| Ecosystems.RegisterPluginKeepsPresent | src/ecosystem/ecosystem.ts:42-45 | registering a plugin never changes a name already in either registry |
| Ecosystems.RegisterPluginRegisters | src/ecosystem/ecosystem.ts:42-45 | after a successful registration every factory of the plugin is retrievable under its name |
| Ecosystems.EmptyPlugin | src/ecosystem/ecosystem.ts:42-45 | a plugin with neither map changes nothing and succeeds |
| Ecosystems.RegisteredRandomizerReturned | src/ecosystem/ecosystem.ts:42-58 | a randomizer factory registered by a plugin into a new ecosystem is what `getRandomizerFactory` returns for its name |
| Schemas.GeneratorFactory | src/schema/schema.ts:100 | `getValueGeneratorFactory(name)` succeeds exactly when the value generator registry has the name, else fails with its not-found message |
| Schemas.ParseStandard | src/schema/schema.ts:79-84 | a standard string is a reference exactly when it starts with `!ref-`, and a constant exactly when it starts with `!const-` and not `!ref-` |
| Schemas.ParseThenText | src/schema/schema.ts:79-101 | splitting a standard string into its form and its rest loses nothing: the text is rebuilt exactly |
| Schemas.TextThenParse | src/schema/schema.ts:79-101 | writing a standard form back as text and splitting it again gives the same form |
| Schemas.ConstantValue | src/schema/schema.ts:86-93 | the text after `!const-` is its `JSON.parse` value when it parses; on a caught parse error it stays the raw string |
| Schemas.Spread | src/schema/schema.ts:126-129 | `{...field.config}`: an object's entries by last assignment, the index keys of an array or a string, and nothing for anything else |
| Schemas.DefinitionConfig | src/schema/schema.ts:126-129 | the configuration compiled with a definition never holds a user `ecosystem` entry: the ecosystem is passed beside it |
| Schemas.ObjectConfiguration | src/schema/schema.ts:126-129 | for an object `config` with unique keys, the configuration is that config without its `ecosystem` entry |
| Schemas.CompileFieldDefinition | src/schema/schema.ts:114-154 | a string or object definition without an ecosystem fails with a `TypeError`; any definition that is neither fails with "Unexpected field definition format" |
| Schemas.CompileStandard | src/schema/schema.ts:75-102 | compiling a string standard; `ReferenceStandard`, `ConstantStandard`, `ConstantNumber`, `ConstantText` and `NamedStandard` state what each prefix compiles to |
| Schemas.CompileObjectDefinition | src/schema/schema.ts:121-148 | compiling an object definition; `NullDefinition`, `UnknownType`, `NullabilityNeedsProbability`, `NullabilityNeedsRandomizer` and `RandomizerOnlyForNullability` state its refusals and when the nullability wrapper is used |
| Schemas.Build | src/schema/schema.ts:148 | `valueGeneratorFactory(config)`: the nesting factories compile their definitions, the others build directly; `NestingNeedsEcosystem` states that nesting needs an ecosystem |
| Schemas.BuildPlain | src/core-plugin/core-plugin.ts:62-165 | the factories that compile no nested definition, each to its generator; the factories' own contracts (`BooleanGenerator`, `IntegerGenerator`, `PresetBounds`, `ConstantGenerator`, the picking and string factories) state what they accept and refuse |
| Schemas.CompileSwitch | src/core-generators/expressions/string-switch-expression.ts:28-76 | compiling the string switch: its refusals are `SwitchChecks`, its handlers follow the handler object's keys (`CompileEachKeys`, `CompileEachValues`), and its dispatch is `SwitchDispatch` |
| Schemas.CompileXor | src/core-generators/misc/xor.ts:23-37 | compiling the xor: its refusals are `XorChecks`, and `CompileOptions` keeps one generator per option, in order |
| Schemas.CompileNested | src/generators/common/arrays/nested-array.ts:7-33 | compiling the nested array: its refusals and bounds are `NestedArrayChecks` and `NestedOrderBeforeSign` |
| Schemas.CompileSchemaInput | src/schema/schema.ts:167-197 | compiling a schema input; `SchemaFields`, `SchemaRandomizer` and `SchemaInputRefusals` state its fields, its randomizer and its refusals, and `CompileSchema` is the loop that computes it |
| Schemas.OwnRandomizer | src/schema/schema.ts:140-141 | `randomizerFactory()` fails with "randomizerFactory is not a function" when no factory was passed |
| Schemas.CompileOptions | src/core-generators/misc/xor.ts:34-36 | when every option compiles, `options.map(compileFieldDefinition)` yields one generator per option |
| Schemas.CompileRandomizerFactory | src/schema/schema.ts:57-64 | a falsy name gives the default randomizer; a truthy one resolves in the randomizer registry or fails with its not-found message |
| Schemas.CompileSchema | src/schema/schema.ts:167-197 | `compileSchemaInput` as a loop over the field names agrees with its specification function |
| Schemas.CompileFields | src/schema/schema.ts:179-190 | the loop compiling `input.fields` one key at a time agrees with `CompileEach` |
| Schemas.ReferenceStandard | src/schema/schema.ts:79-83 | `!ref-<path>` compiles, through the `reference` factory, to a referencer of that path with no throwing and separator `.`; an empty path is refused with "'path' is a required field" |
| Schemas.ReferencerBuild | src/generators/common/misc/referencer.ts:9-18 | the referencer factory given only a path builds a referencer with `onEmptyThrow` false and separator `.`, and refuses an empty path |
| Schemas.ConstantStandard | src/schema/schema.ts:84-96 | `!const-<text>` compiles, through the `constant` factory, to a generator of a deep copy of the parsed value |
| Schemas.ConstantBuild | src/core-generators/constants/constant.ts:16-18 | the constant factory builds a generator returning a deep copy of `config.value` |
| Schemas.ConstantNumber | src/schema/schema.ts:84-96 | `!const-<digits>` generates that number |
| Schemas.ConstantText | src/schema/schema.ts:88-93 | `!const-<text>` whose text is not JSON generates the text itself |
| Schemas.NamedStandard | src/schema/schema.ts:99-101 | a plain name is built by its registered factory with an empty configuration, or fails with the not-found message |
| Schemas.NullDefinition | src/schema/schema.ts:121-124 | the definition `null` (`typeof` is `'object'`) fails with the `TypeError` of reading `type` from `null` |
| Schemas.UnknownType | src/schema/schema.ts:122-124 | an object definition whose `type` is unregistered fails with the registry's not-found message |
| Schemas.NullabilityNeedsProbability | src/schema/schema.ts:131-138 | a truthy `nullability` without a `probability` (other than 0) is refused with "Nullability is specified but is missing 'probability'" |
| Schemas.NullabilityNeedsRandomizer | src/schema/schema.ts:140-141 | nullability with a probability but no randomizer factory fails with "randomizerFactory is not a function" |
| Schemas.RandomizerOnlyForNullability | src/schema/schema.ts:131-148 | the randomizer factory matters only when the definition has nullability: without it, compiling with or without a factory gives the same result |
| Schemas.NestingNeedsEcosystem | src/core-generators/expressions/string-switch-expression.ts:38-42 | without an ecosystem the string switch fails with "'ecosystem' property is required", and the nested array and a non-empty xor fail when they compile their inner definitions |
| Schemas.CompileEachValues | src/schema/schema.ts:182-190 | the field loop succeeds exactly when every definition compiles; each field then holds its definition's compiled generator, and other names are untouched |
| Schemas.CompileEachKeys | src/schema/schema.ts:182-190 | the field loop appends the field names, in order, after those already present |
| Schemas.SchemaFields | src/schema/schema.ts:179-196 | a compiled schema has exactly the input's field names, in order, each holding its definition compiled with the schema's randomizer factory |
| Schemas.SchemaRandomizer | src/schema/schema.ts:171-177 | an unresolvable randomizer name fails the compilation; a compiled schema keeps the resolved factory and `randomizer.config ?? {}` |
| Schemas.SchemaInputRefusals | src/schema/schema.ts:171-182 | a nullish input fails reading `randomizer`, and nullish `fields` fails `Object.keys` with a `TypeError` |
| Generators.BooleanGenerator | src/core-generators/booleans/booleans.ts:17-56 | the random boolean factory succeeds exactly for an absent probability or a number in [0, 1], and then uses that probability, or 0.5 when absent |
| Generators.BooleanGeneratorRefusals | src/core-generators/booleans/booleans.ts:22-43 | a non-number probability is a `TypeError`; above 1 and below 0 are refused, each with its message |
| Generators.RandomBooleanOutcome | src/core-generators/booleans/booleans.ts:45-55 | probability 0 yields false and 1 yields true without drawing; otherwise the result is `probability > draw`, and one draw is consumed |
| Generators.RandomBooleanExtremes | src/core-generators/booleans/booleans.ts:29-55 | a configured probability of 0 or 1 compiles and always yields false or true respectively, without touching the randomizer |
| Generators.IntegerGenerator | src/core-generators/numbers/integer.ts:22-39 | the integer factory refuses a missing `max` (0 allowed) and `max < min`; it succeeds exactly for numeric bounds with `min <= max`, `min` defaulting to 0 |
| Generators.IntegerWithinBounds | src/core-generators/numbers/integer.ts:36-38 | with integral bounds and a draw in [0, 1), the generated value is an integer within [min, max] |
| Generators.PresetBounds | src/core-generators/numbers/integer.ts:47-87 | the units, tens, hundreds and thousands presets have ordered bounds |
| Generators.PresetCompiles | src/core-generators/numbers/integer.ts:47-87 | each of the units, tens, hundreds and thousands presets compiles to the integer generator over its bounds |
| Generators.ConstantGenerator | src/core-generators/constants/constant.ts:13-19 | the constant factory snapshots a deep copy of `config.value` at compile time |
| Generators.ConstantSnapshot | src/core-generators/constants/constant.ts:16-18 | the constant generator returns that snapshot on every call without drawing, and the snapshot is its own deep copy |
| Generators.CorePickingGenerator | src/core-generators/arrays/picking.ts:9-28 | picking from `options` refuses a non-array (`TypeError`) and an empty array; it succeeds exactly for a non-empty array and picks from it |
| Generators.CommonPickingGenerator | src/generators/common/arrays/picking.ts:9-26 | picking from `array`: the same refusals with this variant's messages |
| Generators.PickingYieldsMember | src/core-generators/arrays/picking.ts:25-27 | a compiled picking generator yields one of its items |
| Generators.SamplingGenerator | src/generators/common/arrays/sampling.ts:9-40 | sampling refuses a non-array and an empty array; what compiles has bounds with `0 <= min <= max`, and absent bounds default to 0 and the array's length |
| Generators.ReferencerGenerator | src/generators/common/misc/referencer.ts:5-19 | the referencer factory succeeds exactly for a truthy `path`, defaults `onEmptyThrow` to false and the separator to `.`, and otherwise fails with "'path' is a required field" |
| Generators.ReferencerReads | src/generators/common/misc/referencer.ts:8-18 | a referencer over a path returns what `reference(context, path, false, '.')` returns, or its error, without drawing |
| Generators.OwnKeys | src/core-generators/expressions/string-switch-expression.ts:44 | `Object.keys`: an object's keys, one index key per array item or string character |
| Generators.SwitchChecks | src/core-generators/expressions/string-switch-expression.ts:38-54 | the string switch refuses a missing ecosystem, then missing or empty handlers, then a missing value definition, in that order |
| Generators.FindHandler | src/core-generators/expressions/string-switch-expression.ts:79 | `handlers[value]` finds the first handler registered under the string switched on, and none exactly when there is no such key |
| Generators.SwitchDispatch | src/core-generators/expressions/string-switch-expression.ts:77-86 | the switch stringifies the value provider's result and runs the handler of that name, else the default, else yields `undefined`, after the provider's draws |
| Generators.SwitchDispatchUnique | src/core-generators/expressions/string-switch-expression.ts:77-86 | with unique handler names, the handler whose name is the string switched on is the one that runs |
| Generators.XorChecks | src/core-generators/misc/xor.ts:26-36 | xor refuses falsy `options`, and a truthy non-array fails with "options.map is not a function"; it succeeds exactly for an array, keeping its items |
| Generators.XorPicksOne | src/core-generators/misc/xor.ts:38-44 | xor with one option runs it without drawing; with several it runs one of them with the randomizer after one draw |
| Generators.XorWithoutOptions | src/core-generators/misc/xor.ts:38-44 | xor over an empty array compiles but fails on generation with "given array is empty" |
| Generators.NestedArrayChecks | src/generators/common/arrays/nested-array.ts:13-30 | the nested array refuses a missing definition, then a missing `maxItems`; it succeeds exactly for numeric bounds with `0 <= minItems <= maxItems` |
| Generators.NestedOrderBeforeSign | src/generators/common/arrays/nested-array.ts:24-30 | the order check comes before the sign check: `minItems` 0 and `maxItems` -1 give the order message |
| Generators.GenerateNestedArray | src/generators/common/arrays/nested-array.ts:34-44 | the loop pushing `nItems` generated items agrees with the specification interpreter |
| Generators.RepeatLength | src/generators/common/arrays/nested-array.ts:37-43 | the push loop adds exactly `nItems` items after those already made |
| Generators.NestedArrayLength | src/generators/common/arrays/nested-array.ts:34-44 | a generated nested array has between `minItems` and `maxItems` items |
| Generators.Eval | src/schema/schema.ts:148 | calling a compiled generator with a context: one case per generator kind; what each kind yields is stated by the lemmas named in the rows below and above (`RandomBooleanOutcome`, `IntegerWithinBounds`, `PickingYieldsMember`, `ReferencerReads`, `SwitchDispatch`, `XorPicksOne`, `NestedArrayLength`, `NullableExtremes`) |
| Generators.EvalBoolean | src/core-generators/booleans/booleans.ts:45-55 | the random boolean's closure; `RandomBooleanOutcome` states that it is `true` exactly when the probability exceeds the draw, and `RandomBooleanExtremes` that probabilities 0 and 1 draw nothing |
| Generators.EvalInteger | src/core-generators/numbers/integer.ts:36-38 | the integer generator's closure; `IntegerWithinBounds` states that the number lies between the bounds |
| Generators.EvalReferencer | src/generators/common/misc/referencer.ts:8-18 | the referencer's closure; `ReferencerReads` states that it yields the value at the path in the context and leaves the randomizer alone |
| Generators.XorChoice | src/core-generators/misc/xor.ts:38-41 | the xor's random pick of one generator; `XorPicksOne` states that the value is the picked option's value |
| Generators.Repeat | src/generators/common/arrays/nested-array.ts:37-43 | the nested array's loop; `RepeatLength` states that it appends exactly as many values as asked, and `GenerateNestedArray` is the loop that computes it |
| Generators.NullableGenerator | __unit_tests__/generators/nullable-clojure.test.ts:42-56 | the nullability wrapper refuses a nullish probability and one outside [0, 1], each with its message, and otherwise wraps the inner generator |
| Generators.NullableExtremes | __unit_tests__/generators/nullable-clojure.test.ts:14-28 | nullability 0 always runs the inner generator; nullability 1 always yields the null-like value |
| Falbricators.GenerateFalsum | src/falbricator/falbricator.ts:22-44 | the field loop of `generateFalsum` agrees with its specification function, failures included |
| Falbricators.FabricateLoop | src/falbricator/falbricator.ts:28-41 | the loop over the field names, from the empty record, ends with the record and randomizer state of the specification loop, or its first failure |
| Falbricators.MakeField | src/falbricator/falbricator.ts:31-40 | one field's turn: a failure of its generator is the loop's failure; otherwise the loop goes on from the record with the new entry and the randomizer state the generator left |
| Falbricators.FabricateSplit | src/falbricator/falbricator.ts:30-41 | the loop over two runs of fields is the loop over the first followed by the loop over the second from where it stopped |
| Falbricators.FieldStep | src/falbricator/falbricator.ts:30-41 | the k-th field's generator is called once, with the record made so far and the randomizer those fields left, before the later fields |
| Falbricators.FabricateKeeps | src/falbricator/falbricator.ts:39-40 | generating other fields never changes the entry of a field already made |
| Falbricators.FabricateKeys | src/falbricator/falbricator.ts:30-43 | the loop appends distinct new field names in their order |
| Falbricators.FalsumFields | src/falbricator/falbricator.ts:28-43 | a record has exactly the schema's field names, in the schema's order |
| Falbricators.FieldValue | src/falbricator/falbricator.ts:31-40 | each field holds what its generator made from a context with a copy of the fields before it |
| ConfigParsing.ParseValue | src/utils/config-parsing.ts:9-19 | a value whose `JSON.parse(decodeURIComponent(value))` succeeds is that result; a string result falling past it is the decoded text; every error (short of where the model stops) is `decodeURIComponent`'s `URIError` |
| ConfigParsing.ParseValueNat | src/utils/config-parsing.ts:11 | a run of decimal digits parses to its number |
| ConfigParsing.ParseValueWord | src/utils/config-parsing.ts:13-17 | a word that is neither JSON nor a number stays the string itself |
| ConfigParsing.ParseValueJson | src/utils/config-parsing.ts:11 | text without `%` that parses as JSON is its JSON value |
| ConfigParsing.ParameterOfPair | src/utils/config-parsing.ts:45 | `k=v` splits into key `k` and value `v` |
| ConfigParsing.ParameterDropsRest | src/utils/config-parsing.ts:45 | `k=v=rest` keeps only `k` and `v`: the destructuring drops the rest |
| ConfigParsing.ParameterOfKey | src/utils/config-parsing.ts:45-46 | a parameter without `=` has key `k` and an undefined value |
| ConfigParsing.ParsePairs | src/utils/config-parsing.ts:44-46 | on success, every `&`-separated parameter gives one key-value pair |
| ConfigParsing.ParsePairsFails | src/utils/config-parsing.ts:44-46 | the first parameter whose value fails to parse makes the whole parse fail with its error |
| ConfigParsing.ParsePairsSnoc | src/utils/config-parsing.ts:44-46 | one more parameter adds its pair at the end |
| ConfigParsing.AssignInto | src/utils/config-parsing.ts:49-56 | the loop body agrees with its specification function, whose effect `AssignKeys` and `AssignLookup` state |
| ConfigParsing.AssignKeys | src/utils/config-parsing.ts:49-56 | a step appends a new truthy key and otherwise keeps the key order, and keys stay unique |
| ConfigParsing.AssignLookup | src/utils/config-parsing.ts:49-56 | a step sets a new key to its value, pushes onto a repeated key's value, and leaves other keys alone |
| ConfigParsing.CombineAppend | src/utils/config-parsing.ts:50-53 | the values of a repeated key gathered so far, extended by one more, is that one pushed onto them |
| ConfigParsing.CollectSnoc | src/utils/config-parsing.ts:49-56 | collecting one more pair is one more step of the loop |
| ConfigParsing.ParseConfig | src/utils/config-parsing.ts:39-61 | the loop of `parseConfigString` agrees with its specification function |
| ConfigParsing.CollectKeys | src/utils/config-parsing.ts:44-60 | the result has unique keys: exactly the non-empty keys that occur |
| ConfigParsing.CollectOrder | src/utils/config-parsing.ts:44-60 | the result's keys are in the order of their first occurrence |
| ConfigParsing.CollectLookup | src/utils/config-parsing.ts:48-56 | a key given once holds its value; a key given several times holds its values combined as the loop pushes them |
| ConfigParsing.RepeatedKeyCollect | src/utils/config-parsing.ts:49-54 | two or more values under one key become one array of them, in order |
| ConfigParsing.RepeatedKey | __unit_tests__/utils/config-parsing.test.ts:20-31 | `k=0&k=1&…` with two or more numbers parses to `{k: [0, 1, …]}` |
| Referencing.Reference | src/utils/referencing.ts:15-49 | a falsy object gives "Object not defined" or `undefined` as `onEmptyThrow` says; a one-segment path reads the property; a path that splits into nothing is "Not suitable path"; every error is a plain `Error` |
| Referencing.ReferenceWalks | src/utils/referencing.ts:29-45 | for a one-character separator, referencing a joined path walks its segments one property at a time |
| Referencing.ReferenceStep | src/utils/referencing.ts:33-45 | referencing `first.rest` is referencing `rest` in the `first` property |
| Referencing.ReferenceMissingIntermediate | src/utils/referencing.ts:21-45 | a missing intermediate object gives "Object not defined" or `undefined` as `onEmptyThrow` says |
| Referencing.NotSuitablePathReachable | src/utils/referencing.ts:29-48 | "Not suitable path" happens exactly for the empty path with the empty separator |
| Referencing.NotSuitableOnlyForEmpty | src/utils/referencing.ts:46-48 | no call, at any depth, produces the "Not suitable path" error naming a non-empty path |
| Referencing.ReferenceNestedKey | __unit_tests__/utils/referencing.test.ts:4-22 | `nested.key` and `nested#key` read `'value'` with their separators |
| Referencing.ReferenceNonexisting | __unit_tests__/utils/referencing.test.ts:24-44 | `nonexisting.key` gives `undefined`, or "Object not defined" when throwing |
| Ordering.Compare | src/utils/ordering.ts:35 | `localeCompare` as code-point order (`Text.StrLess`): zero exactly for equal strings, negative exactly when the first is less |
| Ordering.CmpFlip | src/utils/ordering.ts:24-44 | the comparator for `desc` is the negation of that for `asc`, and swapping its arguments negates it |
| Ordering.CmpTransitive | src/utils/ordering.ts:24-44 | the order the comparator defines is transitive over strings and numbers, in either direction |
| Ordering.InsertionSortPermutes | src/utils/ordering.ts:24 | sorting is a permutation of its input |
| Ordering.InsertionSortSorted | src/utils/ordering.ts:24-44 | sorting strings and numbers gives a sequence ordered by the comparator |
| Ordering.SortedUnique | src/utils/ordering.ts:24-44 | two ordered permutations of the same items are equal, so any correct sort gives this result |
| Ordering.DescendingIsReversed | src/utils/ordering.ts:30-43 | the `desc` order is the `asc` order reversed |
| Ordering.OrderOf | src/utils/ordering.ts:11-13 | the order is accepted exactly when it is absent, `asc` or `desc`, and is ascending unless `desc` |
| Ordering.FirstUnorderable | src/utils/ordering.ts:16-22 | the type check finds the first item that is neither a string nor a number, or none exactly when all are |
| Ordering.OrderCheck | src/utils/ordering.ts:7-22 | the checks pass exactly when the order is recognised and every item is a string or a number |
| Ordering.OrderItemsOf | src/utils/ordering.ts:3-45 | a non-array is a `TypeError`; otherwise `orderItems` succeeds exactly when the checks pass, with a sorted permutation of the items |
| Ordering.InsertInPlace | src/utils/ordering.ts:24 | one insertion pass over the array moves item `i` into the sorted prefix before it |
| Ordering.SortInPlace | src/utils/ordering.ts:24 | sorting in place leaves the array's sorted content |
| Ordering.OrderItems | src/utils/ordering.ts:3-45 | `orderItems` on an array: it sorts in place when the checks pass and leaves the array untouched when they fail |
| Ordering.NumbersAscending | __unit_tests__/utils/ordering.test.ts:11-16 | `[3, 5, 1]` ascending is `[1, 3, 5]` |
| Ordering.NumbersDescending | __unit_tests__/utils/ordering.test.ts:18-23 | `[3, 5, 1]` descending is `[5, 3, 1]` |
| Ordering.MixedAscending | __unit_tests__/utils/ordering.test.ts:39-44 | `['x', 1, 'b', 5]` ascending is `[1, 5, 'b', 'x']` |
| Ordering.MixedDescending | __unit_tests__/utils/ordering.test.ts:46-51 | `['x', 1, 'b', 5]` descending is `['x', 'b', 5, 1]` |
| Text.StrLessTrichotomy | src/utils/ordering.ts:35 | any two strings are equal or one is less than the other |
| Text.StrLessTransitive | src/utils/ordering.ts:35 | the string order is transitive |
| Text.JoinSplit | src/utils/referencing.ts:29-40 | joining the pieces of a split with its separator gives back the string |
| Text.SplitJoin | src/utils/referencing.ts:29-40 | splitting a join of separator-free pieces by a one-character separator gives back the pieces |
| Text.SplitNonEmpty | src/utils/referencing.ts:29-33 | splitting by a non-empty separator gives at least one piece |
| Text.IndexOf | src/utils/string-template.ts:45-46 | `indexOf` finds the first occurrence, and none exactly when there is no occurrence |
| Text.ToLower | src/core-pipes/keys-snake-casing.ts:11 | lowercasing maps `A`-`Z` to `a`-`z` and leaves other characters alone |
| Text.NatToStringInjective | src/core-generators/expressions/string-switch-expression.ts:44 | distinct indices have distinct decimal keys |
| Json.TypeOf | src/utils/deep-copy.ts:14-36 | `typeof` is `'object'` exactly for `null`, arrays and objects |
| Json.Property | src/utils/deep-copy.ts:40 | reading `value[key]` from an object gives the key's value, or `undefined` when it is absent |
| Json.IndexKeys | src/core-generators/expressions/string-switch-expression.ts:44 | the keys of n indexed items are the decimal strings `'0'` to `n - 1`, in order |
| AssocLists.PutKeys | src/utils/deep-copy.ts:40 | assigning `o[k] = v` keeps the key order when `k` is present and appends `k` otherwise |
| AssocLists.PutLookup | src/utils/deep-copy.ts:40 | after `o[k] = v`, `k` reads `v` and every other key reads as before |
| AssocLists.WithoutKeys | src/ecosystem/registry.ts:106-112 | copying every key but `name` keeps the other keys, in order, and never `name` |
| AssocLists.WithoutLookup | src/ecosystem/registry.ts:106-112 | after copying every key but `name`, `name` is absent and every other key reads as before |
| JsonText.JsonParse | src/schema/schema.ts:88-93 | `JSON.parse` fails only with a `SyntaxError` (or where the model stops) |
| JsonText.JsonParseNat | src/utils/config-parsing.ts:11 | `JSON.parse` of a number's decimal text is that number |
| JsonText.JsonParseRejects | src/schema/schema.ts:88-93 | text whose first character cannot begin a JSON value (anything other than whitespace, a digit, `{`, `[`, `"`, `-` or the first letter of `null`, `true`, `false`) is refused with a `SyntaxError` |
| JsonText.DecodeUriComponent | src/utils/config-parsing.ts:11 | `decodeURIComponent` fails only with a `URIError` (or where the model stops) |
| JsonText.DecodeWithoutPercent | src/utils/config-parsing.ts:17 | text without `%` decodes to itself |
| JsonText.StringToNumberNat | src/utils/config-parsing.ts:13-15 | `Number` of a number's decimal text is that number |
| JsonText.StringToNumberRejects | src/utils/config-parsing.ts:13-17 | `Number` of text starting with a letter (other than `I` of `Infinity`) is NaN |
| KeysOrdering.OrderKeysConfig | src/core-pipes/keys-ordering.ts:21-29 | the pipe accepts exactly an absent order, `asc` or `desc`, is ascending unless `desc`, and refuses others with a plain `Error` |
| KeysOrdering.OrderedKeys | src/core-pipes/keys-ordering.ts:40 | ordering the keys keeps their number |
| KeysOrdering.Reorder | src/core-pipes/keys-ordering.ts:41-45 | copying the properties in the ordered keys' order gives an object whose keys are those keys, in that order |
| KeysOrdering.OrderKeys | src/core-pipes/keys-ordering.ts:31-48 | a non-object or an array is refused with "plain object (not array) is expected", `null` with the `TypeError` of reading its keys; it succeeds exactly for objects |
| KeysOrdering.SortKeys | src/core-pipes/keys-ordering.ts:40 | `orderItems(Object.keys(item), order)` on an array gives the ordered keys |
| KeysOrdering.OrderKeysPipe | src/core-pipes/keys-ordering.ts:31-48 | the pipe's sort, copy loop and deep copy agree with its specification function |
| KeysOrdering.SortedKeyValues | src/core-pipes/keys-ordering.ts:40 | the keys are sorted as strings by `orderItems` |
| KeysOrdering.OrderedKeysStrict | src/core-pipes/keys-ordering.ts:40 | the ordered keys of an object are strictly increasing, or strictly decreasing for `desc` |
| KeysOrdering.OrderedKeysSame | src/core-pipes/keys-ordering.ts:40 | ordering neither adds nor loses a key |
| KeysOrdering.OrderedKeysUnique | src/core-pipes/keys-ordering.ts:41-45 | the reordered object has unique keys |
| KeysOrdering.OrderKeysOutput | src/core-pipes/keys-ordering.ts:40-47 | the output's keys are the ordered keys, each holding a deep copy of the input's value |
| KeysOrdering.OrderKeysKeepsValues | src/core-pipes/keys-ordering.ts:40-47 | for a `null`-free object, every key reads the same value before and after ordering |
| KeysOrdering.DescendingKeys | src/core-pipes/keys-ordering.ts:40 | the `desc` key order is the `asc` order reversed |
| KeysOrdering.SampleAscending | __unit_tests__/core-pipes/keys-ordering.test.ts:14-20 | `{x, a, f}` ascending has keys `a, f, x` |
| KeysOrdering.SampleDescending | __unit_tests__/core-pipes/keys-ordering.test.ts:22-28 | `{x, a, f}` descending has keys `x, f, a` |
| SnakeCasing.CamelToSnake | src/core-pipes/keys-snake-casing.ts:10-12 | the snake-cased name has no upper-case letter and is no shorter |
| SnakeCasing.CamelToSnakeNoUpper | src/core-pipes/keys-snake-casing.ts:10-12 | a name without upper-case letters is unchanged |
| SnakeCasing.CamelToSnakeIdempotent | src/core-pipes/keys-snake-casing.ts:10-12 | snake-casing a name twice is snake-casing it once |
| SnakeCasing.CamelToSnakeLength | src/core-pipes/keys-snake-casing.ts:10-12 | each upper-case letter adds exactly one character, its `_` |
| SnakeCasing.CamelToSnakeExample | src/core-pipes/keys-snake-casing.ts:10-12 | `someKey` becomes `some_key` |
| SnakeCasing.SnakeCasePipe | src/core-pipes/keys-snake-casing.ts:21-49 | the recursive pipe with its key loop agrees with its specification function |
| SnakeCasing.SnakeCaseKeys | src/core-pipes/keys-snake-casing.ts:36-43 | every key at every depth of the output is snake-cased |
| SnakeCasing.SnakeCaseOfSnake | src/core-pipes/keys-snake-casing.ts:21-46 | a value whose keys are all snake-cased already comes back unchanged |
| SnakeCasing.SnakeCaseIdempotent | src/core-pipes/keys-snake-casing.ts:21-46 | piping twice is piping once |
| SnakeCasing.SnakeCaseArray | src/core-pipes/keys-snake-casing.ts:29-31 | an array maps item by item |
| SnakeCasing.SnakeCasePrimitive | src/core-pipes/keys-snake-casing.ts:24-26 | a falsy value or a non-object is returned as it is |
| SnakeCasing.SnakeCaseObject | src/core-pipes/keys-snake-casing.ts:33-45 | when snake-cased keys do not collide, each entry maps to its snake-cased key and piped value, in order |
| SnakeCasing.SnakeCaseCollision | src/core-pipes/keys-snake-casing.ts:37-43 | colliding keys (`aB`, `a_b`) keep one entry at the first key's place, holding the later value |
| DeepCopy.Copy | src/utils/deep-copy.ts:12-49 | the recursive copy agrees with its specification function |
| DeepCopy.PutAllKeys | src/utils/deep-copy.ts:36-43 | the copy loop over an object gives unique keys, exactly those of the original |
| DeepCopy.PutAllOfUnique | src/utils/deep-copy.ts:36-43 | over unique keys the loop keeps every entry in place |
| DeepCopy.CopyObject | src/utils/deep-copy.ts:36-43 | a copy of an object with unique keys has the same keys, each holding a copy of its value |
| DeepCopy.CopyArray | src/utils/deep-copy.ts:20 | a copy of an array maps item by item |
| DeepCopy.CopyPrimitive | src/utils/deep-copy.ts:14 | a non-object is its own copy |
| DeepCopy.CopyWellFormed | src/utils/deep-copy.ts:12-49 | every object inside a copy has unique keys |
| DeepCopy.CopyNullFree | src/utils/deep-copy.ts:12-49 | a copy holds no `null` |
| DeepCopy.CopyIdentity | src/utils/deep-copy.ts:12-49 | a value with unique keys and no `null` equals its copy |
| DeepCopy.CopyIdempotent | src/utils/deep-copy.ts:12-49 | copying a copy changes nothing |
| Fields.Renaming | src/utils/rename-field.ts:32-44 | the renaming loop visits each entry once, renaming only `oldName`, with a deep copy of each value |
| Fields.RenameField | src/utils/rename-field.ts:3-45 | a non-object (or array) is a `TypeError`; empty names and an absent `oldName` are refused; it succeeds exactly when none applies |
| Fields.Rename | src/utils/rename-field.ts:3-45 | the checks and the copy loop agree with the specification function |
| Fields.RenameFieldOutput | src/utils/rename-field.ts:32-44 | when the new name is not already taken, the output is the renaming of the entries, in the same key order |
| Fields.RenameFieldMoves | src/utils/rename-field.ts:32-44 | after renaming, the new name holds a copy of the old value, the old name is gone, and other names keep copies of their values |
| Fields.RenameToItself | src/utils/rename-field.ts:35-42 | renaming a field to itself is a deep copy |
| Fields.RenameOntoLater | src/utils/rename-field.ts:35-42 | renaming `a` onto a later `b` keeps one `b`, in `a`'s place, holding `b`'s value: the later copy wins |
| Fields.RenameOntoEarlier | src/utils/rename-field.ts:35-42 | renaming `a` onto an earlier `b` keeps one `b`, holding `a`'s value |
| Fields.RenameFieldConfig | src/core-pipes/rename-field.ts:7-14 | the pipe needs truthy `old` and `new` and refuses anything else |
| Fields.RenamePipeChecked | src/core-pipes/rename-field.ts:16-22 | with a checked configuration, renaming fails only on a non-object input or an absent old name |
| Fields.DropField | src/utils/drop-field.ts:3-20 | a non-object is a `TypeError`, `null` fails reading its keys; an object succeeds with keys only from the original and never the dropped one |
| Fields.Drop | src/utils/drop-field.ts:3-20 | the copy loop agrees with the specification function |
| Fields.DropFieldOutput | src/utils/drop-field.ts:11-19 | dropping a name gives copies of every other entry, in order |
| Fields.DropAbsent | src/utils/drop-field.ts:13-17 | dropping an absent name is a deep copy |
| Fields.DropFiltered | src/utils/drop-field.ts:11-19 | dropping is filtering the copied entries, and keeps keys unique |
| Fields.DropIdempotent | src/utils/drop-field.ts:13-17 | dropping a name twice is dropping it once |
| Fields.DropTwice | src/core-pipes/drop-field.ts:24-26 | dropping two names in turn filters out both |
| Fields.DropCommutes | src/core-pipes/drop-field.ts:24-26 | the order in which two names are dropped does not matter |
| Fields.DropFieldConfig | src/core-pipes/drop-field.ts:5-19 | the pipe needs a truthy `field`; a string drops itself, an array its items, and anything else nothing |
| Fields.DropAll | src/core-pipes/drop-field.ts:21-29 | with names to drop, a non-object input is a `TypeError` |
| Fields.DropFields | src/core-pipes/drop-field.ts:21-29 | the pipe's loop agrees with its specification function |
| Fields.DropAllStops | src/core-pipes/drop-field.ts:24-26 | once one drop fails, the later ones keep that failure |
| Fields.DropAllOutput | src/core-pipes/drop-field.ts:21-29 | no names leave the input itself; otherwise the output copies exactly the entries no name drops |
| Fields.FirstAbsent | src/utils/pick-field.ts:24-30 | the presence check finds the first name not present, or none exactly when all are |
| Fields.ToBePicked | src/utils/pick-field.ts:13-33 | a string must be present; an array passes exactly when all its names are, else fails naming the first absent one; anything else picks nothing |
| Fields.PickField | src/utils/pick-field.ts:3-44 | a non-object is a `TypeError`; an object succeeds exactly when the names pass the presence check |
| Fields.Pick | src/utils/pick-field.ts:3-44 | the checks and the copy loop agree with the specification function |
| Fields.PickFieldOutput | src/utils/pick-field.ts:35-43 | the output copies exactly the picked entries, in the object's order, with unique keys |
| Fields.PickFieldKeys | src/utils/pick-field.ts:35-43 | a key is in the output exactly when it was named, holding a copy of its value |
| Fields.PickAll | src/utils/pick-field.ts:35-43 | picking every key is a deep copy |
| Fields.PickNone | src/utils/pick-field.ts:23-43 | picking an empty array of names gives `{}` |
| Fields.PickDuplicates | src/utils/pick-field.ts:32-41 | naming fields twice picks the same as naming them once |
| Fields.PickFieldConfig | src/core-pipes/pick-field.ts:5-19 | the pipe needs a truthy `field` that is a string or an array; a truthy field of other type is a `TypeError` |
| Randomness.RemModulus | src/randomizer/seeded.ts:22 | JavaScript's `%` by 233280 keeps the sign of its left operand and stays below the modulus in size |
| Randomness.DrawProper | src/randomizer/seeded.ts:21-24 | a draw from a randomizer that keeps its draws in [0, 1) is in [0, 1), and the randomizer stays so |
| Randomness.SeededProper | src/randomizer/seeded.ts:20-24 | a seeded randomizer with a non-negative seed draws in [0, 1) |
| Randomness.SeededDrawsInRange | src/randomizer/seeded.ts:21-24 | every one of the first n draws of a non-negative seed lies in [0, 1) |
| Randomness.SeededRandomizer.constructor | src/randomizer/seeded.ts:20 | the closure starts from the configured seed |
| Randomness.SeededRandomizer.Next | src/randomizer/seeded.ts:21-24 | one call advances the seed by the LCG step and returns it divided by 233280 |
| Randomness.SameSeedSameStream | __unit_tests__/randomizer/seeded.test.ts:33-44 | two seeded randomizers made from the same seed return the same stream |
| Randomness.SeededInstance | src/randomizer/seeded.ts:12-28 | the factory succeeds exactly for a truthy numeric seed; a missing or falsy seed is refused with its message |
| Randomness.ConstantInstance | src/core-randomizers/constant.ts:18-36 | the constant randomizer accepts exactly a number in (0, 1], 0 being falsy, and then always returns it |
| Randomness.InstantiateWithoutConfig | src/randomizer/seeded.ts:15-18 | without a configuration the seeded and constant factories fail, the others succeed |
| Randomness.ContextuallySeededValue | src/randomizer/contextually-seeded.ts:3-31 | the draw succeeds exactly when the context has a `clientContext` with a numeric seed, and is one LCG step of that seed |
| Randomness.ContextuallySeededAgreesWithSeeded | src/randomizer/contextually-seeded.ts:28-29 | the contextual draw is the first draw of a seeded randomizer from the context's seed, in [0, 1) when the seed is non-negative |
| Randomness.RandomInteger | src/utils/random/random.ts:13-25 | `min > max` is refused with its message; otherwise one draw is scaled to `floor(draw * (max - min + 1)) + min` |
| Randomness.RandomIntegerInRange | src/utils/random/random.ts:24 | for integral bounds and a draw in [0, 1) the result is an integer within [min, max] |
| Randomness.ScaleReaches | src/utils/random/random.ts:24 | every integer of [min, max] is reached by some draw |
| Randomness.RandomIntegerAtOne | src/utils/random/random.ts:24 | a draw of exactly 1, which the constant randomizer allows, gives `max + 1` |
| Randomness.PickRandomItem | src/utils/random/array.ts:18-37 | an empty value, a non-array and an empty array are refused, each with its message; one item is returned without drawing |
| Randomness.PickIsMember | src/utils/random/array.ts:27-36 | picking from a non-empty array with draws in [0, 1) returns one of its items, after one draw when there are several |
| Randomness.PickIsItemOrUndefined | src/utils/random/array.ts:34-35 | whatever the draw, a successful pick is an item or `undefined` (an index out of range) |
| Randomness.LoopCount | src/utils/random/string.ts:20 | a loop `index < length` runs `ceil(length)` times, and none for a non-positive length |
| RandomStrings.AllSingleCharacters | src/utils/charset.ts:15-21 | the loop accepts exactly when every item is a one-character string |
| RandomStrings.IsCharset | src/utils/charset.ts:10-24 | a charset is exactly an array of one-character strings |
| RandomStrings.RandomString | src/utils/random/string.ts:5-25 | a negative length and an empty charset are refused, in that order; length 0 gives `''` |
| RandomStrings.BuildRandomString | src/utils/random/string.ts:5-25 | the checks and the loop agree with the specification function |
| RandomStrings.PickLoop | src/utils/random/string.ts:19-23 | the loop appending one pick per index agrees with the picks made |
| RandomStrings.PicksFromCharset | src/utils/random/string.ts:19-23 | n picks from a charset give n characters, all from the charset |
| RandomStrings.RandomStringFromCharset | src/utils/random/string.ts:5-25 | over a charset, the string has `ceil(length)` characters from the charset, exactly `length` for an integer length |
| RandomStrings.RandomStringOfRandomLength | src/utils/random/string.ts:27-44 | `maxLength < minLength` is refused; otherwise one draw picks the length and `randomString` makes the string |
| RandomStrings.RandomLengthFromCharset | src/utils/random/string.ts:27-44 | for integral bounds the length lies within [minLength, maxLength], with every character from the charset |
| RandomStrings.NamedCharset | src/core-generators/strings/random-strings.ts:27-39 | a named charset needs an ecosystem, and is found exactly when registered under that name |
| RandomStrings.EnsureCharset | src/core-generators/strings/random-strings.ts:23-52 | a string is looked up by name without further checks; a falsy value is refused; anything else passes exactly when it is a charset |
| RandomStrings.ResolveCharset | src/generators/common/strings/random-strings.ts:40-62 | the common variant also checks a named charset, so what it accepts is always a charset |
| RandomStrings.ResolutionsAgree | src/generators/common/strings/random-strings.ts:40-62 | the two variants agree whenever a named charset is a real charset |
| RandomStrings.NamedNonCharset | src/generators/common/strings/random-strings.ts:40-62 | a name registered to a non-charset (`'01'`) passes the core variant but is refused by the common one |
| RandomStrings.CheckedLength | src/core-generators/strings/random-strings.ts:72-82 | a non-integer length is a `TypeError`, one below 1 is refused, and a passing length is an integer of at least 1 |
| RandomStrings.CoreStringGenerator | src/core-generators/strings/random-strings.ts:66-89 | the length is checked before the charset; it compiles exactly when both pass |
| RandomStrings.CommonStringGenerator | src/generators/common/strings/random-strings.ts:22-67 | the same order of checks, with the common charset check, and the charset compiled is a charset |
| RandomStrings.FixedLengthOutput | src/core-generators/strings/random-strings.ts:86-88 | the generated string has the configured length, with characters from the charset |
| RandomStrings.EmptyCharsetFailsOnGeneration | src/utils/random/string.ts:12-13 | an empty charset array compiles in both variants but fails on generation with "at least one item" |
| RandomStrings.CoreRandomLengthGenerator | src/core-generators/strings/random-strings.ts:101-136 | a negative minimum, a negative maximum and `minLength > maxLength` are refused in that order; it compiles exactly when they and the charset pass |
| RandomStrings.MinLengthDefault | src/core-generators/strings/random-strings.ts:104 | an absent `minLength` is 0 |
| RandomStrings.RandomLengthOutput | src/core-generators/strings/random-strings.ts:128-135 | the generated string's length lies within the configured bounds |
| StringTemplate.Spread | src/utils/string-template.ts:9-32 | `[...chars]` is one one-character string per character |
| StringTemplate.DefaultsOk | src/utils/string-template.ts:7-33 | the eight default substitutes are `$d $D $c $C $a $A $h $H`, in that order, each over a `$`-free character set |
| StringTemplate.PickedText | src/utils/string-template.ts:9-32 | a default substitute is one character of its set (or `undefined` for an out-of-range draw) |
| StringTemplate.FillDefault | src/utils/string-template.ts:45-47 | after the loop for a default no occurrence of its token is left, and a template without it is unchanged |
| StringTemplate.FillDefaultShortens | src/utils/string-template.ts:45-47 | over a non-empty set each replacement removes one `$` and one character, so the loop ends |
| StringTemplate.DefaultsWithoutDollar | src/utils/string-template.ts:43-48 | a template without `$` goes through the defaults unchanged and without drawing |
| StringTemplate.DefaultsShorten | src/utils/string-template.ts:43-48 | after the defaults, the template is shorter by exactly the number of `$` removed |
| StringTemplate.Fill | src/utils/string-template.ts:53-55 | after the loop for a variable, its key no longer occurs, and a template without it is unchanged |
| StringTemplate.FittingMeans | src/utils/string-template.ts:53-55 | a key and substitute fit exactly when some character occurs more often in the key than in the substitute and the substitute holds no replacement pattern |
| StringTemplate.ExcessFound | src/utils/string-template.ts:53-55 | the scan over the key's characters finds such a character exactly when one exists |
| StringTemplate.ShorterFits | src/utils/string-template.ts:53-55 | every pattern-free substitute shorter than its key fits, so the loop for it is modelled |
| StringTemplate.UsualKeysFit | src/utils/string-template.ts:53-55 | the key styles `{{name}}`, `%name%` and `{name}` fit, and `Hi {{name}}!` with `Bob` becomes `Hi Bob!` |
| StringTemplate.FillStep | src/utils/string-template.ts:53-55 | each replacement lowers the count of the witness character and changes the length by the substitute's minus the key's |
| StringTemplate.SelfContainingNeverEnds | src/utils/string-template.ts:53-55 | a substitute containing its own key leaves the key present after each replacement, so the source's loop never ends |
| StringTemplate.FillRescans | src/utils/string-template.ts:53-55 | replacement rescans from the start: `aab` with `ab -> b` becomes `b` |
| StringTemplate.VariablesAbsent | src/utils/string-template.ts:51-56 | variables whose keys do not occur leave the text unchanged |
| StringTemplate.VariablesLastGone | src/utils/string-template.ts:51-56 | after the variables loop, the last variable's key no longer occurs |
| StringTemplate.TemplateWithoutTokens | src/utils/string-template.ts:35-59 | a template without `$` and without any variable key comes back unchanged |
| StringTemplate.TemplateShortens | src/utils/string-template.ts:35-59 | with no variables, the result is shorter by exactly the number of `$` replaced |
| StringTemplate.ReplaceDefault | src/utils/string-template.ts:45-47 | the `while` loop for one default agrees with its specification function |
| StringTemplate.ReplaceVariable | src/utils/string-template.ts:53-55 | the `while` loop for one variable agrees with its specification function |
| StringTemplate.ReplaceDefaults | src/utils/string-template.ts:43-48 | the loop over the defaults agrees with its specification function |
| StringTemplate.ReplaceVariables | src/utils/string-template.ts:51-56 | the loop over the variables agrees with its specification function |
| StringTemplate.FillTemplate | src/utils/string-template.ts:35-59 | `stringTemplate` agrees with its specification function |

## Left out

- **I/O and clocks.** Nothing here reads the clock, the network or files.
  `Math.random` and any other outside randomness source is a stream of
  draws (`Randomness.Randomizer.Oracle`). No draw is assumed to lie in
  [0, 1) except where a contract says so (`Randomness.Proper`).
- **Floating point.** Numbers are exact reals: there is no rounding, NaN,
  Infinity or `-0`. `randomFloat`, the float generators and
  `stringToHashNumber` are not part of this model. A number-valued bound
  that is not a number (a string `max`, say) ends the model with an
  `Unmodelled` error rather than following JavaScript's coercions.
  `Text.NumberToString` prints integral values exactly and other values
  with up to 20 fractional digits; JavaScript's shortest round-trip digits
  and its exponent notation (`String(1e21)` is `"1e+21"`, `String(1e-7)`
  is `"1e-7"`) are not modelled, and this text reaches `Json.ToJsString`
  and so the string switch's handler lookup.
- **Text decoding corners.** These end with an `Unmodelled` error rather
  than a value:
  - `JSON.parse` of a string escape that leaves a lone surrogate, since a
    Dafny `char` cannot hold one;
  - `decodeURIComponent` of a multi-byte UTF-8 escape;
  - `Number` of `Infinity`.
- **Generators that are not modelled.** Dates and timestamps, the uuid
  and template generators, and the nested-object generators evaluate to
  an `External` error.
- **Randomizers that are not modelled:** the basic and context-dependent
  randomizers. The ecosystem's default randomizer and charset store are
  not defined in src/ecosystem/ecosystem.ts, so they are parameters of
  `Ecosystems.Ecosystem.Capabilities`.
- Schemas.GeneratorFactory and Ecosystems.Ecosystem.Capabilities: the
  ecosystem methods `getValueGeneratorFactory` (called at
  src/schema/schema.ts lines 82, 95, 100 and 122), `hasCharset`/`getCharset`
  (src/generators/common/strings/random-strings.ts, lines 45-46) and
  `has`/`get('charsets', …)` (src/core-generators/strings/random-strings.ts,
  lines 32-33) are not defined in src/ecosystem/ecosystem.ts, whose class
  has only `register` and `getRandomizerFactory`. The model takes
  `getValueGeneratorFactory(name)` to be `get(name)` on the value-generator
  registry, with that registry's not-found message, and the charset methods
  to be a lookup in the charset store given as a parameter
  (`RandomStrings.NamedCharset`).
- **Plugin wiring.** The core plugin's wiring (src/core-plugin/core-plugin.ts)
  is not part of this model. `Schemas.CoreFactory` gives the stored form of
  each core factory, and a plugin passes factories in that form. A factory
  the model does not know (`Generators.Factory.OtherFactory`) builds an
  `External` generator.
- **Top-level callers.** The stringification pipe and `JSON.stringify` are
  not part of this model, and `Json.StringifyPrimitive` covers primitives
  only. `generate`/`generateMany` and the pipe chain that calls these
  pieces are left out too.
- **JavaScript object quirks.** Integer-like keys are not moved first and
  prototype keys are not modelled. Objects keep insertion order, and
  `DeepCopy.WellFormed` assumes unique keys where a lemma needs them.
- **Aliasing.** Contexts and records are values, so the model cannot
  express a generator mutating the shared context. Schemas, generators and
  records are immutable values, and only the registries, the ecosystem,
  the seeded randomizer and the sorted array are mutable objects.
- Ordering.Compare: `localeCompare` is modelled as the order of code
  points (`Text.StrLess`). Locale-aware collation is left out. The code
  point order also differs from a UTF-16 code unit order between
  characters outside the Basic Multilingual Plane and U+E000 to U+FFFF.
- RandomStrings.IsCharset: strings are sequences of Unicode code points
  (Dafny `char`s), while JavaScript's `.length` counts UTF-16 code units.
  So an item that is one character outside the Basic Multilingual Plane,
  such as an emoji, passes `item.length !== 1` here, while the source
  refuses it.
- RandomStrings.AllSingleCharacters: counts code points, for the reason
  given for `RandomStrings.IsCharset`.
- Json.Property: the `length` of a string is its number of code points,
  for the reason given for `RandomStrings.IsCharset`. The same holds for
  the index keys of a string in `Generators.OwnKeys` and `Schemas.Spread`,
  and for the lengths of `RandomStrings.RandomString` and the string
  generators. A lone surrogate has no Dafny `char` and is `Unmodelled`
  in `JsonText.JsonParse`.
- Ordering.SortInPlace: `Array.prototype.sort` is modelled as an insertion
  sort. The engine's algorithm is left out. Two sorted permutations of the
  same items are equal (`SortedUnique`), so any correct sort leaves the
  same array.
- Generators.SamplingGenerator: what `selectSample` draws is not modelled.
  The generator compiles with its checks, and generating from it yields
  an `Unmodelled` error.
- Generators.NullableGenerator: the nullability wrapper's source is not
  part of this model. Its checks and its two extremes follow its unit
  test. For a probability strictly between 0 and 1, its draw yields an
  `Unmodelled` error.
- **API drift.** The unit test for the nullability wrapper calls it with
  the inner generator first. The model follows the call in
  src/schema/schema.ts (own randomizer, inner generator, probability,
  null-like value).
- Generators.SwitchDispatch: the compiled handlers are a sequence searched
  for the first matching name, not a dictionary. With unique handler names
  (as JavaScript objects have) the two agree (`SwitchDispatchUnique`).
- Schemas.CompileFieldDefinition: its contract names only the refusals
  that do not depend on the definition's type. The outcome for each form
  of definition is in the lemmas after it (`ReferenceStandard`,
  `ConstantStandard`, `NamedStandard`, `UnknownType`, the nullability
  lemmas).
- StringTemplate.Fill: requires `Fitting`: some character occurs more
  often in the key than in the substitute (`FittingMeans`), and the
  substitute holds no `$$`, `$&`, `` $` `` or `$'` replacement pattern.
  Each replacement then removes at least one occurrence of that character,
  so the loop ends; a Dafny function must terminate. The condition admits
  every substitute shorter than its key (`ShorterFits`) and the usual key
  styles (`UsualKeysFit`). It excludes every substitute that contains its
  own key, on which the source loops forever (`SelfContainingNeverEnds`).
  It also excludes substitutes with the same characters as their key in
  other positions, such as `ba` for `ab`, on which the source ends too.
- StringTemplate.ReplaceVariable: requires `Fitting`, for the reason given
  for `StringTemplate.Fill`.
- StringTemplate.ReplaceVariables: requires every variable to be `Fitting`
  (`FittingVariables`), for the reason given for `StringTemplate.Fill`.
- StringTemplate.FillTemplate: requires `FittingVariables`, for the reason
  given for `StringTemplate.Fill`.
- StringTemplate.FillDefault: requires the default character sets to be
  free of `$`. The eight sets of the source are (`DefaultsOk`).
- Randomness.PickRandomItem: with a draw outside [0, 1) the index can fall
  outside the array, and the pick is then `undefined`. The contract states
  only the refusals and the single-item case; `PickIsMember` and
  `PickIsItemOrUndefined` state the rest.
- RandomStrings.RandomString: for a charset item that is not a string, the
  appended text is that item's `String(x)`. The contract states only the
  refusals and the empty string; `RandomStringFromCharset` states the
  output over a real charset.
- Registries.Registry.Register: the registry is modelled with unique keys
  (`Valid`). A registry whose initial records repeat a key cannot come
  from a JavaScript object.
