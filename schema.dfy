/** Schema compilation (src/schema/schema.ts): turning a declarative schema
    input into a randomizer factory and one value generator per field.
    Field definitions are compiled recursively, since the string switch,
    the xor and the nested array factories compile the definitions inside
    their own configuration. */
module Schemas {
  import opened Wrappers
  import opened Text
  import opened AssocLists
  import opened Json
  import opened JsonText
  import opened Randomness
  import opened RandomStrings
  import opened Registries
  import opened Generators
  import DeepCopy

  const RandomizerType: string := "randomizer"
  const ValueGeneratorType: string := "value-generator"

  /** A value generator factory as an ecosystem stores it: one of the three
      factories that compile the definitions nested in their configuration,
      or any other factory, which is a function of its configuration and of
      the ecosystem's charset store (absent when there is no ecosystem). */
  datatype ValueGeneratorFactory =
    | CompilingSwitch
    | CompilingXor
    | CompilingNestedArray
    | Plain(make: (Entries, Option<Entries>) -> Result<Generator>)

  /** The stored form of each factory of the core. */
  function CoreFactory(f: Factory): ValueGeneratorFactory {
    match f
    case StringSwitchFactory => CompilingSwitch
    case XorFactory => CompilingXor
    case NestedArrayFactory => CompilingNestedArray
    case _ => Plain((config, charsets) => BuildPlain(f, config, charsets))
  }

  /** What compilation reads from an ecosystem: its two registries, the
      randomizer used when a schema names none, and the charset store the
      string factories resolve charset names in. */
  datatype Env = Env(
    randomizers: Records<RandomizerFactory>,
    generators: Records<ValueGeneratorFactory>,
    defaultRandomizer: Result<RandomizerFactory>,
    charsets: Entries)

  /** `ecosystem.getValueGeneratorFactory(name)`. */
  function GeneratorFactory(env: Env, name: string): (r: Result<ValueGeneratorFactory>)
    ensures r.Ok? <==> HasIn(env.generators, name)
    ensures r.Err? ==> r == Fail(NotFoundMessage(name, ValueGeneratorType))
  {
    GetIn(ValueGeneratorType, env.generators, name)
  }

  // ----- standards -----

  const ReferencePrefix: string := "!ref-"
  const ConstantPrefix: string := "!const-"

  /** The three forms a string field definition takes. */
  datatype Standard =
    | ReferenceForm(path: string)
    | ConstantForm(text: string)
    | NamedForm(name: string)

  /** Which form a string definition has; the reference prefix is tested
      first, then the constant one. */
  function ParseStandard(s: string): (p: Standard)
    ensures p.ReferenceForm? <==> ReferencePrefix <= s
    ensures p.ConstantForm? <==> !(ReferencePrefix <= s) && ConstantPrefix <= s
  {
    if ReferencePrefix <= s then ReferenceForm(s[|ReferencePrefix|..])
    else if ConstantPrefix <= s then ConstantForm(s[|ConstantPrefix|..])
    else NamedForm(s)
  }

  /** The text of a standard. */
  function StandardText(p: Standard): string {
    match p
    case ReferenceForm(path) => ReferencePrefix + path
    case ConstantForm(text) => ConstantPrefix + text
    case NamedForm(name) => name
  }

  /** A name is a standard of its own when it carries neither prefix. */
  predicate PlainName(name: string) {
    !(ReferencePrefix <= name) && !(ConstantPrefix <= name)
  }

  lemma ParseThenText(s: string)
    ensures StandardText(ParseStandard(s)) == s
  {
    if ReferencePrefix <= s {
      assert ReferencePrefix + s[|ReferencePrefix|..] == s;
    } else if ConstantPrefix <= s {
      assert ConstantPrefix + s[|ConstantPrefix|..] == s;
    }
  }

  lemma TextThenParse(p: Standard)
    requires p.NamedForm? ==> PlainName(p.name)
    ensures ParseStandard(StandardText(p)) == p
  {
    match p
    case ReferenceForm(path) =>
      assert (ReferencePrefix + path)[|ReferencePrefix|..] == path;
    case ConstantForm(text) =>
      var s := ConstantPrefix + text;
      assert s[1] == 'c';
      assert !(ReferencePrefix <= s);
      assert s[|ConstantPrefix|..] == text;
    case NamedForm(name) =>
  }

  /** The value a constant standard stands for: its text parsed as JSON,
      or the text itself when it is not JSON. */
  function ConstantValue(text: string): (r: Result<Value>)
    ensures JsonParse(text).Ok? ==> r == Ok(JsonParse(text).value)
    ensures JsonParse(text).Err? && Catchable(JsonParse(text).error) ==> r == Ok(Str(text))
  {
    var parsed := JsonParse(text);
    if parsed.Ok? then Ok(parsed.value)
    else if Catchable(parsed.error) then Ok(Str(text))
    else Err(parsed.error)
  }

  // ----- sizes for termination -----

  /** The largest size among the values of an object. */
  function MaxSize(e: Entries): nat {
    if e == [] then 0
    else
      var rest := MaxSize(e[1..]);
      if Size(e[0].1) > rest then Size(e[0].1) else rest
  }

  /** Whether a factory that gets this configuration can compile nested
      definitions: only the string switch, the xor and the nested array
      factories do, and each refuses to without its key. */
  predicate Nests(config: Entries) {
    Truthy(Setting(config, "handlers")) || Truthy(Setting(config, "options"))
    || Truthy(Setting(config, "definition"))
  }

  ghost function Weight(config: Entries): nat {
    if Nests(config) then MaxSize(config) else 0
  }

  lemma {:induction false} MaxSizeOfLookup(e: Entries, k: string)
    requires Lookup(e, k).Some?
    ensures Size(Lookup(e, k).value) <= MaxSize(e)
  {
    if e[0].0 != k {
      MaxSizeOfLookup(e[1..], k);
    }
  }

  lemma SettingAtMost(config: Entries, k: string)
    requires Setting(config, k) != Undefined
    ensures Size(Setting(config, k)) <= MaxSize(config)
  {
    MaxSizeOfLookup(config, k);
  }

  lemma {:induction false} MaxSizeAtMost(e: Entries, b: nat)
    requires forall j :: 0 <= j < |e| ==> Size(e[j].1) <= b
    ensures MaxSize(e) <= b
  {
    if e != [] {
      MaxSizeAtMost(e[1..], b);
    }
  }

  lemma {:induction false} WithoutMaxSize(e: Entries, k: string)
    ensures MaxSize(Without(e, k)) <= MaxSize(e)
  {
    if e != [] {
      WithoutMaxSize(e[1..], k);
    }
  }

  /** A property read never yields anything larger than the value read. */
  lemma PropertyAtMost(v: Value, key: string)
    requires !Nullish(v)
    ensures Size(Property(v, key)) <= Size(v)
  {
    match v
    case Obj(entries) =>
      if Property(v, key) != Undefined {
        PropertySmaller(v, key);
      }
    case Arr(items) =>
      var i := IndexKey(key, |items|);
      if key != "length" && i.Some? {
        ItemSmaller(items, i.value);
      }
    case _ =>
  }

  lemma ItemsAtMost(items: seq<Value>, b: nat)
    requires Size(Arr(items)) <= b
    ensures forall i :: 0 <= i < |items| ==> Size(items[i]) <= b
  {
    forall i | 0 <= i < |items| ensures Size(items[i]) <= b {
      ItemSmaller(items, i);
    }
  }

  // ----- the configuration of an object definition -----

  /** `{ ...v }`: an object's entries assigned in order, an array's or a
      string's indices, and nothing for any other value. */
  function Spread(v: Value): (e: Entries)
    ensures v.Obj? ==> e == DeepCopy.PutAll(v.entries)
    ensures v.Arr? ==> Keys(e) == IndexKeys(|v.items|)
    ensures v.Str? ==> Keys(e) == IndexKeys(|v.s|)
    ensures !v.Obj? && !v.Arr? && !v.Str? ==> e == []
  {
    match v
    case Obj(entries) => DeepCopy.PutAll(entries)
    case Arr(items) => seq(|items|, i requires 0 <= i < |items| => (NatToString(i), items[i]))
    case Str(s) => seq(|s|, i requires 0 <= i < |s| => (NatToString(i), Str([s[i]])))
    case _ => []
  }

  lemma SpreadAtMost(v: Value)
    ensures MaxSize(Spread(v)) <= Size(v)
  {
    var e := Spread(v);
    forall j | 0 <= j < |e| ensures Size(e[j].1) <= Size(v) {
      match v
      case Obj(entries) =>
        var i := DeepCopy.PutAllValueFrom(entries, j);
        EntrySmaller(entries, i);
      case Arr(items) =>
        ItemSmaller(items, j);
      case Str(s) =>
    }
    MaxSizeAtMost(e, Size(v));
  }

  /** `{ ...field.config, ecosystem }`: the ecosystem travels beside the
      configuration in this model, so its key is only removed. */
  function DefinitionConfig(field: Value): (config: Entries)
    requires field.Arr? || field.Obj?
    ensures "ecosystem" !in Keys(config)
  {
    WithoutKeys(Spread(Property(field, "config")), "ecosystem");
    Without(Spread(Property(field, "config")), "ecosystem")
  }

  /** The configuration of an object definition is lighter than the
      definition. */
  lemma DefinitionConfigLighter(field: Value)
    requires field.Arr? || field.Obj?
    ensures Weight(DefinitionConfig(field)) < Size(field)
  {
    var c := Property(field, "config");
    var e := Spread(c);
    SpreadAtMost(c);
    WithoutMaxSize(e, "ecosystem");
    WeightAtMost(Without(e, "ecosystem"));
    if c != Undefined {
      ContainedSmaller(field, "config");
    }
  }

  lemma WeightAtMost(config: Entries)
    ensures Weight(config) <= MaxSize(config)
  {
  }

  /** What an array or an object holds under a key other than `length` is
      smaller than it. */
  lemma ContainedSmaller(v: Value, key: string)
    requires (v.Arr? || v.Obj?) && key != "length" && Property(v, key) != Undefined
    ensures Size(Property(v, key)) < Size(v)
  {
    if v.Obj? {
      PropertySmaller(v, key);
    } else {
      ItemSmaller(v.items, IndexKey(key, |v.items|).value);
    }
  }

  // ----- messages -----

  /** Reading the factory lookup off a missing ecosystem. */
  function NoEcosystemMessage(): string {
    ReadMessage(Undefined, "getValueGeneratorFactory")
  }
  const NullabilityProbabilityMessage: string := "Nullability is specified but is missing 'probability'"
  const RandomizerFactoryMessage: string := "randomizerFactory is not a function"

  function UnexpectedFormatMessage(field: Value): string
    requires !field.Arr? && !field.Obj? && !field.Str?
  {
    "Unexpected field definition format - " + ToJsString(StringifyPrimitive(field))
  }

  // ----- compilation -----

  /** `compileFieldDefinition(ecosystem, field, randomizerFactory)`. The
      ecosystem is absent when a factory was called without one, and the
      randomizer factory is absent in the nested compilations, which pass
      only two arguments. */
  function CompileFieldDefinition(eco: Option<Env>, field: Value, rf: Option<RandomizerFactory>)
    : (r: Result<Generator>)
    ensures (field.Str? || TypeOf(field) == "object") && eco.None? ==> r == FailType(NoEcosystemMessage())
    ensures !field.Str? && TypeOf(field) != "object" ==> r == FailType(UnexpectedFormatMessage(field))
    decreases Size(field), 1, 0
  {
    if field.Str? then
      if eco.None? then FailType(NoEcosystemMessage()) else CompileStandard(eco.value, field.s)
    else if field.Null? || field.Arr? || field.Obj? then
      if eco.None? then FailType(NoEcosystemMessage()) else CompileObjectDefinition(eco.value, field, rf)
    else FailType(UnexpectedFormatMessage(field))
  }

  /** `compileStandard(ecosystem, field)`. */
  function CompileStandard(env: Env, s: string): (r: Result<Generator>)
    decreases Size(Str(s)), 0, 0
  {
    match ParseStandard(s)
    case ReferenceForm(path) =>
      var f :- GeneratorFactory(env, "reference");
      Build(f, [("path", Str(path))], Some(env))
    case ConstantForm(text) =>
      var value :- ConstantValue(text);
      var f :- GeneratorFactory(env, "constant");
      Build(f, [("value", value)], Some(env))
    case NamedForm(name) =>
      var f :- GeneratorFactory(env, name);
      Build(f, [], Some(env))
  }

  /** The `typeof field === 'object'` branch: the factory named by
      `field.type`, given `field.config`; with a truthy `nullability` the
      factory's generator is wrapped by the nullability wrapper, which gets
      a randomizer of its own. */
  function CompileObjectDefinition(env: Env, field: Value, rf: Option<RandomizerFactory>)
    : (r: Result<Generator>)
    requires field.Null? || field.Arr? || field.Obj?
    decreases Size(field), 0, 0
  {
    var kind :- Get(field, "type");
    var f :- GeneratorFactory(env, ToJsString(kind));
    var config := DefinitionConfig(field);
    DefinitionConfigLighter(field);
    var nullability := Setting(config, "nullability");
    if Truthy(nullability) then
      var probability := Property(nullability, "probability");
      if Missing(probability) then Fail(NullabilityProbabilityMessage)
      else
        var own :- OwnRandomizer(rf);
        var inner :- Build(f, config, Some(env));
        NullableGenerator(own, inner, probability, Property(nullability, "value"))
    else Build(f, config, Some(env))
  }

  /** The randomizer the nullability wrapper gets of its own: the schema's
      randomizer factory called with no configuration. */
  function OwnRandomizer(rf: Option<RandomizerFactory>): (r: Result<Randomizer>)
    ensures rf.None? ==> r == FailType(RandomizerFactoryMessage)
  {
    if rf.None? then FailType(RandomizerFactoryMessage) else Instantiate(rf.value, Undefined)
  }

  /** `valueGeneratorFactory(config)`, with the ecosystem that the
      configuration carries. */
  function Build(f: ValueGeneratorFactory, config: Entries, eco: Option<Env>): (r: Result<Generator>)
    decreases Weight(config), 3, 0
  {
    match f
    case CompilingSwitch => CompileSwitch(config, eco)
    case CompilingXor => CompileXor(config, eco)
    case CompilingNestedArray => CompileNested(config, eco)
    case Plain(make) => make(config, if eco.Some? then Some(eco.value.charsets) else None)
  }

  /** The factories that compile no nested definition; the string
      factories resolve charset names in the ecosystem's store, when there
      is an ecosystem. */
  function BuildPlain(f: Factory, config: Entries, charsets: Option<Entries>): (r: Result<Generator>)
    requires !f.StringSwitchFactory? && !f.XorFactory? && !f.NestedArrayFactory?
  {
    match f
    case RandomBooleanFactory => BooleanGenerator(config)
    case ConstantTrueFactory => Ok(ConstantBool(true))
    case ConstantFalseFactory => Ok(ConstantBool(false))
    case IntegerFactory => IntegerGenerator(config)
    case CommonIntegerFactory => IntegerGenerator(config)
    case UnitsFactory => IntegerGenerator(Bounds(0, 9))
    case TensFactory => IntegerGenerator(Bounds(10, 99))
    case HundredsFactory => IntegerGenerator(Bounds(100, 999))
    case ThousandsFactory => IntegerGenerator(Bounds(1000, 9999))
    case ConstantFactory => Ok(ConstantGenerator(config))
    case RandomStringFactory =>
      var g :- CoreStringGenerator(config, charsets);
      Ok(FixedString(g))
    case CommonRandomStringFactory =>
      var g :- CommonStringGenerator(config, charsets);
      Ok(FixedString(g))
    case RandomLengthStringFactory =>
      var g :- CoreRandomLengthGenerator(config, charsets);
      Ok(RandomLengthString(g))
    case SamplingFactory => SamplingGenerator(config)
    case PickingFactory => CorePickingGenerator(config)
    case CommonPickingFactory => CommonPickingGenerator(config)
    case ReferencerFactory => ReferencerGenerator(config)
    case OtherFactory(name) => Ok(Generator.External(name))
  }

  /** `stringSwitchExpression(config)`: the checks, then every handler in
      key order, then the value provider, then the default if one is
      given. */
  function CompileSwitch(config: Entries, eco: Option<Env>): (r: Result<Generator>)
    decreases Weight(config), 2, 0
  {
    var _ :- SwitchChecks(config, eco.Some?);
    var handlersDef := Setting(config, "handlers");
    var valueDef := Setting(config, "value");
    var defaultDef := Setting(config, "default");
    SettingAtMost(config, "handlers");
    SettingAtMost(config, "value");
    var handlers :- CompileEach(eco, handlersDef, OwnKeys(handlersDef), None, [], Weight(config));
    var provider :- CompileFieldDefinition(eco, valueDef, None);
    if Truthy(defaultDef) then
      SettingAtMost(config, "default");
      var fallback :- CompileFieldDefinition(eco, defaultDef, None);
      Ok(StringSwitch(handlers, provider, Some(fallback)))
    else Ok(StringSwitch(handlers, provider, None))
  }

  /** The loops over an object's keys that compile the definition under
      each key and assign the result: the string switch's handlers (with no
      randomizer factory) and the schema's fields. */
  function CompileEach(eco: Option<Env>, defs: Value, keys: seq<string>, rf: Option<RandomizerFactory>,
                       acc: seq<(string, Generator)>, ghost bound: nat)
    : (r: Result<seq<(string, Generator)>>)
    requires !Nullish(defs) && Size(defs) <= bound
    decreases bound, 1, |keys|
  {
    if keys == [] then Ok(acc)
    else
      PropertyAtMost(defs, keys[0]);
      var g :- CompileFieldDefinition(eco, Property(defs, keys[0]), rf);
      CompileEach(eco, defs, keys[1..], rf, Put(acc, keys[0], g), bound)
  }

  /** `xorGenerator(config)`: every option compiled, in order. */
  function CompileXor(config: Entries, eco: Option<Env>): (r: Result<Generator>)
    decreases Weight(config), 2, 0
  {
    var items :- XorChecks(config);
    SettingAtMost(config, "options");
    ItemsAtMost(items, Weight(config));
    var options :- CompileOptions(eco, items, Weight(config));
    Ok(Xor(options))
  }

  /** `options.map(option => compileFieldDefinition(ecosystem, option))`. */
  function CompileOptions(eco: Option<Env>, items: seq<Value>, ghost bound: nat)
    : (r: Result<seq<Generator>>)
    requires forall i :: 0 <= i < |items| ==> Size(items[i]) <= bound
    ensures r.Ok? ==> |r.value| == |items|
    decreases bound, 1, |items|
  {
    if items == [] then Ok([])
    else
      var g :- CompileFieldDefinition(eco, items[0], None);
      var rest :- CompileOptions(eco, items[1..], bound);
      Ok([g] + rest)
  }

  /** `nestedArrayGenerator(config)`: the checks, then the definition. */
  function CompileNested(config: Entries, eco: Option<Env>): (r: Result<Generator>)
    decreases Weight(config), 2, 0
  {
    var bounds :- NestedArrayChecks(config);
    SettingAtMost(config, "definition");
    var item :- CompileFieldDefinition(eco, Setting(config, "definition"), None);
    Ok(NestedArray(item, bounds.0, bounds.1))
  }

  // ----- the schema -----

  /** A compiled schema: the randomizer factory and its configuration, and
      a generator per field, in the order of the input's fields. */
  datatype Schema = Schema(
    randomizerFactory: RandomizerFactory,
    randomizerConfig: Value,
    fields: seq<(string, Generator)>)

  /** `compileRandomizerFactory(ecosystem, name)`: a falsy name selects the
      default randomizer. */
  function CompileRandomizerFactory(env: Env, name: Value): (r: Result<RandomizerFactory>)
    ensures !Truthy(name) ==> r == env.defaultRandomizer
    ensures Truthy(name) ==> (r.Ok? <==> HasIn(env.randomizers, ToJsString(name)))
    ensures Truthy(name) && r.Err? ==> r == Fail(NotFoundMessage(ToJsString(name), RandomizerType))
  {
    if Truthy(name) then GetIn(RandomizerType, env.randomizers, ToJsString(name))
    else env.defaultRandomizer
  }

  /** The randomizer part of a schema input, `input.randomizer?.config ?? {}`
      and `input.randomizer?.name`. */
  function RandomizerConfig(randomizer: Value): Value {
    if Nullish(randomizer) then Obj([]) else Coalesce(Property(randomizer, "config"), Obj([]))
  }

  function RandomizerName(randomizer: Value): Value {
    if Nullish(randomizer) then Undefined else Property(randomizer, "name")
  }

  /** `compileSchemaInput(input, ecosystem)`. */
  function CompileSchemaInput(input: Value, env: Env): (r: Result<Schema>) {
    var randomizer :- Get(input, "randomizer");
    var rf :- CompileRandomizerFactory(env, RandomizerName(randomizer));
    var fieldsDef := Property(input, "fields");
    if Nullish(fieldsDef) then FailType(NullObjectMessage)
    else
      var fields :- CompileEach(Some(env), fieldsDef, OwnKeys(fieldsDef), Some(rf), [], Size(fieldsDef));
      Ok(Schema(rf, RandomizerConfig(randomizer), fields))
  }

  /** `compileSchemaInput` as the source runs it, a loop over the fields. */
  method CompileSchema(input: Value, env: Env) returns (res: Result<Schema>)
    ensures res == CompileSchemaInput(input, env)
  {
    if Nullish(input) {
      return Get(input, "randomizer").PropagateFailure();
    }
    var randomizer := Property(input, "randomizer");
    var factory := CompileRandomizerFactory(env, RandomizerName(randomizer));
    if factory.Err? {
      return factory.PropagateFailure();
    }
    var rf := factory.value;
    var fieldsDef := Property(input, "fields");
    if Nullish(fieldsDef) {
      return FailType(NullObjectMessage);
    }
    var fields := CompileFields(env, fieldsDef, rf);
    if fields.Err? {
      return fields.PropagateFailure();
    }
    return Ok(Schema(rf, RandomizerConfig(randomizer), fields.value));
  }

  /** The loop of `compileSchemaInput`: each own key of the fields
      definition, in order, compiled with the schema's randomizer factory;
      the first failure ends it. */
  method CompileFields(env: Env, fieldsDef: Value, rf: RandomizerFactory)
    returns (res: Result<seq<(string, Generator)>>)
    requires !Nullish(fieldsDef)
    ensures res == CompileEach(Some(env), fieldsDef, OwnKeys(fieldsDef), Some(rf), [], Size(fieldsDef))
  {
    var keys := OwnKeys(fieldsDef);
    var fields: seq<(string, Generator)> := [];
    var i := 0;
    while i < |keys|
      invariant 0 <= i <= |keys|
      invariant CompileEach(Some(env), fieldsDef, keys, Some(rf), [], Size(fieldsDef))
        == CompileEach(Some(env), fieldsDef, keys[i..], Some(rf), fields, Size(fieldsDef))
    {
      assert keys[i..][1..] == keys[i + 1..];
      var g := CompileFieldDefinition(Some(env), Property(fieldsDef, keys[i]), Some(rf));
      if g.Err? {
        return g.PropagateFailure();
      }
      fields := Put(fields, keys[i], g.value);
      i := i + 1;
    }
    return Ok(fields);
  }

  // ----- properties -----

  /** A reference standard compiles to a referencer of the path after the
      prefix, which does not throw on a missing value and splits at dots;
      an empty path is refused. */
  lemma ReferenceStandard(env: Env, path: string)
    requires GeneratorFactory(env, "reference") == Ok(CoreFactory(ReferencerFactory))
    ensures path != "" ==> CompileStandard(env, ReferencePrefix + path) == Ok(Referencer(Str(path), false, "."))
    ensures path == "" ==> CompileStandard(env, ReferencePrefix + path) == Fail(PathRequiredMessage)
  {
    TextThenParse(ReferenceForm(path));
    ReferencerBuild(path, Some(env));
  }

  lemma ReferencerBuild(path: string, eco: Option<Env>)
    ensures path != "" ==> Build(CoreFactory(ReferencerFactory), [("path", Str(path))], eco) == Ok(Referencer(Str(path), false, "."))
    ensures path == "" ==> Build(CoreFactory(ReferencerFactory), [("path", Str(path))], eco) == Fail(PathRequiredMessage)
  {
    assert Setting([("path", Str(path))], "path") == Str(path);
  }

  /** A constant standard compiles to a snapshot of what its text stands
      for. */
  lemma ConstantStandard(env: Env, text: string)
    requires GeneratorFactory(env, "constant") == Ok(CoreFactory(Factory.ConstantFactory))
    requires ConstantValue(text).Ok?
    ensures CompileStandard(env, ConstantPrefix + text) == Ok(Snapshot(DeepCopy.DeepCopy(ConstantValue(text).value)))
  {
    TextThenParse(ConstantForm(text));
    ConstantBuild(ConstantValue(text).value, Some(env));
  }

  lemma ConstantBuild(v: Value, eco: Option<Env>)
    ensures Build(CoreFactory(Factory.ConstantFactory), [("value", v)], eco) == Ok(Snapshot(DeepCopy.DeepCopy(v)))
  {
    assert Setting([("value", v)], "value") == v;
  }

  /** `"!const-42"` stands for the number 42. */
  lemma ConstantNumber(env: Env, n: nat)
    requires GeneratorFactory(env, "constant") == Ok(CoreFactory(Factory.ConstantFactory))
    ensures CompileStandard(env, ConstantPrefix + NatToString(n)) == Ok(Snapshot(Num(n as real)))
  {
    JsonParseNat(n);
    ConstantStandard(env, NatToString(n));
    DeepCopy.CopyPrimitive(Num(n as real));
  }

  /** A constant text that is not JSON stands for itself. */
  lemma ConstantText(env: Env, text: string)
    requires GeneratorFactory(env, "constant") == Ok(CoreFactory(Factory.ConstantFactory))
    requires JsonParse(text).Err? && Catchable(JsonParse(text).error)
    ensures CompileStandard(env, ConstantPrefix + text) == Ok(Snapshot(Str(text)))
  {
    ConstantStandard(env, text);
    DeepCopy.CopyPrimitive(Str(text));
  }

  /** Any other string names a factory, which is given no configuration;
      an unknown name is refused with the registry's message. */
  lemma NamedStandard(env: Env, name: string)
    requires PlainName(name)
    ensures GeneratorFactory(env, name).Ok? ==>
      CompileStandard(env, name) == Build(GeneratorFactory(env, name).value, [], Some(env))
    ensures !HasIn(env.generators, name) ==>
      CompileStandard(env, name) == Fail(NotFoundMessage(name, ValueGeneratorType))
  {
    TextThenParse(NamedForm(name));
  }

  /** `null` is of type `object` but has no `type` to read. */
  lemma NullDefinition(env: Env, rf: Option<RandomizerFactory>)
    ensures CompileFieldDefinition(Some(env), Null, rf)
      == FailType(ReadMessage(Null, "type"))
  {
  }

  /** An object definition whose `type` names no factory is refused before
      its configuration is looked at. */
  lemma UnknownType(env: Env, field: Value, rf: Option<RandomizerFactory>)
    requires field.Arr? || field.Obj?
    requires !HasIn(env.generators, ToJsString(Property(field, "type")))
    ensures CompileFieldDefinition(Some(env), field, rf)
      == Fail(NotFoundMessage(ToJsString(Property(field, "type")), ValueGeneratorType))
  {
  }

  /** The nullability of a definition needs a probability (0 counts). */
  lemma NullabilityNeedsProbability(env: Env, field: Value, rf: Option<RandomizerFactory>)
    requires field.Obj?
    requires HasIn(env.generators, ToJsString(Property(field, "type")))
    requires Truthy(Setting(DefinitionConfig(field), "nullability"))
    requires Missing(Property(Setting(DefinitionConfig(field), "nullability"), "probability"))
    ensures CompileFieldDefinition(Some(env), field, rf) == Fail(NullabilityProbabilityMessage)
  {
  }

  /** The nullability wrapper needs a randomizer factory to get a randomizer
      of its own. */
  lemma NullabilityNeedsRandomizer(env: Env, field: Value)
    requires field.Obj?
    requires HasIn(env.generators, ToJsString(Property(field, "type")))
    requires Truthy(Setting(DefinitionConfig(field), "nullability"))
    requires !Missing(Property(Setting(DefinitionConfig(field), "nullability"), "probability"))
    ensures CompileObjectDefinition(env, field, None) == FailType(RandomizerFactoryMessage)
  {
  }

  /** The randomizer factory given to a definition matters only to the
      nullability wrapper. */
  lemma RandomizerOnlyForNullability(env: Env, field: Value, rf: Option<RandomizerFactory>)
    requires (field.Arr? || field.Obj?) ==> !Truthy(Setting(DefinitionConfig(field), "nullability"))
    ensures CompileFieldDefinition(Some(env), field, rf) == CompileFieldDefinition(Some(env), field, None)
  {
  }

  /** The configuration of an object definition whose own configuration is
      an object with unique keys is that object, without `ecosystem`. */
  lemma ObjectConfiguration(field: Value)
    requires field.Obj? && Property(field, "config").Obj?
    requires UniqueKeys(Property(field, "config").entries)
    ensures DefinitionConfig(field) == Without(Property(field, "config").entries, "ecosystem")
  {
    DeepCopy.PutAllOfUnique(Property(field, "config").entries);
  }

  /** Called without an ecosystem, the factories that compile nested
      definitions fail: the string switch says so, and the xor and nested
      array factories cannot compile a single definition. */
  lemma NestingNeedsEcosystem(config: Entries)
    ensures CompileSwitch(config, None) == Fail(SwitchEcosystemMessage)
    ensures NestedArrayChecks(config).Ok? ==> CompileNested(config, None).Err?
    ensures XorChecks(config).Ok? && |XorChecks(config).value| > 0 ==> CompileXor(config, None).Err?
  {
  }

  /** Compiling key by key succeeds exactly when every definition compiles,
      and then each key holds its definition's generator. */
  lemma {:induction false} CompileEachValues(eco: Option<Env>, defs: Value, keys: seq<string>,
                                             rf: Option<RandomizerFactory>, acc: seq<(string, Generator)>, bound: nat)
    requires !Nullish(defs) && Size(defs) <= bound
    ensures CompileEach(eco, defs, keys, rf, acc, bound).Ok?
      <==> forall i :: 0 <= i < |keys| ==> CompileFieldDefinition(eco, Property(defs, keys[i]), rf).Ok?
    ensures CompileEach(eco, defs, keys, rf, acc, bound).Ok? ==>
      forall k :: k in keys ==>
        Lookup(CompileEach(eco, defs, keys, rf, acc, bound).value, k).Some?
        && CompileFieldDefinition(eco, Property(defs, k), rf)
          == Ok(Lookup(CompileEach(eco, defs, keys, rf, acc, bound).value, k).value)
    ensures CompileEach(eco, defs, keys, rf, acc, bound).Ok? ==>
      forall k :: k !in keys ==> Lookup(CompileEach(eco, defs, keys, rf, acc, bound).value, k) == Lookup(acc, k)
    decreases |keys|
  {
    if keys != [] {
      var g := CompileFieldDefinition(eco, Property(defs, keys[0]), rf);
      if g.Ok? {
        var acc' := Put(acc, keys[0], g.value);
        assert CompileEach(eco, defs, keys, rf, acc, bound) == CompileEach(eco, defs, keys[1..], rf, acc', bound);
        CompileEachValues(eco, defs, keys[1..], rf, acc', bound);
        forall k ensures Lookup(acc', k) == if k == keys[0] then Some(g.value) else Lookup(acc, k) {
          PutLookup(acc, keys[0], g.value, k);
        }
        assert forall i :: 1 <= i < |keys| ==> keys[i] == keys[1..][i - 1];
        assert forall k :: k in keys <==> k == keys[0] || k in keys[1..];
      }
    }
  }

  /** Compiling key by key adds the keys, in order, to those already
      assigned. */
  lemma {:induction false} CompileEachKeys(eco: Option<Env>, defs: Value, keys: seq<string>,
                                           rf: Option<RandomizerFactory>, acc: seq<(string, Generator)>, bound: nat)
    requires !Nullish(defs) && Size(defs) <= bound
    requires CompileEach(eco, defs, keys, rf, acc, bound).Ok?
    requires Distinct(keys) && forall i :: 0 <= i < |keys| ==> keys[i] !in Keys(acc)
    ensures Keys(CompileEach(eco, defs, keys, rf, acc, bound).value) == Keys(acc) + keys
    decreases |keys|
  {
    if keys != [] {
      var g := CompileFieldDefinition(eco, Property(defs, keys[0]), rf).value;
      PutFirstOfFresh(acc, keys, g);
      CompileEachKeys(eco, defs, keys[1..], rf, Put(acc, keys[0], g), bound);
    }
  }

  /** A schema has the input's fields, in their order, each compiled with
      the schema's randomizer factory. */
  lemma SchemaFields(input: Value, env: Env, schema: Schema)
    requires CompileSchemaInput(input, env) == Ok(schema)
    requires Property(input, "fields").Obj? && UniqueKeys(Property(input, "fields").entries)
    ensures Keys(schema.fields) == Keys(Property(input, "fields").entries)
    ensures forall k :: k in Keys(Property(input, "fields").entries) ==>
      Lookup(schema.fields, k).Some?
      && CompileFieldDefinition(Some(env), Property(Property(input, "fields"), k), Some(schema.randomizerFactory))
        == Ok(Lookup(schema.fields, k).value)
  {
    var fieldsDef := Property(input, "fields");
    var rf := schema.randomizerFactory;
    UniqueKeysDistinct(fieldsDef.entries);
    CompileEachKeys(Some(env), fieldsDef, OwnKeys(fieldsDef), Some(rf), [], Size(fieldsDef));
    CompileEachValues(Some(env), fieldsDef, OwnKeys(fieldsDef), Some(rf), [], Size(fieldsDef));
  }

  /** The schema's randomizer: the named one, or the default when the input
      names none, with the given configuration or an empty one. Its lookup
      fails before any field is compiled. */
  lemma SchemaRandomizer(input: Value, env: Env)
    requires !Nullish(input)
    ensures var randomizer := Property(input, "randomizer");
      var rf := CompileRandomizerFactory(env, RandomizerName(randomizer));
      (rf.Err? ==> CompileSchemaInput(input, env) == Err(rf.error))
      && (CompileSchemaInput(input, env).Ok? ==>
        Ok(CompileSchemaInput(input, env).value.randomizerFactory) == rf
        && CompileSchemaInput(input, env).value.randomizerConfig == RandomizerConfig(randomizer))
  {
  }

  /** A schema input that is not an object, or has no fields, is refused
      with the engine's TypeError. */
  lemma SchemaInputRefusals(input: Value, env: Env)
    ensures Nullish(input) ==>
      CompileSchemaInput(input, env)
        == FailType(ReadMessage(input, "randomizer"))
    ensures (!Nullish(input) && Nullish(Property(input, "fields"))
      && CompileRandomizerFactory(env, RandomizerName(Property(input, "randomizer"))).Ok?) ==>
      CompileSchemaInput(input, env) == FailType(NullObjectMessage)
  {
  }
}
