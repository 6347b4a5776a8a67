/** Value generators: what each factory of src/core-generators and
    src/generators/common checks when it is called with a configuration, what
    the closure it returns captures, and what that closure produces when it
    is called with a generation context. The factories that compile nested
    field definitions (the string switch, the xor, the nested array) are
    completed in module Schemas, which owns the compilation; here they
    contribute their configuration checks and their evaluation. */
module Generators {
  import opened Wrappers
  import opened Text
  import opened AssocLists
  import opened Json
  import opened DeepCopy
  import opened Randomness
  import opened Referencing
  import opened RandomStrings

  /** A compiled value generator: the closure a factory returns, as the
      data it captures. */
  datatype Generator =
    | RandomBoolean(probability: real)
      // `randomBoolean`; the probability lies in [0, 1]
    | ConstantBool(b: bool)
      // `constantTrue`, `constantFalse`
    | RandomInt(min: real, max: real)
      // `integerGenerator` and its presets
    | Snapshot(value: Value)
      // `constantGenerator`: the copy taken when the factory ran
    | Pick(items: seq<Value>)
      // both `pickingGenerator`s
    | Sample(items: seq<Value>, min: real, max: real)
      // `samplingGenerator`
    | NestedArray(item: Generator, minItems: real, maxItems: real)
      // `nestedArrayGenerator`
    | Referencer(path: Value, onEmptyThrow: bool, separator: string)
      // `referencerGenerator`
    | StringSwitch(handlers: seq<(string, Generator)>, provider: Generator, fallback: Option<Generator>)
      // `stringSwitchExpression`
    | Xor(options: seq<Generator>)
      // `xorGenerator`
    | FixedString(fixed: FixedLength)
      // `randomStringGenerator` (core and common)
    | RandomLengthString(ranged: RandomLength)
      // `randomStringGeneratorOfRandomLength`
    | Nullable(inner: Generator, own: Randomizer, nullProbability: real, nullValue: Value)
      // the nullability wrapper the schema compiler puts around a field
    | External(name: string)
      // a generator whose factory is not part of this model

  /** A value generator factory, as registered in an ecosystem. */
  datatype Factory =
    | RandomBooleanFactory | ConstantTrueFactory | ConstantFalseFactory
    | IntegerFactory | CommonIntegerFactory
    | UnitsFactory | TensFactory | HundredsFactory | ThousandsFactory
    | StringSwitchFactory | XorFactory | ConstantFactory
    | RandomStringFactory | RandomLengthStringFactory | CommonRandomStringFactory
    | NestedArrayFactory | SamplingFactory | PickingFactory | CommonPickingFactory
    | ReferencerFactory
    | OtherFactory(name: string)

  /** `config[key]` of a configuration object. */
  function Setting(config: Entries, key: string): (setting: Value)
    ensures key !in Keys(config) ==> setting.Undefined?
    ensures setting == Property(Obj(config), key)
  {
    var found := Lookup(config, key);
    if found.Some? then found.value else Undefined
  }

  function NotANumber<T>(what: string): Result<T> {
    Err(Error(Unmodelled, what + " is not a number"))
  }

  // ----- random boolean (src/core-generators/booleans/booleans.ts) -----

  function ProbabilityTypeMessage(p: Value): string {
    "Probability must be a number for random boolean value generator (" + TypeOf(p) + ")"
  }

  function ProbabilityAboveMessage(p: real): string {
    "Specified probability for random boolean value generator can't be greater than 1 ("
      + NumberToString(p) + ")"
  }

  function ProbabilityBelowMessage(p: real): string {
    "Specified probability for random boolean value generator can't be less than 0 ("
      + NumberToString(p) + ")"
  }

  /** `randomBoolean(config)`: a number or nothing (0.5) is accepted, and
      only within [0, 1]. */
  function BooleanGenerator(config: Entries): (r: Result<Generator>)
    ensures var p := Setting(config, "probability");
      (r.Ok? <==> p.Undefined? || (p.Num? && 0.0 <= p.n <= 1.0))
      && (r.Ok? ==> r.value == RandomBoolean(if p.Undefined? then 0.5 else p.n))
  {
    var p := Setting(config, "probability");
    if p.Undefined? then Ok(RandomBoolean(0.5))
    else if !p.Num? then FailType(ProbabilityTypeMessage(p))
    else if p.n > 1.0 then Fail(ProbabilityAboveMessage(p.n))
    else if p.n < 0.0 then Fail(ProbabilityBelowMessage(p.n))
    else Ok(RandomBoolean(p.n))
  }

  /** The refusals of `randomBoolean`: a TypeError for a probability that
      is not a number, an Error for one outside [0, 1]. */
  lemma BooleanGeneratorRefusals(config: Entries)
    ensures var p := Setting(config, "probability");
      !p.Num? && !p.Undefined? ==> BooleanGenerator(config) == FailType(ProbabilityTypeMessage(p))
    ensures var p := Setting(config, "probability");
      p.Num? && p.n > 1.0 ==> BooleanGenerator(config) == Fail(ProbabilityAboveMessage(p.n))
    ensures var p := Setting(config, "probability");
      p.Num? && p.n < 0.0 ==> BooleanGenerator(config) == Fail(ProbabilityBelowMessage(p.n))
  {
  }

  // ----- integers (src/core-generators/numbers/integer.ts and
  //       src/generators/common/numbers/integer.ts, which agree) -----

  const MaxRequiredMessage: string := "Property 'max' is required for integer value generator"
  const MaxBelowMinMessage: string :=
    "Maximum must be greater or equal to minimum for integer value generator to work"

  /** `!v && v !== 0`: the test both integer factories and the sampler use
      for a required bound. */
  predicate Missing(v: Value) {
    !Truthy(v) && v != Num(0.0)
  }

  /** `integerGenerator(config)`: `min` defaults to 0, `max` is required
      and must not be below `min`. Bounds that are not numbers are not
      followed through JavaScript's comparisons. */
  function IntegerGenerator(config: Entries): (r: Result<Generator>)
    ensures var min := Coalesce(Setting(config, "min"), Num(0.0));
      var max := Setting(config, "max");
      (Missing(max) ==> r == Fail(MaxRequiredMessage))
      && (max.Num? && min.Num? && max.n < min.n ==> r == Fail(MaxBelowMinMessage))
      && (r.Ok? <==> max.Num? && min.Num? && min.n <= max.n)
      && (r.Ok? ==> r.value == RandomInt(min.n, max.n))
  {
    var min := Coalesce(Setting(config, "min"), Num(0.0));
    var max := Setting(config, "max");
    if Missing(max) then Fail(MaxRequiredMessage)
    else if !max.Num? then NotANumber("max")
    else if !min.Num? then NotANumber("min")
    else if max.n < min.n then Fail(MaxBelowMinMessage)
    else Ok(RandomInt(min.n, max.n))
  }

  /** The configuration each preset passes to `integerGenerator`. */
  function Bounds(min: int, max: int): Entries {
    [("min", Num(min as real)), ("max", Num(max as real))]
  }

  /** The bounds of an integer preset. */
  function PresetBounds(f: Factory): (b: (int, int))
    requires f.UnitsFactory? || f.TensFactory? || f.HundredsFactory? || f.ThousandsFactory?
    ensures b.0 <= b.1
  {
    match f
    case UnitsFactory => (0, 9)
    case TensFactory => (10, 99)
    case HundredsFactory => (100, 999)
    case ThousandsFactory => (1000, 9999)
  }

  // ----- constants, picking and sampling -----

  /** `constantGenerator(config)`: the value is copied once, when the
      factory runs. */
  function ConstantGenerator(config: Entries): (g: Generator)
    ensures g.Snapshot? && g.value == DeepCopy.DeepCopy(Setting(config, "value"))
  {
    Snapshot(DeepCopy.DeepCopy(Setting(config, "value")))
  }

  function CorePickTypeMessage(options: Value): string {
    "Can't pick any item - the options is not of type array (" + TypeOf(options) + ")"
  }

  const CorePickEmptyMessage: string := "Can't pick any item - the given options is an empty array"

  /** `pickingGenerator(config)` of src/core-generators: reads `options`. */
  function CorePickingGenerator(config: Entries): (r: Result<Generator>)
    ensures var options := Setting(config, "options");
      (!options.Arr? ==> r == FailType(CorePickTypeMessage(options)))
      && (options == Arr([]) ==> r == Fail(CorePickEmptyMessage))
      && (r.Ok? <==> options.Arr? && |options.items| > 0)
      && (r.Ok? ==> r.value == Pick(options.items))
  {
    var options := Setting(config, "options");
    if !options.Arr? then FailType(CorePickTypeMessage(options))
    else if |options.items| == 0 then Fail(CorePickEmptyMessage)
    else Ok(Pick(options.items))
  }

  function CommonPickTypeMessage(given: Value): string {
    "Can't pick any item - the array is not of type array (" + TypeOf(given) + ")"
  }

  const CommonPickEmptyMessage: string := "Can't pick any item - the given array is empty"

  /** `pickingGenerator(config)` of src/generators/common: reads `array`. */
  function CommonPickingGenerator(config: Entries): (r: Result<Generator>)
    ensures var items := Setting(config, "array");
      (!items.Arr? ==> r == FailType(CommonPickTypeMessage(items)))
      && (items == Arr([]) ==> r == Fail(CommonPickEmptyMessage))
      && (r.Ok? <==> items.Arr? && |items.items| > 0)
      && (r.Ok? ==> r.value == Pick(items.items))
  {
    var items := Setting(config, "array");
    if !items.Arr? then FailType(CommonPickTypeMessage(items))
    else if |items.items| == 0 then Fail(CommonPickEmptyMessage)
    else Ok(Pick(items.items))
  }

  function SampleTypeMessage(given: Value): string {
    "Can't make a sample - the array is not of type array (" + TypeOf(given) + ")"
  }

  const SampleEmptyMessage: string := "Can't make a sample - the given array is empty"
  const SampleMaxMessage: string := "Can't make a sample - 'max' is not specified"
  const SampleNegativeMessage: string := "Can't make a sample - both 'min' and 'max' mustn't be negatives"
  const SampleOrderMessage: string := "Can't make a sample - maximum sample length is less than the minimum"

  /** `samplingGenerator(config)`: `min` defaults to 0 and `max` to the
      array's length. */
  function SamplingGenerator(config: Entries): (r: Result<Generator>)
    ensures var items := Setting(config, "array");
      (!items.Arr? ==> r == FailType(SampleTypeMessage(items)))
      && (items == Arr([]) ==> r == Fail(SampleEmptyMessage))
      && (r.Ok? ==> (items.Arr? && |items.items| > 0 && r.value.Sample? && r.value.items == items.items
        && 0.0 <= r.value.min <= r.value.max))
      && (items.Arr? && |items.items| > 0 && Setting(config, "min").Undefined? && Setting(config, "max").Undefined?
        ==> r == Ok(Sample(items.items, 0.0, |items.items| as real)))
  {
    var items := Setting(config, "array");
    if !items.Arr? then FailType(SampleTypeMessage(items))
    else if |items.items| == 0 then Fail(SampleEmptyMessage)
    else
      var min := Coalesce(Setting(config, "min"), Num(0.0));
      var max := Coalesce(Setting(config, "max"), Num(|items.items| as real));
      if Missing(max) then Fail(SampleMaxMessage)
      else if !min.Num? then NotANumber("min")
      else if !max.Num? then NotANumber("max")
      else if min.n < 0.0 || max.n < 0.0 then Fail(SampleNegativeMessage)
      else if min.n > max.n then Fail(SampleOrderMessage)
      else Ok(Sample(items.items, min.n, max.n))
  }

  // ----- referencer (src/generators/common/misc/referencer.ts) -----

  const PathRequiredMessage: string := "Unable to reference - 'path' is a required field"

  /** `referencerGenerator(config)`: `path` is required, `onEmptyThrow`
      defaults to false and `separator` to a dot. A separator that is not a
      string is converted to one, as `split` does. */
  function ReferencerGenerator(config: Entries): (r: Result<Generator>)
    ensures r.Ok? <==> Truthy(Setting(config, "path"))
    ensures r.Err? ==> r == Fail(PathRequiredMessage)
    ensures r.Ok? ==>
      r.value.Referencer? && r.value.path == Setting(config, "path")
      && r.value.onEmptyThrow == Truthy(Setting(config, "onEmptyThrow"))
      && (Nullish(Setting(config, "separator")) ==> r.value.separator == ".")
      && (Setting(config, "separator").Str? ==> r.value.separator == Setting(config, "separator").s)
  {
    var path := Setting(config, "path");
    var onEmpty := Setting(config, "onEmptyThrow");
    var onEmptyThrow := if onEmpty.Undefined? then false else Truthy(onEmpty);
    var separator := Setting(config, "separator");
    if !Truthy(path) then Fail(PathRequiredMessage)
    else Ok(Referencer(path, onEmptyThrow, if Nullish(separator) then "." else ToJsString(separator)))
  }

  // ----- the checks of the factories that compile nested definitions -----

  const SwitchEcosystemMessage: string :=
    "Can't handle the string switch expression - 'ecosystem' property is required"
  const SwitchHandlersMessage: string :=
    "Can't handle the string switch expression - no handlers specified"
  const SwitchValueMessage: string :=
    "Can't handle the string switch expression - 'value' property is required"

  /** `Object.keys(v)` for a value that is neither `null` nor `undefined`:
      an object's keys, the indices of an array or of a string, and none
      for a number, a boolean or a function. */
  function OwnKeys(v: Value): (ks: seq<string>)
    requires !Nullish(v)
    ensures v.Obj? ==> ks == Keys(v.entries)
    ensures v.Arr? ==> |ks| == |v.items|
    ensures v.Str? ==> |ks| == |v.s|
  {
    match v
    case Obj(entries) => Keys(entries)
    case Arr(items) => IndexKeys(|items|)
    case Str(s) => IndexKeys(|s|)
    case _ => []
  }

  /** `stringSwitchExpression(config)` before it compiles anything: an
      ecosystem, at least one handler and a value provider are required,
      in this order. */
  function SwitchChecks(config: Entries, hasEcosystem: bool): (r: Result<()>)
    ensures var handlers := Setting(config, "handlers");
      (!hasEcosystem ==> r == Fail(SwitchEcosystemMessage))
      && (hasEcosystem && (!Truthy(handlers) || |OwnKeys(handlers)| == 0) ==> r == Fail(SwitchHandlersMessage))
      && (r.Ok? <==> (hasEcosystem && Truthy(handlers) && |OwnKeys(handlers)| > 0
        && Truthy(Setting(config, "value"))))
      && (r.Err? ==> r.error.kind == PlainError)
  {
    var handlers := Setting(config, "handlers");
    if !hasEcosystem then Fail(SwitchEcosystemMessage)
    else if !Truthy(handlers) || |OwnKeys(handlers)| == 0 then Fail(SwitchHandlersMessage)
    else if !Truthy(Setting(config, "value")) then Fail(SwitchValueMessage)
    else Ok(())
  }

  const XorOptionsMessage: string := "Can't generate xor field - no options given"
  const OptionsMapMessage: string := "options.map is not a function"

  /** `xorGenerator(config)` before it compiles anything: the options must
      be given, and be an array for `options.map` to exist. */
  function XorChecks(config: Entries): (r: Result<seq<Value>>)
    ensures var options := Setting(config, "options");
      (!Truthy(options) ==> r == Fail(XorOptionsMessage))
      && (Truthy(options) && !options.Arr? ==> r == FailType(OptionsMapMessage))
      && (r.Ok? <==> options.Arr?)
      && (r.Ok? ==> r.value == options.items)
  {
    var options := Setting(config, "options");
    if !Truthy(options) then Fail(XorOptionsMessage)
    else if !options.Arr? then FailType(OptionsMapMessage)
    else Ok(options.items)
  }

  const NestedDefinitionMessage: string :=
    "Can't generate a nested array - 'definition' is a required property"
  const NestedMaxMessage: string := "Can't generate a nested array - 'maxItems' is a required property"
  const NestedNegativeMessage: string :=
    "Can't generate a nested array - both 'minItems' and 'maxItems' must be positive numbers"

  function NestedOrderMessage(min: real, max: real): string {
    "Can't generate a nested array - 'minItems' must be less or equal to 'maxItems' ("
      + NumberToString(min) + " > " + NumberToString(max) + ")"
  }

  /** `nestedArrayGenerator(config)` before it compiles the definition:
      the bounds it accepts are `0 <= minItems <= maxItems`, with `minItems`
      defaulting to 0. Note that the order is checked before the signs. */
  function NestedArrayChecks(config: Entries): (r: Result<(real, real)>)
    ensures var min := Coalesce(Setting(config, "minItems"), Num(0.0));
      var max := Setting(config, "maxItems");
      (!Truthy(Setting(config, "definition")) ==> r == Fail(NestedDefinitionMessage))
      && (Truthy(Setting(config, "definition")) && Missing(max) ==> r == Fail(NestedMaxMessage))
      && (r.Ok? <==> (Truthy(Setting(config, "definition")) && min.Num? && max.Num?
        && 0.0 <= min.n <= max.n))
      && (r.Ok? ==> r.value == (min.n, max.n))
  {
    var min := Coalesce(Setting(config, "minItems"), Num(0.0));
    var max := Setting(config, "maxItems");
    if !Truthy(Setting(config, "definition")) then Fail(NestedDefinitionMessage)
    else if Missing(max) then Fail(NestedMaxMessage)
    else if !min.Num? then NotANumber("minItems")
    else if !max.Num? then NotANumber("maxItems")
    else if min.n > max.n then Fail(NestedOrderMessage(min.n, max.n))
    else if min.n < 0.0 || max.n < 0.0 then Fail(NestedNegativeMessage)
    else Ok((min.n, max.n))
  }

  /** A nested array whose bounds are in the wrong order is refused with
      the order message even when a bound is negative. */
  lemma NestedOrderBeforeSign(config: Entries)
    requires Truthy(Setting(config, "definition"))
    requires Setting(config, "minItems") == Num(0.0) && Setting(config, "maxItems") == Num(-1.0)
    ensures NestedArrayChecks(config) == Fail(NestedOrderMessage(0.0, -1.0))
  {
  }

  // ----- nullability (the wrapper the schema compiler applies) -----

  const NullProbabilityRequiredMessage: string := "Probability is a required parameter for Nullability Clojure"

  function NullProbabilityRangeMessage(p: real): string {
    "The probability must be within a range of [0, 1] (got " + NumberToString(p) + ")"
  }

  /** The nullability wrapper around `inner`, drawing from its own
      randomizer `own`: the probability is required and must lie in
      [0, 1]. */
  function NullableGenerator(own: Randomizer, inner: Generator, probability: Value, nullValue: Value)
    : (r: Result<Generator>)
    ensures Nullish(probability) ==> r == Fail(NullProbabilityRequiredMessage)
    ensures probability.Num? && (probability.n < 0.0 || probability.n > 1.0) ==>
      r == Fail(NullProbabilityRangeMessage(probability.n))
    ensures r.Ok? <==> probability.Num? && 0.0 <= probability.n <= 1.0
    ensures r.Ok? ==> r.value == Nullable(inner, own, probability.n, nullValue)
  {
    if Nullish(probability) then Fail(NullProbabilityRequiredMessage)
    else if !probability.Num? then NotANumber("probability")
    else if probability.n < 0.0 || probability.n > 1.0 then Fail(NullProbabilityRangeMessage(probability.n))
    else Ok(Nullable(inner, own, probability.n, nullValue))
  }

  // ----- calling a compiled generator -----

  const NotAFunctionMessage: string := "selectedGenerator is not a function"
  const PathSplitMessage: string := "path.split is not a function"

  /** The numbers `0, ..., n - 1` as values: the array of generators the
      xor picks from, each standing for its index. */
  function Indices(n: nat): (vs: seq<Value>)
    ensures |vs| == n
    ensures forall i :: 0 <= i < n ==> vs[i] == Num(i as real)
  {
    seq(n, i requires 0 <= i < n => Num(i as real))
  }

  /** The position of the first handler called `key`: what the compiled
      handler object answers for `handlers[key]`. */
  function FindHandler(handlers: seq<(string, Generator)>, key: string): (r: Option<nat>)
    ensures r.Some? ==>
      r.value < |handlers| && handlers[r.value].0 == key
      && forall j :: 0 <= j < r.value ==> handlers[j].0 != key
    ensures r.None? <==> key !in Keys(handlers)
  {
    if handlers == [] then None
    else if handlers[0].0 == key then Some(0)
    else match FindHandler(handlers[1..], key)
      case None => None
      case Some(i) => Some(i + 1)
  }

  /** The random boolean's closure: the extremes use no draw. */
  function EvalBoolean(p: real, r: Randomizer): Result<(Value, Randomizer)> {
    if p == 0.0 then Ok((Bool(false), r))
    else if p == 1.0 then Ok((Bool(true), r))
    else
      var drawn :- Draw(r);
      Ok((Bool(p > drawn.0), drawn.1))
  }

  /** The integer generator's closure. */
  function EvalInteger(min: real, max: real, r: Randomizer): Result<(Value, Randomizer)> {
    var drawn :- RandomInteger(r, min, max);
    Ok((Num(drawn.0), drawn.1))
  }

  /** The referencer's closure: `reference(context, path, ...)`, where a
      path that is not a string has no `split`. */
  function EvalReferencer(path: Value, onEmptyThrow: bool, separator: string, context: Value, r: Randomizer)
    : Result<(Value, Randomizer)>
  {
    if path.Str? then
      var v :- Reference(context, path.s, onEmptyThrow, separator);
      Ok((v, r))
    else if !Truthy(context) then
      if onEmptyThrow then Fail(ObjectNotDefinedMessage) else Ok((Undefined, r))
    else FailType(PathSplitMessage)
  }

  /** The xor's pick among `n` generators: the index picked, or `None`
      when the pick is not one of them. */
  function XorChoice(n: nat, r: Randomizer): Result<(Option<nat>, Randomizer)> {
    var picked :- PickRandomItem(r, Arr(Indices(n)));
    var k := picked.0;
    if k.Num? && 0.0 <= k.n && k.n == k.n.Floor as real && k.n.Floor < n then Ok((Some(k.n.Floor), picked.1))
    else Ok((None, picked.1))
  }

  const SampleUnmodelledMessage: string := "selectSample is not part of this model"
  const NullDrawUnmodelledMessage: string := "the nullability wrapper's draw is not part of this model"

  function ExternalMessage(name: string): string {
    "the generator '" + name + "' is not part of this model"
  }

  /** Calling the compiled generator `g` with the generation context
      `context`, whose randomizer is `r`; the result is the value and the
      randomizer's state afterwards. */
  function Eval(g: Generator, context: Value, r: Randomizer): Result<(Value, Randomizer)>
    decreases g, 0
  {
    match g
    case RandomBoolean(p) => EvalBoolean(p, r)
    case ConstantBool(b) => Ok((Bool(b), r))
    case RandomInt(min, max) => EvalInteger(min, max, r)
    case Snapshot(value) => Ok((value, r))
    case Pick(items) => PickRandomItem(r, Arr(items))
    case Sample(_, _, _) => Err(Error(Unmodelled, SampleUnmodelledMessage))
    case NestedArray(item, min, max) =>
      var count :- RandomInteger(r, min, max);
      var made :- Repeat(item, context, [], count.1, LoopCount(count.0));
      Ok((Arr(made.0), made.1))
    case Referencer(path, onEmptyThrow, separator) => EvalReferencer(path, onEmptyThrow, separator, context, r)
    case StringSwitch(handlers, provider, fallback) =>
      var switched :- Eval(provider, context, r);
      var found := FindHandler(handlers, ToJsString(switched.0));
      if found.Some? then Eval(handlers[found.value].1, context, switched.1)
      else if fallback.Some? then Eval(fallback.value, context, switched.1)
      else Ok((Undefined, switched.1))
    case Xor(options) =>
      var chosen :- XorChoice(|options|, r);
      if chosen.0.Some? && chosen.0.value < |options| then Eval(options[chosen.0.value], context, chosen.1)
      else FailType(NotAFunctionMessage)
    case FixedString(fixed) => GenerateFixedLength(fixed, r)
    case RandomLengthString(ranged) => GenerateRandomLength(ranged, r)
    case Nullable(inner, _, p, nullValue) =>
      if p == 0.0 then Eval(inner, context, r)
      else if p == 1.0 then Ok((nullValue, r))
      else Err(Error(Unmodelled, NullDrawUnmodelledMessage))
    case External(name) => Err(Error(Unmodelled, ExternalMessage(name)))
  }

  /** `n` more calls of `item` with the same context, appended to `made`:
      the loop of the nested array generator. */
  function Repeat(item: Generator, context: Value, made: seq<Value>, r: Randomizer, n: nat)
    : Result<(seq<Value>, Randomizer)>
    decreases item, 1, n
  {
    if n == 0 then Ok((made, r))
    else
      var next :- Eval(item, context, r);
      Repeat(item, context, made + [next.0], next.1, n - 1)
  }

  /** The nested array generator's call as the source writes it: draw the
      length, then push that many values. */
  method GenerateNestedArray(g: Generator, context: Value, r: Randomizer)
    returns (res: Result<(Value, Randomizer)>)
    requires g.NestedArray?
    ensures res == Eval(g, context, r)
  {
    var count := RandomInteger(r, g.minItems, g.maxItems);
    if count.Err? {
      return Err(count.error);
    }
    var n := LoopCount(count.value.0);
    var list: seq<Value> := [];
    var current := count.value.1;
    var index := 0;
    while index < n
      invariant 0 <= index <= n
      invariant Repeat(g.item, context, [], count.value.1, n) == Repeat(g.item, context, list, current, n - index)
    {
      var next := Eval(g.item, context, current);
      if next.Err? {
        return Err(next.error);
      }
      list := list + [next.value.0];
      current := next.value.1;
      index := index + 1;
    }
    return Ok((Arr(list), current));
  }

  // ----- properties of the generators -----

  /** The random boolean's extremes use no draw; in between, the value is
      `probability > draw`. */
  lemma RandomBooleanOutcome(p: real, context: Value, r: Randomizer)
    ensures p == 0.0 ==> Eval(RandomBoolean(p), context, r) == Ok((Bool(false), r))
    ensures p == 1.0 ==> Eval(RandomBoolean(p), context, r) == Ok((Bool(true), r))
    ensures p != 0.0 && p != 1.0 && Draw(r).Ok? ==>
      Eval(RandomBoolean(p), context, r) == Ok((Bool(p > Draw(r).value.0), Draw(r).value.1))
  {
  }

  /** A compiled random boolean of probability 0 is always false and one
      of probability 1 always true, whatever the randomizer. */
  lemma RandomBooleanExtremes(config: Entries, context: Value, r: Randomizer)
    requires Setting(config, "probability") == Num(0.0) || Setting(config, "probability") == Num(1.0)
    ensures BooleanGenerator(config).Ok?
    ensures Eval(BooleanGenerator(config).value, context, r)
      == Ok((Bool(Setting(config, "probability") == Num(1.0)), r))
  {
  }

  /** A compiled integer generator with integral bounds yields, from a
      proper randomizer, an integer within the bounds. */
  lemma IntegerWithinBounds(config: Entries, context: Value, r: Randomizer)
    requires IntegerGenerator(config).Ok?
    requires var g := IntegerGenerator(config).value;
      g.min == g.min.Floor as real && g.max == g.max.Floor as real
    requires Proper(r) && Draw(r).Ok?
    ensures var g := IntegerGenerator(config).value;
      var out := Eval(g, context, r);
      out.Ok? && out.value.0.Num? && IsInteger(out.value.0)
      && g.min <= out.value.0.n <= g.max
  {
    var g := IntegerGenerator(config).value;
    RandomIntegerInRange(r, g.min.Floor, g.max.Floor);
  }

  /** Every integer preset compiles, with its own range. */
  lemma PresetCompiles(f: Factory)
    requires f.UnitsFactory? || f.TensFactory? || f.HundredsFactory? || f.ThousandsFactory?
    ensures var b := PresetBounds(f);
      IntegerGenerator(Bounds(b.0, b.1)) == Ok(RandomInt(b.0 as real, b.1 as real))
  {
    var b := PresetBounds(f);
    assert Setting(Bounds(b.0, b.1), "min") == Num(b.0 as real);
    assert Setting(Bounds(b.0, b.1), "max") == Num(b.1 as real);
  }

  /** A compiled constant yields its snapshot on every call, without
      touching the randomizer, and the snapshot is a deep copy: copying it
      again changes nothing. */
  lemma ConstantSnapshot(config: Entries, context: Value, r: Randomizer)
    ensures Eval(ConstantGenerator(config), context, r) == Ok((DeepCopy.DeepCopy(Setting(config, "value")), r))
    ensures DeepCopy.DeepCopy(ConstantGenerator(config).value) == ConstantGenerator(config).value
  {
    CopyIdempotent(Setting(config, "value"));
  }

  /** A compiled picking generator yields, from a proper randomizer, one
      of the configured items. */
  lemma PickingYieldsMember(config: Entries, g: Generator, context: Value, r: Randomizer)
    requires CorePickingGenerator(config) == Ok(g) || CommonPickingGenerator(config) == Ok(g)
    requires Proper(r) && Draw(r).Ok?
    ensures Eval(g, context, r).Ok? && Eval(g, context, r).value.0 in g.items
  {
    PickIsMember(r, g.items);
  }

  /** A compiled referencer reads the context through `reference`, with the
      default separator and without throwing on a missing object unless
      told to. */
  lemma ReferencerReads(path: string, context: Value, r: Randomizer)
    requires path != ""
    ensures var g := ReferencerGenerator([("path", Str(path))]);
      g == Ok(Referencer(Str(path), false, "."))
      && (Reference(context, path, false, ".").Ok? ==>
        Eval(g.value, context, r) == Ok((Reference(context, path, false, ".").value, r)))
      && (Reference(context, path, false, ".").Err? ==>
        Eval(g.value, context, r) == Err(Reference(context, path, false, ".").error))
  {
    assert Setting([("path", Str(path))], "path") == Str(path);
  }

  /** `n` successful repetitions append exactly `n` values. */
  lemma {:induction false} RepeatLength(item: Generator, context: Value, made: seq<Value>, r: Randomizer, n: nat)
    requires Repeat(item, context, made, r, n).Ok?
    ensures |Repeat(item, context, made, r, n).value.0| == |made| + n
    ensures Repeat(item, context, made, r, n).value.0[..|made|] == made
    decreases n
  {
    if n > 0 {
      var next := Eval(item, context, r).value;
      RepeatLength(item, context, made + [next.0], next.1, n - 1);
    }
  }

  /** With integral bounds and a proper randomizer, a nested array has
      between `minItems` and `maxItems` items. */
  lemma NestedArrayLength(item: Generator, min: int, max: int, context: Value, r: Randomizer)
    requires 0 <= min <= max && Proper(r) && Draw(r).Ok?
    requires Eval(NestedArray(item, min as real, max as real), context, r).Ok?
    ensures var out := Eval(NestedArray(item, min as real, max as real), context, r).value.0;
      out.Arr? && min <= |out.items| <= max
  {
    RandomIntegerInRange(r, min, max);
    var count := RandomInteger(r, min as real, max as real).value;
    RepeatLength(item, context, [], count.1, LoopCount(count.0));
  }

  /** The switch calls the handler named by the stringified switched value,
      else the fallback, else yields `undefined`; the handler sees the
      randomizer as the provider left it. */
  lemma SwitchDispatch(handlers: seq<(string, Generator)>, provider: Generator, fallback: Option<Generator>,
                       context: Value, r: Randomizer)
    requires Eval(provider, context, r).Ok?
    ensures var switched := Eval(provider, context, r).value;
      var found := FindHandler(handlers, ToJsString(switched.0));
      var out := Eval(StringSwitch(handlers, provider, fallback), context, r);
      (found.Some? ==> out == Eval(handlers[found.value].1, context, switched.1))
      && (found.None? && fallback.Some? ==> out == Eval(fallback.value, context, switched.1))
      && (found.None? && fallback.None? ==> out == Ok((Undefined, switched.1)))
  {
  }

  /** A switch whose handler names are distinct calls exactly the handler
      registered under the switched value. */
  lemma SwitchDispatchUnique(handlers: seq<(string, Generator)>, provider: Generator, fallback: Option<Generator>,
                             context: Value, r: Randomizer, i: nat)
    requires UniqueKeys(handlers) && i < |handlers|
    requires Eval(provider, context, r).Ok? && ToJsString(Eval(provider, context, r).value.0) == handlers[i].0
    ensures Eval(StringSwitch(handlers, provider, fallback), context, r)
      == Eval(handlers[i].1, context, Eval(provider, context, r).value.1)
  {
    SwitchDispatch(handlers, provider, fallback, context, r);
    var found := FindHandler(handlers, handlers[i].0);
    assert handlers[i].0 in Keys(handlers) by {
      assert Keys(handlers)[i] == handlers[i].0;
    }
    var j := found.value;
    assert Keys(handlers)[i] == handlers[i].0 && Keys(handlers)[j] == handlers[j].0;
    assert j == i;
  }

  /** An xor of one option is that option, with no draw; from a proper
      randomizer, an xor of several options is one of them called with the
      randomizer after one draw. */
  lemma XorPicksOne(options: seq<Generator>, context: Value, r: Randomizer)
    requires |options| > 0
    requires |options| > 1 ==> Proper(r) && Draw(r).Ok?
    ensures |options| == 1 ==> Eval(Xor(options), context, r) == Eval(options[0], context, r)
    ensures |options| > 1 ==>
      exists i :: 0 <= i < |options| && Eval(Xor(options), context, r) == Eval(options[i], context, Draw(r).value.1)
  {
    if |options| > 1 {
      var indices := Indices(|options|);
      PickIsMember(r, indices);
      var picked := PickRandomItem(r, Arr(indices)).value;
      var i :| 0 <= i < |indices| && indices[i] == picked.0;
      assert picked.0 == Num(i as real);
      assert (i as real).Floor == i;
      assert XorChoice(|options|, r) == Ok((Some(i), Draw(r).value.1));
      assert Eval(Xor(options), context, r) == Eval(options[i], context, Draw(r).value.1);
    }
  }

  /** An xor without options fails when it is called. */
  lemma XorWithoutOptions(context: Value, r: Randomizer)
    ensures Eval(Xor([]), context, r) == Fail(PickEmptyArrayMessage)
  {
  }

  /** A nullability probability of 0 leaves the wrapped generator as it
      is, and one of 1 always yields the null value. */
  lemma NullableExtremes(inner: Generator, own: Randomizer, nullValue: Value, context: Value, r: Randomizer)
    ensures Eval(Nullable(inner, own, 0.0, nullValue), context, r) == Eval(inner, context, r)
    ensures Eval(Nullable(inner, own, 1.0, nullValue), context, r) == Ok((nullValue, r))
  {
  }
}
