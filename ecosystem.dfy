/** `Ecosystem` (src/ecosystem/ecosystem.ts): the two registries a schema
    is compiled against, one of randomizer factories and one of value
    generator factories, filled by plugins. */
module Ecosystems {
  import opened Wrappers
  import opened AssocLists
  import opened Randomness
  import opened Registries
  import opened Json
  import opened Schemas

  /** A plugin: its map of randomizer factories and its map of value
      generator factories, either of which may be absent. */
  datatype Plugin = Plugin(
    randomizers: Option<Records<RandomizerFactory>>,
    valueGenerators: Option<Records<ValueGeneratorFactory>>)

  /** `items ?? {}`. */
  function OrEmpty<T>(items: Option<Records<T>>): Records<T> {
    if items.Some? then items.value else []
  }

  /** `register(plugin)` on the records of both registries: the randomizer
      factories are registered first, and only when all of them were does
      registration go on to the value generator factories. The result is
      the two new record lists and the failure, if any. */
  function RegisterPlugin(randomizers: Records<RandomizerFactory>, generators: Records<ValueGeneratorFactory>,
                          plugin: Plugin)
    : (r: (Records<RandomizerFactory>, Records<ValueGeneratorFactory>, Option<Error>))
  {
    var first := RegisterAllIn(RandomizerType, randomizers, OrEmpty(plugin.randomizers));
    if first.1.Some? then (first.0, generators, first.1)
    else
      var second := RegisterAllIn(ValueGeneratorType, generators, OrEmpty(plugin.valueGenerators));
      (first.0, second.0, second.1)
  }

  /** A plugin whose randomizer factories cannot all be registered adds
      none of its value generator factories, and the failure is that of the
      randomizer registry. */
  lemma RandomizerFailureStops(randomizers: Records<RandomizerFactory>, generators: Records<ValueGeneratorFactory>,
                               plugin: Plugin)
    requires RegisterAllIn(RandomizerType, randomizers, OrEmpty(plugin.randomizers)).1.Some?
    ensures RegisterPlugin(randomizers, generators, plugin).1 == generators
    ensures RegisterPlugin(randomizers, generators, plugin).2
      == RegisterAllIn(RandomizerType, randomizers, OrEmpty(plugin.randomizers)).1
  {
  }

  /** A plugin whose first randomizer reuses a registered name is refused
      with the randomizer registry's message, and nothing is registered. */
  lemma RandomizerCollision(randomizers: Records<RandomizerFactory>, generators: Records<ValueGeneratorFactory>,
                            plugin: Plugin)
    requires plugin.randomizers.Some? && plugin.randomizers.value != []
    requires plugin.randomizers.value[0].0 != "" && HasIn(randomizers, plugin.randomizers.value[0].0)
    ensures RegisterPlugin(randomizers, generators, plugin)
      == (randomizers, generators, Some(Error(PlainError, ExistsMessage(plugin.randomizers.value[0].0, RandomizerType))))
  {
    RegisterAllUnfold(RandomizerType, randomizers, plugin.randomizers.value);
  }

  /** Registering a plugin never disturbs a name either registry already
      holds, whether the registration succeeds or not. */
  lemma RegisterPluginKeepsPresent(randomizers: Records<RandomizerFactory>, generators: Records<ValueGeneratorFactory>,
                                   plugin: Plugin)
    ensures var r := RegisterPlugin(randomizers, generators, plugin);
      (forall n :: HasIn(randomizers, n) ==> Lookup(r.0, n) == Lookup(randomizers, n))
      && (forall n :: HasIn(generators, n) ==> Lookup(r.1, n) == Lookup(generators, n))
  {
    RegisterAllKeepsPresent(RandomizerType, randomizers, OrEmpty(plugin.randomizers));
    RegisterAllKeepsPresent(ValueGeneratorType, generators, OrEmpty(plugin.valueGenerators));
  }

  /** After a successful registration, every factory of the plugin is
      retrievable under its name, unchanged. */
  lemma RegisterPluginRegisters(randomizers: Records<RandomizerFactory>, generators: Records<ValueGeneratorFactory>,
                                plugin: Plugin)
    requires RegisterPlugin(randomizers, generators, plugin).2.None?
    ensures var r := RegisterPlugin(randomizers, generators, plugin);
      var rs, gs := OrEmpty(plugin.randomizers), OrEmpty(plugin.valueGenerators);
      (forall i :: 0 <= i < |rs| ==> rs[i].1.Some? && GetIn(RandomizerType, r.0, rs[i].0) == Ok(rs[i].1.value))
      && (forall i :: 0 <= i < |gs| ==> gs[i].1.Some? && GetIn(ValueGeneratorType, r.1, gs[i].0) == Ok(gs[i].1.value))
  {
    RegisterAllRegisters(RandomizerType, randomizers, OrEmpty(plugin.randomizers));
    RegisterAllRegisters(ValueGeneratorType, generators, OrEmpty(plugin.valueGenerators));
  }

  /** An empty plugin changes nothing. */
  lemma EmptyPlugin(randomizers: Records<RandomizerFactory>, generators: Records<ValueGeneratorFactory>)
    ensures RegisterPlugin(randomizers, generators, Plugin(None, None)) == (randomizers, generators, None)
  {
  }

  class Ecosystem {
    const randomizers: Registry<RandomizerFactory>
    const valueGenerators: Registry<ValueGeneratorFactory>

    /** Two distinct registries of the two types, each valid. */
    ghost predicate Valid()
      reads this, randomizers, valueGenerators
    {
      randomizers as object != valueGenerators as object
      && randomizers.registryType == RandomizerType && randomizers.Valid()
      && valueGenerators.registryType == ValueGeneratorType && valueGenerators.Valid()
    }

    /** A fresh ecosystem: both registries empty. */
    constructor()
      ensures Valid() && fresh(randomizers) && fresh(valueGenerators)
      ensures randomizers.records == [] && valueGenerators.records == []
    {
      randomizers := new Registry(RandomizerType, []);
      valueGenerators := new Registry(ValueGeneratorType, []);
    }

    /** `register(plugin)`. */
    method Register(plugin: Plugin) returns (res: Result<()>)
      requires Valid()
      modifies randomizers, valueGenerators
      ensures Valid()
      ensures var r := RegisterPlugin(old(randomizers.records), old(valueGenerators.records), plugin);
        randomizers.records == r.0 && valueGenerators.records == r.1
        && (r.2.None? ==> res == Ok(())) && (r.2.Some? ==> res == Err(r.2.value))
    {
      res := randomizers.RegisterAll(OrEmpty(plugin.randomizers));
      if res.Err? {
        return;
      }
      res := valueGenerators.RegisterAll(OrEmpty(plugin.valueGenerators));
    }

    /** `getRandomizerFactory(name)`. */
    function GetRandomizerFactory(name: string): (r: Result<RandomizerFactory>)
      requires Valid()
      reads this, randomizers, valueGenerators
      ensures r.Ok? <==> randomizers.Has(name)
      ensures r.Err? ==> r == Fail(NotFoundMessage(name, RandomizerType))
    {
      randomizers.Get(name)
    }

    /** What compiling a schema reads from this ecosystem: its two
        registries, with the default randomizer and the charset store,
        which src/ecosystem/ecosystem.ts does not define, given. */
    function Capabilities(defaultRandomizer: Result<RandomizerFactory>, charsets: Entries): (env: Env)
      requires Valid()
      reads this, randomizers, valueGenerators
      ensures forall name :: GeneratorFactory(env, name) == valueGenerators.Get(name)
      ensures forall name :: Truthy(Str(name)) ==>
        CompileRandomizerFactory(env, Str(name)) == GetRandomizerFactory(name)
    {
      Env(randomizers.records, valueGenerators.records, defaultRandomizer, charsets)
    }
  }

  /** A randomizer factory registered by a plugin is what
      `getRandomizerFactory` returns for its name. */
  method RegisteredRandomizerReturned(name: string, factory: RandomizerFactory) returns (found: Result<RandomizerFactory>)
    requires name != ""
    ensures found == Ok(factory)
  {
    var ecosystem := new Ecosystem();
    var registered := ecosystem.Register(Plugin(Some([(name, Some(factory))]), None));
    RegisterAllUnfold(RandomizerType, [], [(name, Some(factory))]);
    PutFacts([], name, Some(factory));
    assert registered.Ok?;
    found := ecosystem.GetRandomizerFactory(name);
  }
}
