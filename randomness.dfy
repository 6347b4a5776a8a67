/** Randomizers (src/randomizer, src/core-randomizers) and the helpers that
    turn their draws into integers and picks (src/utils/random). A
    randomizer is a value whose state is threaded through every draw; numbers
    are exact reals, so no floating-point rounding is modelled. */
module Randomness {
  import opened Wrappers
  import opened Text
  import opened Json

  /** The modulus and coefficients of the linear congruential generator. */
  const Modulus: real := 233280.0
  const Multiplier: real := 9301.0
  const Increment: real := 49297.0

  /** A randomizer instance, as a `() => number` closure with its state. */
  datatype Randomizer =
    | Seeded(seed: real)
      // the closure returned by `seededRandomizer`, holding its current `seed`
    | ContextuallySeeded
      // the closure returned by `contextuallySeededRandomizer`; stateless
    | Constant(value: real)
      // the closure returned by `constantRandomizer`
    | Oracle(draws: nat -> real, pos: nat)
      // any other source (such as `Math.random`), as a stream of draws

  /** A randomizer factory, as registered in an ecosystem. */
  datatype RandomizerFactory =
    | SeededFactory
    | ContextuallySeededFactory
    | ConstantFactory
    | External(stream: nat -> real)

  /** Truncation toward zero. */
  function Trunc(x: real): int {
    if x >= 0.0 then x.Floor else -((-x).Floor)
  }

  /** JavaScript's `x % 233280`: the remainder takes the dividend's sign. */
  function RemModulus(x: real): (r: real)
    ensures x >= 0.0 ==> 0.0 <= r < Modulus
    ensures x < 0.0 ==> -Modulus < r <= 0.0
  {
    var q := Trunc(x / Modulus);
    x - Modulus * q as real
  }

  /** One step of the seeded randomizer's state. */
  function LcgStep(seed: real): real {
    RemModulus(seed * Multiplier + Increment)
  }

  const ContextMissingMessage: string :=
    "Can't generate a contextually seeded random number - context or context.clientContext is missing"

  /** Calling the randomizer with no argument, as every generator does:
      the draw and the randomizer's next state. */
  function Draw(r: Randomizer): Result<(real, Randomizer)> {
    match r
    case Seeded(seed) =>
      var next := LcgStep(seed);
      Ok((next / Modulus, Seeded(next)))
    case ContextuallySeeded => Fail(ContextMissingMessage)
    case Constant(value) => Ok((value, r))
    case Oracle(draws, pos) => Ok((draws(pos), Oracle(draws, pos + 1)))
  }

  /** The randomizer's future draws all lie in [0, 1). */
  ghost predicate Proper(r: Randomizer) {
    match r
    case Seeded(seed) => seed * Multiplier + Increment >= 0.0
    case ContextuallySeeded => true
    case Constant(value) => 0.0 <= value < 1.0
    case Oracle(draws, pos) => forall i: nat :: pos <= i ==> 0.0 <= draws(i) < 1.0
  }

  /** A proper randomizer draws from [0, 1) and stays proper. */
  lemma DrawProper(r: Randomizer)
    requires Proper(r) && Draw(r).Ok?
    ensures 0.0 <= Draw(r).value.0 < 1.0
    ensures Proper(Draw(r).value.1)
  {
    if r.Seeded? {
      var next := LcgStep(r.seed);
      assert 0.0 <= next < Modulus;
      assert next * Multiplier + Increment >= 0.0;
    }
  }

  /** A seeded randomizer with a non-negative seed is proper. */
  lemma SeededProper(seed: real)
    requires seed >= 0.0
    ensures Proper(Seeded(seed))
  {
  }

  /** The first `n` draws of a seeded randomizer. */
  function SeededDraws(seed: real, n: nat): (ds: seq<real>)
    ensures |ds| == n
    decreases n
  {
    if n == 0 then [] else [LcgStep(seed) / Modulus] + SeededDraws(LcgStep(seed), n - 1)
  }

  /** `SeededDraws` is what repeated calls to `Draw` return. */
  lemma SeededDrawsAreDraws(seed: real, n: nat)
    requires n > 0
    ensures Draw(Seeded(seed)) == Ok((SeededDraws(seed, n)[0], Seeded(LcgStep(seed))))
    ensures SeededDraws(seed, n)[1..] == SeededDraws(LcgStep(seed), n - 1)
  {
  }

  /** For non-negative seeds, every draw of the seeded randomizer lies in
      [0, 1), however many are taken. */
  lemma {:induction false} SeededDrawsInRange(seed: real, n: nat)
    requires seed >= 0.0
    ensures forall i :: 0 <= i < n ==> 0.0 <= SeededDraws(seed, n)[i] < 1.0
    decreases n
  {
    if n > 0 {
      var next := LcgStep(seed);
      SeededDrawsInRange(next, n - 1);
      assert SeededDraws(seed, n) == [next / Modulus] + SeededDraws(next, n - 1);
    }
  }

  /** The closure of `seededRandomizer`: an object whose `seed` field each
      call overwrites. */
  class SeededRandomizer {
    var seed: real

    constructor(seed: real)
      ensures this.seed == seed
    {
      this.seed := seed;
    }

    method Next() returns (r: real)
      modifies this
      ensures seed == LcgStep(old(seed))
      ensures r == seed / Modulus
      ensures Draw(Seeded(old(seed))) == Ok((r, Seeded(seed)))
    {
      seed := LcgStep(seed);
      r := seed / Modulus;
    }
  }

  /** Two randomizers made from the same configuration own separate states
      and return identical sequences. */
  method SameSeedSameStream(seed: real, n: nat) returns (xs: seq<real>, ys: seq<real>)
    ensures xs == ys == SeededDraws(seed, n)
  {
    var a := new SeededRandomizer(seed);
    var b := new SeededRandomizer(seed);
    xs, ys := [], [];
    while |xs| < n
      invariant |xs| == |ys| <= n
      invariant a != b && a.seed == b.seed
      invariant xs == ys && xs + SeededDraws(a.seed, n - |xs|) == SeededDraws(seed, n)
      decreases n - |xs|
    {
      ghost var before := a.seed;
      var x := a.Next();
      var y := b.Next();
      ghost var rest := SeededDraws(a.seed, n - |xs| - 1);
      assert SeededDraws(before, n - |xs|) == [x] + rest;
      assert xs + ([x] + rest) == (xs + [x]) + rest;
      xs, ys := xs + [x], ys + [y];
    }
  }

  /** `seededRandomizer(config)`. */
  function SeededInstance(config: Value): (r: Result<Randomizer>)
    ensures r.Ok? <==> (Truthy(config) && Truthy(Property(config, "seed"))
      && Property(config, "seed").Num?)
    ensures r.Ok? ==> r.value == Seeded(Property(config, "seed").n)
    ensures !Truthy(config) || !Truthy(Property(config, "seed")) ==>
      r == Fail("Seed must be specified within the given configuration for seeded randomizer")
  {
    if !Truthy(config) then Fail("Seed must be specified within the given configuration for seeded randomizer")
    else
      var seed := Property(config, "seed");
      if !Truthy(seed) then Fail("Seed must be specified within the given configuration for seeded randomizer")
      else if seed.Num? then Ok(Seeded(seed.n))
      else FailType("Seed must be a number (" + TypeOf(seed) + ")")
  }

  /** `constantRandomizer(config)`; note that 1 is accepted. */
  function ConstantInstance(config: Value): (r: Result<Randomizer>)
    ensures r.Ok? <==> (Truthy(config) && Property(config, "value").Num?
      && 0.0 < Property(config, "value").n <= 1.0)
    ensures r.Ok? ==> r.value == Constant(Property(config, "value").n)
  {
    var missing := "Constant value must be specified within the given configuration for the constant randomizer";
    if !Truthy(config) then Fail(missing)
    else
      var value := Property(config, "value");
      if !Truthy(value) then Fail(missing)
      else if !value.Num? then
        FailType("Constant value must be a number for constant randomizer (" + TypeOf(value) + ")")
      else if value.n < 0.0 || value.n > 1.0 then
        Fail("Constant value must be within range [0, 1] for constant randomizer ("
          + NumberToString(value.n) + ")")
      else Ok(Constant(value.n))
  }

  /** Calling a randomizer factory with a configuration (`undefined` when
      there is none). */
  function Instantiate(f: RandomizerFactory, config: Value): Result<Randomizer> {
    match f
    case SeededFactory => SeededInstance(config)
    case ContextuallySeededFactory => Ok(ContextuallySeeded)
    case ConstantFactory => ConstantInstance(config)
    case External(stream) => Ok(Oracle(stream, 0))
  }

  /** Calling the factory without any configuration, as the nullability
      wrapper's compilation does: the seeded and the constant factories
      always refuse it. */
  lemma InstantiateWithoutConfig(f: RandomizerFactory)
    ensures f.SeededFactory? ==>
      Instantiate(f, Undefined) == Fail("Seed must be specified within the given configuration for seeded randomizer")
    ensures f.ConstantFactory? ==> Instantiate(f, Undefined).Err?
    ensures f.ContextuallySeededFactory? || f.External? ==> Instantiate(f, Undefined).Ok?
  {
  }

  /** The contextually seeded closure called with an explicit `context`:
      stateless, a function of `context.clientContext.seed` alone. */
  function ContextuallySeededValue(context: Value): (r: Result<real>)
    ensures r.Ok? <==> (Truthy(context) && Truthy(Property(context, "clientContext"))
      && Property(Property(context, "clientContext"), "seed").Num?)
    ensures r.Ok? ==>
      r.value == LcgStep(Property(Property(context, "clientContext"), "seed").n) / Modulus
  {
    if !Truthy(context) then Fail(ContextMissingMessage)
    else
      var client := Property(context, "clientContext");
      if !Truthy(client) then Fail(ContextMissingMessage)
      else
        var seed := Property(client, "seed");
        if !Truthy(seed) && seed != Num(0.0) then
          Fail("Can't generate a contextually seeded random number - missing property 'seed'")
        else if !seed.Num? then
          FailType("Can't generate a contextually seeded random number - property 'seed' must be of type number")
        else Ok(LcgStep(seed.n) / Modulus)
  }

  /** The contextually seeded value lies in [0, 1) for a non-negative seed,
      and is the first draw of a seeded randomizer with the same seed. */
  lemma ContextuallySeededAgreesWithSeeded(context: Value)
    requires ContextuallySeededValue(context).Ok?
    ensures var seed := Property(Property(context, "clientContext"), "seed").n;
      Draw(Seeded(seed)).Ok? && ContextuallySeededValue(context).value == Draw(Seeded(seed)).value.0
      && (seed >= 0.0 ==> 0.0 <= ContextuallySeededValue(context).value < 1.0)
  {
  }

  function BoundsMessage(min: real, max: real): string {
    "Lower bound of the interval can't be greater than the upper bound: "
      + NumberToString(min) + " > " + NumberToString(max)
  }

  /** `randomInteger(randomizer, min, max)`: the bounds are checked before
      the randomizer is called. */
  function RandomInteger(r: Randomizer, min: real, max: real): (res: Result<(real, Randomizer)>)
    ensures min > max ==> res == Fail(BoundsMessage(min, max))
    ensures min <= max && Draw(r).Ok? ==>
      res == Ok((Scale(Draw(r).value.0, min, max), Draw(r).value.1))
    ensures min <= max && Draw(r).Err? ==> res == Err(Draw(r).error)
  {
    if min > max then
      Fail(BoundsMessage(min, max))
    else
      match Draw(r)
      case Err(e) => Err(e)
      case Ok((x, next)) => Ok((Scale(x, min, max), next))
  }

  /** `Math.floor(x * span)` */
  function Offset(x: real, span: real): int {
    (x * span).Floor
  }

  /** `Math.floor(x * (max - min + 1)) + min` */
  function Scale(x: real, min: real, max: real): real {
    Offset(x, max - min + 1.0) as real + min
  }

  lemma ScaleBounds(d: real, span: real)
    requires 0.0 <= d < 1.0 && span > 0.0
    ensures 0.0 <= d * span < span
  {
  }

  lemma OffsetBounds(x: real, n: int)
    requires 0.0 <= x < 1.0 && n > 0
    ensures 0 <= Offset(x, n as real) < n
  {
    ScaleBounds(x, n as real);
  }

  /** With integral bounds and a draw in [0, 1), the scaled draw is an
      integer in [min, max]. */
  lemma ScaleInRange(x: real, min: int, max: int)
    requires min <= max && 0.0 <= x < 1.0
    ensures var y := Scale(x, min as real, max as real);
      y == y.Floor as real && min as real <= y <= max as real
  {
    OffsetBounds(x, max - min + 1);
    var k := Offset(x, (max - min + 1) as real);
    assert max as real - min as real + 1.0 == (max - min + 1) as real;
    assert Scale(x, min as real, max as real) == (k + min) as real;
  }

  /** From a proper randomizer, `randomInteger` with integral bounds returns
      an integer in [min, max]. */
  lemma RandomIntegerInRange(r: Randomizer, min: int, max: int)
    requires min <= max && Proper(r) && Draw(r).Ok?
    ensures var x := RandomInteger(r, min as real, max as real).value.0;
      x == x.Floor as real && min as real <= x <= max as real
  {
    DrawProper(r);
    ScaleInRange(Draw(r).value.0, min, max);
  }

  /** Each integer in [min, max] is reachable: the draw
      `(k - min) / (max - min + 1)` yields exactly `k`. */
  lemma ScaleReaches(min: int, max: int, k: int)
    requires min <= k <= max
    ensures Scale((k - min) as real / (max - min + 1) as real, min as real, max as real) == k as real
  {
    var span := (max - min + 1) as real;
    var d := (k - min) as real / span;
    assert max as real - min as real + 1.0 == span;
    assert d * span == (k - min) as real;
    assert Offset(d, span) == k - min;
    assert Scale(d, min as real, max as real) == (k - min) as real + min as real;
  }

  /** A draw of exactly 1 (which `Constant(1.0)` gives) lands one past the
      upper bound. */
  lemma RandomIntegerAtOne(min: int, max: int)
    requires min <= max
    ensures RandomInteger(Constant(1.0), min as real, max as real).value.0 == (max + 1) as real
  {
    assert Draw(Constant(1.0)) == Ok((1.0, Constant(1.0)));
    assert max as real - min as real + 1.0 == (max - min + 1) as real;
    assert Offset(1.0, (max - min + 1) as real) == max - min + 1;
  }

  const PickEmptyValueMessage: string := "Can't pick an item - got empty value instead of array"
  const PickEmptyArrayMessage: string := "Can't pick an item - given array is empty"

  function PickTypeMessage(arr: Value): string {
    "Can't pick an item - array type is expected (got " + TypeOf(arr) + ")"
  }

  /** `pickRandomItem(randomizer, array)`. */
  function PickRandomItem(r: Randomizer, arr: Value): (res: Result<(Value, Randomizer)>)
    ensures !Truthy(arr) && !arr.Arr? ==>
      res == Fail(PickEmptyValueMessage)
    ensures Truthy(arr) && !arr.Arr? ==>
      res == FailType(PickTypeMessage(arr))
    ensures arr == Arr([]) ==> res == Fail(PickEmptyArrayMessage)
    ensures arr.Arr? && |arr.items| == 1 ==> res == Ok((arr.items[0], r))
  {
    if !Truthy(arr) && !arr.Arr? then Fail(PickEmptyValueMessage)
    else if !arr.Arr? then FailType(PickTypeMessage(arr))
    else if |arr.items| == 0 then Fail(PickEmptyArrayMessage)
    else if |arr.items| == 1 then Ok((arr.items[0], r))
    else
      match RandomInteger(r, 0.0, (|arr.items| - 1) as real)
      case Err(e) => Err(e)
      case Ok((i, next)) =>
        Ok((if 0.0 <= i && i == i.Floor as real && i.Floor < |arr.items|
          then arr.items[i.Floor] else Undefined, next))
  }

  /** From a proper randomizer, a pick from a non-empty array is one of its
      items, and it consumes at most one draw. */
  lemma PickIsMember(r: Randomizer, items: seq<Value>)
    requires |items| > 0 && Proper(r) && (|items| == 1 || Draw(r).Ok?)
    ensures PickRandomItem(r, Arr(items)).Ok?
    ensures PickRandomItem(r, Arr(items)).value.0 in items
    ensures |items| > 1 ==> PickRandomItem(r, Arr(items)).value.1 == Draw(r).value.1
  {
    if |items| > 1 {
      RandomIntegerInRange(r, 0, |items| - 1);
    }
  }

  /** Whatever the randomizer, a pick from an array is one of its items or
      `undefined` (when the draw lies outside [0, 1)). */
  lemma PickIsItemOrUndefined(r: Randomizer, items: seq<Value>)
    requires PickRandomItem(r, Arr(items)).Ok?
    ensures PickRandomItem(r, Arr(items)).value.0 in items || PickRandomItem(r, Arr(items)).value.0 == Undefined
  {
  }

  /** The number of iterations of `for (let i = 0; i < n; i++)`. */
  function LoopCount(n: real): (k: nat)
    ensures n <= 0.0 ==> k == 0
    ensures n > 0.0 ==> (k - 1) as real < n <= k as real
  {
    if n <= 0.0 then 0
    else if n == n.Floor as real then n.Floor
    else n.Floor + 1
  }
}
