/** Random strings: `isCharset` (src/utils/charset.ts), `randomString` and
    `randomStringOfRandomLength` (src/utils/random/string.ts), and the two
    generations of random-string generator factories
    (src/core-generators/strings/random-strings.ts and
    src/generators/common/strings/random-strings.ts). */
module RandomStrings {
  import opened Wrappers
  import opened Text
  import opened AssocLists
  import opened Json
  import opened Randomness

  // ---------------------------------------------------------------------
  // Charsets

  predicate SingleCharacter(v: Value) {
    v.Str? && |v.s| == 1
  }

  /** The scan of `isCharset`: false at the first item that is not a
      string, or not of length 1. */
  function AllSingleCharacters(items: seq<Value>): (b: bool)
    ensures b <==> forall i :: 0 <= i < |items| ==> SingleCharacter(items[i])
  {
    if items == [] then true
    else if !items[0].Str? then false
    else if |items[0].s| != 1 then false
    else
      assert forall i :: 1 <= i < |items| ==> items[i] == items[1..][i - 1];
      AllSingleCharacters(items[1..])
  }

  /** `isCharset(array)`: an array whose items are all single-character
      strings. */
  function IsCharset(v: Value): (b: bool)
    ensures b <==> v.Arr? && forall i :: 0 <= i < |v.items| ==> SingleCharacter(v.items[i])
  {
    if !v.Arr? then false else AllSingleCharacters(v.items)
  }

  /** The empty array is a charset, and two arrays together form one
      exactly when each of them does. */
  lemma IsCharsetConcat(a: seq<Value>, b: seq<Value>)
    ensures IsCharset(Arr([]))
    ensures IsCharset(Arr(a + b)) <==> IsCharset(Arr(a)) && IsCharset(Arr(b))
  {
    if IsCharset(Arr(a + b)) {
      assert forall i :: 0 <= i < |a| ==> a[i] == (a + b)[i];
      assert forall i :: 0 <= i < |b| ==> b[i] == (a + b)[|a| + i];
    }
  }

  // ---------------------------------------------------------------------
  // randomString

  function NegativeLengthMessage(length: real): string {
    "The length of a string can't be negative (" + NumberToString(length) + ")"
  }

  const EmptyCharsetMessage: string := "The charset must consist of at least one item"

  /** `!charset || charset.length === 0` */
  predicate EmptyCharset(charset: Value) {
    !Truthy(charset) || Property(charset, "length") == Num(0.0)
  }

  /** `n` passes of the loop body `result += pickRandomItem(randomizer,
      charset)`: the string built so far and the randomizer's state. */
  function Picks(r: Randomizer, charset: Value, n: nat): Result<(string, Randomizer)> {
    if n == 0 then Ok(("", r))
    else
      var sofar :- Picks(r, charset, n - 1);
      var picked :- PickRandomItem(sofar.1, charset);
      Ok((sofar.0 + ToJsString(picked.0), picked.1))
  }

  /** `randomString(randomizer, length, charset)`: the length is checked
      before the charset, and a zero length returns `''` without drawing. */
  function RandomString(r: Randomizer, length: real, charset: Value): (res: Result<(string, Randomizer)>)
    ensures length < 0.0 ==> res == Fail(NegativeLengthMessage(length))
    ensures length >= 0.0 && EmptyCharset(charset) ==> res == Fail(EmptyCharsetMessage)
    ensures length == 0.0 && !EmptyCharset(charset) ==> res == Ok(("", r))
  {
    if length < 0.0 then Fail(NegativeLengthMessage(length))
    else if EmptyCharset(charset) then Fail(EmptyCharsetMessage)
    else if length == 0.0 then Ok(("", r))
    else Picks(r, charset, LoopCount(length))
  }

  /** Once a pick has failed, every longer run fails with the same error. */
  lemma {:induction false} PicksFailurePersists(r: Randomizer, charset: Value, i: nat, m: nat)
    requires i <= m && Picks(r, charset, i).Err?
    ensures Picks(r, charset, m) == Err(Picks(r, charset, i).error)
    decreases m
  {
    if i < m {
      PicksFailurePersists(r, charset, i, m - 1);
    }
  }

  /** One more pass of the loop body. */
  lemma PicksStep(r: Randomizer, charset: Value, n: nat, sofar: string, q: Randomizer)
    requires Picks(r, charset, n) == Ok((sofar, q))
    ensures PickRandomItem(q, charset).Err? ==>
      Picks(r, charset, n + 1) == Err(PickRandomItem(q, charset).error)
    ensures PickRandomItem(q, charset).Ok? ==>
      Picks(r, charset, n + 1) == Ok((sofar + ToJsString(PickRandomItem(q, charset).value.0),
        PickRandomItem(q, charset).value.1))
  {
  }

  /** `randomString` as the source runs it: the checks, then the `for`
      loop. */
  method BuildRandomString(r: Randomizer, length: real, charset: Value)
    returns (res: Result<(string, Randomizer)>)
    ensures res == RandomString(r, length, charset)
  {
    if length < 0.0 {
      return Fail(NegativeLengthMessage(length));
    } else if EmptyCharset(charset) {
      return Fail(EmptyCharsetMessage);
    }
    if length == 0.0 {
      return Ok(("", r));
    }
    res := PickLoop(r, length, charset);
  }

  /** The loop `for (let index = 0; index < length; index++)`. */
  method PickLoop(r: Randomizer, length: real, charset: Value)
    returns (res: Result<(string, Randomizer)>)
    ensures res == Picks(r, charset, LoopCount(length))
  {
    ghost var n := LoopCount(length);
    var result := "";
    var randomizer := r;
    var index: nat := 0;
    while (index as real) < length
      invariant index <= n
      invariant Picks(r, charset, index) == Ok((result, randomizer))
      decreases n - index
    {
      var picked := PickRandomItem(randomizer, charset);
      PicksStep(r, charset, index, result, randomizer);
      if picked.Err? {
        PicksFailurePersists(r, charset, index + 1, n);
        return Err(picked.error);
      }
      result := result + ToJsString(picked.value.0);
      randomizer := picked.value.1;
      index := index + 1;
    }
    assert index == n;
    return Ok((result, randomizer));
  }

  /** The randomizer after `n` draws. */
  function Skip(r: Randomizer, n: nat): (s: Randomizer)
    requires !r.ContextuallySeeded?
    ensures !s.ContextuallySeeded?
  {
    if n == 0 then r else Draw(Skip(r, n - 1)).value.1
  }

  /** From a proper randomizer that can draw without a context, `n` picks
      from a non-empty charset build a string of exactly `n` characters of
      the charset, drawing once per pick (not at all when the charset has a
      single character). */
  lemma PicksFromCharset(r: Randomizer, charset: Value, n: nat)
    requires IsCharset(charset) && |charset.items| > 0
    requires Proper(r) && !r.ContextuallySeeded?
    ensures Picks(r, charset, n).Ok?
    ensures |Picks(r, charset, n).value.0| == n
    ensures forall i :: 0 <= i < n ==> Str([Picks(r, charset, n).value.0[i]]) in charset.items
    ensures Proper(Picks(r, charset, n).value.1)
    ensures Picks(r, charset, n).value.1 == if |charset.items| == 1 then r else Skip(r, n)
  {
    PicksDraws(r, charset, n);
    PicksCharacters(r, charset, n);
    assert FromCharset(Picks(r, charset, n).value.0, charset);
  }

  /** The picks never fail, and the randomizer ends `n` draws on (or where
      it was, for a single-character charset). */
  lemma {:induction false} PicksDraws(r: Randomizer, charset: Value, n: nat)
    requires IsCharset(charset) && |charset.items| > 0
    requires Proper(r) && !r.ContextuallySeeded?
    ensures Picks(r, charset, n).Ok?
    ensures Proper(Picks(r, charset, n).value.1)
    ensures Picks(r, charset, n).value.1 == if |charset.items| == 1 then r else Skip(r, n)
  {
    if n > 0 {
      PicksDraws(r, charset, n - 1);
      var sofar := Picks(r, charset, n - 1).value;
      PickIsMember(sofar.1, charset.items);
      if |charset.items| > 1 {
        DrawProper(sofar.1);
      }
      PicksStep(r, charset, n - 1, sofar.0, sofar.1);
    }
  }

  /** Every character of `s`, as a one-character string, is in the
      charset. */
  predicate FromCharset(s: string, charset: Value)
    requires charset.Arr?
  {
    forall i :: 0 <= i < |s| ==> Str([s[i]]) in charset.items
  }

  lemma FromCharsetSnoc(s: string, c: char, charset: Value)
    requires charset.Arr? && FromCharset(s, charset) && Str([c]) in charset.items
    ensures FromCharset(s + [c], charset)
  {
    forall i | 0 <= i < |s| + 1 ensures Str([(s + [c])[i]]) in charset.items {
      if i < |s| {
        assert (s + [c])[i] == s[i];
      }
    }
  }

  /** The string of `n` picks has `n` characters, each from the charset. */
  lemma {:induction false} PicksCharacters(r: Randomizer, charset: Value, n: nat)
    requires IsCharset(charset) && |charset.items| > 0
    requires Proper(r) && !r.ContextuallySeeded?
    requires Picks(r, charset, n).Ok?
    ensures |Picks(r, charset, n).value.0| == n && FromCharset(Picks(r, charset, n).value.0, charset)
  {
    if n > 0 {
      PicksDraws(r, charset, n - 1);
      PicksCharacters(r, charset, n - 1);
      var sofar := Picks(r, charset, n - 1).value;
      PickIsMember(sofar.1, charset.items);
      var picked := PickRandomItem(sofar.1, charset).value;
      assert SingleCharacter(picked.0);
      CharacterText(picked.0);
      PicksStep(r, charset, n - 1, sofar.0, sofar.1);
      FromCharsetSnoc(sofar.0, picked.0.s[0], charset);
    }
  }

  /** A one-character string is its character, and so is its text. */
  lemma CharacterText(v: Value)
    requires SingleCharacter(v)
    ensures v == Str([v.s[0]]) && ToJsString(v) == [v.s[0]]
  {
    assert v.s == [v.s[0]];
  }

  /** `randomString` with a non-negative length and a non-empty charset
      returns as many characters as its loop runs, all of them from the
      charset: exactly `length` of them for an integral length. */
  lemma RandomStringFromCharset(r: Randomizer, length: real, charset: Value)
    requires length >= 0.0 && IsCharset(charset) && |charset.items| > 0
    requires Proper(r) && !r.ContextuallySeeded?
    ensures var res := RandomString(r, length, charset);
      res.Ok? && |res.value.0| == LoopCount(length)
      && (forall i :: 0 <= i < |res.value.0| ==> Str([res.value.0[i]]) in charset.items)
      && Proper(res.value.1) && !res.value.1.ContextuallySeeded?
    ensures length == length.Floor as real ==> |RandomString(r, length, charset).value.0| == length.Floor
  {
    assert !EmptyCharset(charset);
    PicksFromCharset(r, charset, LoopCount(length));
  }

  // ---------------------------------------------------------------------
  // randomStringOfRandomLength

  const RandomLengthMessage: string :=
    "Can't generate a random string of random length when maxLength < minLength"

  /** `randomStringOfRandomLength(randomizer, charset, maxLength, minLength)`
      (the source's default `minLength` of 1 is never used by the
      generators, which always pass it): the length is drawn first, then
      the characters. */
  function RandomStringOfRandomLength(r: Randomizer, charset: Value, maxLength: real, minLength: real)
    : (res: Result<(string, Randomizer)>)
    ensures maxLength < minLength ==> res == Fail(RandomLengthMessage)
    ensures minLength <= maxLength && Draw(r).Err? ==> res == Err(Draw(r).error)
    ensures minLength <= maxLength && Draw(r).Ok? ==>
      res == RandomString(Draw(r).value.1, Scale(Draw(r).value.0, minLength, maxLength), charset)
  {
    if maxLength < minLength then Fail(RandomLengthMessage)
    else
      var drawn :- RandomInteger(r, minLength, maxLength);
      RandomString(drawn.1, drawn.0, charset)
  }

  /** With integral bounds `0 <= minLength <= maxLength`, a non-empty
      charset and a proper randomizer, the string's length lies within the
      bounds and its characters come from the charset. */
  lemma RandomLengthFromCharset(r: Randomizer, charset: Value, minLength: int, maxLength: int)
    requires 0 <= minLength <= maxLength && IsCharset(charset) && |charset.items| > 0
    requires Proper(r) && !r.ContextuallySeeded?
    ensures var res := RandomStringOfRandomLength(r, charset, maxLength as real, minLength as real);
      res.Ok? && minLength <= |res.value.0| <= maxLength
      && forall i :: 0 <= i < |res.value.0| ==> Str([res.value.0[i]]) in charset.items
  {
    RandomIntegerInRange(r, minLength, maxLength);
    DrawProper(r);
    var drawn := RandomInteger(r, minLength as real, maxLength as real).value;
    RandomStringFromCharset(drawn.1, drawn.0, charset);
  }

  // ---------------------------------------------------------------------
  // Resolving a charset

  function NamedWithoutEcosystemMessage(name: string): string {
    "Can't generate a random string - Charset is defined by its name ('" + name + "') but ecosystem is not defined"
  }

  function CharsetNotFoundMessage(name: string): string {
    "Can't generate a random string - Charset called '" + name + "' not found"
  }

  const CharsetMissingMessage: string := "Can't generate a random string - charset is empty or is not defined"

  const NotCharsetMessage: string :=
    "Can't generate a random string - charset must be an array of single-character strings"

  /** The ecosystem's `has`: a registered item that is truthy. */
  predicate Registered(store: Entries, name: string) {
    Lookup(store, name).Some? && Truthy(Lookup(store, name).value)
  }

  /** Looking up a charset by its name in the ecosystem's charset store
      (`None` when no ecosystem is given). */
  function NamedCharset(name: string, charsets: Option<Entries>): (r: Result<Value>)
    ensures charsets.None? ==> r == Fail(NamedWithoutEcosystemMessage(name))
    ensures charsets.Some? ==> (r.Ok? <==> Registered(charsets.value, name))
    ensures charsets.Some? && !Registered(charsets.value, name) ==> r == Fail(CharsetNotFoundMessage(name))
    ensures r.Ok? ==> charsets.Some? && Lookup(charsets.value, name) == Some(r.value)
  {
    if charsets.None? then Fail(NamedWithoutEcosystemMessage(name))
    else if Registered(charsets.value, name) then Ok(Lookup(charsets.value, name).value)
    else Fail(CharsetNotFoundMessage(name))
  }

  /** `ensureCharset(possibleCharset, ecosystem)`: a name is resolved in the
      ecosystem and returned as it is found; any other value must itself be
      a charset. */
  function EnsureCharset(possible: Value, charsets: Option<Entries>): (r: Result<Value>)
    ensures possible.Str? ==> r == NamedCharset(possible.s, charsets)
    ensures !possible.Str? && !Truthy(possible) ==> r == Fail(CharsetMissingMessage)
    ensures !possible.Str? ==> (r.Ok? <==> IsCharset(possible))
    ensures !possible.Str? && r.Ok? ==> r.value == possible
    ensures !possible.Str? && Truthy(possible) && !IsCharset(possible) ==> r == Fail(NotCharsetMessage)
  {
    if possible.Str? then NamedCharset(possible.s, charsets)
    else if !Truthy(possible) then Fail(CharsetMissingMessage)
    else if IsCharset(possible) then Ok(possible)
    else Fail(NotCharsetMessage)
  }

  /** The older generator's resolution: a name is looked up the same way,
      and whatever it resolves to must then be a charset. */
  function ResolveCharset(possible: Value, charsets: Option<Entries>): (r: Result<Value>)
    ensures r.Ok? ==> IsCharset(r.value)
    ensures r.Ok? <==> (if possible.Str? then NamedCharset(possible.s, charsets).Ok?
      && IsCharset(NamedCharset(possible.s, charsets).value) else IsCharset(possible))
    ensures possible.Str? && NamedCharset(possible.s, charsets).Err? ==> r == NamedCharset(possible.s, charsets)
  {
    var charset :- if possible.Str? then NamedCharset(possible.s, charsets) else Ok(possible);
    if !Truthy(charset) then Fail(CharsetMissingMessage)
    else if !IsCharset(charset) then Fail(NotCharsetMessage)
    else Ok(charset)
  }

  /** The two resolutions agree on every value that is not a name, and on
      every name registered to a charset. */
  lemma ResolutionsAgree(possible: Value, charsets: Option<Entries>)
    requires !possible.Str? || (NamedCharset(possible.s, charsets).Ok? && IsCharset(NamedCharset(possible.s, charsets).value))
    ensures EnsureCharset(possible, charsets) == ResolveCharset(possible, charsets)
  {
  }

  /** A name registered to something that is not a charset (here the
      string `"01"`) is accepted by the newer resolution and refused by the
      older one. */
  lemma NamedNonCharset(store: Entries)
    requires store == [("binary", Str("01"))]
    ensures EnsureCharset(Str("binary"), Some(store)) == Ok(Str("01"))
    ensures ResolveCharset(Str("binary"), Some(store)) == Fail(NotCharsetMessage)
  {
    assert Lookup(store, "binary") == Some(Str("01"));
  }

  // ---------------------------------------------------------------------
  // Generator factories

  const LengthNotIntegerMessage: string := "Can't generate a random string - length must be an integer"
  const LengthNotPositiveMessage: string :=
    "Can't generate a random string - length must be a positive non-zero integer"
  const MinLengthNegativeMessage: string := "Can't generate a random string - minLength must not be negative"
  const MaxLengthNegativeMessage: string := "Can't generate a random string - maxLength must not be negative"
  const MinAboveMaxMessage: string :=
    "Can't generate a random string - minLength must be less or equal to maxLength"

  /** What the closure of `randomStringGenerator` captures. */
  datatype FixedLength = FixedLength(length: real, charset: Value)

  /** What the closure of `randomStringGeneratorOfRandomLength` captures. */
  datatype RandomLength = RandomLength(minLength: real, maxLength: real, charset: Value)

  /** The checks of `length` both generations share: a TypeError unless it
      is an integer, then an Error unless it is at least 1. */
  function CheckedLength(config: Entries): (r: Result<real>)
    ensures !IsInteger(Property(Obj(config), "length")) ==> r == FailType(LengthNotIntegerMessage)
    ensures IsInteger(Property(Obj(config), "length")) && Property(Obj(config), "length").n < 1.0 ==>
      r == Fail(LengthNotPositiveMessage)
    ensures r.Ok? <==> IsInteger(Property(Obj(config), "length")) && Property(Obj(config), "length").n >= 1.0
    ensures r.Ok? ==> r.value == Property(Obj(config), "length").n && r.value == r.value.Floor as real
  {
    var length := Property(Obj(config), "length");
    if !IsInteger(length) then FailType(LengthNotIntegerMessage)
    else if length.n < 1.0 then Fail(LengthNotPositiveMessage)
    else Ok(length.n)
  }

  /** `randomStringGenerator(config)` of the core generators; `charsets`
      is the charset store of `config.ecosystem`. */
  function CoreStringGenerator(config: Entries, charsets: Option<Entries>): (r: Result<FixedLength>)
    ensures CheckedLength(config).Err? ==> r == Err(CheckedLength(config).error)
    ensures r.Ok? <==> CheckedLength(config).Ok? && EnsureCharset(Property(Obj(config), "charset"), charsets).Ok?
    ensures r.Ok? ==>
      r.value.length == CheckedLength(config).value
      && r.value.charset == EnsureCharset(Property(Obj(config), "charset"), charsets).value
  {
    var length :- CheckedLength(config);
    var charset :- EnsureCharset(Property(Obj(config), "charset"), charsets);
    Ok(FixedLength(length, charset))
  }

  /** `randomStringGenerator(config)` of the older common generators. */
  function CommonStringGenerator(config: Entries, charsets: Option<Entries>): (r: Result<FixedLength>)
    ensures CheckedLength(config).Err? ==> r == Err(CheckedLength(config).error)
    ensures r.Ok? <==> CheckedLength(config).Ok? && ResolveCharset(Property(Obj(config), "charset"), charsets).Ok?
    ensures r.Ok? ==>
      r.value.length == CheckedLength(config).value && IsCharset(r.value.charset)
  {
    var length :- CheckedLength(config);
    var charset :- ResolveCharset(Property(Obj(config), "charset"), charsets);
    Ok(FixedLength(length, charset))
  }

  /** Calling the closure of `randomStringGenerator` with a context whose
      randomizer is `r`. */
  function GenerateFixedLength(g: FixedLength, r: Randomizer): Result<(Value, Randomizer)> {
    var made :- RandomString(r, g.length, g.charset);
    Ok((Str(made.0), made.1))
  }

  /** A fixed-length generator over a non-empty charset makes strings of
      exactly `length` characters of the charset. */
  lemma FixedLengthOutput(g: FixedLength, r: Randomizer)
    requires g.length >= 0.0 && g.length == g.length.Floor as real
    requires IsCharset(g.charset) && |g.charset.items| > 0
    requires Proper(r) && !r.ContextuallySeeded?
    ensures var out := GenerateFixedLength(g, r);
      out.Ok? && out.value.0.Str? && |out.value.0.s| as real == g.length
      && forall i :: 0 <= i < |out.value.0.s| ==> Str([out.value.0.s[i]]) in g.charset.items
  {
    RandomStringFromCharset(r, g.length, g.charset);
  }

  /** Both generations accept the empty array as a charset; the failure
      comes only when a string is generated. */
  lemma EmptyCharsetFailsOnGeneration(config: Entries, charsets: Option<Entries>, r: Randomizer)
    requires Property(Obj(config), "charset") == Arr([]) && CheckedLength(config).Ok?
    ensures CoreStringGenerator(config, charsets).Ok? && CommonStringGenerator(config, charsets).Ok?
    ensures GenerateFixedLength(CoreStringGenerator(config, charsets).value, r) == Fail(EmptyCharsetMessage)
    ensures GenerateFixedLength(CommonStringGenerator(config, charsets).value, r) == Fail(EmptyCharsetMessage)
  {
    assert IsCharset(Arr([]));
    assert EmptyCharset(Arr([]));
  }

  /** `(config.minLength ?? 0) as number` and `config.maxLength as number`;
      bounds that are not numbers are not followed through JavaScript's
      comparisons. */
  function CoreRandomLengthGenerator(config: Entries, charsets: Option<Entries>): (r: Result<RandomLength>)
    ensures var min := Coalesce(Property(Obj(config), "minLength"), Num(0.0));
      var max := Property(Obj(config), "maxLength");
      (min.Num? && min.n < 0.0 ==> r == Fail(MinLengthNegativeMessage))
      && (min.Num? && min.n >= 0.0 && max.Num? && max.n < 0.0 ==> r == Fail(MaxLengthNegativeMessage))
      && (min.Num? && max.Num? && 0.0 <= max.n < min.n ==> r == Fail(MinAboveMaxMessage))
      && (r.Ok? <==> (min.Num? && max.Num? && 0.0 <= min.n <= max.n
        && EnsureCharset(Property(Obj(config), "charset"), charsets).Ok?))
      && (r.Ok? ==> (r.value.minLength == min.n && r.value.maxLength == max.n
        && r.value.charset == EnsureCharset(Property(Obj(config), "charset"), charsets).value))
  {
    var min := Coalesce(Property(Obj(config), "minLength"), Num(0.0));
    var max := Property(Obj(config), "maxLength");
    if !min.Num? then Err(Error(Unmodelled, "minLength is not a number"))
    else if min.n < 0.0 then Fail(MinLengthNegativeMessage)
    else if !max.Num? then Err(Error(Unmodelled, "maxLength is not a number"))
    else if max.n < 0.0 then Fail(MaxLengthNegativeMessage)
    else if min.n > max.n then Fail(MinAboveMaxMessage)
    else
      var charset :- EnsureCharset(Property(Obj(config), "charset"), charsets);
      Ok(RandomLength(min.n, max.n, charset))
  }

  /** An absent `minLength` defaults to 0. */
  lemma MinLengthDefault(config: Entries, charsets: Option<Entries>)
    requires "minLength" !in Keys(config) && CoreRandomLengthGenerator(config, charsets).Ok?
    ensures CoreRandomLengthGenerator(config, charsets).value.minLength == 0.0
  {
  }

  /** Calling the closure of `randomStringGeneratorOfRandomLength`. */
  function GenerateRandomLength(g: RandomLength, r: Randomizer): Result<(Value, Randomizer)> {
    var made :- RandomStringOfRandomLength(r, g.charset, g.maxLength, g.minLength);
    Ok((Str(made.0), made.1))
  }

  /** With integral bounds and a charset, the compiled generator makes
      strings whose length lies within the bounds. */
  lemma RandomLengthOutput(config: Entries, charsets: Option<Entries>, r: Randomizer)
    requires CoreRandomLengthGenerator(config, charsets).Ok?
    requires var g := CoreRandomLengthGenerator(config, charsets).value;
      g.minLength == g.minLength.Floor as real && g.maxLength == g.maxLength.Floor as real
      && IsCharset(g.charset) && |g.charset.items| > 0
    requires Proper(r) && !r.ContextuallySeeded?
    ensures var g := CoreRandomLengthGenerator(config, charsets).value;
      var out := GenerateRandomLength(g, r);
      out.Ok? && out.value.0.Str? && g.minLength <= |out.value.0.s| as real <= g.maxLength
  {
    var g := CoreRandomLengthGenerator(config, charsets).value;
    RandomLengthFromCharset(r, g.charset, g.minLength.Floor, g.maxLength.Floor);
  }
}
