/** `parseValue` and `parseConfigString` (src/utils/config-parsing.ts):
    URL-query-like text such as `int=6&str=asdf&arr=0&arr=1` read into a
    configuration object. */
module ConfigParsing {
  import opened Wrappers
  import opened Text
  import opened AssocLists
  import opened Json
  import opened JsonText

  /** `JSON.parse(decodeURIComponent(value))`, the first attempt. */
  function SniffJson(value: string): Result<Value> {
    var decoded :- DecodeUriComponent(value);
    JsonParse(decoded)
  }

  /** `parseValue(value)`: JSON of the decoded text; if that throws, the
      number `Number(value)` of the raw text unless it is `NaN`; otherwise
      the decoded text, whose decoding may throw again, uncaught. */
  function ParseValue(value: string): (r: Result<Value>)
    ensures SniffJson(value).Ok? ==> r == SniffJson(value)
    ensures SniffJson(value).Err? && r.Ok? && r.value.Str? ==>
      DecodeUriComponent(value) == Ok(r.value.s)
    ensures r.Err? && r.error.kind != ErrorKind.Unmodelled ==>
      r.error.kind == ErrorKind.URIError && DecodeUriComponent(value) == Err(r.error)
  {
    match SniffJson(value)
    case Ok(v) => Ok(v)
    case Err(e) =>
      if !Catchable(e) then Err(e)
      else
        match StringToNumber(value)
        case Err(e') => Err(e')
        case Ok(Some(n)) => Ok(Num(n))
        case Ok(None) =>
          var decoded :- DecodeUriComponent(value);
          Ok(Str(decoded))
  }

  /** The decimal text of a natural number is read as that number. */
  lemma ParseValueNat(n: nat)
    ensures ParseValue(NatToString(n)) == Ok(Num(n as real))
  {
    DigitsHaveNoSymbols(n);
    DecodeWithoutPercent(NatToString(n));
    JsonParseNat(n);
  }

  /** A plain word (no `%`, starting with a letter that no JSON value or
      number starts with) is read as the string itself, as in
      `string=asdf`. */
  lemma ParseValueWord(s: string)
    requires '%' !in s && |s| > 0
    requires 'a' <= s[0] <= 'z' || 'A' <= s[0] <= 'Z'
    requires s[0] != 'n' && s[0] != 't' && s[0] != 'f' && s[0] != 'I'
    ensures ParseValue(s) == Ok(Str(s))
  {
    DecodeWithoutPercent(s);
    JsonParseRejects(s);
    StringToNumberRejects(s);
  }

  /** Text without `%` that is JSON is read as that JSON value. */
  lemma ParseValueJson(s: string)
    requires '%' !in s && JsonParse(s).Ok?
    ensures ParseValue(s) == JsonParse(s)
  {
    DecodeWithoutPercent(s);
  }

  lemma DigitsHaveNoSymbols(n: nat)
    ensures '=' !in NatToString(n) && '&' !in NatToString(n) && '%' !in NatToString(n)
  {
    var s := NatToString(n);
    forall i | 0 <= i < |s| ensures s[i] != '=' && s[i] != '&' && s[i] != '%' {
    }
  }

  /** `const [key, value] = parameter.split('=')`: anything after a second
      `=` is dropped, and a parameter without `=` has no value. */
  function Parameter(p: string): (string, Option<string>) {
    var parts := Split(p, "=");
    SplitNonEmpty(p, "=");
    (parts[0], if |parts| > 1 then Some(parts[1]) else None)
  }

  predicate NoEquals(s: string) {
    '=' !in s
  }

  /** `key=value` gives the key and the value. */
  lemma ParameterOfPair(k: string, v: string)
    requires NoEquals(k) && NoEquals(v)
    ensures Parameter(k + "=" + v) == (k, Some(v))
  {
    SplitAtFirst(k, "=", v);
    SplitWithout(v, "=");
  }

  /** Whatever follows a second `=` is dropped. */
  lemma ParameterDropsRest(k: string, v: string, rest: string)
    requires NoEquals(k) && NoEquals(v)
    ensures Parameter(k + "=" + v + "=" + rest) == (k, Some(v))
  {
    assert k + "=" + v + "=" + rest == k + "=" + (v + "=" + rest);
    SplitAtFirst(k, "=", v + "=" + rest);
    SplitAtFirst(v, "=", rest);
    var parts := Split(k + "=" + v + "=" + rest, "=");
    assert parts == [k] + ([v] + Split(rest, "="));
    assert parts[0] == k && parts[1] == v;
  }

  /** A parameter without `=` is a key with no value. */
  lemma ParameterOfKey(k: string)
    requires NoEquals(k)
    ensures Parameter(k) == (k, None)
  {
    SplitWithout(k, "=");
  }

  /** The parsed value of a parameter: `undefined` when there is no `=`. */
  function ParameterValue(p: string): Result<Value> {
    match Parameter(p).1
    case None => Ok(Undefined)
    case Some(v) => ParseValue(v)
  }

  /** Every parameter's key and parsed value, in order; the first parse that
      throws ends the whole call. */
  function ParsePairs(params: seq<string>): (r: Result<seq<(string, Value)>>)
    ensures r.Ok? ==> |r.value| == |params|
  {
    if params == [] then Ok([])
    else
      match ParameterValue(params[0])
      case Err(e) => Err(e)
      case Ok(v) =>
        match ParsePairs(params[1..])
        case Err(e) => Err(e)
        case Ok(rest) => Ok([(Parameter(params[0]).0, v)] + rest)
  }

  /** One iteration of the loop: a repeated non-empty key turns its value
      into an array (or pushes onto the array already there), a new
      non-empty key is assigned, an empty key is skipped. */
  function Assign(result: Entries, key: string, v: Value): Entries {
    if key != "" && key in Keys(result) then Put(result, key, Pushed(Lookup(result, key).value, v))
    else if key != "" then Put(result, key, v)
    else result
  }

  /** The value a repeated key moves to: the earlier array with `v` pushed
      onto it, or a pair of the earlier value and `v`. */
  function Pushed(earlier: Value, v: Value): Value {
    if earlier.Arr? then Arr(earlier.items + [v]) else Arr([earlier, v])
  }

  /** The loop over all parameters. */
  function Collect(pairs: seq<(string, Value)>): Entries {
    if pairs == [] then [] else Assign(Collect(pairs[..|pairs| - 1]), pairs[|pairs| - 1].0, pairs[|pairs| - 1].1)
  }

  /** `parseConfigString(configString)` */
  function ParseConfigString(configString: string): Result<Value> {
    var pairs :- ParsePairs(Split(configString, "&"));
    Ok(Obj(Collect(pairs)))
  }

  /** The body of the loop once the value is parsed: assigning `v` under
      `key` into `result`. */
  method AssignInto(result: Entries, key: string, v: Value) returns (next: Entries)
    ensures next == Assign(result, key, v)
  {
    next := result;
    if key != "" && key in Keys(result) {
      var earlier := Lookup(result, key).value;
      if earlier.Arr? {
        next := Put(result, key, Arr(earlier.items + [v]));
      } else {
        next := Put(result, key, Arr([earlier, v]));
      }
    } else if key != "" {
      next := Put(result, key, v);
    }
  }

  /** The loop of the source, assigning into `result` as it goes. */
  method ParseConfig(configString: string) returns (r: Result<Value>)
    ensures r == ParseConfigString(configString)
  {
    var params := Split(configString, "&");
    var result: Entries := [];
    ghost var pairs: seq<(string, Value)> := [];
    var i := 0;
    while i < |params|
      invariant 0 <= i <= |params|
      invariant ParsePairs(params[..i]) == Ok(pairs)
      invariant result == Collect(pairs)
    {
      var (key, value) := Parameter(params[i]);
      var parsed: Value;
      if value.None? {
        parsed := Undefined;
      } else {
        var attempt := ParseValue(value.value);
        if attempt.Err? {
          ParsePairsFails(params, i);
          return Err(attempt.error);
        }
        parsed := attempt.value;
      }
      assert ParameterValue(params[i]) == Ok(parsed);
      result := AssignInto(result, key, parsed);
      PrefixStep(params, i, pairs);
      pairs := pairs + [(key, parsed)];
      i := i + 1;
    }
    assert params[..|params|] == params;
    r := Ok(Obj(result));
  }

  /** One more parameter parsed: the pairs so far with its pair added. */
  lemma PrefixStep(params: seq<string>, i: nat, pairs: seq<(string, Value)>)
    requires i < |params| && ParsePairs(params[..i]) == Ok(pairs) && ParameterValue(params[i]).Ok?
    ensures var pair := (Parameter(params[i]).0, ParameterValue(params[i]).value);
      ParsePairs(params[..i + 1]) == Ok(pairs + [pair])
      && Collect(pairs + [pair]) == Assign(Collect(pairs), pair.0, pair.1)
  {
    ParsePairsSnoc(params[..i], params[i]);
    assert params[..i] + [params[i]] == params[..i + 1];
    CollectSnoc(pairs, Parameter(params[i]).0, ParameterValue(params[i]).value);
  }

  lemma CollectSnoc(pairs: seq<(string, Value)>, key: string, v: Value)
    ensures Collect(pairs + [(key, v)]) == Assign(Collect(pairs), key, v)
  {
    assert (pairs + [(key, v)])[..|pairs|] == pairs;
  }

  lemma {:induction false} ParsePairsSnoc(ps: seq<string>, p: string)
    requires ParsePairs(ps).Ok? && ParameterValue(p).Ok?
    ensures ParsePairs(ps + [p])
      == Ok(ParsePairs(ps).value + [(Parameter(p).0, ParameterValue(p).value)])
  {
    var last := (Parameter(p).0, ParameterValue(p).value);
    if ps == [] {
      assert ps + [p] == [p];
      assert [p][1..] == [];
      assert ParsePairs([p][1..]) == Ok([]);
      assert ParsePairs([p]) == Ok([last] + []);
      assert [last] + [] == [last] && [] + [last] == [last];
    } else {
      var s := ps + [p];
      assert s[0] == ps[0];
      assert s[1..] == ps[1..] + [p];
      var head := (Parameter(ps[0]).0, ParameterValue(ps[0]).value);
      var tail := ParsePairs(ps[1..]);
      assert tail.Ok?;
      assert ParsePairs(ps) == Ok([head] + tail.value);
      ParsePairsSnoc(ps[1..], p);
      assert ParsePairs(s[1..]) == Ok(tail.value + [last]);
      assert ParsePairs(s) == Ok([head] + (tail.value + [last]));
      assert [head] + (tail.value + [last]) == ([head] + tail.value) + [last];
    }
  }

  /** When the parameters before index `i` parse and the one at `i` does
      not, the whole call fails with that parameter's error. */
  lemma {:induction false} ParsePairsFails(ps: seq<string>, i: nat)
    requires i < |ps| && ParsePairs(ps[..i]).Ok? && ParameterValue(ps[i]).Err?
    ensures ParsePairs(ps) == Err(ParameterValue(ps[i]).error)
    decreases i
  {
    if i > 0 {
      var prefix := ps[..i];
      assert prefix[0] == ps[0] && prefix[1..] == ps[1..][..i - 1];
      assert ParameterValue(ps[0]).Ok? && ParsePairs(prefix[1..]).Ok?;
      assert ps[1..][i - 1] == ps[i];
      ParsePairsFails(ps[1..], i - 1);
    }
  }

  /** The index of the first pair under `k`. */
  function FirstIndex(pairs: seq<(string, Value)>, k: string): (i: nat)
    requires k in Keys(pairs)
    ensures i < |pairs| && pairs[i].0 == k
    ensures forall j :: 0 <= j < i ==> pairs[j].0 != k
  {
    if pairs[0].0 == k then 0
    else
      assert Keys(pairs) == [pairs[0].0] + Keys(pairs[1..]);
      1 + FirstIndex(pairs[1..], k)
  }

  /** The first index is the only index with those two properties. */
  lemma FirstIndexIs(pairs: seq<(string, Value)>, k: string, i: nat)
    requires i < |pairs| && pairs[i].0 == k
    requires forall j :: 0 <= j < i ==> pairs[j].0 != k
    ensures k in Keys(pairs) && FirstIndex(pairs, k) == i
  {
    assert Keys(pairs)[i] == k;
  }

  /** Appending a pair changes no existing key's first index, and a new key
      first occurs at the end. */
  lemma FirstIndexSnoc(pairs: seq<(string, Value)>, k: string)
    requires pairs != [] && k in Keys(pairs[..|pairs| - 1])
    ensures k in Keys(pairs) && FirstIndex(pairs, k) == FirstIndex(pairs[..|pairs| - 1], k)
  {
    var init := pairs[..|pairs| - 1];
    var i := FirstIndex(init, k);
    assert pairs[i] == init[i];
    forall j | 0 <= j < i ensures pairs[j].0 != k {
      assert pairs[j] == init[j];
    }
    FirstIndexIs(pairs, k, i);
  }

  lemma FirstIndexLast(pairs: seq<(string, Value)>)
    requires pairs != [] && pairs[|pairs| - 1].0 !in Keys(pairs[..|pairs| - 1])
    ensures pairs[|pairs| - 1].0 in Keys(pairs) && FirstIndex(pairs, pairs[|pairs| - 1].0) == |pairs| - 1
  {
    var init := pairs[..|pairs| - 1];
    var k := pairs[|pairs| - 1].0;
    forall j | 0 <= j < |pairs| - 1 ensures pairs[j].0 != k {
      assert pairs[j] == init[j] && Keys(init)[j] == init[j].0;
    }
    FirstIndexIs(pairs, k, |pairs| - 1);
  }

  lemma KeysSnoc(pairs: seq<(string, Value)>)
    requires pairs != []
    ensures Keys(pairs) == Keys(pairs[..|pairs| - 1]) + [pairs[|pairs| - 1].0]
  {
  }

  /** The values given for `k`, in order. */
  function ValuesFor(pairs: seq<(string, Value)>, k: string): (vs: seq<Value>)
    ensures |vs| == 0 <==> k !in Keys(pairs)
  {
    if pairs == [] then []
    else
      var init := pairs[..|pairs| - 1];
      KeysSnoc(pairs);
      ValuesFor(init, k) + (if pairs[|pairs| - 1].0 == k then [pairs[|pairs| - 1].1] else [])
  }

  /** What a key given once or more ends up holding: a single value as it
      is; several values as an array of them, except that when the first is
      an array the later ones are pushed onto it. */
  function Combine(vs: seq<Value>): Value
    requires |vs| > 0
  {
    if |vs| == 1 then vs[0]
    else if vs[0].Arr? then Arr(vs[0].items + vs[1..])
    else Arr(vs)
  }

  /** Giving one more value for a key is the step the loop takes. */
  lemma CombineAppend(vs: seq<Value>, v: Value)
    requires |vs| > 0
    ensures Combine(vs + [v]) == Pushed(Combine(vs), v)
  {
    if |vs| > 1 && vs[0].Arr? {
      assert (vs + [v])[1..] == vs[1..] + [v];
    }
  }

  /** How one step changes the keys: only a new non-empty key is added, at
      the end. */
  lemma AssignKeys(result: Entries, key: string, v: Value)
    ensures Keys(Assign(result, key, v)) ==
      if key != "" && key !in Keys(result) then Keys(result) + [key] else Keys(result)
    ensures UniqueKeys(result) ==> UniqueKeys(Assign(result, key, v))
  {
    if key != "" {
      var nv := if key in Keys(result) then Pushed(Lookup(result, key).value, v) else v;
      assert Assign(result, key, v) == Put(result, key, nv);
      PutKeys(result, key, nv);
      if UniqueKeys(result) {
        PutUnique(result, key, nv);
      }
    }
  }

  lemma AssignLookup(result: Entries, key: string, v: Value, k: string)
    ensures k != key ==> Lookup(Assign(result, key, v), k) == Lookup(result, k)
    ensures key != "" && key !in Keys(result) ==> Lookup(Assign(result, key, v), key) == Some(v)
    ensures key != "" && key in Keys(result) ==>
      Lookup(Assign(result, key, v), key) == Some(Pushed(Lookup(result, key).value, v))
  {
    if key != "" {
      var nv := if key in Keys(result) then Pushed(Lookup(result, key).value, v) else v;
      assert Assign(result, key, v) == Put(result, key, nv);
      PutLookup(result, key, nv, k);
      PutLookup(result, key, nv, key);
    }
  }

  /** The result's keys are exactly the non-empty keys given, each once. */
  lemma {:induction false} CollectKeys(pairs: seq<(string, Value)>)
    ensures UniqueKeys(Collect(pairs))
    ensures forall k :: k in Keys(Collect(pairs)) <==> k != "" && k in Keys(pairs)
  {
    if pairs != [] {
      var init := pairs[..|pairs| - 1];
      var (key, v) := pairs[|pairs| - 1];
      CollectKeys(init);
      KeysSnoc(pairs);
      AssignKeys(Collect(init), key, v);
    }
  }

  /** Keys ordered by where they first occur among `pairs`. */
  ghost predicate OrderedByFirst(ks: seq<string>, pairs: seq<(string, Value)>) {
    (forall i :: 0 <= i < |ks| ==> ks[i] in Keys(pairs)) &&
    forall a, b :: 0 <= a < b < |ks| ==> FirstIndex(pairs, ks[a]) < FirstIndex(pairs, ks[b])
  }

  /** Appending a pair keeps an order by first occurrence. */
  lemma OrderedSnoc(ks: seq<string>, pairs: seq<(string, Value)>)
    requires pairs != [] && OrderedByFirst(ks, pairs[..|pairs| - 1])
    ensures OrderedByFirst(ks, pairs)
  {
    var init := pairs[..|pairs| - 1];
    KeysSnoc(pairs);
    forall i | 0 <= i < |ks| ensures ks[i] in Keys(pairs) && FirstIndex(pairs, ks[i]) == FirstIndex(init, ks[i]) {
      FirstIndexSnoc(pairs, ks[i]);
    }
  }

  /** A key whose first occurrence is after that of every key in an ordered
      sequence can be appended to it. */
  lemma OrderedAppend(ks: seq<string>, pairs: seq<(string, Value)>, key: string)
    requires OrderedByFirst(ks, pairs) && key in Keys(pairs)
    requires forall i :: 0 <= i < |ks| ==> FirstIndex(pairs, ks[i]) < FirstIndex(pairs, key)
    ensures OrderedByFirst(ks + [key], pairs)
  {
    var ks' := ks + [key];
    forall a, b | 0 <= a < b < |ks'|
      ensures FirstIndex(pairs, ks'[a]) < FirstIndex(pairs, ks'[b])
    {
      if b < |ks| {
        assert ks'[a] == ks[a] && ks'[b] == ks[b];
      } else {
        assert ks'[a] == ks[a];
      }
    }
  }

  /** The result's keys come in the order of their first occurrence. */
  lemma {:induction false} CollectOrder(pairs: seq<(string, Value)>)
    ensures OrderedByFirst(Keys(Collect(pairs)), pairs)
  {
    if pairs != [] {
      var init := pairs[..|pairs| - 1];
      var (key, v) := pairs[|pairs| - 1];
      var before := Collect(init);
      var ks := Keys(before);
      CollectOrder(init);
      OrderedSnoc(ks, pairs);
      AssignKeys(before, key, v);
      if key != "" && key !in ks {
        CollectKeys(init);
        assert key !in Keys(init);
        FirstIndexLast(pairs);
        OrderedAppend(ks, pairs, key);
      }
    }
  }

  /** Each key holds the combination of all values given for it. */
  lemma {:induction false} CollectLookup(pairs: seq<(string, Value)>, k: string)
    requires k != "" && k in Keys(pairs)
    ensures Lookup(Collect(pairs), k) == Some(Combine(ValuesFor(pairs, k)))
  {
    var init := pairs[..|pairs| - 1];
    var (key, v) := pairs[|pairs| - 1];
    var before := Collect(init);
    KeysSnoc(pairs);
    CollectKeys(init);
    AssignLookup(before, key, v, k);
    assert Collect(pairs) == Assign(before, key, v);
    if k != key {
      assert k in Keys(init);
      assert ValuesFor(pairs, k) == ValuesFor(init, k);
      CollectLookup(init, k);
    } else if k in Keys(init) {
      CollectLookup(init, k);
      CombineAppend(ValuesFor(init, k), v);
    } else {
      assert ValuesFor(init, k) == [];
    }
  }

  /** A key repeated with natural numbers collects them into an array, as
      in `integers=0&integers=1&integers=2`. */
  lemma RepeatedKey(key: string, ns: seq<nat>)
    requires key != "" && NoEquals(key) && '&' !in key && |ns| >= 2
    ensures ParseConfigString(Join(seq(|ns|, i requires 0 <= i < |ns| => key + "=" + NatToString(ns[i])), "&"))
      == Ok(Obj([(key, Arr(seq(|ns|, i requires 0 <= i < |ns| => Num(ns[i] as real))))]))
  {
    var params := seq(|ns|, i requires 0 <= i < |ns| => key + "=" + NatToString(ns[i]));
    var nums := seq(|ns|, i requires 0 <= i < |ns| => Num(ns[i] as real));
    RepeatedKeyParams(key, ns, params);
    var pairs := seq(|ns|, i requires 0 <= i < |ns| => (key, nums[i]));
    RepeatedKeyPairs(params, key, nums);
    RepeatedKeyCollect(key, nums, pairs);
  }

  lemma RepeatedKeyCollect(key: string, nums: seq<Value>, pairs: seq<(string, Value)>)
    requires key != "" && |nums| >= 2 && !nums[0].Arr?
    requires pairs == seq(|nums|, i requires 0 <= i < |nums| => (key, nums[i]))
    ensures Collect(pairs) == [(key, Arr(nums))]
  {
    CollectSingleKey(pairs, key);
    ValuesForAll(pairs, key);
    assert seq(|pairs|, i requires 0 <= i < |pairs| => pairs[i].1) == nums;
  }

  lemma RepeatedKeyParams(key: string, ns: seq<nat>, params: seq<string>)
    requires NoEquals(key) && '&' !in key && |ns| >= 1
    requires params == seq(|ns|, i requires 0 <= i < |ns| => key + "=" + NatToString(ns[i]))
    ensures Split(Join(params, "&"), "&") == params
    ensures forall i :: 0 <= i < |ns| ==>
      Parameter(params[i]).0 == key && ParameterValue(params[i]) == Ok(Num(ns[i] as real))
  {
    forall i | 0 <= i < |ns|
      ensures '&' !in params[i]
      ensures Parameter(params[i]).0 == key && ParameterValue(params[i]) == Ok(Num(ns[i] as real))
    {
      DigitsHaveNoSymbols(ns[i]);
      ParameterOfPair(key, NatToString(ns[i]));
      ParseValueNat(ns[i]);
    }
    SplitJoin(params, "&");
  }

  /** The first parameter's pair, then those of the rest. */
  lemma ParsePairsCons(params: seq<string>)
    requires params != [] && ParameterValue(params[0]).Ok? && ParsePairs(params[1..]).Ok?
    ensures ParsePairs(params)
      == Ok([(Parameter(params[0]).0, ParameterValue(params[0]).value)] + ParsePairs(params[1..]).value)
  {
  }

  lemma {:induction false} RepeatedKeyPairs(params: seq<string>, key: string, vs: seq<Value>)
    requires |params| == |vs|
    requires forall i :: 0 <= i < |params| ==>
      Parameter(params[i]).0 == key && ParameterValue(params[i]) == Ok(vs[i])
    ensures ParsePairs(params) == Ok(seq(|vs|, i requires 0 <= i < |vs| => (key, vs[i])))
  {
    if params != [] {
      var ps, rest := params[1..], vs[1..];
      assert forall i :: 0 <= i < |ps| ==> ps[i] == params[i + 1] && rest[i] == vs[i + 1];
      RepeatedKeyPairs(ps, key, rest);
      var tail := seq(|rest|, i requires 0 <= i < |rest| => (key, rest[i]));
      assert ParsePairs(ps) == Ok(tail);
      assert Parameter(params[0]).0 == key && ParameterValue(params[0]) == Ok(vs[0]);
      ParsePairsCons(params);
      assert seq(|vs|, i requires 0 <= i < |vs| => (key, vs[i])) == [(key, vs[0])] + tail;
    } else {
      assert seq(|vs|, i requires 0 <= i < |vs| => (key, vs[i])) == [];
    }
  }

  /** Pairs that all share one non-empty key collect into a single entry. */
  lemma {:induction false} CollectSingleKey(pairs: seq<(string, Value)>, key: string)
    requires key != "" && |pairs| >= 1
    requires forall i :: 0 <= i < |pairs| ==> pairs[i].0 == key
    ensures key in Keys(pairs)
    ensures Collect(pairs) == [(key, Combine(ValuesFor(pairs, key)))]
  {
    assert Keys(pairs)[0] == key;
    var init := pairs[..|pairs| - 1];
    var v := pairs[|pairs| - 1].1;
    if |pairs| == 1 {
      assert init == [];
      assert ValuesFor(pairs, key) == [v];
    } else {
      CollectSingleKey(init, key);
      var c := Combine(ValuesFor(init, key));
      assert Keys([(key, c)]) == [key];
      assert Collect(pairs) == Put([(key, c)], key, Pushed(c, v));
      CombineAppend(ValuesFor(init, key), v);
    }
  }

  lemma {:induction false} ValuesForAll(pairs: seq<(string, Value)>, key: string)
    requires forall i :: 0 <= i < |pairs| ==> pairs[i].0 == key
    ensures ValuesFor(pairs, key) == seq(|pairs|, i requires 0 <= i < |pairs| => pairs[i].1)
  {
    if pairs != [] {
      var init := pairs[..|pairs| - 1];
      ValuesForAll(init, key);
      assert seq(|pairs|, i requires 0 <= i < |pairs| => pairs[i].1)
        == seq(|init|, i requires 0 <= i < |init| => init[i].1) + [pairs[|pairs| - 1].1];
    }
  }
}
