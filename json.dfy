/** The JSON-like values the library passes around (schema inputs,
    configurations, generated records and generation contexts). */
module Json {
  import opened Wrappers
  import opened Text
  import opened AssocLists

  /** A JavaScript value. Numbers are exact reals (no NaN, no infinities, no
      rounding); objects are insertion-ordered association lists; `Function`
      stands for any callable (a randomizer inside a context). */
  datatype Value =
    | Undefined
    | Null
    | Bool(b: bool)
    | Num(n: real)
    | Str(s: string)
    | Arr(items: seq<Value>)
    | Obj(entries: seq<(string, Value)>)
    | Function

  type Entries = seq<(string, Value)>

  /** JavaScript truthiness: `!!v`. */
  predicate Truthy(v: Value) {
    match v
    case Undefined => false
    case Null => false
    case Bool(b) => b
    case Num(n) => n != 0.0
    case Str(s) => s != ""
    case _ => true
  }

  predicate Nullish(v: Value) {
    v.Undefined? || v.Null?
  }

  /** The `typeof` operator. */
  function TypeOf(v: Value): (t: string)
    ensures t == "object" <==> v.Null? || v.Arr? || v.Obj?
  {
    match v
    case Undefined => "undefined"
    case Null => "object"
    case Bool(_) => "boolean"
    case Num(_) => "number"
    case Str(_) => "string"
    case Arr(_) => "object"
    case Obj(_) => "object"
    case Function => "function"
  }

  predicate IsInteger(v: Value) {
    v.Num? && v.n == v.n.Floor as real
  }

  /** A measure that strictly decreases from a container to its parts. */
  function Size(v: Value): nat {
    match v
    case Str(s) => 2 + |s|
    case Arr(items) => 1 + Sum(seq(|items|, i requires 0 <= i < |items| => Size(items[i])))
    case Obj(entries) =>
      1 + Sum(seq(|entries|, i requires 0 <= i < |entries| => 1 + Size(entries[i].1)))
    case _ => 1
  }

  function Sum(s: seq<nat>): nat {
    if s == [] then 0 else s[0] + Sum(s[1..])
  }

  lemma {:induction false} SumBound(s: seq<nat>, i: nat)
    requires i < |s|
    ensures s[i] <= Sum(s)
  {
    if i > 0 {
      SumBound(s[1..], i - 1);
    }
  }

  lemma ItemSmaller(items: seq<Value>, i: nat)
    requires i < |items|
    ensures Size(items[i]) < Size(Arr(items))
  {
    SumBound(seq(|items|, i requires 0 <= i < |items| => Size(items[i])), i);
  }

  lemma EntrySmaller(entries: Entries, i: nat)
    requires i < |entries|
    ensures Size(entries[i].1) < Size(Obj(entries))
  {
    SumBound(seq(|entries|, i requires 0 <= i < |entries| => 1 + Size(entries[i].1)), i);
  }

  /** The canonical index named by `key` in a sequence of length `n`
      (`"0"`, `"1"`, ...; no sign, no leading zeros). */
  function IndexKey(key: string, n: nat): (r: Option<nat>)
    ensures r.Some? ==> r.value < n && NatToString(r.value) == key
    ensures r.None? ==> forall i: nat :: i < n ==> NatToString(i) != key
  {
    IndexKeyFrom(key, 0, n)
  }

  function IndexKeyFrom(key: string, from: nat, n: nat): (r: Option<nat>)
    ensures r.Some? ==> from <= r.value < n && NatToString(r.value) == key
    ensures r.None? ==> forall i: nat :: from <= i < n ==> NatToString(i) != key
    decreases n - from
  {
    if from >= n then None
    else if NatToString(from) == key then Some(from)
    else IndexKeyFrom(key, from + 1, n)
  }

  lemma IndexKeyOf(i: nat, n: nat)
    requires i < n
    ensures IndexKey(NatToString(i), n) == Some(i)
  {
    var r := IndexKey(NatToString(i), n);
    if r.Some? {
      NatToStringInjective(r.value, i);
    }
  }

  /** The property read `v[key]` on a value that is neither `null` nor
      `undefined`. Only own data properties are modelled: arrays and strings
      expose their indices and `length`, objects their entries; everything
      else (and every inherited property) reads as `undefined`. */
  function Property(v: Value, key: string): (r: Value)
    requires !Nullish(v)
    ensures v.Obj? ==> (r == match Lookup(v.entries, key) case Some(x) => x case None => Undefined)
  {
    match v
    case Obj(entries) =>
      (match Lookup(entries, key) case Some(x) => x case None => Undefined)
    case Arr(items) =>
      if key == "length" then Num(|items| as real)
      else (match IndexKey(key, |items|) case Some(i) => items[i] case None => Undefined)
    case Str(s) =>
      if key == "length" then Num(|s| as real)
      else (match IndexKey(key, |s|) case Some(i) => Str([s[i]]) case None => Undefined)
    case _ => Undefined
  }

  /** `v[key]` on any value: reading a property of `null` or `undefined`
      throws the engine's TypeError. */
  function Get(v: Value, key: string): Result<Value> {
    if Nullish(v) then Err(Error(ErrorKind.TypeError, ReadMessage(v, key)))
    else Ok(Property(v, key))
  }

  /** The engine's message for reading `key` of `null` or `undefined`. */
  function ReadMessage(v: Value, key: string): string {
    "Cannot read properties of " + ToJsString(v) + " (reading '" + key + "')"
  }

  /** `v ?? fallback`. */
  function Coalesce(v: Value, fallback: Value): Value {
    if Nullish(v) then fallback else v
  }

  /** A property present in an object is strictly smaller than the object. */
  lemma PropertySmaller(v: Value, key: string)
    requires v.Obj? && Property(v, key) != Undefined
    ensures Size(Property(v, key)) < Size(v)
  {
    var r := Lookup(v.entries, key);
    var i :| 0 <= i < |v.entries| && v.entries[i] == (key, r.value);
    EntrySmaller(v.entries, i);
  }

  /** The index keys `"0"`, ..., `"n-1"`. */
  function IndexKeys(n: nat): (ks: seq<string>)
    ensures |ks| == n
    ensures forall i :: 0 <= i < n ==> ks[i] == NatToString(i)
  {
    if n == 0 then [] else IndexKeys(n - 1) + [NatToString(n - 1)]
  }

  /** `String(v)`, also `v + ''`. An array prints its items joined by
      commas, with `null` and `undefined` items printing as empty. A
      function prints a fixed native-code text here, where JavaScript
      prints the function's own source text, which the model does not
      have. */
  function ToJsString(v: Value): string {
    match v
    case Undefined => "undefined"
    case Null => "null"
    case Bool(b) => if b then "true" else "false"
    case Num(n) => NumberToString(n)
    case Str(s) => s
    case Arr(items) => Join(ItemStrings(items), ",")
    case Obj(_) => "[object Object]"
    case Function => "function () { [native code] }"
  }

  function ItemStrings(items: seq<Value>): (ss: seq<string>)
    ensures |ss| == |items|
  {
    if items == [] then []
    else [if Nullish(items[0]) then "" else ToJsString(items[0])] + ItemStrings(items[1..])
  }

  /** `JSON.stringify(v)` for the primitives it is applied to; `undefined`
      and functions have no JSON text and make it return `undefined`. */
  function StringifyPrimitive(v: Value): Value
    requires !v.Arr? && !v.Obj? && !v.Str?
  {
    match v
    case Null => Str("null")
    case Bool(b) => Str(if b then "true" else "false")
    case Num(n) => Str(NumberToString(n))
    case _ => Undefined
  }
}
