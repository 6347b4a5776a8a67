/** `camelToSnake` and `snakeCasePipe` (src/core-pipes/keys-snake-casing.ts):
    turning every object key, at any depth, from camel case into snake
    case. */
module SnakeCasing {
  import opened Text
  import opened AssocLists
  import opened Json
  import opened DeepCopy

  predicate NoUpper(s: string) {
    forall i :: 0 <= i < |s| ==> !IsUpper(s[i])
  }

  /** `value.replaceAll(/[A-Z]/g, letter => '_' + letter.toLowerCase())`. */
  function CamelToSnake(s: string): (r: string)
    ensures NoUpper(r)
    ensures |r| >= |s|
  {
    if s == [] then []
    else if IsUpper(s[0]) then "_" + [ToLower(s[0])] + CamelToSnake(s[1..])
    else [s[0]] + CamelToSnake(s[1..])
  }

  /** A string without capitals is left as it is. */
  lemma {:induction false} CamelToSnakeNoUpper(s: string)
    requires NoUpper(s)
    ensures CamelToSnake(s) == s
  {
    if s != [] {
      CamelToSnakeNoUpper(s[1..]);
    }
  }

  lemma CamelToSnakeIdempotent(s: string)
    ensures CamelToSnake(CamelToSnake(s)) == CamelToSnake(s)
  {
    CamelToSnakeNoUpper(CamelToSnake(s));
  }

  function UpperCount(s: string): nat {
    if s == [] then 0 else (if IsUpper(s[0]) then 1 else 0) + UpperCount(s[1..])
  }

  /** Each capital becomes two characters: `_` and its lower case. */
  lemma {:induction false} CamelToSnakeLength(s: string)
    ensures |CamelToSnake(s)| == |s| + UpperCount(s)
  {
    if s != [] {
      CamelToSnakeLength(s[1..]);
    }
  }

  /** `camelToSnake('someKey')` is `'some_key'`. */
  lemma CamelToSnakeExample()
    ensures CamelToSnake("someKey") == "some_key"
  {
    assert "someKey" == "some" + "Key";
    assert CamelToSnake("ey") == "ey";
    assert CamelToSnake("Key") == "_key";
  }

  /** The pipe: falsy values and values that are not of type `object` are
      returned as they are, arrays are mapped item by item, and objects are
      filled with their snake-cased keys in key order, each holding the
      processed value (a later key that snake-cases to an earlier one
      overwrites its value). */
  function SnakeCase(v: Value): Value
    decreases v
  {
    if !Truthy(v) || TypeOf(v) != "object" then v
    else match v
      case Arr(items) => Arr(seq(|items|, i requires 0 <= i < |items| => SnakeCase(items[i])))
      case Obj(entries) =>
        Obj(PutAll(seq(|entries|, i requires 0 <= i < |entries| =>
          (CamelToSnake(entries[i].0), SnakeCase(entries[i].1)))))
      case _ => v
  }

  /** The pipe as the source runs it: arrays by `map`, objects by a loop
      assigning into a fresh object. */
  method SnakeCasePipe(v: Value) returns (r: Value)
    ensures r == SnakeCase(v)
    decreases v
  {
    if !Truthy(v) || TypeOf(v) != "object" {
      return v;
    }
    match v {
      case Arr(items) =>
        var mapped: seq<Value> := [];
        var i := 0;
        while i < |items|
          invariant 0 <= i <= |items|
          invariant mapped == seq(i, j requires 0 <= j < i => SnakeCase(items[j]))
        {
          var c := SnakeCasePipe(items[i]);
          mapped := mapped + [c];
          i := i + 1;
        }
        r := Arr(mapped);
      case Obj(entries) =>
        ghost var cased := seq(|entries|, i requires 0 <= i < |entries| =>
          (CamelToSnake(entries[i].0), SnakeCase(entries[i].1)));
        var result: Entries := [];
        var i := 0;
        while i < |entries|
          invariant 0 <= i <= |entries|
          invariant result == PutAll(cased[..i])
        {
          var snakeKey := CamelToSnake(entries[i].0);
          var c := SnakeCasePipe(entries[i].1);
          assert cased[..i + 1][..i] == cased[..i];
          result := Put(result, snakeKey, c);
          i := i + 1;
        }
        assert cased[..|entries|] == cased;
        r := Obj(result);
    }
  }

  /** No key anywhere in the result has a capital letter. */
  ghost predicate SnakeKeys(v: Value) {
    match v
    case Arr(items) => forall i :: 0 <= i < |items| ==> SnakeKeys(items[i])
    case Obj(entries) =>
      UniqueKeys(entries) && forall i :: 0 <= i < |entries| ==> NoUpper(entries[i].0) && SnakeKeys(entries[i].1)
    case _ => true
  }

  /** Every key of the result, at any depth, is in snake case, and every
      object in it has unique keys. */
  lemma {:induction false} SnakeCaseKeys(v: Value)
    ensures SnakeKeys(SnakeCase(v))
    decreases v
  {
    if Truthy(v) && TypeOf(v) == "object" {
      match v
      case Arr(items) =>
        forall i | 0 <= i < |items| ensures SnakeKeys(SnakeCase(items[i])) {
          SnakeCaseKeys(items[i]);
        }
      case Obj(entries) =>
        var cased := seq(|entries|, i requires 0 <= i < |entries| =>
          (CamelToSnake(entries[i].0), SnakeCase(entries[i].1)));
        PutAllKeys(cased);
        var p := PutAll(cased);
        forall j | 0 <= j < |p| ensures NoUpper(p[j].0) && SnakeKeys(p[j].1) {
          var i := PutAllValueFrom(cased, j);
          SnakeCaseKeys(entries[i].1);
        }
    }
  }

  /** A value whose keys are already in snake case (and unique) is
      returned as it is. */
  lemma {:induction false} SnakeCaseOfSnake(v: Value)
    requires SnakeKeys(v)
    ensures SnakeCase(v) == v
    decreases v
  {
    if Truthy(v) && TypeOf(v) == "object" {
      match v
      case Arr(items) =>
        forall i | 0 <= i < |items| ensures SnakeCase(items[i]) == items[i] {
          SnakeCaseOfSnake(items[i]);
        }
        assert SnakeCase(v).items == items;
      case Obj(entries) =>
        var cased := seq(|entries|, i requires 0 <= i < |entries| =>
          (CamelToSnake(entries[i].0), SnakeCase(entries[i].1)));
        forall i | 0 <= i < |entries| ensures cased[i] == entries[i] {
          CamelToSnakeNoUpper(entries[i].0);
          SnakeCaseOfSnake(entries[i].1);
        }
        assert cased == entries;
        PutAllOfUnique(entries);
    }
  }

  /** Applying the pipe twice is the same as applying it once. */
  lemma SnakeCaseIdempotent(v: Value)
    ensures SnakeCase(SnakeCase(v)) == SnakeCase(v)
  {
    SnakeCaseKeys(v);
    SnakeCaseOfSnake(SnakeCase(v));
  }

  /** Arrays are mapped item by item. */
  lemma SnakeCaseArray(items: seq<Value>)
    ensures SnakeCase(Arr(items)).Arr?
    ensures |SnakeCase(Arr(items)).items| == |items|
    ensures forall i :: 0 <= i < |items| ==> SnakeCase(Arr(items)).items[i] == SnakeCase(items[i])
  {
  }

  /** Falsy values, and values that are not of type `object`, pass
      unchanged. */
  lemma SnakeCasePrimitive(v: Value)
    requires !Truthy(v) || TypeOf(v) != "object"
    ensures SnakeCase(v) == v
  {
  }

  /** When no two keys snake-case alike, the object keeps its key order,
      each key snake-cased and each value processed. */
  lemma SnakeCaseObject(entries: Entries)
    requires forall i, j :: 0 <= i < j < |entries| ==> CamelToSnake(entries[i].0) != CamelToSnake(entries[j].0)
    ensures SnakeCase(Obj(entries)).Obj?
    ensures |SnakeCase(Obj(entries)).entries| == |entries|
    ensures forall i :: 0 <= i < |entries| ==>
      SnakeCase(Obj(entries)).entries[i] == (CamelToSnake(entries[i].0), SnakeCase(entries[i].1))
  {
    var cased := seq(|entries|, i requires 0 <= i < |entries| =>
      (CamelToSnake(entries[i].0), SnakeCase(entries[i].1)));
    PutAllOfUnique(cased);
  }

  /** On a collision the later value wins, at the earlier key's place:
      `{ aB: x, a_b: y }` becomes `{ a_b: y }`. */
  lemma SnakeCaseCollision(x: Value, y: Value)
    ensures SnakeCase(Obj([("aB", x), ("a_b", y)])) == Obj([("a_b", SnakeCase(y))])
  {
    assert CamelToSnake("B") == "_b";
    assert "aB" == "a" + "B";
    assert CamelToSnake("aB") == "a_b";
    assert CamelToSnake("a_b") == "a_b" by {
      CamelToSnakeNoUpper("a_b");
    }
    var entries := [("aB", x), ("a_b", y)];
    var cased := seq(|entries|, i requires 0 <= i < |entries| =>
      (CamelToSnake(entries[i].0), SnakeCase(entries[i].1)));
    assert cased == [("a_b", SnakeCase(x)), ("a_b", SnakeCase(y))];
    assert cased[..1] == [("a_b", SnakeCase(x))];
    assert PutAll(cased[..1]) == [("a_b", SnakeCase(x))];
    assert PutAll(cased) == [("a_b", SnakeCase(y))];
  }
}
