/** `generateFalsum` (src/falbricator/falbricator.ts): one record, built
    field by field in the order of the schema's fields. Every field's
    generator is called with a context holding the record made so far and
    the one randomizer of the run, whose state carries over from field to
    field. */
module Falbricators {
  import opened Wrappers
  import opened AssocLists
  import opened Json
  import opened Randomness
  import opened Generators
  import opened Schemas
  import DeepCopy

  /** Calling what `schema.fields[field]` holds when it is not a
      generator. */
  const FieldNotAFunctionMessage: string := "valueGenerator is not a function"

  /** The generation context of the field `field`: the index of the record,
      the randomizer (a function, to the generators), the field's name, and
      copies of the caller's context and of the record made so far. */
  function FieldContext(index: real, field: string, clientContext: Value, falsum: Entries): Value {
    Obj([
      ("index", Num(index)),
      ("randomizer", Function),
      ("currentField", Str(field)),
      ("clientContext", DeepCopy.DeepCopy(clientContext)),
      ("currentFalsum", DeepCopy.DeepCopy(Obj(falsum)))])
  }

  /** `schema.fields[field](context)`. */
  function EvalField(fields: seq<(string, Generator)>, field: string, context: Value, r: Randomizer)
    : Result<(Value, Randomizer)>
  {
    match Lookup(fields, field)
    case None => FailType(FieldNotAFunctionMessage)
    case Some(g) => Eval(g, context, r)
  }

  /** The loop from the field `keys[0]` on, given the record `falsum` made
      so far and the randomizer's state `r`: the record and the
      randomizer's state at the end, or the first failure. */
  function Fabricate(fields: seq<(string, Generator)>, keys: seq<string>, clientContext: Value, index: real,
                     falsum: Entries, r: Randomizer)
    : Result<(Entries, Randomizer)>
    decreases |keys|
  {
    if keys == [] then Ok((falsum, r))
    else
      var made :- EvalField(fields, keys[0], FieldContext(index, keys[0], clientContext, falsum), r);
      Fabricate(fields, keys[1..], clientContext, index, Put(falsum, keys[0], made.0), made.1)
  }

  /** `generateFalsum(schema, randomizer, context, index)`: the record and
      the randomizer's state afterwards. */
  function FalsumOf(schema: Schema, randomizer: Randomizer, context: Value, index: real)
    : Result<(Value, Randomizer)>
  {
    var made :- Fabricate(schema.fields, Keys(schema.fields), context, index, [], randomizer);
    Ok((Obj(made.0), made.1))
  }

  /** `generateFalsum` as the source runs it, assigning into `falsum` one
      field after another. */
  method GenerateFalsum(schema: Schema, randomizer: Randomizer, context: Value, index: real)
    returns (res: Result<(Value, Randomizer)>)
    ensures res == FalsumOf(schema, randomizer, context, index)
  {
    var made := FabricateLoop(schema.fields, Keys(schema.fields), context, index, randomizer);
    if made.Err? {
      return Err(made.error);
    }
    return Ok((Obj(made.value.0), made.value.1));
  }

  /** The loop of `generateFalsum` over the field names `keys`, from the
      empty record. */
  method FabricateLoop(fields: seq<(string, Generator)>, keys: seq<string>, clientContext: Value, index: real,
                       randomizer: Randomizer)
    returns (res: Result<(Entries, Randomizer)>)
    ensures res == Fabricate(fields, keys, clientContext, index, [], randomizer)
  {
    var falsum: Entries := [];
    var r := randomizer;
    var i := 0;
    while i < |keys|
      invariant 0 <= i <= |keys|
      invariant Fabricate(fields, keys, clientContext, index, [], randomizer)
        == Fabricate(fields, keys[i..], clientContext, index, falsum, r)
    {
      var made := MakeField(fields, keys, i, clientContext, index, falsum, r);
      if made.Err? {
        return Err(made.error);
      }
      falsum, r := made.value.0, made.value.1;
      i := i + 1;
    }
    assert keys[i..] == [];
    return Ok((falsum, r));
  }

  /** One turn of the loop: `falsum[keys[i]] = schema.fields[keys[i]](context)`
      with the field's context. When it fails, that failure is the loop's;
      otherwise the loop goes on from the record and randomizer it
      leaves. */
  method MakeField(fields: seq<(string, Generator)>, keys: seq<string>, i: nat, clientContext: Value, index: real,
                   falsum: Entries, r: Randomizer)
    returns (res: Result<(Entries, Randomizer)>)
    requires i < |keys|
    ensures res.Err? ==> Fabricate(fields, keys[i..], clientContext, index, falsum, r) == Err(res.error)
    ensures res.Ok? ==>
      Fabricate(fields, keys[i..], clientContext, index, falsum, r)
      == Fabricate(fields, keys[i + 1..], clientContext, index, res.value.0, res.value.1)
  {
    assert keys[i..][0] == keys[i] && keys[i..][1..] == keys[i + 1..];
    var fullContext := FieldContext(index, keys[i], clientContext, falsum);
    var made := EvalField(fields, keys[i], fullContext, r);
    if made.Err? {
      return Err(made.error);
    }
    return Ok((Put(falsum, keys[i], made.value.0), made.value.1));
  }

  // ----- properties -----

  /** The loop over `a + b` is the loop over `a` followed, when it
      succeeds, by the loop over `b` from where it stopped. */
  lemma {:induction false} FabricateSplit(fields: seq<(string, Generator)>, a: seq<string>, b: seq<string>,
                                          clientContext: Value, index: real, falsum: Entries, r: Randomizer)
    ensures Fabricate(fields, a + b, clientContext, index, falsum, r)
      == match Fabricate(fields, a, clientContext, index, falsum, r)
         case Err(e) => Err(e)
         case Ok(made) => Fabricate(fields, b, clientContext, index, made.0, made.1)
    decreases |a|
  {
    if a == [] {
      assert a + b == b;
    } else {
      assert (a + b)[0] == a[0] && (a + b)[1..] == a[1..] + b;
      var made := EvalField(fields, a[0], FieldContext(index, a[0], clientContext, falsum), r);
      if made.Ok? {
        FabricateSplit(fields, a[1..], b, clientContext, index, Put(falsum, a[0], made.value.0), made.value.1);
      }
    }
  }

  /** The `k`-th field, once the first `k` fields made the record `prefix`
      and left the randomizer in state `rk`: its generator is called once,
      with the record's index, its own name and a copy of `prefix` in the
      context and with `rk` as the randomizer; what it makes is assigned
      under its name, and the fields after it go on from there. When it
      fails, that failure is the result. */
  lemma FieldStep(fields: seq<(string, Generator)>, keys: seq<string>, k: nat, clientContext: Value, index: real,
                  randomizer: Randomizer, prefix: Entries, rk: Randomizer)
    requires k < |keys|
    requires Fabricate(fields, keys[..k], clientContext, index, [], randomizer) == Ok((prefix, rk))
    ensures Fabricate(fields, keys, clientContext, index, [], randomizer)
      == match EvalField(fields, keys[k], FieldContext(index, keys[k], clientContext, prefix), rk)
         case Err(e) => Err(e)
         case Ok(made) => Fabricate(fields, keys[k + 1..], clientContext, index, Put(prefix, keys[k], made.0), made.1)
  {
    assert keys == keys[..k] + keys[k..];
    FabricateSplit(fields, keys[..k], keys[k..], clientContext, index, [], randomizer);
    assert keys[k..][0] == keys[k] && keys[k..][1..] == keys[k + 1..];
  }

  /** Fields other than `field` leave the record's entry under `field`
      alone. */
  lemma {:induction false} FabricateKeeps(fields: seq<(string, Generator)>, keys: seq<string>, clientContext: Value,
                                          index: real, falsum: Entries, r: Randomizer, field: string)
    requires field !in keys
    requires Fabricate(fields, keys, clientContext, index, falsum, r).Ok?
    ensures Lookup(Fabricate(fields, keys, clientContext, index, falsum, r).value.0, field) == Lookup(falsum, field)
    decreases |keys|
  {
    if keys != [] {
      var made := EvalField(fields, keys[0], FieldContext(index, keys[0], clientContext, falsum), r).value;
      assert field !in keys[1..] by {
        assert forall j :: 0 <= j < |keys[1..]| ==> keys[1..][j] == keys[j + 1];
      }
      FabricateKeeps(fields, keys[1..], clientContext, index, Put(falsum, keys[0], made.0), made.1, field);
      PutLookup(falsum, keys[0], made.0, field);
    }
  }

  /** The loop assigns distinct new names in their order. */
  lemma {:induction false} FabricateKeys(fields: seq<(string, Generator)>, keys: seq<string>, clientContext: Value,
                                         index: real, falsum: Entries, r: Randomizer)
    requires Distinct(keys) && forall i :: 0 <= i < |keys| ==> keys[i] !in Keys(falsum)
    requires Fabricate(fields, keys, clientContext, index, falsum, r).Ok?
    ensures Keys(Fabricate(fields, keys, clientContext, index, falsum, r).value.0) == Keys(falsum) + keys
    decreases |keys|
  {
    if keys == [] {
      assert Keys(falsum) + keys == Keys(falsum);
    } else {
      var made := EvalField(fields, keys[0], FieldContext(index, keys[0], clientContext, falsum), r).value;
      PutFirstOfFresh(falsum, keys, made.0);
      FabricateKeys(fields, keys[1..], clientContext, index, Put(falsum, keys[0], made.0), made.1);
    }
  }

  /** A record has exactly the schema's field names, in the schema's
      order. */
  lemma FalsumFields(schema: Schema, randomizer: Randomizer, context: Value, index: real)
    requires UniqueKeys(schema.fields)
    requires FalsumOf(schema, randomizer, context, index).Ok?
    ensures FalsumOf(schema, randomizer, context, index).value.0.Obj?
    ensures Keys(FalsumOf(schema, randomizer, context, index).value.0.entries) == Keys(schema.fields)
  {
    UniqueKeysDistinct(schema.fields);
    FabricateKeys(schema.fields, Keys(schema.fields), context, index, [], randomizer);
  }

  /** Read your writes: the value the record holds under the `k`-th field
      is what that field's generator made when called with the record of
      the fields before it. */
  lemma FieldValue(fields: seq<(string, Generator)>, keys: seq<string>, k: nat, clientContext: Value, index: real,
                   randomizer: Randomizer, prefix: Entries, rk: Randomizer)
    requires Distinct(keys) && k < |keys|
    requires Fabricate(fields, keys[..k], clientContext, index, [], randomizer) == Ok((prefix, rk))
    requires Fabricate(fields, keys, clientContext, index, [], randomizer).Ok?
    ensures var made := EvalField(fields, keys[k], FieldContext(index, keys[k], clientContext, prefix), rk);
      made.Ok?
      && Lookup(Fabricate(fields, keys, clientContext, index, [], randomizer).value.0, keys[k]) == Some(made.value.0)
  {
    FieldStep(fields, keys, k, clientContext, index, randomizer, prefix, rk);
    var made := EvalField(fields, keys[k], FieldContext(index, keys[k], clientContext, prefix), rk).value;
    var rest := keys[k + 1..];
    assert keys[k] !in rest by {
      forall j | 0 <= j < |rest| ensures rest[j] != keys[k] {
        assert rest[j] == keys[k + 1 + j];
      }
    }
    FabricateKeeps(fields, rest, clientContext, index, Put(prefix, keys[k], made.0), made.1, keys[k]);
    PutLookup(prefix, keys[k], made.0, keys[k]);
  }
}
