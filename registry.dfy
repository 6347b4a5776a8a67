/** `Registry` (src/ecosystem/registry.ts): a named, insertion-ordered
    store of items of one kind. An item is either a truthy value or a falsy
    one (`None`), which the store may hold among its initial items but
    which reads as absent. */
module Registries {
  import opened Wrappers
  import opened AssocLists

  /** The `records` object: names to items, in key order. */
  type Records<T> = seq<(string, Option<T>)>

  const EmptyTypeMessage: string := "Registry type must be a non-empty string"

  function NotFoundMessage(name: string, registryType: string): string {
    "No item '" + name + "' found in registry " + registryType
  }

  function EmptyNameMessage(registryType: string, name: string): string {
    "Item's name for " + registryType + " must be a non-empty string ('" + name + "')"
  }

  function ExistsMessage(name: string, registryType: string): string {
    "Can't register '" + name + "' into " + registryType + " registry - already exists"
  }

  function EmptyItemMessage(registryType: string): string {
    "Given item for " + registryType + " must not be empty value"
  }

  /** `!!this.records[name]`. */
  predicate HasIn<T>(records: Records<T>, name: string) {
    Lookup(records, name).Some? && Lookup(records, name).value.Some?
  }

  /** `get(name)`: the stored item, unless it is missing or falsy. */
  function GetIn<T>(registryType: string, records: Records<T>, name: string): (r: Result<T>)
    ensures r.Ok? <==> HasIn(records, name)
    ensures r.Ok? ==> exists i :: 0 <= i < |records| && records[i] == (name, Some(r.value))
    ensures r.Err? ==> r == Fail(NotFoundMessage(name, registryType))
  {
    if HasIn(records, name) then Ok(Lookup(records, name).value.value)
    else Fail(NotFoundMessage(name, registryType))
  }

  /** A name stored with a falsy item is neither present nor retrievable. */
  lemma FalsyItemReadsAbsent<T>(registryType: string, records: Records<T>, name: string)
    requires Lookup(records, name) == Some(None)
    ensures !HasIn(records, name)
    ensures GetIn(registryType, records, name) == Fail(NotFoundMessage(name, registryType))
  {
  }

  /** What assigning `records[name] = item` does to every lookup and to the
      key order. */
  lemma {:induction false} PutFacts<T>(records: Records<T>, name: string, item: Option<T>)
    ensures forall n :: Lookup(Put(records, name, item), n) == if n == name then Some(item) else Lookup(records, n)
    ensures Keys(Put(records, name, item)) == if name in Keys(records) then Keys(records) else Keys(records) + [name]
    ensures UniqueKeys(records) ==> UniqueKeys(Put(records, name, item))
  {
    forall n ensures Lookup(Put(records, name, item), n) == if n == name then Some(item) else Lookup(records, n) {
      PutLookup(records, name, item, n);
    }
    PutKeys(records, name, item);
    if UniqueKeys(records) {
      PutUnique(records, name, item);
    }
  }

  /** `register(name, item)`: an empty name, then a name already present,
      then a falsy item is refused, each with its own message; otherwise the
      item is stored under the name, at its old place if the name held a
      falsy item and at the end if it was new, and every other name keeps
      its item. */
  function RegisterIn<T>(registryType: string, records: Records<T>, name: string, item: Option<T>)
    : (r: Result<Records<T>>)
    ensures name == "" ==> r == Fail(EmptyNameMessage(registryType, name))
    ensures name != "" && HasIn(records, name) ==> r == Fail(ExistsMessage(name, registryType))
    ensures name != "" && !HasIn(records, name) && item.None? ==> r == Fail(EmptyItemMessage(registryType))
    ensures r.Ok? <==> name != "" && !HasIn(records, name) && item.Some?
    ensures r.Ok? ==> r.value == Put(records, name, item)
  {
    if name == "" then Fail(EmptyNameMessage(registryType, name))
    else if HasIn(records, name) then Fail(ExistsMessage(name, registryType))
    else if item.None? then Fail(EmptyItemMessage(registryType))
    else Ok(Put(records, name, item))
  }

  /** After a successful `register(name, item)`, the name is present with
      that item, every other name keeps its item, a new name comes last
      and names stay unique. */
  lemma RegisterUpdates<T>(registryType: string, records: Records<T>, name: string, item: Option<T>)
    requires RegisterIn(registryType, records, name, item).Ok?
    ensures var next := RegisterIn(registryType, records, name, item).value;
      HasIn(next, name) && GetIn(registryType, next, name) == Ok(item.value)
      && (forall n :: n != name ==> Lookup(next, n) == Lookup(records, n))
      && Keys(next) == (if name in Keys(records) then Keys(records) else Keys(records) + [name])
      && (UniqueKeys(records) ==> UniqueKeys(next))
  {
    PutFacts(records, name, item);
  }

  /** A successful registration never disturbs a name already present. */
  lemma RegisterKeepsPresent<T>(registryType: string, records: Records<T>, name: string, item: Option<T>, n: string)
    requires RegisterIn(registryType, records, name, item).Ok? && HasIn(records, n)
    ensures n != name
    ensures Lookup(RegisterIn(registryType, records, name, item).value, n) == Lookup(records, n)
  {
    RegisterUpdates(registryType, records, name, item);
  }

  /** `registerAll(map)`: the entries are registered in key order; the first
      failure stops the loop, keeping the registrations before it. The
      result is the new records and the failure, if any. */
  function RegisterAllIn<T>(registryType: string, records: Records<T>, entries: Records<T>)
    : (Records<T>, Option<Error>)
    decreases |entries|
  {
    if entries == [] then (records, None)
    else
      match RegisterIn(registryType, records, entries[0].0, entries[0].1)
      case Err(e) => (records, Some(e))
      case Ok(next) => RegisterAllIn(registryType, next, entries[1..])
  }

  /** One step of `registerAll`. */
  lemma RegisterAllUnfold<T>(registryType: string, records: Records<T>, entries: Records<T>)
    requires entries != []
    ensures var first := RegisterIn(registryType, records, entries[0].0, entries[0].1);
      RegisterAllIn(registryType, records, entries)
        == if first.Err? then (records, Some(first.error)) else RegisterAllIn(registryType, first.value, entries[1..])
  {
  }

  /** Names present before are untouched by `registerAll`, whether it
      succeeds or not, and unique keys stay unique. */
  lemma {:induction false} RegisterAllKeepsPresent<T>(registryType: string, records: Records<T>, entries: Records<T>)
    ensures forall n :: HasIn(records, n) ==>
      Lookup(RegisterAllIn(registryType, records, entries).0, n) == Lookup(records, n)
    ensures UniqueKeys(records) ==> UniqueKeys(RegisterAllIn(registryType, records, entries).0)
    decreases |entries|
  {
    if entries != [] {
      var first := RegisterIn(registryType, records, entries[0].0, entries[0].1);
      if first.Ok? {
        RegisterUpdates(registryType, records, entries[0].0, entries[0].1);
        RegisterAllKeepsPresent(registryType, first.value, entries[1..]);
        forall n | HasIn(records, n)
          ensures Lookup(RegisterAllIn(registryType, records, entries).0, n) == Lookup(records, n)
        {
          RegisterKeepsPresent(registryType, records, entries[0].0, entries[0].1, n);
        }
      }
    }
  }

  /** When `registerAll` succeeds, every entry of the map is registered
      with its item. */
  lemma {:induction false} RegisterAllRegisters<T>(registryType: string, records: Records<T>, entries: Records<T>)
    requires RegisterAllIn(registryType, records, entries).1.None?
    ensures forall i :: 0 <= i < |entries| ==>
      entries[i].1.Some? && entries[i].0 != ""
      && GetIn(registryType, RegisterAllIn(registryType, records, entries).0, entries[i].0) == Ok(entries[i].1.value)
    decreases |entries|
  {
    if entries != [] {
      var next := RegisterIn(registryType, records, entries[0].0, entries[0].1).value;
      RegisterUpdates(registryType, records, entries[0].0, entries[0].1);
      var rest := entries[1..];
      RegisterAllRegisters(registryType, next, rest);
      RegisterAllKeepsPresent(registryType, next, rest);
      var final := RegisterAllIn(registryType, records, entries).0;
      forall i | 0 <= i < |entries|
        ensures entries[i].1.Some? && entries[i].0 != ""
          && GetIn(registryType, final, entries[i].0) == Ok(entries[i].1.value)
      {
        if i == 0 {
          assert HasIn(next, entries[0].0);
          assert Lookup(final, entries[0].0) == Lookup(next, entries[0].0);
        } else {
          assert entries[i] == rest[i - 1];
        }
      }
    }
  }

  /** When `registerAll` fails, it failed on some entry `i`: the entries
      before it were all registered, that entry's registration gave the
      error, and the entries after it were not attempted. */
  lemma {:induction false} RegisterAllStops<T>(registryType: string, records: Records<T>, entries: Records<T>)
    returns (i: nat)
    requires RegisterAllIn(registryType, records, entries).1.Some?
    ensures i < |entries|
    ensures var before := RegisterAllIn(registryType, records, entries[..i]);
      before.1.None? && before.0 == RegisterAllIn(registryType, records, entries).0
      && RegisterIn(registryType, before.0, entries[i].0, entries[i].1)
        == Err(RegisterAllIn(registryType, records, entries).1.value)
    decreases |entries|
  {
    RegisterAllUnfold(registryType, records, entries);
    var first := RegisterIn(registryType, records, entries[0].0, entries[0].1);
    if first.Err? {
      i := 0;
      assert entries[..0] == [];
    } else {
      var j := RegisterAllStops(registryType, first.value, entries[1..]);
      i := j + 1;
      var prefix := entries[..i];
      assert prefix[0] == entries[0] && prefix[1..] == entries[1..][..j];
      RegisterAllUnfold(registryType, records, prefix);
      assert entries[i] == entries[1..][j];
    }
  }

  /** `Without` on a sequence extended by one entry. */
  lemma {:induction false} WithoutSnoc<T>(records: Records<T>, x: (string, Option<T>), name: string)
    ensures Without(records + [x], name) == Without(records, name) + (if x.0 == name then [] else [x])
    decreases |records|
  {
    if records == [] {
      assert [x][1..] == [];
    } else {
      assert (records + [x])[1..] == records[1..] + [x];
      WithoutSnoc(records[1..], x, name);
    }
  }

  /** After `remove(name)`, the name is absent, every other name keeps its
      item and the remaining names keep their order; removing an absent
      name changes nothing. */
  lemma RemoveFacts<T>(records: Records<T>, name: string)
    ensures !HasIn(Without(records, name), name)
    ensures forall n :: n != name ==> Lookup(Without(records, name), n) == Lookup(records, n)
    ensures Keys(Without(records, name)) == KeysWithout(Keys(records), name)
    ensures name !in Keys(records) ==> Without(records, name) == records
  {
    WithoutKeys(records, name);
    forall n | n != name ensures Lookup(Without(records, name), n) == Lookup(records, n) {
      WithoutLookup(records, name, n);
    }
    if name !in Keys(records) {
      WithoutAbsent(records, name);
    }
  }

  /** After `remove(name)`, registering a truthy item under a non-empty
      `name` succeeds. */
  lemma RemoveThenRegister<T>(registryType: string, records: Records<T>, name: string, item: T)
    requires name != ""
    ensures RegisterIn(registryType, Without(records, name), name, Some(item)).Ok?
    ensures GetIn(registryType, RegisterIn(registryType, Without(records, name), name, Some(item)).value, name)
      == Ok(item)
  {
    WithoutKeys(records, name);
    RegisterUpdates(registryType, Without(records, name), name, Some(item));
  }

  /** A registry: its type, fixed at construction, and its records. */
  class Registry<T> {
    const registryType: string
    var records: Records<T>

    /** The type is non-empty and, as in every JavaScript object, no name
        occurs twice. */
    ghost predicate Valid()
      reads this
    {
      registryType != "" && UniqueKeys(records)
    }

    /** The constructor's assignments; its check on the type is made by
        `NewRegistry`. */
    constructor(registryType: string, initials: Records<T>)
      ensures this.registryType == registryType && records == initials
    {
      this.registryType := registryType;
      records := initials;
    }

    function Has(name: string): (b: bool)
      reads this
      ensures b <==> HasIn(records, name)
    {
      HasIn(records, name)
    }

    function Get(name: string): (r: Result<T>)
      reads this
      ensures r == GetIn(registryType, records, name)
    {
      GetIn(registryType, records, name)
    }

    /** `register(name, item)`: on a failure the records are unchanged. */
    method Register(name: string, item: Option<T>) returns (res: Result<()>)
      requires Valid()
      modifies this
      ensures Valid()
      ensures match RegisterIn(registryType, old(records), name, item)
        case Ok(next) => res == Ok(()) && records == next
        case Err(e) => res == Err(e) && records == old(records)
    {
      if name == "" {
        return Fail(EmptyNameMessage(registryType, name));
      } else if Has(name) {
        return Fail(ExistsMessage(name, registryType));
      } else if item.None? {
        return Fail(EmptyItemMessage(registryType));
      }
      PutFacts(records, name, item);
      records := Put(records, name, item);
      return Ok(());
    }

    /** `registerAll(map)`: the loop over the map's keys. */
    method RegisterAll(items: Records<T>) returns (res: Result<()>)
      requires Valid()
      modifies this
      ensures Valid()
      ensures var outcome := RegisterAllIn(registryType, old(records), items);
        records == outcome.0
        && (outcome.1.None? ==> res == Ok(()))
        && (outcome.1.Some? ==> res == Err(outcome.1.value))
    {
      var i := 0;
      while i < |items|
        invariant i <= |items| && Valid()
        invariant RegisterAllIn(registryType, old(records), items) == RegisterAllIn(registryType, records, items[i..])
      {
        RegisterAllUnfold(registryType, records, items[i..]);
        assert items[i..][1..] == items[i + 1..];
        var registered := Register(items[i].0, items[i].1);
        if registered.Err? {
          return registered;
        }
        i := i + 1;
      }
      return Ok(());
    }

    /** `remove(name)`: the records are rebuilt from every entry under
        another name. */
    method Remove(name: string)
      requires Valid()
      modifies this
      ensures Valid()
      ensures records == Without(old(records), name)
    {
      var all := records;
      var mid: Records<T> := [];
      var i := 0;
      while i < |all|
        invariant i <= |all|
        invariant mid == Without(all[..i], name)
      {
        var key := all[i].0;
        assert all[..i + 1] == all[..i] + [all[i]];
        WithoutSnoc(all[..i], all[i], name);
        if key != name {
          WithoutKeys(all[..i], name);
          assert key !in Keys(all[..i]) by {
            forall j | 0 <= j < i ensures Keys(all[..i])[j] != key {
              assert all[..i][j] == all[j];
            }
          }
          PutAppends(mid, key, all[i].1);
          mid := Put(mid, key, all[i].1);
        }
        i := i + 1;
      }
      assert all[..i] == all;
      WithoutUnique(all, name);
      records := mid;
    }
  }

  /** `new Registry(registryType, initials)`: an empty type is refused. */
  method NewRegistry<T>(registryType: string, initials: Records<T>) returns (res: Result<Registry<T>>)
    ensures registryType == "" <==> res.Err?
    ensures res.Err? ==> res == Fail(EmptyTypeMessage)
    ensures res.Ok? ==>
      fresh(res.value) && res.value.registryType == registryType
      && res.value.records == initials
      && (UniqueKeys(initials) ==> res.value.Valid())
  {
    if registryType == "" {
      return Fail(EmptyTypeMessage);
    }
    var registry := new Registry(registryType, initials);
    return Ok(registry);
  }
}
