/** `renameField`, `dropField` and `pickField` (src/utils/rename-field.ts,
    src/utils/drop-field.ts, src/utils/pick-field.ts) and the pipes built
    on them (src/core-pipes/rename-field.ts, drop-field.ts, pick-field.ts):
    each returns a fresh object whose values are deep copies of the input's. */
module Fields {
  import opened Wrappers
  import opened AssocLists
  import opened Json
  import opened DeepCopy

  const RenameInputMessage: string :=
    "Can't rename a field within an object - input must be an object (and not an array)"
  const RenameOldMissingMessage: string :=
    "Can't rename a field within an object - property 'oldName' not given or empty"
  const RenameDesiredMissingMessage: string :=
    "Can't rename a field within an object - property 'desiredName' not given or empty"
  const RenamePipeMessage: string :=
    "Can't rename a field - both 'old' and 'new' fields are required"
  const DropInputMessage: string :=
    "Can't drop field - given input must be an object (and not an array)"
  const DropPipeMessage: string :=
    "Can't drop a field - not specified field to be dropped"
  const PickInputMessage: string :=
    "Can't pick a field - given input must be an object (and not an array)"
  const PickPipeMessage: string :=
    "Can't pick a field - not specified field or fields to be picked"

  function RenameAbsentMessage(name: string): string {
    "Can't rename a field within an object - property '" + name + "' not present"
  }

  function PickAbsentMessage(name: string): string {
    "Can't pick a field - field '" + name + "' is not present in the object"
  }

  /** The guard all three utilities start with:
      `typeof object !== 'object' || Array.isArray(object)`. */
  predicate NotPlainObject(v: Value) {
    TypeOf(v) != "object" || v.Arr?
  }

  /** The property key an assignment `o[v] = ...` converts `v` to. */
  function PropertyKey(v: Value): (k: string)
    ensures v.Str? ==> k == v.s
  {
    if v.Str? then v.s else ToJsString(v)
  }

  /** `Object.keys(object).includes(name)`: strict equality, so only a
      string can be found among the keys. */
  predicate Present(keys: seq<string>, name: Value) {
    name.Str? && name.s in keys
  }

  // ---------------------------------------------------------------------
  // Entries, filtered and copied
  // ---------------------------------------------------------------------

  /** Every entry with its value deep-copied. */
  function Copies(e: Entries): (c: Entries)
    ensures |c| == |e| && Keys(c) == Keys(e)
    ensures forall i :: 0 <= i < |e| ==> c[i] == (e[i].0, DeepCopy.DeepCopy(e[i].1))
  {
    seq(|e|, i requires 0 <= i < |e| => (e[i].0, DeepCopy.DeepCopy(e[i].1)))
  }

  /** The entries whose key `keep` accepts, in their original order. */
  function Filter(e: Entries, keep: string -> bool): Entries {
    if e == [] then [] else (if keep(e[0].0) then [e[0]] else []) + Filter(e[1..], keep)
  }

  /** The key test of `dropField`: `key !== field`. */
  function Dropping(field: Value): string -> bool {
    key => Str(key) != field
  }

  /** The key test of `pickField`: `toBePicked.includes(key)`. */
  function Picking(names: seq<Value>): string -> bool {
    key => Str(key) in names
  }

  /** The key test of several drops in a row: the key is none of them. */
  function DroppingAll(fields: seq<Value>): string -> bool {
    key => Str(key) !in fields
  }

  lemma {:induction false} FilterSnoc(e: Entries, x: (string, Value), keep: string -> bool)
    ensures Filter(e + [x], keep) == Filter(e, keep) + (if keep(x.0) then [x] else [])
  {
    if e == [] {
      assert Filter([x], keep) == (if keep(x.0) then [x] else []) + Filter([], keep);
    } else {
      var head := if keep(e[0].0) then [e[0]] else [];
      assert (e + [x])[0] == e[0] && (e + [x])[1..] == e[1..] + [x];
      assert Filter(e + [x], keep) == head + Filter(e[1..] + [x], keep);
      FilterSnoc(e[1..], x, keep);
      assert Filter(e, keep) == head + Filter(e[1..], keep);
    }
  }

  /** A key survives the filter exactly when it was there and is kept. */
  lemma {:induction false} FilterKeys(e: Entries, keep: string -> bool, k: string)
    ensures k in Keys(Filter(e, keep)) <==> k in Keys(e) && keep(k)
  {
    if e != [] {
      FilterKeys(e[1..], keep, k);
      assert Keys(e) == [e[0].0] + Keys(e[1..]);
      assert Keys(Filter(e, keep)) == Keys(if keep(e[0].0) then [e[0]] else []) + Keys(Filter(e[1..], keep));
    }
  }

  lemma {:induction false} FilterUnique(e: Entries, keep: string -> bool)
    requires UniqueKeys(e)
    ensures UniqueKeys(Filter(e, keep))
  {
    if e != [] {
      var t := e[1..];
      assert UniqueKeys(t) by {
        forall a, b | 0 <= a < b < |t| ensures t[a].0 != t[b].0 {
          assert t[a] == e[a + 1] && t[b] == e[b + 1];
        }
      }
      FilterUnique(t, keep);
      var f := Filter(t, keep);
      if keep(e[0].0) {
        assert e[0].0 !in Keys(f) by {
          FilterKeys(t, keep, e[0].0);
          forall j | 0 <= j < |t| ensures Keys(t)[j] != e[0].0 {
            assert t[j] == e[j + 1];
          }
        }
        var r := [e[0]] + f;
        forall i, j | 0 <= i < j < |r| ensures r[i].0 != r[j].0 {
          if i == 0 {
            assert Keys(f)[j - 1] == r[j].0;
          } else {
            assert r[i] == f[i - 1] && r[j] == f[j - 1];
          }
        }
      } else {
        assert Filter(e, keep) == f;
      }
    }
  }

  /** Filtering by "not this key" is `Without`. */
  lemma {:induction false} FilterDropping(e: Entries, k: string)
    ensures Filter(e, Dropping(Str(k))) == Without(e, k)
  {
    if e != [] {
      FilterDropping(e[1..], k);
    }
  }

  /** A filter that keeps every key changes nothing. */
  lemma {:induction false} FilterAll(e: Entries, keep: string -> bool)
    requires forall i :: 0 <= i < |e| ==> keep(e[i].0)
    ensures Filter(e, keep) == e
  {
    if e != [] {
      assert keep(e[0].0);
      FilterAll(e[1..], keep);
    }
  }

  /** Copying and filtering can be done in either order. */
  lemma {:induction false} FilterCopies(e: Entries, keep: string -> bool)
    ensures Filter(Copies(e), keep) == Copies(Filter(e, keep))
  {
    if e != [] {
      var c := Copies(e);
      FilterCopies(e[1..], keep);
      assert c[1..] == Copies(e[1..]);
      assert Filter(c, keep) == (if keep(e[0].0) then [c[0]] else []) + Filter(Copies(e[1..]), keep);
      var head := if keep(e[0].0) then [e[0]] else [];
      assert Filter(e, keep) == head + Filter(e[1..], keep);
      CopiesAppend(head, Filter(e[1..], keep));
      assert Copies(head) == if keep(e[0].0) then [c[0]] else [];
    }
  }

  lemma CopiesAppend(a: Entries, b: Entries)
    ensures Copies(a + b) == Copies(a) + Copies(b)
  {
    assert forall i :: 0 <= i < |a| ==> (a + b)[i] == a[i];
    assert forall i :: |a| <= i < |a| + |b| ==> (a + b)[i] == b[i - |a|];
  }

  /** Filtering twice is filtering once by both tests. */
  lemma {:induction false} FilterFilter(e: Entries, p: string -> bool, q: string -> bool, both: string -> bool)
    requires forall k :: both(k) == (p(k) && q(k))
    ensures Filter(Filter(e, p), q) == Filter(e, both)
  {
    if e != [] {
      FilterFilter(e[1..], p, q, both);
      var head := if p(e[0].0) then [e[0]] else [];
      FilterAppend(head, Filter(e[1..], p), q);
    }
  }

  lemma {:induction false} FilterAppend(a: Entries, b: Entries, keep: string -> bool)
    ensures Filter(a + b, keep) == Filter(a, keep) + Filter(b, keep)
  {
    if a == [] {
      assert a + b == b;
    } else {
      var head := if keep(a[0].0) then [a[0]] else [];
      assert (a + b)[0] == a[0] && (a + b)[1..] == a[1..] + b;
      assert Filter(a + b, keep) == head + Filter(a[1..] + b, keep);
      FilterAppend(a[1..], b, keep);
      assert Filter(a, keep) == head + Filter(a[1..], keep);
    }
  }

  /** Two tests that agree on every key filter alike. */
  lemma {:induction false} FilterSame(e: Entries, p: string -> bool, q: string -> bool)
    requires forall k :: p(k) == q(k)
    ensures Filter(e, p) == Filter(e, q)
  {
    if e != [] {
      FilterSame(e[1..], p, q);
    }
  }

  lemma CopiesOfCopies(e: Entries)
    ensures Copies(Copies(e)) == Copies(e)
  {
    forall i | 0 <= i < |e| ensures Copies(Copies(e))[i] == Copies(e)[i] {
      CopyIdempotent(e[i].1);
    }
  }

  lemma CopiesUnique(e: Entries)
    requires UniqueKeys(e)
    ensures UniqueKeys(Copies(e))
  {
    forall i, j | 0 <= i < j < |e| ensures Copies(e)[i].0 != Copies(e)[j].0 {
      assert Copies(e)[i].0 == e[i].0 && Copies(e)[j].0 == e[j].0;
    }
  }

  /** With unique keys, `DeepCopy` of the object copies its entries in
      place. */
  lemma CopyIsCopies(e: Entries)
    requires UniqueKeys(e)
    ensures DeepCopy.DeepCopy(Obj(e)) == Obj(Copies(e))
  {
    CopyObject(e);
    var c := DeepCopy.DeepCopy(Obj(e)).entries;
    assert |c| == |Keys(c)| == |Keys(e)| == |e|;
    forall i | 0 <= i < |e| ensures c[i] == Copies(e)[i] {
      assert Keys(c)[i] == Keys(e)[i];
    }
  }

  // ---------------------------------------------------------------------
  // The key loop shared by dropField and pickField
  // ---------------------------------------------------------------------

  /** The loop over `Object.keys(object)` after `i` steps: every key that
      `keep` accepts is assigned `deepCopy(object[key])`. */
  function Selected(all: Entries, n: nat, keep: string -> bool): Entries
    requires n <= |all|
  {
    if n == 0 then []
    else
      var key := all[n - 1].0;
      var m := Selected(all, n - 1, keep);
      if keep(key) then Put(m, key, DeepCopy.DeepCopy(Property(Obj(all), key))) else m
  }

  /** For an object with unique keys the loop keeps the accepted entries,
      in the object's order, each value copied. */
  lemma {:induction false} SelectedIsFilter(all: Entries, n: nat, keep: string -> bool)
    requires UniqueKeys(all) && n <= |all|
    ensures Selected(all, n, keep) == Filter(Copies(all[..n]), keep)
  {
    if n > 0 {
      SelectedIsFilter(all, n - 1, keep);
      var key := all[n - 1].0;
      var prev := Copies(all[..n - 1]);
      var x := (key, DeepCopy.DeepCopy(all[n - 1].1));
      assert Copies(all[..n]) == prev + [x];
      FilterSnoc(prev, x, keep);
      if keep(key) {
        LookupAt(all, n - 1);
        assert key !in Keys(Filter(prev, keep)) by {
          FilterKeys(prev, keep, key);
          forall j | 0 <= j < |prev| ensures Keys(prev)[j] != key {
            assert Keys(prev)[j] == all[j].0;
          }
        }
        PutAppends(Filter(prev, keep), key, x.1);
      }
    }
  }

  /** The whole loop over an object with unique keys. */
  lemma SelectedAll(all: Entries, keep: string -> bool)
    requires UniqueKeys(all)
    ensures Selected(all, |all|, keep) == Filter(Copies(all), keep)
  {
    SelectedIsFilter(all, |all|, keep);
    assert all[..|all|] == all;
  }

  // ---------------------------------------------------------------------
  // renameField
  // ---------------------------------------------------------------------

  function RenameKey(key: string, oldName: string, desiredName: string): string {
    if key == oldName then desiredName else key
  }

  /** The assignments the loop makes, in key order: `(desiredName,
      copy)` in place of `oldName`, `(key, copy)` elsewhere. */
  function Renaming(e: Entries, oldName: string, desiredName: string): (r: Entries)
    ensures |r| == |e|
    ensures forall i :: 0 <= i < |e| ==> r[i] == (RenameKey(e[i].0, oldName, desiredName), DeepCopy.DeepCopy(e[i].1))
  {
    seq(|e|, i requires 0 <= i < |e| => (RenameKey(e[i].0, oldName, desiredName), DeepCopy.DeepCopy(e[i].1)))
  }

  /** The loop of `renameField` after `n` keys. */
  function Renamed(all: Entries, n: nat, oldName: string, desiredName: string): Entries
    requires n <= |all|
  {
    if n == 0 then []
    else
      var key := all[n - 1].0;
      var m := Renamed(all, n - 1, oldName, desiredName);
      if key == oldName then Put(m, desiredName, DeepCopy.DeepCopy(Property(Obj(all), oldName)))
      else Put(m, key, DeepCopy.DeepCopy(Property(Obj(all), key)))
  }

  /** `renameField(object, oldName, desiredName)`, checks in the source's
      order; `Object.keys(null)` throws the engine's TypeError once both
      names have passed. */
  function RenameField(obj: Value, oldName: Value, desiredName: Value): (r: Result<Value>)
    ensures NotPlainObject(obj) <==> r == FailType(RenameInputMessage)
    ensures r.Ok? <==> obj.Obj? && Truthy(oldName) && Truthy(desiredName) && Present(Keys(obj.entries), oldName)
    ensures !NotPlainObject(obj) && !Truthy(oldName) ==> r == Fail(RenameOldMissingMessage)
  {
    if NotPlainObject(obj) then FailType(RenameInputMessage)
    else if !Truthy(oldName) then Fail(RenameOldMissingMessage)
    else if !Truthy(desiredName) then Fail(RenameDesiredMissingMessage)
    else if obj.Null? then Err(Error(ErrorKind.TypeError, NullObjectMessage))
    else if !Present(Keys(obj.entries), oldName) then Fail(RenameAbsentMessage(ToJsString(oldName)))
    else Ok(Obj(Renamed(obj.entries, |obj.entries|, oldName.s, PropertyKey(desiredName))))
  }

  /** The source's loop. */
  method Rename(obj: Value, oldName: Value, desiredName: Value) returns (r: Result<Value>)
    ensures r == RenameField(obj, oldName, desiredName)
  {
    if NotPlainObject(obj) {
      return FailType(RenameInputMessage);
    }
    if !Truthy(oldName) {
      return Fail(RenameOldMissingMessage);
    }
    if !Truthy(desiredName) {
      return Fail(RenameDesiredMissingMessage);
    }
    if obj.Null? {
      return Err(Error(ErrorKind.TypeError, NullObjectMessage));
    }
    var keys := Keys(obj.entries);
    if !Present(keys, oldName) {
      return Fail(RenameAbsentMessage(ToJsString(oldName)));
    }
    var desired := PropertyKey(desiredName);
    var modified: Entries := [];
    var i := 0;
    while i < |keys|
      invariant 0 <= i <= |keys|
      invariant modified == Renamed(obj.entries, i, oldName.s, desired)
    {
      var key := keys[i];
      if key == oldName.s {
        modified := Put(modified, desired, DeepCopy.DeepCopy(Property(obj, oldName.s)));
      } else {
        modified := Put(modified, key, DeepCopy.DeepCopy(Property(obj, key)));
      }
      i := i + 1;
    }
    r := Ok(Obj(modified));
  }

  /** The loop assigns the renamed entries one after the other. */
  lemma {:induction false} RenamedIsPutAll(all: Entries, n: nat, oldName: string, desiredName: string)
    requires UniqueKeys(all) && n <= |all|
    ensures Renamed(all, n, oldName, desiredName) == PutAll(Renaming(all[..n], oldName, desiredName))
  {
    if n > 0 {
      RenamedIsPutAll(all, n - 1, oldName, desiredName);
      LookupAt(all, n - 1);
      var s := Renaming(all[..n], oldName, desiredName);
      assert s[..n - 1] == Renaming(all[..n - 1], oldName, desiredName);
    }
  }

  /** The position of a key in the entries. */
  lemma KeyIndex(e: Entries, k: string) returns (i: nat)
    requires k in Keys(e)
    ensures i < |e| && e[i].0 == k
  {
    i :| 0 <= i < |Keys(e)| && Keys(e)[i] == k;
  }

  /** Both names truthy and the old name present: the loop runs. */
  lemma RenameFieldRuns(entries: Entries, oldName: string, desiredName: string)
    requires oldName in Keys(entries) && oldName != "" && desiredName != ""
    ensures RenameField(Obj(entries), Str(oldName), Str(desiredName)).Ok?
    ensures RenameField(Obj(entries), Str(oldName), Str(desiredName)).value
      == Obj(Renamed(entries, |entries|, oldName, desiredName))
  {
    RenameFieldBody(entries, oldName, desiredName);
    RenamedKey(entries, oldName, desiredName);
  }

  lemma RenameFieldBody(entries: Entries, oldName: string, desiredName: string)
    requires oldName in Keys(entries) && oldName != "" && desiredName != ""
    ensures RenameField(Obj(entries), Str(oldName), Str(desiredName))
      == Ok(Obj(Renamed(entries, |entries|, oldName, PropertyKey(Str(desiredName)))))
  {
    assert TypeOf(Obj(entries)) == "object" && !NotPlainObject(Obj(entries));
    assert Truthy(Str(oldName)) && Truthy(Str(desiredName));
    assert Present(Keys(entries), Str(oldName));
  }

  lemma RenamedKey(entries: Entries, oldName: string, desiredName: string)
    ensures Renamed(entries, |entries|, oldName, PropertyKey(Str(desiredName)))
      == Renamed(entries, |entries|, oldName, desiredName)
  {
  }

  /** Without a collision the renamed keys are unique again. */
  lemma RenamingUnique(entries: Entries, oldName: string, desiredName: string)
    requires UniqueKeys(entries)
    requires desiredName == oldName || desiredName !in Keys(entries)
    ensures UniqueKeys(Renaming(entries, oldName, desiredName))
  {
    var r := Renaming(entries, oldName, desiredName);
    forall i, j | 0 <= i < j < |r| ensures r[i].0 != r[j].0 {
      assert Keys(entries)[i] == entries[i].0 && Keys(entries)[j] == entries[j].0;
    }
  }

  /** The result, when `desiredName` is not another key of the object: the
      keys in their order with `desiredName` at the place of `oldName`, and
      every value a copy of the value that stood there. */
  lemma RenameFieldOutput(entries: Entries, oldName: string, desiredName: string)
    requires UniqueKeys(entries) && oldName in Keys(entries) && oldName != "" && desiredName != ""
    requires desiredName == oldName || desiredName !in Keys(entries)
    ensures RenameField(Obj(entries), Str(oldName), Str(desiredName))
      == Ok(Obj(Renaming(entries, oldName, desiredName)))
  {
    RenameFieldRuns(entries, oldName, desiredName);
    RenamedIsPutAll(entries, |entries|, oldName, desiredName);
    assert entries[..|entries|] == entries;
    RenamingUnique(entries, oldName, desiredName);
    PutAllOfUnique(Renaming(entries, oldName, desiredName));
  }

  /** After a rename without a collision, `desiredName` holds a copy of the
      old value, `oldName` is gone, and every other key keeps a copy of its
      value. */
  lemma RenameFieldMoves(entries: Entries, oldName: string, desiredName: string, k: string)
    requires UniqueKeys(entries) && oldName in Keys(entries) && oldName != "" && desiredName != ""
    requires desiredName != oldName && desiredName !in Keys(entries)
    ensures RenameField(Obj(entries), Str(oldName), Str(desiredName)).Ok?
    ensures var out := RenameField(Obj(entries), Str(oldName), Str(desiredName)).value.entries;
      && Lookup(out, desiredName) == Some(DeepCopy.DeepCopy(Lookup(entries, oldName).value))
      && Lookup(out, oldName) == None
      && (k != oldName && k != desiredName ==>
        Lookup(out, k) == match Lookup(entries, k) case Some(v) => Some(DeepCopy.DeepCopy(v)) case None => None)
  {
    RenameFieldOutput(entries, oldName, desiredName);
    RenamingMoves(entries, oldName, desiredName, k);
  }

  /** The entries a rename assigns, when `desiredName` is new: the copy of
      the old value under `desiredName`, no `oldName`, and a copy of the
      value under every other key. */
  lemma RenamingMoves(entries: Entries, oldName: string, desiredName: string, k: string)
    requires UniqueKeys(entries) && oldName in Keys(entries)
    requires desiredName != oldName && desiredName !in Keys(entries)
    ensures var out := Renaming(entries, oldName, desiredName);
      && Lookup(out, desiredName) == Some(DeepCopy.DeepCopy(Lookup(entries, oldName).value))
      && Lookup(out, oldName) == None
      && (k != oldName && k != desiredName ==>
        Lookup(out, k) == match Lookup(entries, k) case Some(v) => Some(DeepCopy.DeepCopy(v)) case None => None)
  {
    var out := Renaming(entries, oldName, desiredName);
    RenamingUnique(entries, oldName, desiredName);
    var o := KeyIndex(entries, oldName);
    LookupAt(entries, o);
    assert out[o] == (desiredName, DeepCopy.DeepCopy(entries[o].1));
    LookupAt(out, o);
    assert oldName !in Keys(out) by {
      forall j | 0 <= j < |out| ensures Keys(out)[j] != oldName {
        assert out[j].0 == RenameKey(entries[j].0, oldName, desiredName);
      }
    }
    if k != oldName && k != desiredName {
      if k in Keys(entries) {
        var i := KeyIndex(entries, k);
        LookupAt(entries, i);
        assert out[i] == (k, DeepCopy.DeepCopy(entries[i].1));
        LookupAt(out, i);
      } else {
        assert k !in Keys(out) by {
          forall j | 0 <= j < |out| ensures Keys(out)[j] != k {
            assert out[j].0 == RenameKey(entries[j].0, oldName, desiredName);
            assert Keys(entries)[j] == entries[j].0;
          }
        }
      }
    }
  }

  /** Renaming a field to its own name gives a deep copy of the object. */
  lemma RenameToItself(entries: Entries, name: string)
    requires UniqueKeys(entries) && name in Keys(entries) && name != ""
    ensures RenameField(Obj(entries), Str(name), Str(name)) == Ok(DeepCopy.DeepCopy(Obj(entries)))
  {
    RenameFieldOutput(entries, name, name);
    CopyIsCopies(entries);
    assert Renaming(entries, name, name) == Copies(entries);
  }

  /** A collision: the later assignment wins. Renaming `a` to `b` in
      `{ a: x, b: y }` gives `{ b: y }`. */
  lemma RenameOntoLater(e: Entries, x: Value, y: Value)
    requires e == [("a", x), ("b", y)]
    ensures RenameField(Obj(e), Str("a"), Str("b")) == Ok(Obj([("b", DeepCopy.DeepCopy(y))]))
  {
    assert Keys(e) == ["a", "b"];
    assert UniqueKeys(e);
    RenameFieldRuns(e, "a", "b");
    RenamedIsPutAll(e, 2, "a", "b");
    assert e[..2] == e;
    var r := Renaming(e, "a", "b");
    assert r == [("b", DeepCopy.DeepCopy(x)), ("b", DeepCopy.DeepCopy(y))];
    assert r[..1] == [("b", DeepCopy.DeepCopy(x))];
    assert PutAll(r[..1]) == [("b", DeepCopy.DeepCopy(x))];
    assert PutAll(r) == Put(PutAll(r[..1]), "b", DeepCopy.DeepCopy(y));
    assert PutAll(r) == [("b", DeepCopy.DeepCopy(y))];
    assert Renamed(e, |e|, "a", "b") == PutAll(r);
    var out := RenameField(Obj(e), Str("a"), Str("b"));
    assert out.Ok? && out.value == Obj(PutAll(r));
  }

  /** The renamed value lands at the place of an earlier key of the same
      name: renaming `a` to `b` in `{ b: y, a: x }` gives `{ b: x }`. */
  lemma RenameOntoEarlier(e: Entries, x: Value, y: Value)
    requires e == [("b", y), ("a", x)]
    ensures RenameField(Obj(e), Str("a"), Str("b")) == Ok(Obj([("b", DeepCopy.DeepCopy(x))]))
  {
    assert Keys(e) == ["b", "a"];
    assert UniqueKeys(e);
    RenameFieldRuns(e, "a", "b");
    RenamedIsPutAll(e, 2, "a", "b");
    assert e[..2] == e;
    var r := Renaming(e, "a", "b");
    assert r == [("b", DeepCopy.DeepCopy(y)), ("b", DeepCopy.DeepCopy(x))];
    assert r[..1] == [("b", DeepCopy.DeepCopy(y))];
    assert PutAll(r[..1]) == [("b", DeepCopy.DeepCopy(y))];
    assert PutAll(r) == Put(PutAll(r[..1]), "b", DeepCopy.DeepCopy(x));
    assert PutAll(r) == [("b", DeepCopy.DeepCopy(x))];
    assert Renamed(e, |e|, "a", "b") == PutAll(r);
    var out := RenameField(Obj(e), Str("a"), Str("b"));
    assert out.Ok? && out.value == Obj(PutAll(r));
  }

  /** The factory reads `config.old` and `config.new`, and both must be
      truthy. */
  function RenameFieldConfig(config: Value): (r: Result<(Value, Value)>)
    ensures r.Ok? ==> Truthy(r.value.0) && Truthy(r.value.1)
    ensures !Nullish(config) ==>
      (r.Ok? <==> Truthy(Property(config, "old")) && Truthy(Property(config, "new")))
  {
    var originalName :- Get(config, "old");
    var desiredName := Property(config, "new");
    if !Truthy(originalName) || !Truthy(desiredName) then Fail(RenamePipeMessage)
    else Ok((originalName, desiredName))
  }

  /** A pipe the factory accepted fails on an input exactly when the input
      is not an object or lacks the old name. */
  lemma RenamePipeChecked(config: Value, input: Value)
    requires RenameFieldConfig(config).Ok?
    ensures var names := RenameFieldConfig(config).value;
      RenameField(input, names.0, names.1).Ok? <==> input.Obj? && Present(Keys(input.entries), names.0)
  {
  }

  // ---------------------------------------------------------------------
  // dropField
  // ---------------------------------------------------------------------

  /** `dropField(object, field)`. */
  function DropField(obj: Value, field: Value): (r: Result<Value>)
    ensures NotPlainObject(obj) <==> r == FailType(DropInputMessage)
    ensures obj.Null? ==> r == Err(Error(ErrorKind.TypeError, NullObjectMessage))
    ensures r.Ok? <==> obj.Obj?
    ensures r.Ok? ==> r.value.Obj? && forall k :: k in Keys(r.value.entries) ==> k in Keys(obj.entries) && Str(k) != field
  {
    if NotPlainObject(obj) then FailType(DropInputMessage)
    else if obj.Null? then Err(Error(ErrorKind.TypeError, NullObjectMessage))
    else
      var out := Selected(obj.entries, |obj.entries|, Dropping(field));
      SelectedKeys(obj.entries, |obj.entries|, Dropping(field));
      Ok(Obj(out))
  }

  /** Every key the loop assigns is a key of the object that passed the
      test. */
  lemma {:induction false} SelectedKeys(all: Entries, n: nat, keep: string -> bool)
    requires n <= |all|
    ensures forall k :: k in Keys(Selected(all, n, keep)) ==> k in Keys(all) && keep(k)
  {
    if n > 0 {
      SelectedKeys(all, n - 1, keep);
      var key := all[n - 1].0;
      assert Keys(all)[n - 1] == key;
      if keep(key) {
        PutKeys(Selected(all, n - 1, keep), key, DeepCopy.DeepCopy(Property(Obj(all), key)));
      }
    }
  }

  /** The source's loop. */
  method Drop(obj: Value, field: Value) returns (r: Result<Value>)
    ensures r == DropField(obj, field)
  {
    if NotPlainObject(obj) {
      return FailType(DropInputMessage);
    }
    if obj.Null? {
      return Err(Error(ErrorKind.TypeError, NullObjectMessage));
    }
    var keys := Keys(obj.entries);
    var modified: Entries := [];
    var i := 0;
    while i < |keys|
      invariant 0 <= i <= |keys|
      invariant modified == Selected(obj.entries, i, Dropping(field))
    {
      var key := keys[i];
      if Str(key) != field {
        modified := Put(modified, key, DeepCopy.DeepCopy(Property(obj, key)));
      }
      i := i + 1;
    }
    r := Ok(Obj(modified));
  }

  /** On an object with unique keys, dropping a field is `Without` on the
      copied entries: the other keys in their order, values copied. */
  lemma DropFieldOutput(entries: Entries, field: string)
    requires UniqueKeys(entries)
    ensures DropField(Obj(entries), Str(field)) == Ok(Obj(Without(Copies(entries), field)))
  {
    SelectedAll(entries, Dropping(Str(field)));
    FilterDropping(Copies(entries), field);
  }

  /** Dropping a field the object does not have gives a deep copy. */
  lemma DropAbsent(entries: Entries, field: Value)
    requires UniqueKeys(entries) && !Present(Keys(entries), field)
    ensures DropField(Obj(entries), field) == Ok(DeepCopy.DeepCopy(Obj(entries)))
  {
    SelectedAll(entries, Dropping(field));
    forall i | 0 <= i < |Copies(entries)| ensures Dropping(field)(Copies(entries)[i].0) {
      assert Keys(entries)[i] == entries[i].0;
    }
    FilterAll(Copies(entries), Dropping(field));
    CopyIsCopies(entries);
  }

  /** A drop applied to an object with unique keys filters its copied
      entries, and the result has unique keys again. */
  lemma DropFiltered(entries: Entries, field: Value)
    requires UniqueKeys(entries)
    ensures DropField(Obj(entries), field) == Ok(Obj(Filter(Copies(entries), Dropping(field))))
    ensures UniqueKeys(Filter(Copies(entries), Dropping(field)))
  {
    SelectedAll(entries, Dropping(field));
    CopiesUnique(entries);
    FilterUnique(Copies(entries), Dropping(field));
  }

  /** A second drop filters again: copying an already copied value changes
      nothing. */
  lemma DropTwice(entries: Entries, a: Value, b: Value, both: string -> bool)
    requires UniqueKeys(entries)
    requires forall k :: both(k) == (Dropping(a)(k) && Dropping(b)(k))
    ensures DropField(DropField(Obj(entries), a).value, b) == Ok(Obj(Filter(Copies(entries), both)))
  {
    DropFiltered(entries, a);
    var once := Filter(Copies(entries), Dropping(a));
    DropFiltered(once, b);
    FilterCopies(Copies(entries), Dropping(a));
    CopiesOfCopies(entries);
    FilterFilter(Copies(entries), Dropping(a), Dropping(b), both);
  }

  /** Dropping the same field twice is dropping it once. */
  lemma DropIdempotent(entries: Entries, field: Value)
    requires UniqueKeys(entries)
    ensures DropField(DropField(Obj(entries), field).value, field) == DropField(Obj(entries), field)
  {
    DropTwice(entries, field, field, Dropping(field));
    DropFiltered(entries, field);
  }

  /** Two drops can be made in either order. */
  lemma DropCommutes(entries: Entries, a: Value, b: Value)
    requires UniqueKeys(entries)
    ensures DropField(DropField(Obj(entries), a).value, b) == DropField(DropField(Obj(entries), b).value, a)
  {
    DropTwice(entries, a, b, DroppingAll([a, b]));
    DropTwice(entries, b, a, DroppingAll([a, b]));
  }

  /** The factory: `config.field` must be truthy; an array lists the
      fields, a string is one field, and anything else drops nothing. */
  function DropFieldConfig(config: Value): (r: Result<seq<Value>>)
    ensures !Nullish(config) ==> (r.Ok? <==> Truthy(Property(config, "field")))
    ensures r.Ok? && !Nullish(config) && Property(config, "field").Str? ==> r.value == [Property(config, "field")]
    ensures r.Ok? && !Nullish(config) && Property(config, "field").Arr? ==> r.value == Property(config, "field").items
    ensures r.Ok? && !Nullish(config) && !Property(config, "field").Str? && !Property(config, "field").Arr? ==>
      r.value == []
  {
    var field :- Get(config, "field");
    if !Truthy(field) then Fail(DropPipeMessage)
    else if field.Arr? then Ok(field.items)
    else if field.Str? then Ok([field])
    else Ok([])
  }

  /** The pipe: `modified = dropField(modified, item)` for each field in
      turn; the first failure ends it. */
  function DropAll(input: Value, toDrop: seq<Value>): (r: Result<Value>)
    ensures toDrop != [] && NotPlainObject(input) ==> r == FailType(DropInputMessage)
    ensures toDrop != [] && input.Null? ==> r == Err(Error(ErrorKind.TypeError, NullObjectMessage))
    decreases |toDrop|
  {
    if toDrop == [] then Ok(input)
    else
      match DropAll(input, toDrop[..|toDrop| - 1])
      case Ok(m) => DropField(m, toDrop[|toDrop| - 1])
      case Err(e) => Err(e)
  }

  /** The pipe's loop. */
  method DropFields(input: Value, toDrop: seq<Value>) returns (r: Result<Value>)
    ensures r == DropAll(input, toDrop)
  {
    var modified := input;
    var i := 0;
    while i < |toDrop|
      invariant 0 <= i <= |toDrop|
      invariant DropAll(input, toDrop[..i]) == Ok(modified)
    {
      DropAllStep(input, toDrop, i);
      var next := Drop(modified, toDrop[i]);
      if next.Err? {
        DropAllStops(input, toDrop, i + 1);
        return next;
      }
      modified := next.value;
      i := i + 1;
    }
    assert toDrop[..|toDrop|] == toDrop;
    r := Ok(modified);
  }

  lemma DropAllStep(input: Value, toDrop: seq<Value>, i: nat)
    requires i < |toDrop|
    ensures DropAll(input, toDrop[..i + 1])
      == match DropAll(input, toDrop[..i]) case Ok(m) => DropField(m, toDrop[i]) case Err(e) => Err(e)
  {
    assert toDrop[..i + 1][..i] == toDrop[..i];
  }

  /** Once a drop has failed, the later ones do not run. */
  lemma {:induction false} DropAllStops(input: Value, toDrop: seq<Value>, n: nat)
    requires 0 < n <= |toDrop| && DropAll(input, toDrop[..n]).Err?
    ensures DropAll(input, toDrop) == DropAll(input, toDrop[..n])
    decreases |toDrop| - n
  {
    if n < |toDrop| {
      assert toDrop[..n + 1][..n] == toDrop[..n];
      DropAllStops(input, toDrop, n + 1);
    } else {
      assert toDrop[..n] == toDrop;
    }
  }

  /** On an object with unique keys, a non-empty list of fields leaves
      exactly the keys that are none of them, in the object's order, each
      with a copy of its value; an empty list returns the input itself. */
  lemma {:induction false} DropAllOutput(entries: Entries, toDrop: seq<Value>)
    requires UniqueKeys(entries)
    ensures DropAll(Obj(entries), toDrop)
      == if toDrop == [] then Ok(Obj(entries)) else Ok(Obj(Filter(Copies(entries), DroppingAll(toDrop))))
    decreases |toDrop|
  {
    if toDrop != [] {
      var init := toDrop[..|toDrop| - 1];
      var last := toDrop[|toDrop| - 1];
      assert forall k :: DroppingAll(toDrop)(k) == (DroppingAll(init)(k) && Dropping(last)(k)) by {
        assert toDrop == init + [last];
      }
      DropAllOutput(entries, init);
      if init == [] {
        DropFiltered(entries, last);
        FilterSame(Copies(entries), Dropping(last), DroppingAll(toDrop));
      } else {
        var before := Filter(Copies(entries), DroppingAll(init));
        CopiesUnique(entries);
        FilterUnique(Copies(entries), DroppingAll(init));
        DropFiltered(before, last);
        FilterCopies(Copies(entries), DroppingAll(init));
        CopiesOfCopies(entries);
        FilterFilter(Copies(entries), DroppingAll(init), Dropping(last), DroppingAll(toDrop));
      }
    }
  }

  // ---------------------------------------------------------------------
  // pickField
  // ---------------------------------------------------------------------

  /** The check loop over an array of names: the first name that is not a
      key of the object. */
  function FirstAbsent(keys: seq<string>, names: seq<Value>): (r: Option<nat>)
    ensures r.None? <==> forall i :: 0 <= i < |names| ==> Present(keys, names[i])
    ensures r.Some? ==>
      r.value < |names| && !Present(keys, names[r.value]) && forall i :: 0 <= i < r.value ==> Present(keys, names[i])
  {
    if names == [] then None
    else if !Present(keys, names[0]) then Some(0)
    else match FirstAbsent(keys, names[1..])
      case None => None
      case Some(i) => Some(i + 1)
  }

  /** `toBePicked`: a string that is a key, every name of an array when all
      are keys, and nothing for any other value; a name that is not a key
      throws, naming the first. */
  function ToBePicked(keys: seq<string>, field: Value): (r: Result<seq<Value>>)
    ensures field.Str? ==> r == if field.s in keys then Ok([field]) else Fail(PickAbsentMessage(field.s))
    ensures field.Arr? ==> (r.Ok? <==> forall i :: 0 <= i < |field.items| ==> Present(keys, field.items[i]))
    ensures field.Arr? && r.Ok? ==> r.value == field.items
    ensures field.Arr? && r.Err? ==>
      exists i :: (0 <= i < |field.items| && !Present(keys, field.items[i])
        && (forall j :: 0 <= j < i ==> Present(keys, field.items[j]))
        && r == Fail(PickAbsentMessage(ToJsString(field.items[i]))))
    ensures !field.Str? && !field.Arr? ==> r == Ok([])
  {
    if field.Str? then
      if field.s !in keys then Fail(PickAbsentMessage(field.s)) else Ok([field])
    else if field.Arr? then
      match FirstAbsent(keys, field.items)
      case Some(i) => Fail(PickAbsentMessage(ToJsString(field.items[i])))
      case None => Ok(field.items)
    else Ok([])
  }

  /** `pickField(object, field)`. */
  function PickField(obj: Value, field: Value): (r: Result<Value>)
    ensures NotPlainObject(obj) <==> r == FailType(PickInputMessage)
    ensures obj.Null? ==> r == Err(Error(ErrorKind.TypeError, NullObjectMessage))
    ensures r.Ok? <==> obj.Obj? && ToBePicked(Keys(obj.entries), field).Ok?
  {
    if NotPlainObject(obj) then FailType(PickInputMessage)
    else if obj.Null? then Err(Error(ErrorKind.TypeError, NullObjectMessage))
    else
      var toBePicked :- ToBePicked(Keys(obj.entries), field);
      Ok(Obj(Selected(obj.entries, |obj.entries|, Picking(toBePicked))))
  }

  /** The source's two loops. */
  method Pick(obj: Value, field: Value) returns (r: Result<Value>)
    ensures r == PickField(obj, field)
  {
    if NotPlainObject(obj) {
      return FailType(PickInputMessage);
    }
    if obj.Null? {
      return Err(Error(ErrorKind.TypeError, NullObjectMessage));
    }
    var keys := Keys(obj.entries);
    var toBePicked: seq<Value> := [];
    if field.Str? {
      if field.s !in keys {
        return Fail(PickAbsentMessage(field.s));
      }
      toBePicked := [field];
    } else if field.Arr? {
      var j := 0;
      while j < |field.items|
        invariant 0 <= j <= |field.items|
        invariant forall i :: 0 <= i < j ==> Present(keys, field.items[i])
      {
        if !Present(keys, field.items[j]) {
          FirstAbsentAt(keys, field.items, j);
          return Fail(PickAbsentMessage(ToJsString(field.items[j])));
        }
        j := j + 1;
      }
      toBePicked := field.items;
    }
    var modified: Entries := [];
    var i := 0;
    while i < |keys|
      invariant 0 <= i <= |keys|
      invariant modified == Selected(obj.entries, i, Picking(toBePicked))
    {
      var key := keys[i];
      if Str(key) in toBePicked {
        modified := Put(modified, key, DeepCopy.DeepCopy(Property(obj, key)));
      }
      i := i + 1;
    }
    r := Ok(Obj(modified));
  }

  /** The first absent name is the one the check loop stops at. */
  lemma {:induction false} FirstAbsentAt(keys: seq<string>, names: seq<Value>, j: nat)
    requires j < |names| && !Present(keys, names[j])
    requires forall i :: 0 <= i < j ==> Present(keys, names[i])
    ensures FirstAbsent(keys, names) == Some(j)
  {
    if j > 0 {
      assert Present(keys, names[0]);
      assert forall i :: 0 <= i < j - 1 ==> Present(keys, names[1..][i]) by {
        forall i | 0 <= i < j - 1 ensures Present(keys, names[1..][i]) {
          assert names[1..][i] == names[i + 1];
        }
      }
      FirstAbsentAt(keys, names[1..], j - 1);
    }
  }

  /** On an object with unique keys the result holds exactly the picked
      keys, in the object's order (not the order of the names), each with
      a copy of its value. */
  lemma PickFieldOutput(entries: Entries, field: Value)
    requires UniqueKeys(entries) && ToBePicked(Keys(entries), field).Ok?
    ensures PickField(Obj(entries), field)
      == Ok(Obj(Filter(Copies(entries), Picking(ToBePicked(Keys(entries), field).value))))
    ensures UniqueKeys(PickField(Obj(entries), field).value.entries)
  {
    var t := ToBePicked(Keys(entries), field).value;
    SelectedAll(entries, Picking(t));
    CopiesUnique(entries);
    FilterUnique(Copies(entries), Picking(t));
  }

  /** With an array of names that are all keys, a key is in the result
      exactly when it is named, and it holds a copy of its value; naming a
      key twice does not repeat it. */
  lemma PickFieldKeys(entries: Entries, names: seq<Value>, k: string)
    requires UniqueKeys(entries) && forall i :: 0 <= i < |names| ==> Present(Keys(entries), names[i])
    ensures PickField(Obj(entries), Arr(names)).Ok?
    ensures var out := PickField(Obj(entries), Arr(names)).value.entries;
      UniqueKeys(out)
      && (k in Keys(out) <==> Str(k) in names)
      && Lookup(out, k) == if Str(k) in names then Some(DeepCopy.DeepCopy(Lookup(entries, k).value)) else None
  {
    PickFieldOutput(entries, Arr(names));
    var out := Filter(Copies(entries), Picking(names));
    FilterKeys(Copies(entries), Picking(names), k);
    if Str(k) in names {
      var n :| n in names && n == Str(k);
      assert k in Keys(entries);
      var i :| 0 <= i < |entries| && Keys(entries)[i] == k;
      LookupAt(entries, i);
      FilterMember(Copies(entries), Picking(names), Copies(entries)[i]);
      var j :| 0 <= j < |out| && out[j] == Copies(entries)[i];
      LookupAt(out, j);
    }
  }

  lemma {:induction false} FilterMember(e: Entries, keep: string -> bool, x: (string, Value))
    ensures x in Filter(e, keep) <==> x in e && keep(x.0)
  {
    if e != [] {
      FilterMember(e[1..], keep, x);
      assert x in e <==> x == e[0] || x in e[1..];
    }
  }

  /** Picking every key, in any order, gives a deep copy of the object. */
  lemma PickAll(entries: Entries, names: seq<Value>)
    requires UniqueKeys(entries)
    requires forall i :: 0 <= i < |names| ==> Present(Keys(entries), names[i])
    requires forall k :: k in Keys(entries) ==> Str(k) in names
    ensures PickField(Obj(entries), Arr(names)) == Ok(DeepCopy.DeepCopy(Obj(entries)))
  {
    PickFieldOutput(entries, Arr(names));
    forall i | 0 <= i < |Copies(entries)| ensures Picking(names)(Copies(entries)[i].0) {
      assert Keys(entries)[i] == entries[i].0;
    }
    FilterAll(Copies(entries), Picking(names));
    CopyIsCopies(entries);
  }

  /** An empty list of names picks nothing. */
  lemma PickNone(entries: Entries)
    ensures PickField(Obj(entries), Arr([])) == Ok(Obj([]))
  {
    var keep := Picking([]);
    assert forall n :: 0 <= n <= |entries| ==> Selected(entries, n, keep) == [] by {
      forall n | 0 <= n <= |entries| ensures Selected(entries, n, keep) == [] {
        SelectedNone(entries, n, keep);
      }
    }
  }

  lemma {:induction false} SelectedNone(all: Entries, n: nat, keep: string -> bool)
    requires n <= |all| && forall k :: !keep(k)
    ensures Selected(all, n, keep) == []
  {
    if n > 0 {
      SelectedNone(all, n - 1, keep);
    }
  }

  /** Repeating the list of names changes nothing. */
  lemma PickDuplicates(entries: Entries, names: seq<Value>)
    requires UniqueKeys(entries)
    ensures PickField(Obj(entries), Arr(names + names)) == PickField(Obj(entries), Arr(names))
  {
    var keys := Keys(entries);
    var twice := names + names;
    if forall i :: 0 <= i < |names| ==> Present(keys, names[i]) {
      assert forall i :: 0 <= i < |twice| ==> Present(keys, twice[i]) by {
        forall i | 0 <= i < |twice| ensures Present(keys, twice[i]) {
          if i >= |names| {
            assert twice[i] == names[i - |names|];
          }
        }
      }
      SelectedAll(entries, Picking(names));
      SelectedAll(entries, Picking(twice));
      FilterSame(Copies(entries), Picking(twice), Picking(names));
    } else {
      var i := FirstAbsent(keys, names).value;
      FirstAbsentAt(keys, twice, i);
    }
  }

  /** The factory: `config.field` must be truthy, and a string or an
      array. */
  function PickFieldConfig(config: Value): (r: Result<Value>)
    ensures r.Ok? ==> r.value.Str? || r.value.Arr?
    ensures !Nullish(config) ==>
      (r.Ok? <==> Truthy(Property(config, "field")) && (Property(config, "field").Str? || Property(config, "field").Arr?))
    ensures !Nullish(config) && Truthy(Property(config, "field")) && r.Err? ==>
      r.error.kind == ErrorKind.TypeError
  {
    var field :- Get(config, "field");
    if !Truthy(field) then Fail(PickPipeMessage)
    else if !field.Str? && !field.Arr? then FailType("Can't pick a field - unrecognized type '" + TypeOf(field) + "'")
    else Ok(field)
  }
}
