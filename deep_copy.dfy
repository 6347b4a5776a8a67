/** `deepCopy` (src/utils/deep-copy.ts) on JSON-like values. */
module DeepCopy {
  import opened AssocLists
  import opened Json

  /** Every object, at any depth, has unique keys: the shape of every value
      a JavaScript program can build. */
  ghost predicate WellFormed(v: Value) {
    match v
    case Arr(items) => forall i :: 0 <= i < |items| ==> WellFormed(items[i])
    case Obj(entries) =>
      UniqueKeys(entries) && forall i :: 0 <= i < |entries| ==> WellFormed(entries[i].1)
    case _ => true
  }

  /** No `null` occurs anywhere inside the value. */
  ghost predicate NullFree(v: Value) {
    match v
    case Null => false
    case Arr(items) => forall i :: 0 <= i < |items| ==> NullFree(items[i])
    case Obj(entries) => forall i :: 0 <= i < |entries| ==> NullFree(entries[i].1)
    case _ => true
  }

  /** Assigning the entries one after the other into a fresh object. */
  function PutAll(e: Entries): Entries {
    if e == [] then [] else Put(PutAll(e[..|e| - 1]), e[|e| - 1].0, e[|e| - 1].1)
  }

  /** The copy, as the source computes it: values that are not of type
      `object` are returned as they are, arrays are copied item by item, and
      everything else of type `object`, `null` included, is filled key by key
      into a fresh object (so `null` becomes `{}`). */
  function DeepCopy(v: Value): Value {
    match v
    case Null => Obj([])
    case Arr(items) => Arr(seq(|items|, i requires 0 <= i < |items| => DeepCopy(items[i])))
    case Obj(entries) =>
      Obj(PutAll(seq(|entries|, i requires 0 <= i < |entries| =>
        (entries[i].0, DeepCopy(entries[i].1)))))
    case _ => v
  }

  /** The imperative copy: the object branch fills `copy` in a loop, as the
      source's `for ... in` does. */
  method Copy(v: Value) returns (r: Value)
    ensures r == DeepCopy(v)
    decreases v
  {
    match v {
      case Null =>
        r := Obj([]);
      case Arr(items) =>
        var copies: seq<Value> := [];
        var i := 0;
        while i < |items|
          invariant 0 <= i <= |items|
          invariant copies == seq(i, j requires 0 <= j < i => DeepCopy(items[j]))
        {
          var c := Copy(items[i]);
          copies := copies + [c];
          i := i + 1;
        }
        r := Arr(copies);
      case Obj(entries) =>
        ghost var copied := seq(|entries|, i requires 0 <= i < |entries| =>
          (entries[i].0, DeepCopy(entries[i].1)));
        var copy: Entries := [];
        var i := 0;
        while i < |entries|
          invariant 0 <= i <= |entries|
          invariant copy == PutAll(copied[..i])
        {
          var c := Copy(entries[i].1);
          assert copied[..i + 1][..i] == copied[..i];
          copy := Put(copy, entries[i].0, c);
          i := i + 1;
        }
        assert copied[..|entries|] == copied;
        r := Obj(copy);
      case _ =>
        r := v;
    }
  }

  lemma {:induction false} PutAllKeys(e: Entries)
    ensures UniqueKeys(PutAll(e))
    ensures forall k :: k in Keys(PutAll(e)) <==> k in Keys(e)
  {
    if e != [] {
      var init, last := e[..|e| - 1], e[|e| - 1];
      var filled := PutAll(init);
      assert PutAll(e) == Put(filled, last.0, last.1);
      PutAllKeys(init);
      PutUnique(filled, last.0, last.1);
      PutKeys(filled, last.0, last.1);
      assert e == init + [last];
      KeysAppend(init, last);
    }
  }

  /** Filling a fresh object with entries whose keys are already unique
      reproduces them, in the same order. */
  lemma {:induction false} PutAllOfUnique(e: Entries)
    requires UniqueKeys(e)
    ensures PutAll(e) == e
  {
    if e != [] {
      var init := e[..|e| - 1];
      var last := e[|e| - 1];
      assert UniqueKeys(init);
      PutAllOfUnique(init);
      assert last.0 !in Keys(init) by {
        forall j | 0 <= j < |init| ensures Keys(init)[j] != last.0 {
          assert init[j] == e[j];
        }
      }
      PutKeys(init, last.0, last.1);
      assert Put(init, last.0, last.1) == init + [last] by {
        PutAppends(init, last.0, last.1);
      }
      assert init + [last] == e;
    }
  }

  /** The copy is always well formed, whatever the input. */
  lemma {:induction false} CopyWellFormed(v: Value)
    ensures WellFormed(DeepCopy(v))
    decreases v
  {
    match v
    case Arr(items) =>
      forall i | 0 <= i < |items| ensures WellFormed(DeepCopy(items[i])) {
        CopyWellFormed(items[i]);
      }
    case Obj(entries) =>
      var copied := seq(|entries|, i requires 0 <= i < |entries| =>
        (entries[i].0, DeepCopy(entries[i].1)));
      PutAllKeys(copied);
      var p := PutAll(copied);
      forall j | 0 <= j < |p| ensures WellFormed(p[j].1) {
        var i := PutAllValueFrom(copied, j);
        CopyWellFormed(entries[i].1);
      }
    case _ =>
  }

  /** Every value in `PutAll(e)` is one of the values in `e`. */
  lemma {:induction false} PutAllValueFrom(e: Entries, j: nat) returns (i: nat)
    requires j < |PutAll(e)|
    ensures i < |e| && PutAll(e)[j] == e[i]
  {
    var init := e[..|e| - 1];
    var last := e[|e| - 1];
    var p := PutAll(init);
    var q := Put(p, last.0, last.1);
    if q[j] == last {
      i := |e| - 1;
    } else {
      var j' := PutEntryFrom(p, last.0, last.1, j);
      var i' := PutAllValueFrom(init, j');
      i := i';
    }
  }

  /** An entry of `Put(e, k, v)` other than `(k, v)` is an entry of `e`. */
  lemma {:induction false} PutEntryFrom(e: Entries, k: string, v: Value, j: nat) returns (j': nat)
    requires j < |Put(e, k, v)| && Put(e, k, v)[j] != (k, v)
    ensures j' < |e| && Put(e, k, v)[j] == e[j']
  {
    if e == [] {
      assert false;
    } else if e[0].0 == k {
      j' := j;
    } else if j == 0 {
      j' := 0;
    } else {
      var j1 := PutEntryFrom(e[1..], k, v, j - 1);
      j' := j1 + 1;
    }
  }

  /** A value with no `null` inside and unique keys is copied to itself. */
  lemma {:induction false} CopyIdentity(v: Value)
    requires WellFormed(v) && NullFree(v)
    ensures DeepCopy(v) == v
    decreases v
  {
    match v
    case Arr(items) =>
      forall i | 0 <= i < |items| ensures DeepCopy(items[i]) == items[i] {
        CopyIdentity(items[i]);
      }
      assert DeepCopy(v).items == items;
    case Obj(entries) =>
      var copied := seq(|entries|, i requires 0 <= i < |entries| =>
        (entries[i].0, DeepCopy(entries[i].1)));
      forall i | 0 <= i < |entries| ensures copied[i] == entries[i] {
        CopyIdentity(entries[i].1);
      }
      assert copied == entries;
      PutAllOfUnique(entries);
    case _ =>
  }

  /** The copy never contains `null`: each one became `{}`. */
  lemma {:induction false} CopyNullFree(v: Value)
    ensures NullFree(DeepCopy(v))
    decreases v
  {
    match v
    case Arr(items) =>
      forall i | 0 <= i < |items| ensures NullFree(DeepCopy(items[i])) {
        CopyNullFree(items[i]);
      }
    case Obj(entries) =>
      var copied := seq(|entries|, i requires 0 <= i < |entries| =>
        (entries[i].0, DeepCopy(entries[i].1)));
      var p := PutAll(copied);
      forall j | 0 <= j < |p| ensures NullFree(p[j].1) {
        var i := PutAllValueFrom(copied, j);
        CopyNullFree(entries[i].1);
      }
    case _ =>
  }

  /** Copying a copy changes nothing more. */
  lemma CopyIdempotent(v: Value)
    ensures DeepCopy(DeepCopy(v)) == DeepCopy(v)
  {
    CopyWellFormed(v);
    CopyNullFree(v);
    CopyIdentity(DeepCopy(v));
  }

  /** An object with unique keys is copied to an object with the same keys
      in the same order, each holding the copy of the original value. */
  lemma CopyObject(entries: Entries)
    requires UniqueKeys(entries)
    ensures DeepCopy(Obj(entries)).Obj?
    ensures Keys(DeepCopy(Obj(entries)).entries) == Keys(entries)
    ensures forall i :: 0 <= i < |entries| ==>
      DeepCopy(Obj(entries)).entries[i] == (entries[i].0, DeepCopy(entries[i].1))
  {
    var copied := seq(|entries|, i requires 0 <= i < |entries| =>
      (entries[i].0, DeepCopy(entries[i].1)));
    SameKeys(entries, copied);
    PutAllOfUnique(copied);
    assert DeepCopy(Obj(entries)) == Obj(copied);
    forall i | 0 <= i < |entries| ensures DeepCopy(Obj(entries)).entries[i] == (entries[i].0, DeepCopy(entries[i].1)) {
      assert copied[i] == (entries[i].0, DeepCopy(entries[i].1));
    }
  }

  /** Entries with the keys of `entries`, position by position, have the
      same key list and, when those keys are unique, unique keys. */
  lemma SameKeys(entries: Entries, other: Entries)
    requires |other| == |entries| && forall i :: 0 <= i < |entries| ==> other[i].0 == entries[i].0
    ensures Keys(other) == Keys(entries)
    ensures UniqueKeys(entries) ==> UniqueKeys(other)
  {
    assert Keys(other) == Keys(entries) by {
      forall i | 0 <= i < |other| ensures Keys(other)[i] == Keys(entries)[i] {
      }
    }
  }

  /** Values that are not of type `object` are returned as they are. */
  lemma CopyPrimitive(v: Value)
    requires TypeOf(v) != "object"
    ensures DeepCopy(v) == v
  {
  }

  /** An array copy has the same length and the copy of each item. */
  lemma CopyArray(items: seq<Value>)
    ensures DeepCopy(Arr(items)).Arr?
    ensures |DeepCopy(Arr(items)).items| == |items|
    ensures forall i :: 0 <= i < |items| ==> DeepCopy(Arr(items)).items[i] == DeepCopy(items[i])
  {
  }
}
