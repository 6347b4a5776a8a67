/** `orderKeysPipe` (src/core-pipes/keys-ordering.ts): a pipe that
    returns a deep copy of an object with its top-level keys ordered by
    `orderItems`. */
module KeysOrdering {
  import opened Wrappers
  import opened Text
  import opened AssocLists
  import opened Json
  import opened DeepCopy
  import opened Ordering

  /** The factory: `config.order ?? 'asc'` must be `'asc'` or `'desc'`;
      the result says whether the order is ascending. */
  function OrderKeysConfig(config: Value): (r: Result<bool>)
    ensures !Nullish(config) ==>
      (r.Ok? <==> Nullish(Property(config, "order")) || Property(config, "order") in {Str("asc"), Str("desc")})
    ensures r.Ok? ==> !Nullish(config) && (r.value <==> Property(config, "order") != Str("desc"))
    ensures r.Err? && !Nullish(config) ==>
      r.error.kind == ErrorKind.PlainError
  {
    var given :- Get(config, "order");
    var order := Coalesce(given, Str("asc"));
    if order == Str("asc") then Ok(true)
    else if order == Str("desc") then Ok(false)
    else Fail("Can't order object keys - unexpected ordering: '" + ToJsString(order) + "', allowed options: asc,desc")
  }

  function KeyValues(ks: seq<string>): (vs: seq<Value>)
    ensures |vs| == |ks| && forall i :: 0 <= i < |ks| ==> vs[i] == Str(ks[i])
  {
    seq(|ks|, i requires 0 <= i < |ks| => Str(ks[i]))
  }

  /** The keys as `orderItems` orders them, each turned back into a
      property key. */
  function OrderedKeys(entries: Entries, asc: bool): (ks: seq<string>)
    ensures |ks| == |entries|
  {
    var sorted := InsertionSort(KeyValues(Keys(entries)), asc);
    seq(|sorted|, i requires 0 <= i < |sorted| => ToJsString(sorted[i]))
  }

  /** `(key, item[key])` for each key in turn. */
  function Reorder(entries: Entries, ks: seq<string>): (e: Entries)
    ensures Keys(e) == ks
  {
    seq(|ks|, i requires 0 <= i < |ks| => (ks[i], Property(Obj(entries), ks[i])))
  }

  /** The pipe, as a function of its input. */
  function OrderKeys(item: Value, asc: bool): (r: Result<Value>)
    ensures (TypeOf(item) != "object" || item.Arr?) <==>
      r == FailType("Can't order object keys - plain object (not array) is expected.")
    ensures item.Null? ==> r == Err(Error(ErrorKind.TypeError, NullObjectMessage))
    ensures r.Ok? <==> item.Obj?
  {
    if TypeOf(item) != "object" || item.Arr? then
      FailType("Can't order object keys - plain object (not array) is expected.")
    else if item.Null? then Err(Error(ErrorKind.TypeError, NullObjectMessage))
    else Ok(DeepCopy.DeepCopy(Obj(PutAll(Reorder(item.entries, OrderedKeys(item.entries, asc))))))
  }

  /** `orderItems(Object.keys(item), order)`: the keys are sorted in an
      array. */
  method SortKeys(entries: Entries, asc: bool) returns (ks: seq<string>)
    ensures ks == OrderedKeys(entries, asc)
  {
    var keys := Keys(entries);
    var a := new Value[|keys|](i requires 0 <= i < |keys| => Str(keys[i]));
    assert a[..] == KeyValues(keys);
    var sortedOk := OrderItems(a, Str(if asc then "asc" else "desc"));
    assert sortedOk == Ok(asc);
    ks := seq(a.Length, i requires 0 <= i < a.Length reads a => ToJsString(a[i]));
  }

  /** The pipe: the ordered object is filled key by key and deep-copied. */
  method OrderKeysPipe(item: Value, asc: bool) returns (r: Result<Value>)
    ensures r == OrderKeys(item, asc)
  {
    if TypeOf(item) != "object" || item.Arr? {
      return FailType("Can't order object keys - plain object (not array) is expected.");
    }
    if item.Null? {
      return Err(Error(ErrorKind.TypeError, NullObjectMessage));
    }
    var ks := SortKeys(item.entries, asc);
    ghost var wanted := Reorder(item.entries, ks);
    var ordered: Entries := [];
    var i := 0;
    while i < |ks|
      invariant 0 <= i <= |ks|
      invariant ordered == PutAll(wanted[..i])
    {
      var key := ks[i];
      assert wanted[..i + 1][..i] == wanted[..i];
      ordered := Put(ordered, key, Property(item, key));
      i := i + 1;
    }
    assert wanted[..|ks|] == wanted;
    r := Ok(DeepCopy.DeepCopy(Obj(ordered)));
  }

  ghost predicate Distinct(s: seq<Value>) {
    forall i, j :: 0 <= i < j < |s| ==> s[i] != s[j]
  }

  lemma {:induction false} DistinctCount(s: seq<Value>, x: Value)
    requires Distinct(s)
    ensures multiset(s)[x] <= 1
  {
    if s != [] {
      assert s == [s[0]] + s[1..];
      DistinctCount(s[1..], x);
      if s[0] == x {
        assert x !in s[1..] by {
          forall k | 0 <= k < |s[1..]| ensures s[1..][k] != x {
            assert s[1..][k] == s[k + 1];
          }
        }
      }
    }
  }

  /** A value at two positions is counted twice. */
  lemma Twice(t: seq<Value>, i: nat, j: nat)
    requires i < j < |t| && t[i] == t[j]
    ensures multiset(t)[t[i]] >= 2
  {
    assert t == t[..j] + [t[j]] + t[j + 1..];
    assert t[..j][i] == t[i];
  }

  /** A permutation of distinct values has distinct values. */
  lemma DistinctPermutation(s: seq<Value>, t: seq<Value>)
    requires Distinct(s) && multiset(s) == multiset(t)
    ensures Distinct(t)
  {
    forall i, j | 0 <= i < j < |t| ensures t[i] != t[j] {
      DistinctCount(s, t[i]);
      if t[i] == t[j] {
        Twice(t, i, j);
      }
    }
  }

  /** Every key value is a string value. */
  lemma KeyValueIsStr(ks: seq<string>, v: Value)
    requires v in KeyValues(ks)
    ensures v == Str(ToJsString(v))
  {
    var j :| 0 <= j < |KeyValues(ks)| && KeyValues(ks)[j] == v;
    assert v == Str(ks[j]);
  }

  /** Sorting the keys as values gives the ordered keys as values. */
  lemma SortedKeyValues(entries: Entries, asc: bool)
    ensures InsertionSort(KeyValues(Keys(entries)), asc) == KeyValues(OrderedKeys(entries, asc))
  {
    var vs := KeyValues(Keys(entries));
    var sorted := InsertionSort(vs, asc);
    var ks := OrderedKeys(entries, asc);
    InsertionSortPermutes(vs, asc);
    forall i | 0 <= i < |sorted| ensures sorted[i] == KeyValues(ks)[i] {
      assert sorted[i] in multiset(sorted);
      KeyValueIsStr(Keys(entries), sorted[i]);
      assert ks[i] == ToJsString(sorted[i]);
    }
  }

  /** The ordered keys are strictly increasing in code order (decreasing
      for `desc`). */
  lemma OrderedKeysStrict(entries: Entries, asc: bool)
    requires UniqueKeys(entries)
    ensures var ks := OrderedKeys(entries, asc);
      forall i, j :: 0 <= i < j < |ks| ==> if asc then StrLess(ks[i], ks[j]) else StrLess(ks[j], ks[i])
  {
    var vs := KeyValues(Keys(entries));
    var ks := OrderedKeys(entries, asc);
    SortedKeyValues(entries, asc);
    InsertionSortPermutes(vs, asc);
    var sorted := KeyValues(ks);
    forall i | 0 <= i < |vs| ensures Orderable(vs[i]) {
    }
    InsertionSortSorted(vs, asc);
    assert Distinct(vs) by {
      forall i, j | 0 <= i < j < |vs| ensures vs[i] != vs[j] {
        assert Keys(entries)[i] == entries[i].0 && Keys(entries)[j] == entries[j].0;
      }
    }
    DistinctPermutation(vs, sorted);
    forall i, j | 0 <= i < j < |ks| ensures if asc then StrLess(ks[i], ks[j]) else StrLess(ks[j], ks[i]) {
      assert sorted[i] == Str(ks[i]) && sorted[j] == Str(ks[j]);
      assert Le(sorted[i], sorted[j], asc);
    }
  }

  /** The ordered keys are exactly the object's keys. */
  lemma OrderedKeysSame(entries: Entries, asc: bool, k: string)
    ensures k in OrderedKeys(entries, asc) <==> k in Keys(entries)
  {
    var vs := KeyValues(Keys(entries));
    var ks := OrderedKeys(entries, asc);
    SortedKeyValues(entries, asc);
    InsertionSortPermutes(vs, asc);
    var sorted := KeyValues(ks);
    assert multiset(sorted) == multiset(vs);
    if k in ks {
      var i :| 0 <= i < |ks| && ks[i] == k;
      assert sorted[i] == Str(k);
      assert Str(k) in multiset(sorted);
      assert Str(k) in vs;
      var j :| 0 <= j < |vs| && vs[j] == Str(k);
      assert Keys(entries)[j] == k;
    }
    if k in Keys(entries) {
      var i :| 0 <= i < |Keys(entries)| && Keys(entries)[i] == k;
      assert vs[i] == Str(k);
      assert Str(k) in multiset(vs);
      assert Str(k) in sorted;
      var j :| 0 <= j < |sorted| && sorted[j] == Str(k);
      assert ks[j] == k;
    }
  }

  /** The strict order makes the ordered keys unique. */
  lemma OrderedKeysUnique(entries: Entries, asc: bool)
    requires UniqueKeys(entries)
    ensures UniqueKeys(Reorder(entries, OrderedKeys(entries, asc)))
  {
    OrderedKeysStrict(entries, asc);
    var ks := OrderedKeys(entries, asc);
    var e := Reorder(entries, ks);
    forall i, j | 0 <= i < j < |e| ensures e[i].0 != e[j].0 {
      assert e[i].0 == Keys(e)[i] == ks[i] && e[j].0 == ks[j];
      if asc {
        StrLessIrreflexive(ks[i]);
      } else {
        StrLessIrreflexive(ks[j]);
      }
    }
  }

  /** The output holds the ordered keys, each with a deep copy of the
      value the input holds under it. */
  lemma OrderKeysOutput(entries: Entries, asc: bool)
    requires UniqueKeys(entries)
    ensures OrderKeys(Obj(entries), asc).Ok?
    ensures var out := OrderKeys(Obj(entries), asc).value;
      var ks := OrderedKeys(entries, asc);
      out.Obj? && Keys(out.entries) == ks
      && forall i :: 0 <= i < |ks| ==> out.entries[i].1 == DeepCopy.DeepCopy(Property(Obj(entries), ks[i]))
  {
    var ks := OrderedKeys(entries, asc);
    var e := Reorder(entries, ks);
    OrderedKeysUnique(entries, asc);
    PutAllOfUnique(e);
    assert OrderKeys(Obj(entries), asc) == Ok(DeepCopy.DeepCopy(Obj(e)));
    CopyObject(e);
    var out := DeepCopy.DeepCopy(Obj(e));
    forall i | 0 <= i < |ks| ensures out.entries[i].1 == DeepCopy.DeepCopy(Property(Obj(entries), ks[i])) {
      assert e[i].1 == Property(Obj(entries), ks[i]);
    }
  }

  /** The key set and the value under each key are unchanged, and nested
      values keep their own key order: on a value the copy reproduces
      (unique keys, no `null` inside), every key reads as before. */
  lemma OrderKeysKeepsValues(entries: Entries, asc: bool, k: string)
    requires WellFormed(Obj(entries)) && NullFree(Obj(entries))
    ensures OrderKeys(Obj(entries), asc).Ok?
    ensures var out := OrderKeys(Obj(entries), asc).value;
      out.Obj? && (k in Keys(out.entries) <==> k in Keys(entries))
      && Lookup(out.entries, k) == Lookup(entries, k)
  {
    OrderKeysOutput(entries, asc);
    OrderedKeysSame(entries, asc, k);
    var out := OrderKeys(Obj(entries), asc).value;
    var ks := OrderedKeys(entries, asc);
    OrderedKeysUnique(entries, asc);
    var e := Reorder(entries, ks);
    assert UniqueKeys(out.entries) by {
      forall i, j | 0 <= i < j < |out.entries| ensures out.entries[i].0 != out.entries[j].0 {
        assert out.entries[i].0 == Keys(out.entries)[i] == ks[i] == e[i].0;
        assert out.entries[j].0 == Keys(out.entries)[j] == ks[j] == e[j].0;
      }
    }
    forall i | 0 <= i < |out.entries|
      ensures out.entries[i].1 == DeepCopy.DeepCopy(Property(Obj(entries), out.entries[i].0))
    {
      assert out.entries[i].0 == Keys(out.entries)[i] == ks[i];
    }
    CopiedLookup(entries, out.entries, k);
  }

  /** Entries holding, under each of the same keys, the copy of what a
      well-formed, `null`-free object holds there look up as it does. */
  lemma CopiedLookup(entries: Entries, copied: Entries, k: string)
    requires WellFormed(Obj(entries)) && NullFree(Obj(entries)) && UniqueKeys(copied)
    requires forall i :: 0 <= i < |copied| ==> copied[i].1 == DeepCopy.DeepCopy(Property(Obj(entries), copied[i].0))
    requires k in Keys(copied) <==> k in Keys(entries)
    ensures Lookup(copied, k) == Lookup(entries, k)
  {
    if k in Keys(copied) {
      var i :| 0 <= i < |copied| && Keys(copied)[i] == k;
      assert UniqueKeys(entries);
      var j :| 0 <= j < |entries| && Keys(entries)[j] == k;
      LookupAt(entries, j);
      assert Property(Obj(entries), k) == entries[j].1;
      assert WellFormed(entries[j].1) && NullFree(entries[j].1);
      CopyIdentity(entries[j].1);
      assert copied[i] == (k, entries[j].1);
      LookupAt(copied, i);
    }
  }

  lemma ReversedKeys(up: seq<string>, down: seq<string>)
    requires KeyValues(down) == Reverse(KeyValues(up))
    ensures |down| == |up| && forall i :: 0 <= i < |up| ==> down[i] == up[|up| - 1 - i]
  {
    assert |KeyValues(down)| == |up|;
    forall i | 0 <= i < |up| ensures down[i] == up[|up| - 1 - i] {
      assert KeyValues(down)[i] == KeyValues(up)[|up| - 1 - i];
    }
  }

  /** For `desc` the keys come in the reverse of their `asc` order. */
  lemma DescendingKeys(entries: Entries)
    ensures var up, down := OrderedKeys(entries, true), OrderedKeys(entries, false);
      forall i :: 0 <= i < |up| ==> down[i] == up[|up| - 1 - i]
  {
    var vs := KeyValues(Keys(entries));
    var up, down := OrderedKeys(entries, true), OrderedKeys(entries, false);
    forall i | 0 <= i < |vs| ensures Orderable(vs[i]) {
    }
    DescendingIsReversed(vs);
    SortedKeyValues(entries, true);
    SortedKeyValues(entries, false);
    assert KeyValues(down) == InsertionSort(vs, false) == Reverse(InsertionSort(vs, true)) == Reverse(KeyValues(up));
    ReversedKeys(up, down);
  }

  lemma KeyValuesInjective(a: seq<string>, b: seq<string>)
    requires KeyValues(a) == KeyValues(b)
    ensures a == b
  {
    assert |a| == |KeyValues(a)| == |b|;
    forall i | 0 <= i < |a| ensures a[i] == b[i] {
      assert KeyValues(a)[i] == KeyValues(b)[i];
    }
  }

  /** Strings in code order are in order as values. */
  lemma KeyValuesInOrder(expected: seq<string>, asc: bool)
    requires forall i :: 0 < i < |expected| ==> if asc then StrLess(expected[i - 1], expected[i]) else StrLess(expected[i], expected[i - 1])
    ensures var ev := KeyValues(expected); forall i :: 0 < i < |ev| ==> Le(ev[i - 1], ev[i], asc)
  {
    var ev := KeyValues(expected);
    forall i | 0 < i < |ev| ensures Le(ev[i - 1], ev[i], asc) {
      assert ev[i - 1] == Str(expected[i - 1]) && ev[i] == Str(expected[i]);
    }
  }

  /** The ordered keys of an object whose keys, as values, sort to
      `expected`. */
  lemma OrderedKeysAre(entries: Entries, asc: bool, expected: seq<string>)
    requires multiset(KeyValues(Keys(entries))) == multiset(KeyValues(expected))
    requires forall i :: 0 < i < |expected| ==> if asc then StrLess(expected[i - 1], expected[i]) else StrLess(expected[i], expected[i - 1])
    ensures OrderedKeys(entries, asc) == expected
  {
    var vs := KeyValues(Keys(entries));
    forall i | 0 <= i < |vs| ensures Orderable(vs[i]) {
    }
    KeyValuesInOrder(expected, asc);
    SortsTo(vs, KeyValues(expected), asc);
    SortedKeyValues(entries, asc);
    KeyValuesInjective(OrderedKeys(entries, asc), expected);
  }

  /** `{ x: 3, a: 1, f: 2 }` ordered ascending has keys `a, f, x`, ... */
  lemma SampleAscending(e: Entries)
    requires e == [("x", Num(3.0)), ("a", Num(1.0)), ("f", Num(2.0))]
    ensures OrderedKeys(e, true) == ["a", "f", "x"]
  {
    SampleSameKeys(e);
    var expected := ["a", "f", "x"];
    assert StrLess(expected[0], expected[1]) && StrLess(expected[1], expected[2]);
    OrderedKeysAre(e, true, expected);
  }

  lemma SampleSameKeys(e: Entries)
    requires e == [("x", Num(3.0)), ("a", Num(1.0)), ("f", Num(2.0))]
    ensures multiset(KeyValues(Keys(e))) == multiset(KeyValues(["a", "f", "x"]))
  {
    assert Keys(e) == ["x", "a", "f"];
    assert KeyValues(Keys(e)) == [Str("x"), Str("a"), Str("f")];
    assert KeyValues(["a", "f", "x"]) == [Str("a"), Str("f"), Str("x")];
  }

  /** ... and descending `x, f, a`, the reverse. */
  lemma SampleDescending(e: Entries)
    requires e == [("x", Num(3.0)), ("a", Num(1.0)), ("f", Num(2.0))]
    ensures OrderedKeys(e, false) == ["x", "f", "a"]
  {
    SampleAscending(e);
    DescendingKeys(e);
    var down := OrderedKeys(e, false);
    assert |down| == 3;
    assert down[0] == "x" && down[1] == "f" && down[2] == "a";
  }
}
