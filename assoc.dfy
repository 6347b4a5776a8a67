/** Insertion-ordered association lists: the model of a JavaScript object
    (`Record<string, T>`), whose `Object.keys` order is the order in which
    keys were first assigned. Assigning `o[k] = v` is `Put`: an existing
    key keeps its position and gets the new value, a new key is appended. */
module AssocLists {
  import opened Wrappers

  function Keys<V>(e: seq<(string, V)>): (ks: seq<string>)
    ensures |ks| == |e|
    ensures forall i :: 0 <= i < |e| ==> ks[i] == e[i].0
  {
    if e == [] then [] else [e[0].0] + Keys(e[1..])
  }

  /** No key occurs twice: what every JavaScript object satisfies. */
  ghost predicate UniqueKeys<V>(e: seq<(string, V)>) {
    forall i, j :: 0 <= i < j < |e| ==> e[i].0 != e[j].0
  }

  /** The value under the first occurrence of `k`. */
  function Lookup<V>(e: seq<(string, V)>, k: string): (r: Option<V>)
    ensures r.None? <==> k !in Keys(e)
    ensures r.Some? ==> exists i :: 0 <= i < |e| && e[i] == (k, r.value)
  {
    if e == [] then None
    else if e[0].0 == k then Some(e[0].1)
    else
      var r := Lookup(e[1..], k);
      assert r.Some? ==> exists i :: 0 <= i < |e[1..]| && e[1..][i] == (k, r.value);
      assert r.Some? ==> exists i :: 1 <= i < |e| && e[i] == (k, r.value);
      r
  }

  /** JavaScript assignment `o[k] = v`. */
  function Put<V>(e: seq<(string, V)>, k: string, v: V): seq<(string, V)> {
    if e == [] then [(k, v)]
    else if e[0].0 == k then [(k, v)] + e[1..]
    else [e[0]] + Put(e[1..], k, v)
  }

  /** The entries whose key differs from `k`, in their original order. */
  function Without<V>(e: seq<(string, V)>, k: string): seq<(string, V)> {
    if e == [] then []
    else if e[0].0 == k then Without(e[1..], k)
    else [e[0]] + Without(e[1..], k)
  }

  /** Appending an entry appends its key. */
  lemma KeysAppend<V>(e: seq<(string, V)>, entry: (string, V))
    ensures Keys(e + [entry]) == Keys(e) + [entry.0]
  {
    var ks := Keys(e + [entry]);
    assert |ks| == |Keys(e) + [entry.0]|;
    forall i | 0 <= i < |ks| ensures ks[i] == (Keys(e) + [entry.0])[i] {
      assert (e + [entry])[i] == if i < |e| then e[i] else entry;
    }
  }

  /** The keys in `ks` other than `k`, in order (the key part of `Without`). */
  function KeysWithout(ks: seq<string>, k: string): seq<string> {
    if ks == [] then []
    else if ks[0] == k then KeysWithout(ks[1..], k)
    else [ks[0]] + KeysWithout(ks[1..], k)
  }

  lemma {:induction false} PutKeys<V>(e: seq<(string, V)>, k: string, v: V)
    ensures Keys(Put(e, k, v)) == if k in Keys(e) then Keys(e) else Keys(e) + [k]
  {
    if e != [] {
      assert Keys(e) == [e[0].0] + Keys(e[1..]);
      if e[0].0 != k {
        PutKeys(e[1..], k, v);
        assert Keys(Put(e, k, v)) == [e[0].0] + Keys(Put(e[1..], k, v));
      } else {
        assert Keys(Put(e, k, v)) == [k] + Keys(e[1..]);
      }
    }
  }

  lemma {:induction false} PutLookup<V>(e: seq<(string, V)>, k: string, v: V, k': string)
    ensures Lookup(Put(e, k, v), k') == if k' == k then Some(v) else Lookup(e, k')
  {
    if e != [] && e[0].0 != k {
      PutLookup(e[1..], k, v, k');
    }
  }

  /** Assigning a new key appends it. */
  lemma {:induction false} PutAppends<V>(e: seq<(string, V)>, k: string, v: V)
    requires k !in Keys(e)
    ensures Put(e, k, v) == e + [(k, v)]
  {
    if e != [] {
      assert Keys(e) == [e[0].0] + Keys(e[1..]);
      PutAppends(e[1..], k, v);
      assert e == [e[0]] + e[1..];
    }
  }

  lemma {:induction false} PutLength<V>(e: seq<(string, V)>, k: string, v: V)
    ensures |Put(e, k, v)| == if k in Keys(e) then |e| else |e| + 1
  {
    PutKeys(e, k, v);
  }

  lemma {:induction false} PutUnique<V>(e: seq<(string, V)>, k: string, v: V)
    requires UniqueKeys(e)
    ensures UniqueKeys(Put(e, k, v))
  {
    PutKeys(e, k, v);
    var p := Put(e, k, v);
    assert Keys(p) == if k in Keys(e) then Keys(e) else Keys(e) + [k];
    forall i, j | 0 <= i < j < |p| ensures p[i].0 != p[j].0 {
      assert Keys(p)[i] == p[i].0 && Keys(p)[j] == p[j].0;
      if k !in Keys(e) && j == |e| {
        assert Keys(e)[i] == e[i].0;
      } else {
        assert Keys(e)[i] == e[i].0 && Keys(e)[j] == e[j].0;
      }
    }
  }

  /** With unique keys, a key present at index i looks up that entry's value. */
  lemma {:induction false} LookupAt<V>(e: seq<(string, V)>, i: nat)
    requires UniqueKeys(e) && i < |e|
    ensures Lookup(e, e[i].0) == Some(e[i].1)
  {
    if i > 0 {
      assert UniqueKeys(e[1..]) by {
        forall a, b | 0 <= a < b < |e[1..]| ensures e[1..][a].0 != e[1..][b].0 {
          assert e[1..][a] == e[a + 1] && e[1..][b] == e[b + 1];
        }
      }
      assert e[0].0 != e[i].0;
      LookupAt(e[1..], i - 1);
      assert e[1..][i - 1] == e[i];
    }
  }

  lemma {:induction false} WithoutKeys<V>(e: seq<(string, V)>, k: string)
    ensures Keys(Without(e, k)) == KeysWithout(Keys(e), k)
    ensures k !in Keys(Without(e, k))
    ensures forall x :: x in Keys(Without(e, k)) <==> x in Keys(e) && x != k
  {
    if e != [] {
      assert Keys(e) == [e[0].0] + Keys(e[1..]);
      assert Keys(e)[1..] == Keys(e[1..]);
      WithoutKeys(e[1..], k);
      if e[0].0 != k {
        assert Keys(Without(e, k)) == [e[0].0] + Keys(Without(e[1..], k));
      }
    }
  }

  lemma {:induction false} WithoutLookup<V>(e: seq<(string, V)>, k: string, k': string)
    ensures Lookup(Without(e, k), k') == if k' == k then None else Lookup(e, k')
  {
    WithoutKeys(e, k);
    if e != [] {
      WithoutLookup(e[1..], k, k');
    }
  }

  lemma {:induction false} WithoutAbsent<V>(e: seq<(string, V)>, k: string)
    requires k !in Keys(e)
    ensures Without(e, k) == e
  {
    if e != [] {
      assert Keys(e) == [e[0].0] + Keys(e[1..]);
      WithoutAbsent(e[1..], k);
    }
  }

  lemma {:induction false} WithoutIdempotent<V>(e: seq<(string, V)>, k: string)
    ensures Without(Without(e, k), k) == Without(e, k)
  {
    WithoutKeys(e, k);
    WithoutAbsent(Without(e, k), k);
  }

  lemma {:induction false} WithoutCommutes<V>(e: seq<(string, V)>, a: string, b: string)
    ensures Without(Without(e, a), b) == Without(Without(e, b), a)
  {
    if e != [] {
      WithoutCommutes(e[1..], a, b);
    }
  }

  /** Removing keeps exactly the entries under other keys. */
  lemma {:induction false} WithoutMember<V>(e: seq<(string, V)>, k: string, x: (string, V))
    ensures x in Without(e, k) <==> x in e && x.0 != k
  {
    if e != [] {
      WithoutMember(e[1..], k, x);
      assert e == [e[0]] + e[1..];
    }
  }

  lemma {:induction false} WithoutUnique<V>(e: seq<(string, V)>, k: string)
    requires UniqueKeys(e)
    ensures UniqueKeys(Without(e, k))
  {
    if e != [] {
      assert UniqueKeys(e[1..]) by {
        forall a, b | 0 <= a < b < |e[1..]| ensures e[1..][a].0 != e[1..][b].0 {
          assert e[1..][a] == e[a + 1] && e[1..][b] == e[b + 1];
        }
      }
      WithoutUnique(e[1..], k);
      if e[0].0 != k {
        var w := Without(e[1..], k);
        forall x | x in w ensures x.0 != e[0].0 {
          WithoutMember(e[1..], k, x);
          var j :| 0 <= j < |e[1..]| && e[1..][j] == x;
          assert e[j + 1] == x;
        }
        var r := [e[0]] + w;
        forall i, j | 0 <= i < j < |r| ensures r[i].0 != r[j].0 {
          if i == 0 {
            assert r[j] == w[j - 1] && r[j] in w;
          } else {
            assert r[i] == w[i - 1] && r[j] == w[j - 1];
          }
        }
      }
    }
  }

  /** No element occurs twice. */
  ghost predicate Distinct(ks: seq<string>) {
    forall i, j :: 0 <= i < j < |ks| ==> ks[i] != ks[j]
  }

  /** The keys of an object without duplicate keys are distinct. */
  lemma UniqueKeysDistinct<V>(e: seq<(string, V)>)
    requires UniqueKeys(e)
    ensures Distinct(Keys(e))
  {
  }

  /** One step of assigning distinct new keys in order: the first key is
      appended, and the others are still new. */
  lemma PutFirstOfFresh<V>(acc: seq<(string, V)>, keys: seq<string>, v: V)
    requires keys != [] && Distinct(keys)
    requires forall i :: 0 <= i < |keys| ==> keys[i] !in Keys(acc)
    ensures Keys(Put(acc, keys[0], v)) + keys[1..] == Keys(acc) + keys
    ensures Distinct(keys[1..])
    ensures forall i :: 0 <= i < |keys[1..]| ==> keys[1..][i] !in Keys(Put(acc, keys[0], v))
  {
    PutKeys(acc, keys[0], v);
    assert Keys(acc) + [keys[0]] + keys[1..] == Keys(acc) + keys;
    forall i | 0 <= i < |keys[1..]| ensures keys[1..][i] !in Keys(Put(acc, keys[0], v)) {
      assert keys[1..][i] == keys[i + 1];
    }
  }
}
