/** `orderItems` (src/utils/ordering.ts): validating an array of strings
    and numbers and sorting it in place with the source's comparator. The
    sort is modelled as a stable insertion sort, as JavaScript's
    `Array.prototype.sort` is stable; `localeCompare` is modelled by code
    order (`Text.StrLess`). */
module Ordering {
  import opened Wrappers
  import opened Text
  import opened Json

  /** Only strings and numbers can be ordered. */
  predicate Orderable(v: Value) {
    v.Str? || v.Num?
  }

  /** `a.localeCompare(b)`, by its sign. */
  function Compare(a: string, b: string): (c: int)
    ensures c == 0 <==> a == b
    ensures c < 0 <==> StrLess(a, b)
    ensures c > 0 <==> StrLess(b, a)
  {
    StrLessTrichotomy(a, b);
    if a == b then StrLessIrreflexive(a); 0
    else if StrLess(a, b) then StrLessAsymmetric(a, b); -1
    else 1
  }

  /** The sign of the comparator given to `array.sort`: numbers against
      numbers by value, strings against strings by `localeCompare`, and in
      ascending order every number before every string (the reverse in
      descending order). */
  function Cmp(a: Value, b: Value, asc: bool): int {
    if a.Num? && b.Num? then
      var d := if asc then a.n - b.n else b.n - a.n;
      if d < 0.0 then -1 else if d > 0.0 then 1 else 0
    else if a.Str? && b.Str? then
      if asc then Compare(a.s, b.s) else Compare(b.s, a.s)
    else if a.Num? then (if asc then -1 else 1)
    else if b.Num? then (if asc then 1 else -1)
    else 0
  }

  /** `a` may stay before `b`. */
  predicate Le(a: Value, b: Value, asc: bool) {
    Cmp(a, b, asc) <= 0
  }

  predicate Sorted(s: seq<Value>, asc: bool) {
    forall i, j :: 0 <= i < j < |s| ==> Le(s[i], s[j], asc)
  }

  /** The descending comparator is the negation of the ascending one, and
      each is antisymmetric. */
  lemma CmpFlip(a: Value, b: Value, asc: bool)
    requires Orderable(a) && Orderable(b)
    ensures Cmp(a, b, !asc) == -Cmp(a, b, asc)
    ensures Cmp(b, a, asc) == -Cmp(a, b, asc)
  {
  }

  lemma CmpTransitive(a: Value, b: Value, c: Value, asc: bool)
    requires Orderable(a) && Orderable(b) && Orderable(c)
    requires Le(a, b, asc) && Le(b, c, asc)
    ensures Le(a, c, asc)
  {
    if a.Str? && b.Str? && c.Str? {
      if asc && a.s != b.s && b.s != c.s {
        StrLessTransitive(a.s, b.s, c.s);
      } else if !asc && a.s != b.s && b.s != c.s {
        StrLessTransitive(c.s, b.s, a.s);
      }
    }
  }

  /** Inserting `x` into a sorted sequence from the right, as insertion
      sort does: `x` moves left past every element the comparator puts
      after it, and stops at the first that may stay before it. */
  function Insert(x: Value, s: seq<Value>, asc: bool): (r: seq<Value>)
    ensures |r| == |s| + 1
  {
    if s == [] then [x]
    else if Cmp(s[|s| - 1], x, asc) > 0 then
      Insert(x, s[..|s| - 1], asc) + [s[|s| - 1]]
    else s + [x]
  }

  /** The stable insertion sort of `s`. */
  function InsertionSort(s: seq<Value>, asc: bool): (r: seq<Value>)
    ensures |r| == |s|
  {
    if s == [] then []
    else Insert(s[|s| - 1], InsertionSort(s[..|s| - 1], asc), asc)
  }

  /** Inserting adds `x` and loses nothing. */
  lemma {:induction false} InsertPermutes(x: Value, s: seq<Value>, asc: bool)
    ensures multiset(Insert(x, s, asc)) == multiset(s) + multiset{x}
  {
    if s != [] {
      var init, last := s[..|s| - 1], s[|s| - 1];
      assert s == init + [last];
      if Cmp(last, x, asc) > 0 {
        InsertPermutes(x, init, asc);
      }
    }
  }

  /** Sorting permutes. */
  lemma {:induction false} InsertionSortPermutes(s: seq<Value>, asc: bool)
    ensures multiset(InsertionSort(s, asc)) == multiset(s)
  {
    if s != [] {
      var init := s[..|s| - 1];
      assert s == init + [s[|s| - 1]];
      InsertionSortPermutes(init, asc);
      InsertPermutes(s[|s| - 1], InsertionSort(init, asc), asc);
    }
  }

  /** An item that goes after every item of a sorted sequence may be
      appended to it. */
  lemma AppendSorted(s: seq<Value>, x: Value, asc: bool)
    requires Sorted(s, asc) && forall i :: 0 <= i < |s| ==> Le(s[i], x, asc)
    ensures Sorted(s + [x], asc)
  {
    var t := s + [x];
    forall i, j | 0 <= i < j < |t| ensures Le(t[i], t[j], asc) {
      if j < |s| {
        assert t[i] == s[i] && t[j] == s[j];
      }
    }
  }

  /** Every item of `r`, a permutation of `init` and `x`, goes before
      `last` when every item of `init` and `x` does. */
  lemma AllBefore(r: seq<Value>, init: seq<Value>, x: Value, last: Value, asc: bool)
    requires multiset(r) == multiset(init) + multiset{x}
    requires Le(x, last, asc) && forall i :: 0 <= i < |init| ==> Le(init[i], last, asc)
    ensures forall i :: 0 <= i < |r| ==> Le(r[i], last, asc)
  {
    forall i | 0 <= i < |r| ensures Le(r[i], last, asc) {
      assert r[i] in multiset(r);
      if r[i] != x {
        assert r[i] in multiset(init);
      }
    }
  }

  lemma {:induction false} InsertSorted(x: Value, s: seq<Value>, asc: bool)
    requires Orderable(x) && forall i :: 0 <= i < |s| ==> Orderable(s[i])
    requires Sorted(s, asc)
    ensures Sorted(Insert(x, s, asc), asc)
  {
    if s != [] {
      var last := s[|s| - 1];
      var init := s[..|s| - 1];
      if Cmp(last, x, asc) > 0 {
        InsertSorted(x, init, asc);
        InsertPermutes(x, init, asc);
        CmpFlip(last, x, asc);
        AllBefore(Insert(x, init, asc), init, x, last, asc);
        AppendSorted(Insert(x, init, asc), last, asc);
      } else {
        forall i | 0 <= i < |s| ensures Le(s[i], x, asc) {
          if i < |s| - 1 {
            CmpTransitive(s[i], last, x, asc);
          }
        }
        AppendSorted(s, x, asc);
      }
    }
  }

  /** The result of sorting is sorted (and, by the ensures of
      `InsertionSort`, a permutation of the input). */
  lemma {:induction false} InsertionSortSorted(s: seq<Value>, asc: bool)
    requires forall i :: 0 <= i < |s| ==> Orderable(s[i])
    ensures Sorted(InsertionSort(s, asc), asc)
  {
    if s != [] {
      var init := s[..|s| - 1];
      InsertionSortSorted(init, asc);
      InsertionSortPermutes(init, asc);
      var sorted := InsertionSort(init, asc);
      forall i | 0 <= i < |sorted| ensures Orderable(sorted[i]) {
        assert sorted[i] in multiset(init);
      }
      InsertSorted(s[|s| - 1], sorted, asc);
    }
  }

  /** Orderable values that compare as equal are equal. */
  lemma CmpZero(a: Value, b: Value, asc: bool)
    requires Orderable(a) && Orderable(b) && Cmp(a, b, asc) == 0
    ensures a == b
  {
  }

  lemma SortedHeads(xs: seq<Value>, ys: seq<Value>, asc: bool)
    requires xs != [] && Sorted(xs, asc) && Sorted(ys, asc) && multiset(xs) == multiset(ys)
    requires forall i :: 0 <= i < |xs| ==> Orderable(xs[i])
    ensures xs[0] == ys[0]
  {
    assert ys[0] in multiset(xs);
    var k :| 0 <= k < |xs| && xs[k] == ys[0];
    assert xs[0] in multiset(ys);
    var m :| 0 <= m < |ys| && ys[m] == xs[0];
    if k != 0 && m != 0 {
      assert Le(xs[0], ys[0], asc);
      assert Le(ys[0], xs[0], asc);
      CmpFlip(xs[0], ys[0], asc);
      CmpZero(xs[0], ys[0], asc);
    }
  }

  /** There is exactly one sorted permutation of any orderable items. */
  lemma {:induction false} SortedUnique(xs: seq<Value>, ys: seq<Value>, asc: bool)
    requires Sorted(xs, asc) && Sorted(ys, asc) && multiset(xs) == multiset(ys)
    requires forall i :: 0 <= i < |xs| ==> Orderable(xs[i])
    ensures xs == ys
    decreases |xs|
  {
    assert |xs| == |multiset(xs)| == |ys|;
    if xs != [] {
      SortedHeads(xs, ys, asc);
      assert xs == [xs[0]] + xs[1..] && ys == [ys[0]] + ys[1..];
      assert multiset(xs) == multiset{xs[0]} + multiset(xs[1..]);
      assert multiset(ys) == multiset{xs[0]} + multiset(ys[1..]);
      forall i | 0 <= i < |xs| - 1 ensures Orderable(xs[1..][i]) {
        assert xs[1..][i] == xs[i + 1];
      }
      assert Sorted(xs[1..], asc) && Sorted(ys[1..], asc);
      assert multiset(xs[1..]) == multiset(xs) - multiset{xs[0]};
      assert multiset(ys[1..]) == multiset(ys) - multiset{xs[0]};
      SortedUnique(xs[1..], ys[1..], asc);
    }
  }

  function Reverse(s: seq<Value>): (r: seq<Value>)
    ensures |r| == |s|
    ensures forall i :: 0 <= i < |s| ==> r[i] == s[|s| - 1 - i]
  {
    if s == [] then [] else Reverse(s[1..]) + [s[0]]
  }

  lemma {:induction false} ReverseMultiset(s: seq<Value>)
    ensures multiset(Reverse(s)) == multiset(s)
  {
    if s != [] {
      ReverseMultiset(s[1..]);
      assert s == [s[0]] + s[1..];
    }
  }

  /** The reverse of an ascending sequence is descending. */
  lemma ReverseDescending(up: seq<Value>)
    requires Sorted(up, true)
    requires forall i :: 0 <= i < |up| ==> Orderable(up[i])
    ensures Sorted(Reverse(up), false)
  {
    var r := Reverse(up);
    forall i, j | 0 <= i < j < |r| ensures Le(r[i], r[j], false) {
      var p, q := |up| - 1 - j, |up| - 1 - i;
      assert r[i] == up[q] && r[j] == up[p];
      assert Le(up[p], up[q], true);
      CmpFlip(up[p], up[q], true);
      CmpFlip(up[q], up[p], true);
    }
  }

  /** Descending order is the reverse of ascending order: the two
      comparators are opposite and only equal values compare as equal. */
  lemma DescendingIsReversed(s: seq<Value>)
    requires forall i :: 0 <= i < |s| ==> Orderable(s[i])
    ensures InsertionSort(s, false) == Reverse(InsertionSort(s, true))
  {
    var up := InsertionSort(s, true);
    var down := InsertionSort(s, false);
    InsertionSortSorted(s, true);
    InsertionSortSorted(s, false);
    InsertionSortPermutes(s, true);
    InsertionSortPermutes(s, false);
    ReverseMultiset(up);
    forall i | 0 <= i < |up| ensures Orderable(up[i]) {
      assert up[i] in multiset(s);
    }
    forall i | 0 <= i < |down| ensures Orderable(down[i]) {
      assert down[i] in multiset(s);
    }
    ReverseDescending(up);
    SortedUnique(down, Reverse(up), false);
  }

  /** `order` with its default: `true` for `'asc'`, `false` for `'desc'`. */
  function OrderOf(order: Value): (r: Result<bool>)
    ensures r.Ok? <==> order.Undefined? || order == Str("asc") || order == Str("desc")
    ensures r.Ok? ==> (r.value <==> order != Str("desc"))
  {
    if order.Undefined? || order == Str("asc") then Ok(true)
    else if order == Str("desc") then Ok(false)
    else Fail("Can't order - unrecognized order: '" + ToJsString(order) + "'")
  }

  /** The validation loop: the first item that is neither a string nor a
      number, if any. */
  function FirstUnorderable(items: seq<Value>): (r: Option<nat>)
    ensures r.None? <==> forall i :: 0 <= i < |items| ==> Orderable(items[i])
    ensures r.Some? ==>
      r.value < |items| && !Orderable(items[r.value]) && forall i :: 0 <= i < r.value ==> Orderable(items[i])
  {
    if items == [] then None
    else if !Orderable(items[0]) then Some(0)
    else match FirstUnorderable(items[1..])
      case None => None
      case Some(i) => Some(i + 1)
  }

  /** Everything `orderItems` checks before sorting, in the source's
      order; the result is the direction. */
  function OrderCheck(items: seq<Value>, order: Value): (r: Result<bool>)
    ensures r.Ok? <==> OrderOf(order).Ok? && forall i :: 0 <= i < |items| ==> Orderable(items[i])
    ensures r.Ok? ==> r == OrderOf(order)
  {
    var asc :- OrderOf(order);
    match FirstUnorderable(items)
    case None => Ok(asc)
    case Some(i) =>
      FailType("Can't order - only strings and numbers are expected (" + TypeOf(items[i]) + ")")
  }

  /** `orderItems(array, order)` as a value: the array sorted, or the
      error. */
  function OrderItemsOf(v: Value, order: Value): (r: Result<Value>)
    ensures !v.Arr? ==> r == FailType("Can't order - array is expected")
    ensures v.Arr? ==> (r.Ok? <==> OrderCheck(v.items, order).Ok?)
    ensures r.Ok? ==>
      r.value.Arr? && multiset(r.value.items) == multiset(v.items) && Sorted(r.value.items, OrderOf(order).value)
  {
    if !v.Arr? then FailType("Can't order - array is expected")
    else
      var asc :- OrderCheck(v.items, order);
      InsertionSortSorted(v.items, asc);
      InsertionSortPermutes(v.items, asc);
      Ok(Arr(InsertionSort(v.items, asc)))
  }

  /** One step of the inner loop: `x` moves left past an element that
      goes after it. */
  lemma InsertStep(x: Value, sorted: seq<Value>, j: nat, asc: bool)
    requires 0 < j <= |sorted| && Cmp(sorted[j - 1], x, asc) > 0
    ensures Insert(x, sorted[..j], asc) + sorted[j..] == Insert(x, sorted[..j - 1], asc) + sorted[j - 1..]
  {
    var s := sorted[..j];
    var front, last, back := Insert(x, sorted[..j - 1], asc), sorted[j - 1], sorted[j..];
    assert s[|s| - 1] == last && s[..|s| - 1] == sorted[..j - 1];
    assert Insert(x, s, asc) == front + [last];
    assert sorted[j - 1..] == [last] + back;
    assert front + [last] + back == front + ([last] + back);
  }

  /** The inner loop stops where `x` may stay. */
  lemma InsertStop(x: Value, sorted: seq<Value>, j: nat, asc: bool)
    requires j <= |sorted| && (j == 0 || Cmp(sorted[j - 1], x, asc) <= 0)
    ensures Insert(x, sorted[..j], asc) + sorted[j..] == sorted[..j] + [x] + sorted[j..]
  {
  }

  /** Swapping `x` with the element before it. */
  lemma SwapLeft(sorted: seq<Value>, j: nat, x: Value, rest: seq<Value>)
    requires 0 < j <= |sorted|
    ensures (sorted[..j] + [x] + sorted[j..] + rest)[j - 1 := x][j := sorted[j - 1]]
      == sorted[..j - 1] + [x] + sorted[j - 1..] + rest
  {
    var s := sorted[..j] + [x] + sorted[j..] + rest;
    var t := sorted[..j - 1] + [x] + sorted[j - 1..] + rest;
    assert |s[j - 1 := x][j := sorted[j - 1]]| == |t|;
    forall k | 0 <= k < |t| ensures s[j - 1 := x][j := sorted[j - 1]][k] == t[k] {
      if k < j - 1 {
        assert s[k] == sorted[k] == t[k];
      } else if j < k < |sorted| + 1 {
        assert s[k] == sorted[k - 1] == t[k];
      }
    }
  }

  /** Sorting one more item inserts it into the sorted prefix. */
  lemma SortSnoc(s: seq<Value>, x: Value, asc: bool)
    ensures InsertionSort(s + [x], asc) == Insert(x, InsertionSort(s, asc), asc)
  {
    assert (s + [x])[..|s|] == s;
  }

  /** The inner loop's step on the array's contents `current`: swapping
      `x` left past an element that goes after it keeps `current` of the
      form `sorted[..j] + [x] + sorted[j..] + rest`, one place further. */
  lemma SwapKeeps(current: seq<Value>, sorted: seq<Value>, j: nat, x: Value, rest: seq<Value>, asc: bool)
    requires 0 < j <= |sorted| && current == sorted[..j] + [x] + sorted[j..] + rest
    requires Cmp(current[j - 1], x, asc) > 0
    requires Insert(x, sorted, asc) == Insert(x, sorted[..j], asc) + sorted[j..]
    ensures current[j - 1] == sorted[j - 1]
    ensures current[j - 1 := x][j := current[j - 1]] == sorted[..j - 1] + [x] + sorted[j - 1..] + rest
    ensures Insert(x, sorted, asc) == Insert(x, sorted[..j - 1], asc) + sorted[j - 1..]
  {
    assert current[j - 1] == sorted[j - 1];
    InsertStep(x, sorted, j, asc);
    SwapLeft(sorted, j, x, rest);
  }

  /** Where the inner loop stops, `x` is in its place. */
  lemma StopKeeps(current: seq<Value>, sorted: seq<Value>, j: nat, x: Value, rest: seq<Value>, asc: bool)
    requires j <= |sorted| && current == sorted[..j] + [x] + sorted[j..] + rest
    requires j == 0 || Cmp(current[j - 1], x, asc) <= 0
    requires Insert(x, sorted, asc) == Insert(x, sorted[..j], asc) + sorted[j..]
    ensures current == Insert(x, sorted, asc) + rest
  {
    if j > 0 {
      assert current[j - 1] == sorted[j - 1];
    }
    InsertStop(x, sorted, j, asc);
    assert current == (sorted[..j] + [x] + sorted[j..]) + rest;
  }

  /** One pass of insertion sort in place: `a[i]` is swapped left past
      the items before it that go after it. */
  method InsertInPlace(a: array<Value>, i: nat, asc: bool)
    requires i < a.Length
    modifies a
    ensures a[..] == Insert(old(a[i]), old(a[..i]), asc) + old(a[i + 1..])
  {
    var x := a[i];
    ghost var sorted := a[..i];
    ghost var rest := a[i + 1..];
    var j := i;
    assert sorted[..j] == sorted && sorted[j..] == [];
    assert a[..] == sorted[..j] + [x] + sorted[j..] + rest by {
      assert a[..] == a[..i] + [a[i]] + a[i + 1..];
    }
    while j > 0
      invariant 0 <= j <= i
      invariant a[..] == sorted[..j] + [x] + sorted[j..] + rest
      invariant Insert(x, sorted, asc) == Insert(x, sorted[..j], asc) + sorted[j..]
    {
      var before := a[j - 1];
      if Cmp(before, x, asc) <= 0 {
        break;
      }
      ghost var current := a[..];
      SwapKeeps(current, sorted, j, x, rest, asc);
      a[j - 1], a[j] := x, before;
      assert a[..] == current[j - 1 := x][j := current[j - 1]];
      j := j - 1;
    }
    StopKeeps(a[..], sorted, j, x, rest, asc);
  }

  /** The pieces of a concatenation around its middle item. */
  lemma Pieces(s: seq<Value>, p: seq<Value>, q: seq<Value>)
    requires s == p + q && q != []
    ensures s[..|p|] == p && s[|p|] == q[0] && s[|p| + 1..] == q[1..]
  {
  }

  lemma Snoc(s: seq<Value>, i: nat)
    requires i < |s|
    ensures s[..i + 1] == s[..i] + [s[i]] && s[i..][1..] == s[i + 1..]
  {
  }

  /** The outer loop's step: with `original[..i]` sorted in front, one
      more pass sorts `original[..i + 1]`. */
  lemma SortStep(original: seq<Value>, i: nat, before: seq<Value>, after: seq<Value>, asc: bool)
    requires i < |original|
    requires before == InsertionSort(original[..i], asc) + original[i..]
    requires after == Insert(before[i], before[..i], asc) + before[i + 1..]
    ensures after == InsertionSort(original[..i + 1], asc) + original[i + 1..]
  {
    Pieces(before, InsertionSort(original[..i], asc), original[i..]);
    Snoc(original, i);
    SortSnoc(original[..i], original[i], asc);
  }

  /** Insertion sort in place. */
  method SortInPlace(a: array<Value>, asc: bool)
    modifies a
    ensures a[..] == InsertionSort(old(a[..]), asc)
  {
    ghost var original := a[..];
    var i := 0;
    while i < a.Length
      invariant 0 <= i <= a.Length
      invariant a[..] == InsertionSort(original[..i], asc) + original[i..]
    {
      ghost var before := a[..];
      InsertInPlace(a, i, asc);
      SortStep(original, i, before, a[..], asc);
      i := i + 1;
    }
    assert original[..a.Length] == original;
  }

  /** `orderItems` on an array: on success the array is sorted in place,
      and on failure it is left as it was. */
  method OrderItems(a: array<Value>, order: Value) returns (r: Result<bool>)
    modifies a
    ensures r == OrderCheck(old(a[..]), order)
    ensures r.Ok? ==> a[..] == InsertionSort(old(a[..]), r.value)
    ensures r.Err? ==> a[..] == old(a[..])
  {
    r := OrderOf(order);
    if r.Err? {
      return;
    }
    var i := 0;
    while i < a.Length
      invariant 0 <= i <= a.Length
      invariant forall k :: 0 <= k < i ==> Orderable(a[k])
    {
      if !Orderable(a[i]) {
        assert FirstUnorderable(a[..]) == Some(i) by {
          var f := FirstUnorderable(a[..]);
          assert f.Some? && !(f.value > i) && !(f.value < i);
        }
        r := FailType("Can't order - only strings and numbers are expected (" + TypeOf(a[i]) + ")");
        return;
      }
      i := i + 1;
    }
    SortInPlace(a, r.value);
  }

  /** A sequence whose neighbours are in order is sorted. */
  lemma {:induction false} SortedByNeighbours(s: seq<Value>, asc: bool)
    requires forall i :: 0 <= i < |s| ==> Orderable(s[i])
    requires forall i :: 0 < i < |s| ==> Le(s[i - 1], s[i], asc)
    ensures Sorted(s, asc)
  {
    if |s| > 1 {
      var init := s[..|s| - 1];
      SortedByNeighbours(init, asc);
      forall i | 0 <= i < |s| - 1 ensures Le(s[i], s[|s| - 1], asc) {
        if i < |s| - 2 {
          assert Le(init[i], init[|s| - 2], asc);
          CmpTransitive(s[i], s[|s| - 2], s[|s| - 1], asc);
        }
      }
      assert s == init + [s[|s| - 1]];
      AppendSorted(init, s[|s| - 1], asc);
    }
  }

  /** Sorting gives `expected` when `expected` is a sorted permutation. */
  lemma SortsTo(s: seq<Value>, expected: seq<Value>, asc: bool)
    requires forall i :: 0 <= i < |s| ==> Orderable(s[i])
    requires multiset(s) == multiset(expected)
    requires forall i :: 0 < i < |expected| ==> Le(expected[i - 1], expected[i], asc)
    ensures InsertionSort(s, asc) == expected
  {
    InsertionSortSorted(s, asc);
    InsertionSortPermutes(s, asc);
    var sorted := InsertionSort(s, asc);
    forall i | 0 <= i < |sorted| ensures Orderable(sorted[i]) {
      assert sorted[i] in multiset(s);
    }
    forall i | 0 <= i < |expected| ensures Orderable(expected[i]) {
      assert expected[i] in multiset(s);
    }
    SortedByNeighbours(expected, asc);
    SortedUnique(sorted, expected, asc);
  }

  /** The source's examples: numbers in ascending order, ... */
  lemma NumbersAscending()
    ensures InsertionSort([Num(3.0), Num(5.0), Num(1.0)], true) == [Num(1.0), Num(3.0), Num(5.0)]
  {
    SortsTo([Num(3.0), Num(5.0), Num(1.0)], [Num(1.0), Num(3.0), Num(5.0)], true);
  }

  /** ... numbers in descending order, ... */
  lemma NumbersDescending()
    ensures InsertionSort([Num(3.0), Num(5.0), Num(1.0)], false) == [Num(5.0), Num(3.0), Num(1.0)]
  {
    SortsTo([Num(3.0), Num(5.0), Num(1.0)], [Num(5.0), Num(3.0), Num(1.0)], false);
  }

  /** ... a mixed array in ascending order, numbers first, ... */
  lemma MixedAscending()
    ensures InsertionSort([Str("x"), Num(1.0), Str("b"), Num(5.0)], true) == [Num(1.0), Num(5.0), Str("b"), Str("x")]
  {
    assert StrLess("b", "x");
    SortsTo([Str("x"), Num(1.0), Str("b"), Num(5.0)], [Num(1.0), Num(5.0), Str("b"), Str("x")], true);
  }

  /** ... and in descending order, strings first. */
  lemma MixedDescending()
    ensures InsertionSort([Str("x"), Num(1.0), Str("b"), Num(5.0)], false) == [Str("x"), Str("b"), Num(5.0), Num(1.0)]
  {
    assert StrLess("b", "x");
    SortsTo([Str("x"), Num(1.0), Str("b"), Num(5.0)], [Str("x"), Str("b"), Num(5.0), Num(1.0)], false);
  }
}
