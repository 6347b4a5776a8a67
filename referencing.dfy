/** `reference` (src/utils/referencing.ts): reading a value at a
    separator-delimited path inside a referencable value. */
module Referencing {
  import opened Wrappers
  import opened Text
  import opened Json

  const ObjectNotDefinedMessage: string := "Can't reference - Object not defined"

  function NotSuitablePathMessage(path: string): string {
    "Can't reference - Not suitable path '" + path + "'"
  }

  /** `reference(referencable, path, onEmptyThrow, separator)`: a falsy
      referencable throws or gives `undefined`; one segment reads that
      property; more segments read the first and follow the rest, joined
      again by the separator. No segment at all (only for an empty path
      split by an empty separator) throws. */
  function Reference(referencable: Value, path: string, onEmptyThrow: bool, separator: string): (r: Result<Value>)
    ensures !Truthy(referencable) ==>
      r == (if onEmptyThrow then Fail(ObjectNotDefinedMessage) else Ok(Undefined))
    ensures Truthy(referencable) && |Split(path, separator)| == 1 ==>
      r == Ok(Property(referencable, Split(path, separator)[0]))
    ensures Truthy(referencable) && |Split(path, separator)| == 0 ==>
      r == Fail(NotSuitablePathMessage(path))
    ensures r.Err? ==> r.error.kind == ErrorKind.PlainError
    decreases |path|
  {
    if !Truthy(referencable) then
      if onEmptyThrow then Fail(ObjectNotDefinedMessage) else Ok(Undefined)
    else
      var segments := Split(path, separator);
      if |segments| == 1 then Ok(Property(referencable, segments[0]))
      else if |segments| > 1 then
        SplitTail(path, separator);
        Reference(Property(referencable, segments[0]), Join(segments[1..], separator), onEmptyThrow, separator)
      else Fail(NotSuitablePathMessage(path))
  }

  /** The walk a path describes, segment by segment: the independent
      definition that `Reference` is proved against. */
  function Walk(v: Value, segments: seq<string>, onEmptyThrow: bool): Result<Value>
    requires |segments| >= 1
    decreases |segments|
  {
    if !Truthy(v) then
      if onEmptyThrow then Fail(ObjectNotDefinedMessage) else Ok(Undefined)
    else if |segments| == 1 then Ok(Property(v, segments[0]))
    else Walk(Property(v, segments[0]), segments[1..], onEmptyThrow)
  }

  /** A path built from segments that do not contain the one-character
      separator is followed segment by segment. */
  lemma {:induction false} ReferenceWalks(v: Value, segments: seq<string>, onEmptyThrow: bool, separator: string)
    requires |separator| == 1 && |segments| >= 1
    requires forall i :: 0 <= i < |segments| ==> separator[0] !in segments[i]
    ensures Reference(v, Join(segments, separator), onEmptyThrow, separator) == Walk(v, segments, onEmptyThrow)
    decreases |segments|
  {
    SplitJoin(segments, separator);
    if Truthy(v) && |segments| > 1 {
      ReferenceWalks(Property(v, segments[0]), segments[1..], onEmptyThrow, separator);
    }
  }

  /** A multi-segment path reads the first segment and recurses on the rest
      with the same separator and flag. */
  lemma ReferenceStep(v: Value, first: string, rest: string, onEmptyThrow: bool, separator: string)
    requires |separator| == 1 && separator[0] !in first && Truthy(v)
    ensures Reference(v, first + separator + rest, onEmptyThrow, separator)
      == Reference(Property(v, first), rest, onEmptyThrow, separator)
  {
    SplitAtFirst(first, separator, rest);
    SplitNonEmpty(rest, separator);
    JoinSplit(rest, separator);
    assert (first + separator + rest)[..] == first + separator + rest;
  }

  /** A missing intermediate object throws "Object not defined" when
      throwing is enabled and gives `undefined` otherwise. */
  lemma ReferenceMissingIntermediate(v: Value, first: string, rest: string, onEmptyThrow: bool, separator: string)
    requires |separator| == 1 && separator[0] !in first && Truthy(v) && !Truthy(Property(v, first))
    ensures Reference(v, first + separator + rest, onEmptyThrow, separator)
      == if onEmptyThrow then Fail(ObjectNotDefinedMessage) else Ok(Undefined)
  {
    ReferenceStep(v, first, rest, onEmptyThrow, separator);
  }

  /** The "Not suitable path" error is raised exactly for an empty path and
      an empty separator on a truthy referencable. */
  lemma NotSuitablePathReachable(v: Value, path: string, onEmptyThrow: bool, separator: string)
    requires Truthy(v)
    ensures Reference(v, path, onEmptyThrow, separator) == Fail(NotSuitablePathMessage(path))
      <==> path == "" && separator == ""
  {
    if separator != "" {
      SplitNonEmpty(path, separator);
      var r := Reference(v, path, onEmptyThrow, separator);
      if |Split(path, separator)| > 1 {
        SplitTail(path, separator);
        NotSuitableOnlyForEmpty(Property(v, Split(path, separator)[0]), Join(Split(path, separator)[1..], separator), onEmptyThrow, separator, path);
      }
    } else if path != "" {
      if |path| > 1 {
        SplitTail(path, separator);
        NotSuitableOnlyForEmpty(Property(v, Split(path, separator)[0]), Join(Split(path, separator)[1..], separator), onEmptyThrow, separator, path);
      }
    }
  }

  /** Following a non-empty path never raises the error for another path's
      message unless the remaining path is empty and so is the separator;
      in particular the message names the remaining path. */
  lemma {:induction false} NotSuitableOnlyForEmpty(v: Value, rest: string, onEmptyThrow: bool, separator: string, path: string)
    requires path != ""
    ensures Reference(v, rest, onEmptyThrow, separator) != Fail(NotSuitablePathMessage(path))
    decreases |rest|
  {
    var r := Reference(v, rest, onEmptyThrow, separator);
    if Truthy(v) {
      var segments := Split(rest, separator);
      if |segments| > 1 {
        SplitTail(rest, separator);
        NotSuitableOnlyForEmpty(Property(v, segments[0]), Join(segments[1..], separator), onEmptyThrow, separator, path);
      } else if |segments| == 0 {
        if separator != "" {
          SplitNonEmpty(rest, separator);
        }
        assert rest == "";
        assert NotSuitablePathMessage(rest) != NotSuitablePathMessage(path) by {
          assert |NotSuitablePathMessage(rest)| < |NotSuitablePathMessage(path)|;
        }
      }
    }
  }

  /** The nested record of the source's own examples. */
  function Whole(): Value {
    Obj([("nested", Obj([("key", Str("value"))]))])
  }

  /** `nested.key` reads the nested value, and so does `nested#key` with a
      `#` separator. */
  lemma ReferenceNestedKey(separator: string)
    requires separator == "." || separator == "#"
    ensures Reference(Whole(), "nested" + separator + "key", false, separator) == Ok(Str("value"))
  {
    ReferenceStep(Whole(), "nested", "key", false, separator);
    var inner := Property(Whole(), "nested");
    assert inner == Obj([("key", Str("value"))]);
    SplitWithout("key", separator);
    assert Property(inner, "key") == Str("value");
  }

  /** A missing first segment gives `undefined`, or throws when enabled. */
  lemma ReferenceNonexisting(onEmptyThrow: bool)
    ensures Reference(Whole(), "nonexisting.key", onEmptyThrow, ".")
      == if onEmptyThrow then Fail(ObjectNotDefinedMessage) else Ok(Undefined)
  {
    assert "nonexisting.key" == "nonexisting" + "." + "key";
    assert Property(Whole(), "nonexisting") == Undefined by {
      assert "nonexisting"[1] != "nested"[1];
    }
    ReferenceMissingIntermediate(Whole(), "nonexisting", "key", onEmptyThrow, ".");
  }
}
