/** String operations of the JavaScript standard library that the core
    relies on, over `string == seq<char>`. A Dafny `char` is a Unicode
    scalar value, so a character outside the Basic Multilingual Plane counts
    once here where JavaScript counts two UTF-16 code units. */
module Text {
  import opened Wrappers

  function DigitChar(d: nat): (c: char)
    requires d < 10
    ensures '0' <= c <= '9'
  {
    "0123456789"[d]
  }

  /** Decimal text of a natural number, as `String(n)` prints it. */
  function NatToString(n: nat): (s: string)
    ensures |s| >= 1
    ensures forall i :: 0 <= i < |s| ==> '0' <= s[i] <= '9'
    ensures |s| > 1 ==> s[0] != '0'
  {
    if n < 10 then [DigitChar(n)] else NatToString(n / 10) + [DigitChar(n % 10)]
  }

  function IntToString(i: int): string {
    if i < 0 then "-" + NatToString(-i) else NatToString(i)
  }

  /** Decimal value of a digit string (the inverse of `NatToString`). */
  function DigitsValue(s: string): nat
    requires forall i :: 0 <= i < |s| ==> '0' <= s[i] <= '9'
  {
    if s == [] then 0 else 10 * DigitsValue(s[..|s| - 1]) + (s[|s| - 1] as int - '0' as int)
  }

  lemma DigitCharValue(d: nat)
    requires d < 10
    ensures DigitChar(d) as int - '0' as int == d
  {
  }

  lemma {:induction false} NatToStringValue(n: nat)
    ensures DigitsValue(NatToString(n)) == n
  {
    var s := NatToString(n);
    if n < 10 {
      DigitCharValue(n);
      assert s[..|s| - 1] == [];
    } else {
      var prefix := NatToString(n / 10);
      assert s == prefix + [DigitChar(n % 10)];
      assert s[..|s| - 1] == prefix;
      NatToStringValue(n / 10);
      DigitCharValue(n % 10);
      assert DigitsValue(s) == 10 * DigitsValue(prefix) + (DigitChar(n % 10) as int - '0' as int);
    }
  }

  /** Distinct numbers print differently, so index keys never collide. */
  lemma NatToStringInjective(m: nat, n: nat)
    requires NatToString(m) == NatToString(n)
    ensures m == n
  {
    NatToStringValue(m);
    NatToStringValue(n);
  }

  /** At most `k` decimal digits of a fraction `0 <= f < 1`, stopping as
      soon as the expansion terminates. */
  function FractionDigits(f: real, k: nat): string
    requires 0.0 <= f < 1.0
    decreases k
  {
    if f == 0.0 || k == 0 then ""
    else
      var d := (f * 10.0).Floor;
      assert 0 <= d < 10;
      [DigitChar(d)] + FractionDigits(f * 10.0 - d as real, k - 1)
  }

  /** `String(x)` for a finite number. Integral values print exactly;
      other values print up to 20 fractional digits (JavaScript's shortest
      round-trip formatting and exponent notation are not modelled). */
  function NumberToString(x: real): string {
    if x == x.Floor as real then IntToString(x.Floor)
    else
      var a := if x < 0.0 then -x else x;
      (if x < 0.0 then "-" else "") + NatToString(a.Floor) + "."
        + FractionDigits(a - a.Floor as real, 20)
  }

  lemma NumberToStringOfNat(n: nat)
    ensures NumberToString(n as real) == NatToString(n)
  {
    assert (n as real).Floor == n;
  }

  /** `t` occurs in `s` at position `i`. */
  predicate At(s: string, t: string, i: nat) {
    i + |t| <= |s| && s[i..i + |t|] == t
  }

  function IndexOfFrom(s: string, t: string, from: nat): (r: Option<nat>)
    ensures r.Some? ==> from <= r.value && At(s, t, r.value)
    ensures r.Some? ==> forall j :: from <= j < r.value ==> !At(s, t, j)
    ensures r.None? ==> forall j :: from <= j ==> !At(s, t, j)
    decreases |s| - from
  {
    if from + |t| > |s| then None
    else if s[from..from + |t|] == t then Some(from)
    else IndexOfFrom(s, t, from + 1)
  }

  /** `s.indexOf(t)`, with `None` for -1: the first occurrence. */
  function IndexOf(s: string, t: string): (r: Option<nat>)
    ensures r.Some? ==> At(s, t, r.value) && forall j: nat :: j < r.value ==> !At(s, t, j)
    ensures r.None? ==> forall j: nat :: !At(s, t, j)
  {
    IndexOfFrom(s, t, 0)
  }

  /** `s.includes(t)` */
  predicate Includes(s: string, t: string) {
    IndexOf(s, t).Some?
  }

  predicate StartsWith(s: string, prefix: string) {
    At(s, prefix, 0)
  }

  /** `s.replace(t, r)` for a string pattern `t` and a replacement without
      `$` patterns: the first occurrence is replaced, or nothing changes. */
  function ReplaceFirst(s: string, t: string, r: string): string {
    match IndexOf(s, t)
    case None => s
    case Some(i) => s[..i] + r + s[i + |t|..]
  }

  /** The one-character strings of `s`, as `s.split('')` gives them. */
  function Chars(s: string): (cs: seq<string>)
    ensures |cs| == |s|
    ensures forall i :: 0 <= i < |s| ==> cs[i] == [s[i]]
  {
    seq(|s|, i requires 0 <= i < |s| => [s[i]])
  }

  /** `s.split(sep)` for a string separator. */
  function Split(s: string, sep: string): seq<string>
    decreases |s|
  {
    if sep == "" then Chars(s)
    else
      match IndexOf(s, sep)
      case None => [s]
      case Some(i) => [s[..i]] + Split(s[i + |sep|..], sep)
  }

  /** `parts.join(sep)` */
  function Join(parts: seq<string>, sep: string): string {
    if |parts| == 0 then ""
    else if |parts| == 1 then parts[0]
    else parts[0] + sep + Join(parts[1..], sep)
  }

  lemma {:induction false} JoinChars(s: string)
    ensures Join(Chars(s), "") == s
  {
    if |s| > 1 {
      assert Chars(s)[1..] == Chars(s[1..]);
      JoinChars(s[1..]);
    } else if |s| == 1 {
      assert Join(Chars(s), "") == [s[0]];
    }
  }

  /** Splitting and joining with the same separator gives back the string. */
  lemma {:induction false} JoinSplit(s: string, sep: string)
    ensures Join(Split(s, sep), sep) == s
    decreases |s|
  {
    if sep == "" {
      JoinChars(s);
    } else {
      match IndexOf(s, sep)
      case None =>
      case Some(i) =>
        var rest := s[i + |sep|..];
        var tail := Split(rest, sep);
        SplitNonEmpty(rest, sep);
        JoinSplit(rest, sep);
        var parts := [s[..i]] + tail;
        SplitAt(s, sep);
        assert |parts| > 1 && parts[0] == s[..i] && parts[1..] == tail;
        assert Join(parts, sep) == s[..i] + sep + rest;
        assert At(s, sep, i);
        Slices(s, i, i + |sep|);
    }
  }

  /** A string is its three slices at `a` and `b`, put back together. */
  lemma Slices(s: string, a: nat, b: nat)
    requires a <= b <= |s|
    ensures s == s[..a] + s[a..b] + s[b..]
  {
    assert s[..a] + s[a..b] == s[..b];
  }

  /** One piece of `split`: with the first occurrence of `sep` at `i`, the
      piece before it and the pieces of what follows. */
  lemma SplitAt(s: string, sep: string)
    requires sep != "" && IndexOf(s, sep).Some?
    ensures var i := IndexOf(s, sep).value; Split(s, sep) == [s[..i]] + Split(s[i + |sep|..], sep)
  {
  }

  lemma {:induction false} SplitNonEmpty(s: string, sep: string)
    requires sep != ""
    ensures |Split(s, sep)| >= 1
    decreases |s|
  {
    match IndexOf(s, sep)
    case None =>
    case Some(i) =>
  }

  /** With a non-empty separator, no piece contains the separator. */
  lemma {:induction false} SplitPiecesHaveNoSeparator(s: string, sep: string)
    requires sep != ""
    ensures forall p :: p in Split(s, sep) ==> !Includes(p, sep)
    decreases |s|
  {
    match IndexOf(s, sep)
    case None =>
    case Some(i) =>
      var rest := s[i + |sep|..];
      SplitPiecesHaveNoSeparator(rest, sep);
      var head := s[..i];
      if Includes(head, sep) {
        var j := IndexOf(head, sep).value;
        assert head[j..j + |sep|] == s[j..j + |sep|];
        assert At(s, sep, j);
        assert false;
      }
      SplitAt(s, sep);
      var pieces := Split(s, sep);
      assert pieces == [head] + Split(rest, sep);
      forall p | p in pieces ensures !Includes(p, sep) {
        if p != head {
          assert p in Split(rest, sep);
        }
      }
  }

  /** A split into several pieces: rejoining all but the first piece gives a
      strictly shorter string that splits into exactly those pieces. This is
      what lets a dotted path be consumed one segment at a time. */
  lemma {:induction false} SplitTail(s: string, sep: string)
    requires |Split(s, sep)| > 1
    ensures Split(Join(Split(s, sep)[1..], sep), sep) == Split(s, sep)[1..]
    ensures |Join(Split(s, sep)[1..], sep)| < |s|
  {
    if sep == "" {
      SplitTailChars(s);
    } else {
      SplitTailSeparated(s, sep);
    }
  }

  lemma SplitTailChars(s: string)
    requires |Split(s, "")| > 1
    ensures Split(Join(Split(s, "")[1..], ""), "") == Split(s, "")[1..]
    ensures |Join(Split(s, "")[1..], "")| < |s|
  {
    assert Split(s, "")[1..] == Chars(s[1..]);
    JoinChars(s[1..]);
  }

  lemma SplitTailSeparated(s: string, sep: string)
    requires sep != "" && |Split(s, sep)| > 1
    ensures Split(Join(Split(s, sep)[1..], sep), sep) == Split(s, sep)[1..]
    ensures |Join(Split(s, sep)[1..], sep)| < |s|
  {
    var i := IndexOf(s, sep).value;
    var rest := s[i + |sep|..];
    assert Split(s, sep)[1..] == Split(rest, sep);
    JoinSplit(rest, sep);
  }

  /** With a one-character separator absent from `a`, the first piece of
      `a + sep + b` is `a`. */
  lemma SplitAtFirst(a: string, sep: string, b: string)
    requires |sep| == 1 && sep[0] !in a
    ensures Split(a + sep + b, sep) == [a] + Split(b, sep)
  {
    var s := a + sep + b;
    assert At(s, sep, |a|) by {
      assert s[|a|..|a| + 1] == sep;
    }
    var r := IndexOf(s, sep);
    assert r == Some(|a|);
    assert s[..|a|] == a;
    assert s[|a| + 1..] == b;
  }

  /** A string without the one-character separator is one piece. */
  lemma SplitWithout(a: string, sep: string)
    requires |sep| == 1 && sep[0] !in a
    ensures Split(a, sep) == [a]
  {
    assert IndexOf(a, sep).None?;
  }

  /** Joining pieces that do not contain the one-character separator and
      splitting again gives the pieces back. */
  lemma {:induction false} SplitJoin(parts: seq<string>, sep: string)
    requires |sep| == 1 && |parts| >= 1
    requires forall i :: 0 <= i < |parts| ==> sep[0] !in parts[i]
    ensures Split(Join(parts, sep), sep) == parts
  {
    if |parts| == 1 {
      SplitWithout(parts[0], sep);
    } else {
      SplitJoin(parts[1..], sep);
      SplitAtFirst(parts[0], sep, Join(parts[1..], sep));
      assert parts == [parts[0]] + parts[1..];
    }
  }

  /** Code-point lexicographic order (the model's stand-in for
      `localeCompare`). */
  predicate StrLess(a: string, b: string) {
    if a == [] then b != []
    else if b == [] then false
    else if a[0] != b[0] then a[0] < b[0]
    else StrLess(a[1..], b[1..])
  }

  lemma {:induction false} StrLessIrreflexive(a: string)
    ensures !StrLess(a, a)
  {
    if a != [] {
      StrLessIrreflexive(a[1..]);
    }
  }

  lemma {:induction false} StrLessTrichotomy(a: string, b: string)
    ensures a == b || StrLess(a, b) || StrLess(b, a)
  {
    if a != [] && b != [] && a[0] == b[0] {
      StrLessTrichotomy(a[1..], b[1..]);
      if a[1..] == b[1..] {
        assert a == [a[0]] + a[1..] && b == [b[0]] + b[1..];
      }
    }
  }

  lemma {:induction false} StrLessAsymmetric(a: string, b: string)
    requires StrLess(a, b)
    ensures !StrLess(b, a)
  {
    if a != [] && b != [] && a[0] == b[0] {
      StrLessAsymmetric(a[1..], b[1..]);
    }
  }

  lemma {:induction false} StrLessTransitive(a: string, b: string, c: string)
    requires StrLess(a, b) && StrLess(b, c)
    ensures StrLess(a, c)
  {
    if a != [] && b != [] && c != [] && a[0] == b[0] && b[0] == c[0] {
      StrLessTransitive(a[1..], b[1..], c[1..]);
    }
  }

  predicate IsUpper(c: char) {
    'A' <= c <= 'Z'
  }

  /** `c.toLowerCase()` restricted to ASCII letters. */
  function ToLower(c: char): (l: char)
    ensures !IsUpper(l)
    ensures IsUpper(c) ==> l as int == c as int + 32
    ensures !IsUpper(c) ==> l == c
  {
    if IsUpper(c) then (c as int + 32) as char else c
  }
}
