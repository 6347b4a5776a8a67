/** `stringTemplate(template, randomizer, variables)`
    (src/utils/string-template.ts): every occurrence of a default token
    (`$d`, `$c`, ...) is replaced by one random character of its charset,
    then every occurrence of each variable's name by the variable's value. */
module StringTemplate {
  import opened Wrappers
  import opened Text
  import opened Json
  import opened Randomness

  const DigitChars: string := "0123456789"
  const NonZeroDigitChars: string := "123456789"
  const LowerChars: string := "abcdefghijklmnopqrstuvwxyz"
  const UpperChars: string := "ABCDEFGHIJKLMNOPQRSTUVWXYZ"
  const LowerAlnumChars: string := "0123456789abcdefghijklmnopqrstuvwxyz"
  const UpperAlnumChars: string := "0123456789ABCDEFGHIJKLMNOPQRSTUVWXYZ"
  const LowerHexChars: string := "0123456789abcdef"
  const UpperHexChars: string := "0123456789ABCDEF"

  /** The defaults table, in its declaration order: each token and the
      characters it is replaced by. */
  const Defaults: seq<(string, string)> := [
    ("$d", DigitChars),
    ("$D", NonZeroDigitChars),
    ("$c", LowerChars),
    ("$C", UpperChars),
    ("$a", LowerAlnumChars),
    ("$A", UpperAlnumChars),
    ("$h", LowerHexChars),
    ("$H", UpperHexChars)
  ]

  /** A table of default tokens the replacement loops can work through:
      each token is `$` and one other character, and each charset is
      `$`-free with at least two characters. */
  ghost predicate TableOk(table: seq<(string, string)>) {
    forall i :: 0 <= i < |table| ==> DefaultToken(table[i].0) && '$' !in table[i].1 && |table[i].1| > 1
  }

  /** `[...chars]`: the array of the string's characters. */
  function Spread(chars: string): (v: Value)
    ensures v.Arr? && |v.items| == |chars|
    ensures forall i :: 0 <= i < |chars| ==> v.items[i] == Str([chars[i]])
  {
    Arr(seq(|chars|, i requires 0 <= i < |chars| => Str([chars[i]])))
  }

  /** A default token: `$` and one other character. */
  predicate DefaultToken(key: string) {
    |key| == 2 && key[0] == '$' && key[1] != '$'
  }

  /** The number of occurrences of `c` in `s`. */
  function Count(s: string, c: char): nat {
    if s == [] then 0 else (if s[0] == c then 1 else 0) + Count(s[1..], c)
  }

  lemma {:induction false} CountAppend(a: string, b: string, c: char)
    ensures Count(a + b, c) == Count(a, c) + Count(b, c)
  {
    if a != [] {
      assert (a + b)[1..] == a[1..] + b;
      CountAppend(a[1..], b, c);
    } else {
      assert a + b == b;
    }
  }

  lemma {:induction false} CountAbsent(s: string, c: char)
    requires c !in s
    ensures Count(s, c) == 0
    decreases |s|
  {
    if s != [] {
      CountAbsent(s[1..], c);
    }
  }

  lemma CountSingle(c: char, d: char)
    ensures Count([c], d) == if c == d then 1 else 0
  {
    assert [c][1..] == [];
  }

  /** The defaults table is one the loops can work through, with its
      tokens in the declaration order. */
  lemma DefaultsOk()
    ensures TableOk(Defaults) && |Defaults| == 8
    ensures Defaults[0].0 == "$d" && Defaults[1].0 == "$D" && Defaults[2].0 == "$c" && Defaults[3].0 == "$C"
    ensures Defaults[4].0 == "$a" && Defaults[5].0 == "$A" && Defaults[6].0 == "$h" && Defaults[7].0 == "$H"
  {
    DigitsAndLettersWithoutDollar();
    AlphanumericsWithoutDollar();
  }

  lemma DigitsAndLettersWithoutDollar()
    ensures '$' !in DigitChars && '$' !in NonZeroDigitChars && '$' !in LowerChars && '$' !in UpperChars
  {
  }

  lemma AlphanumericsWithoutDollar()
    ensures '$' !in LowerAlnumChars && '$' !in UpperAlnumChars && '$' !in LowerHexChars && '$' !in UpperHexChars
  {
  }

  /** `s.replace(key, sub)` on an occurrence: each character's count loses
      the key's and gains the substitute's. */
  lemma ReplaceCounts(s: string, key: string, sub: string, c: char)
    requires Includes(s, key)
    ensures Count(ReplaceFirst(s, key, sub), c) + Count(key, c) == Count(s, c) + Count(sub, c)
    ensures |ReplaceFirst(s, key, sub)| + |key| == |s| + |sub|
  {
    var i := IndexOf(s, key).value;
    assert s == s[..i] + key + s[i + |key|..];
    CountAppend(s[..i] + key, s[i + |key|..], c);
    CountAppend(s[..i], key, c);
    CountAppend(s[..i] + sub, s[i + |key|..], c);
    CountAppend(s[..i], sub, c);
  }

  /** A substitute the model can follow: it holds no replacement pattern
      (`$$`, `$&`, `` $` ``, `$'`), which `String.prototype.replace` would
      expand. */
  predicate NoPattern(sub: string) {
    forall i :: 0 <= i < |sub| - 1 && sub[i] == '$' ==> sub[i + 1] !in "$&`'"
  }

  /** The first character of `key`, from index `i` on, that occurs more
      often in `key` than in `sub`. */
  function Excess(key: string, sub: string, i: nat): (r: Option<char>)
    requires i <= |key|
    ensures r.Some? ==> Count(key, r.value) > Count(sub, r.value)
    ensures r.None? ==> forall j :: i <= j < |key| ==> Count(key, key[j]) <= Count(sub, key[j])
    decreases |key| - i
  {
    if i == |key| then None
    else if Count(key, key[i]) > Count(sub, key[i]) then Some(key[i])
    else Excess(key, sub, i + 1)
  }

  lemma {:induction false} CountPositive(s: string, c: char)
    requires Count(s, c) > 0
    ensures exists j :: 0 <= j < |s| && s[j] == c
    decreases |s|
  {
    if s[0] != c {
      CountPositive(s[1..], c);
      var j :| 0 <= j < |s[1..]| && s[1..][j] == c;
      assert s[j + 1] == c;
    }
  }

  /** The scan finds a character exactly when one occurs more often in the
      key than in the substitute. */
  lemma ExcessFound(key: string, sub: string)
    ensures Excess(key, sub, 0).Some? <==> exists c :: Count(key, c) > Count(sub, c)
  {
    if c :| Count(key, c) > Count(sub, c) {
      CountPositive(key, c);
      var j :| 0 <= j < |key| && key[j] == c;
      assert Count(key, key[j]) > Count(sub, key[j]);
    }
  }

  /** A key and a substitute whose repeated replacement ends: some
      character occurs more often in the key than in the substitute, so
      each replacement removes at least one of its occurrences. */
  predicate Fitting(key: string, sub: string) {
    Excess(key, sub, 0).Some? && NoPattern(sub)
  }

  /** The character whose count the replacement loop for `key` lowers. */
  function Witness(key: string, sub: string): (c: char)
    requires Fitting(key, sub)
    ensures Count(key, c) > Count(sub, c)
  {
    Excess(key, sub, 0).value
  }

  /** `Fitting` means what it says. */
  lemma FittingMeans(key: string, sub: string)
    ensures Fitting(key, sub) <==> (exists c :: Count(key, c) > Count(sub, c)) && NoPattern(sub)
  {
    ExcessFound(key, sub);
  }

  lemma {:induction false} CountIsMultiplicity(s: string, c: char)
    ensures Count(s, c) == multiset(s)[c]
    decreases |s|
  {
    if s != [] {
      CountIsMultiplicity(s[1..], c);
      assert s == [s[0]] + s[1..];
      assert multiset(s) == multiset([s[0]]) + multiset(s[1..]);
    }
  }

  /** A key none of whose characters occurs more often in it than in `sub`
      is no longer than `sub`. */
  lemma CountsBounded(key: string, sub: string)
    requires forall j :: 0 <= j < |key| ==> Count(key, key[j]) <= Count(sub, key[j])
    ensures |key| <= |sub|
  {
    var mk, ms := multiset(key), multiset(sub);
    forall c ensures mk[c] <= ms[c] {
      CountIsMultiplicity(key, c);
      CountIsMultiplicity(sub, c);
      if mk[c] > 0 {
        CountPositive(key, c);
      }
    }
    assert ms == mk + (ms - mk);
    assert |ms| == |mk| + |ms - mk|;
  }

  /** A substitute shorter than its key, free of patterns, always fits. */
  lemma ShorterFits(key: string, sub: string)
    requires |sub| < |key| && NoPattern(sub)
    ensures Fitting(key, sub)
  {
    if Excess(key, sub, 0).None? {
      CountsBounded(key, sub);
      assert false;
    }
  }

  // ---------------------------------------------------------------------
  // The defaults

  lemma TokenCount(key: string)
    requires DefaultToken(key)
    ensures Count(key, '$') == 1
  {
    assert key[1..] == [key[1]];
    CountSingle(key[1], '$');
  }

  /** The text a pick from `[...chars]` appends: one character of `chars`,
      or `'undefined'` when the draw falls outside [0, 1). */
  lemma PickedText(r: Randomizer, chars: string)
    requires PickRandomItem(r, Spread(chars)).Ok?
    ensures var t := ToJsString(PickRandomItem(r, Spread(chars)).value.0);
      t == "undefined" || (|t| == 1 && t[0] in chars)
  {
    PickIsItemOrUndefined(r, Spread(chars).items);
    var x := PickRandomItem(r, Spread(chars)).value.0;
    if x != Undefined {
      var i :| 0 <= i < |chars| && Spread(chars).items[i] == x;
      assert x == Str([chars[i]]);
    }
  }

  /** One replacement of a default token removes exactly one `$`. */
  lemma DefaultStep(s: string, key: string, chars: string, r: Randomizer)
    requires DefaultToken(key) && '$' !in chars && Includes(s, key)
    requires PickRandomItem(r, Spread(chars)).Ok?
    ensures var sub := ToJsString(PickRandomItem(r, Spread(chars)).value.0);
      Count(ReplaceFirst(s, key, sub), '$') == Count(s, '$') - 1
      && |ReplaceFirst(s, key, sub)| == |s| - 2 + |sub|
  {
    var sub := ToJsString(PickRandomItem(r, Spread(chars)).value.0);
    PickedText(r, chars);
    assert '$' !in sub;
    CountAbsent(sub, '$');
    TokenCount(key);
    ReplaceCounts(s, key, sub, '$');
  }

  /** `while (result.includes(key)) result = result.replace(key, pick)`
      for one default token, each pick drawn afresh. */
  function FillDefault(s: string, key: string, chars: string, r: Randomizer): (res: Result<(string, Randomizer)>)
    requires DefaultToken(key) && '$' !in chars
    ensures res.Ok? ==> !Includes(res.value.0, key)
    ensures !Includes(s, key) ==> res == Ok((s, r))
    decreases Count(s, '$')
  {
    if !Includes(s, key) then Ok((s, r))
    else
      var picked :- PickRandomItem(r, Spread(chars));
      DefaultStep(s, key, chars, r);
      FillDefault(ReplaceFirst(s, key, ToJsString(picked.0)), key, chars, picked.1)
  }

  /** From a proper randomizer, every replacement puts one character of the
      charset in place of the two-character token: the string shortens by
      exactly the number of tokens replaced, and the randomizer stays
      proper. */
  lemma {:induction false} FillDefaultShortens(s: string, key: string, chars: string, r: Randomizer)
    requires DefaultToken(key) && '$' !in chars && |chars| > 0
    requires Proper(r) && !r.ContextuallySeeded?
    ensures FillDefault(s, key, chars, r).Ok?
    ensures var out := FillDefault(s, key, chars, r).value;
      |s| - |out.0| == Count(s, '$') - Count(out.0, '$')
      && Proper(out.1) && !out.1.ContextuallySeeded?
    decreases Count(s, '$')
  {
    if Includes(s, key) {
      PickIsMember(r, Spread(chars).items);
      var picked := PickRandomItem(r, Spread(chars)).value;
      if |chars| > 1 {
        DrawProper(r);
      }
      var sub := ToJsString(picked.0);
      assert |sub| == 1;
      DefaultStep(s, key, chars, r);
      FillDefaultShortens(ReplaceFirst(s, key, sub), key, chars, picked.1);
    }
  }

  /** The loop over the defaults table from entry `i` on. */
  function DefaultsFrom(table: seq<(string, string)>, s: string, r: Randomizer, i: nat)
    : (res: Result<(string, Randomizer)>)
    requires TableOk(table) && i <= |table|
    decreases |table| - i
  {
    if i == |table| then Ok((s, r))
    else
      var filled :- FillDefault(s, table[i].0, table[i].1, r);
      DefaultsFrom(table, filled.0, filled.1, i + 1)
  }

  /** A string without `$` passes the defaults unchanged, drawing
      nothing. */
  lemma {:induction false} DefaultsWithoutDollar(table: seq<(string, string)>, s: string, r: Randomizer, i: nat)
    requires TableOk(table) && i <= |table| && '$' !in s
    ensures DefaultsFrom(table, s, r, i) == Ok((s, r))
    decreases |table| - i
  {
    if i < |table| {
      var key := table[i].0;
      forall j: nat ensures !At(s, key, j) {
        if j + 2 <= |s| {
          assert s[j] != '$';
          assert s[j..j + 2][0] == s[j];
        }
      }
      assert !Includes(s, key);
      DefaultsWithoutDollar(table, s, r, i + 1);
    }
  }

  /** From a proper randomizer, the defaults shorten the template by
      exactly the number of tokens they replace. */
  lemma {:induction false} DefaultsShorten(table: seq<(string, string)>, s: string, r: Randomizer, i: nat)
    requires TableOk(table) && i <= |table| && Proper(r) && !r.ContextuallySeeded?
    ensures DefaultsFrom(table, s, r, i).Ok?
    ensures var out := DefaultsFrom(table, s, r, i).value;
      |s| - |out.0| == Count(s, '$') - Count(out.0, '$')
      && Proper(out.1) && !out.1.ContextuallySeeded?
    decreases |table| - i
  {
    if i < |table| {
      FillDefaultShortens(s, table[i].0, table[i].1, r);
      var filled := FillDefault(s, table[i].0, table[i].1, r).value;
      DefaultsShorten(table, filled.0, filled.1, i + 1);
    }
  }

  // ---------------------------------------------------------------------
  // The variables

  /** One replacement of a fitting key lowers the count of its witness
      character. */
  lemma FillStep(s: string, key: string, sub: string)
    requires Fitting(key, sub) && Includes(s, key)
    ensures Count(ReplaceFirst(s, key, sub), Witness(key, sub)) < Count(s, Witness(key, sub))
    ensures |ReplaceFirst(s, key, sub)| == |s| + |sub| - |key|
  {
    ReplaceCounts(s, key, sub, Witness(key, sub));
  }

  /** `while (result.includes(key)) result = result.replace(key, sub)`. */
  function Fill(s: string, key: string, sub: string): (r: string)
    requires Fitting(key, sub)
    ensures !Includes(r, key)
    ensures !Includes(s, key) ==> r == s
    decreases Count(s, Witness(key, sub))
  {
    if !Includes(s, key) then s
    else
      FillStep(s, key, sub);
      Fill(ReplaceFirst(s, key, sub), key, sub)
  }

  /** A substitute that contains its key never lets the loop end: the
      replacement always leaves an occurrence of the key. */
  lemma SelfContainingNeverEnds(s: string, key: string, sub: string)
    requires Includes(s, key) && Includes(sub, key)
    ensures Includes(ReplaceFirst(s, key, sub), key)
  {
    var i := IndexOf(s, key).value;
    var j := IndexOf(sub, key).value;
    var t := ReplaceFirst(s, key, sub);
    assert t == s[..i] + sub + s[i + |key|..];
    assert t[i + j..i + j + |key|] == sub[j..j + |key|];
    assert At(t, key, i + j);
  }

  /** The loop rescans from the start: a replacement can complete a new
      occurrence with what precedes it, so `"aab"` with `ab` replaced by
      `b` ends as `"b"`, not as `"ab"`. */
  lemma FillRescans(s: string, key: string, sub: string)
    requires s == "aab" && key == "ab" && sub == "b"
    ensures Fitting(key, sub)
    ensures Fill(s, key, sub) == "b"
  {
    assert Count(key, 'a') == 1 by {
      assert key[1..] == "b";
      CountSingle('b', 'a');
    }
    CountSingle('b', 'a');
    assert At(s, key, 1) && !At(s, key, 0);
    assert IndexOf(s, key) == Some(1);
    var t := ReplaceFirst(s, key, sub);
    assert t == "ab";
    assert IndexOf(t, key) == Some(0);
    assert ReplaceFirst(t, key, sub) == "b";
    assert !Includes("b", key);
  }

  /** The usual key styles fit: `{{name}}`, `%name%` and `{name}`, even
      with a substitute holding a brace. `"Hi {{name}}!"` with `"Bob"` for
      `{{name}}` becomes `"Hi Bob!"`. */
  lemma UsualKeysFit()
    ensures Fitting("{{name}}", "Bob") && Fitting("%name%", "Bob") && Fitting("{name}", "a{b")
    ensures Fill("Hi {{name}}!", "{{name}}", "Bob") == "Hi Bob!"
  {
    ShorterFits("{{name}}", "Bob");
    ShorterFits("%name%", "Bob");
    ShorterFits("{name}", "a{b");
    var s, key := "Hi {{name}}!", "{{name}}";
    assert At(s, key, 3);
    forall j: nat | j < 3 ensures !At(s, key, j) {
      assert s[j] != '{';
      assert j + |key| <= |s| ==> s[j..j + |key|][0] == s[j];
    }
    assert IndexOf(s, key) == Some(3);
    assert ReplaceFirst(s, key, "Bob") == "Hi Bob!";
    assert !Includes("Hi Bob!", key);
  }

  /** The variables' substitutes, `substitute + ''`, all fit their keys. */
  predicate FittingVariables(variables: Entries) {
    forall j :: 0 <= j < |variables| ==> Fitting(variables[j].0, ToJsString(variables[j].1))
  }

  /** The loop over the variables' keys from entry `j` on. */
  function VariablesFrom(s: string, variables: Entries, j: nat): (r: string)
    requires j <= |variables| && FittingVariables(variables)
    decreases |variables| - j
  {
    if j == |variables| then s
    else VariablesFrom(Fill(s, variables[j].0, ToJsString(variables[j].1)), variables, j + 1)
  }

  /** A string holding none of the variables' keys passes them
      unchanged. */
  lemma {:induction false} VariablesAbsent(s: string, variables: Entries, j: nat)
    requires j <= |variables| && FittingVariables(variables)
    requires forall k :: j <= k < |variables| ==> !Includes(s, variables[k].0)
    ensures VariablesFrom(s, variables, j) == s
    decreases |variables| - j
  {
    if j < |variables| {
      VariablesAbsent(s, variables, j + 1);
    }
  }

  /** The last variable's key does not occur in the result. */
  lemma {:induction false} VariablesLastGone(s: string, variables: Entries, j: nat)
    requires j < |variables| && FittingVariables(variables)
    ensures !Includes(VariablesFrom(s, variables, j), variables[|variables| - 1].0)
    decreases |variables| - j
  {
    if j < |variables| - 1 {
      VariablesLastGone(Fill(s, variables[j].0, ToJsString(variables[j].1)), variables, j + 1);
    }
  }

  /** `stringTemplate(template, randomizer, variables)`, with `variables`
      given by the entries of the object (`[]` when it is `undefined`). */
  function Template(template: string, r: Randomizer, variables: Entries): (res: Result<(string, Randomizer)>)
    requires FittingVariables(variables)
  {
    DefaultsOk();
    var filled :- DefaultsFrom(Defaults, template, r, 0);
    Ok((VariablesFrom(filled.0, variables, 0), filled.1))
  }

  /** A template without `$` and without any variable's key comes back as
      it is, and no draw is made. */
  lemma TemplateWithoutTokens(template: string, r: Randomizer, variables: Entries)
    requires FittingVariables(variables) && '$' !in template
    requires forall k :: 0 <= k < |variables| ==> !Includes(template, variables[k].0)
    ensures Template(template, r, variables) == Ok((template, r))
  {
    DefaultsOk();
    DefaultsWithoutDollar(Defaults, template, r, 0);
    VariablesAbsent(template, variables, 0);
  }

  /** With a proper randomizer and no variables, the result is as long as
      the template minus one character per default token replaced. */
  lemma TemplateShortens(template: string, r: Randomizer)
    requires Proper(r) && !r.ContextuallySeeded?
    ensures Template(template, r, []).Ok?
    ensures var out := Template(template, r, []).value.0;
      |template| - |out| == Count(template, '$') - Count(out, '$')
  {
    DefaultsOk();
    DefaultsShorten(Defaults, template, r, 0);
  }

  /** The replacement loop for one default token. */
  method ReplaceDefault(s: string, key: string, chars: string, r: Randomizer)
    returns (res: Result<(string, Randomizer)>)
    requires DefaultToken(key) && '$' !in chars
    ensures res == FillDefault(s, key, chars, r)
  {
    var result := s;
    var randomizer := r;
    while Includes(result, key)
      invariant FillDefault(result, key, chars, randomizer) == FillDefault(s, key, chars, r)
      decreases Count(result, '$')
    {
      var picked := PickRandomItem(randomizer, Spread(chars));
      if picked.Err? {
        return Err(picked.error);
      }
      DefaultStep(result, key, chars, randomizer);
      result := ReplaceFirst(result, key, ToJsString(picked.value.0));
      randomizer := picked.value.1;
    }
    return Ok((result, randomizer));
  }

  /** The replacement loop for one variable. */
  method ReplaceVariable(s: string, key: string, sub: string) returns (result: string)
    requires Fitting(key, sub)
    ensures result == Fill(s, key, sub)
  {
    result := s;
    while Includes(result, key)
      invariant Fill(result, key, sub) == Fill(s, key, sub)
      decreases Count(result, Witness(key, sub))
    {
      FillStep(result, key, sub);
      result := ReplaceFirst(result, key, sub);
    }
  }

  /** The loop over the defaults table. */
  method ReplaceDefaults(template: string, r: Randomizer) returns (res: Result<(string, Randomizer)>)
    ensures TableOk(Defaults) && res == DefaultsFrom(Defaults, template, r, 0)
  {
    DefaultsOk();
    var result := template;
    var randomizer := r;
    var i := 0;
    while i < |Defaults|
      invariant i <= |Defaults|
      invariant DefaultsFrom(Defaults, result, randomizer, i) == DefaultsFrom(Defaults, template, r, 0)
    {
      var filled := ReplaceDefault(result, Defaults[i].0, Defaults[i].1, randomizer);
      if filled.Err? {
        return Err(filled.error);
      }
      result, randomizer := filled.value.0, filled.value.1;
      i := i + 1;
    }
    return Ok((result, randomizer));
  }

  /** The loop over the variables. */
  method ReplaceVariables(s: string, variables: Entries) returns (result: string)
    requires FittingVariables(variables)
    ensures result == VariablesFrom(s, variables, 0)
  {
    result := s;
    var j := 0;
    while j < |variables|
      invariant j <= |variables|
      invariant VariablesFrom(result, variables, j) == VariablesFrom(s, variables, 0)
    {
      result := ReplaceVariable(result, variables[j].0, ToJsString(variables[j].1));
      j := j + 1;
    }
  }

  /** `stringTemplate` as the source runs it: the defaults, then the
      variables. */
  method FillTemplate(template: string, r: Randomizer, variables: Entries)
    returns (res: Result<(string, Randomizer)>)
    requires FittingVariables(variables)
    ensures res == Template(template, r, variables)
  {
    var filled := ReplaceDefaults(template, r);
    if filled.Err? {
      return Err(filled.error);
    }
    var result := ReplaceVariables(filled.value.0, variables);
    return Ok((result, filled.value.1));
  }
}
