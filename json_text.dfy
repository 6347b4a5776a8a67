/** The three built-ins that `parseValue` (src/utils/config-parsing.ts) and
    the `!const-` prefix (src/schema/schema.ts) rely on: `JSON.parse`,
    `decodeURIComponent` and `Number(string)`. Numbers are exact reals, so a
    literal too large for a double does not become `Infinity` here. */
module JsonText {
  import opened Wrappers
  import opened Text
  import opened AssocLists
  import opened Json

  /** A `SyntaxError` of `JSON.parse`. Its text is engine-specific; both
      callers catch it without reading it. */
  function Invalid<T>(): Result<T> {
    Err(Error(ErrorKind.SyntaxError, "Unexpected token in JSON"))
  }

  predicate IsDigit(c: char) {
    '0' <= c <= '9'
  }

  predicate IsJsonWs(c: char) {
    c == ' ' || c == '\t' || c == '\n' || c == '\r'
  }

  function Pow10(n: nat): (p: nat)
    ensures p >= 1
  {
    if n == 0 then 1 else 10 * Pow10(n - 1)
  }

  /** `x * 10^e` */
  function Scale10(x: real, e: int): real {
    if e >= 0 then x * Pow10(e) as real else x / Pow10(-e) as real
  }

  /** The position just past the JSON whitespace starting at `i`. */
  function SkipWs(s: string, i: nat): (j: nat)
    requires i <= |s|
    ensures i <= j <= |s|
    ensures j < |s| ==> !IsJsonWs(s[j])
    ensures forall k :: i <= k < j ==> IsJsonWs(s[k])
    decreases |s| - i
  {
    if i < |s| && IsJsonWs(s[i]) then SkipWs(s, i + 1) else i
  }

  /** The position just past the decimal digits starting at `i`. */
  function DigitsEnd(s: string, i: nat): (j: nat)
    requires i <= |s|
    ensures i <= j <= |s|
    ensures j < |s| ==> !IsDigit(s[j])
    ensures forall k :: i <= k < j ==> IsDigit(s[k])
    decreases |s| - i
  {
    if i < |s| && IsDigit(s[i]) then DigitsEnd(s, i + 1) else i
  }

  /** The decimal value of `s[i..j]`, all digits. */
  function DigitsAt(s: string, i: nat, j: nat): nat
    requires i <= j <= |s|
    requires forall k :: i <= k < j ==> IsDigit(s[k])
  {
    assert forall k :: 0 <= k < j - i ==> '0' <= s[i..j][k] <= '9' by {
      forall k | 0 <= k < j - i ensures '0' <= s[i..j][k] <= '9' {
        assert s[i..j][k] == s[i + k] && IsDigit(s[i + k]);
      }
    }
    DigitsValue(s[i..j])
  }

  /** An optional `.digits` at `b`: its value in [0, 1) and where it ends. */
  function Fraction(s: string, b: nat, digitsRequired: bool): Option<(real, nat)>
    requires b <= |s|
  {
    if b < |s| && s[b] == '.' then
      var e := DigitsEnd(s, b + 1);
      if e == b + 1 && digitsRequired then None
      else Some((DigitsAt(s, b + 1, e) as real / Pow10(e - b - 1) as real, e))
    else Some((0.0, b))
  }

  /** An optional exponent `e`/`E`, sign, digits at `c`. */
  function Exponent(s: string, c: nat): (r: Option<(int, nat)>)
    requires c <= |s|
    ensures r.Some? ==> c <= r.value.1 <= |s|
  {
    if c < |s| && (s[c] == 'e' || s[c] == 'E') then
      var signed := c + 1 < |s| && (s[c + 1] == '+' || s[c + 1] == '-');
      var d := if signed then c + 2 else c + 1;
      var e := DigitsEnd(s, d);
      if e == d then None
      else
        var n := DigitsAt(s, d, e);
        Some((if signed && s[c + 1] == '-' then -(n as int) else n as int, e))
    else Some((0, c))
  }

  /** A JSON number at `i`: `-`? (`0` | nonzero digit, digits) fraction?
      exponent?, with its value and end. */
  function JsonNumber(s: string, i: nat): (r: Result<(real, nat)>)
    requires i <= |s|
    ensures r.Ok? ==> i < r.value.1 <= |s|
  {
    var neg := i < |s| && s[i] == '-';
    var a := if neg then i + 1 else i;
    if a >= |s| || !IsDigit(s[a]) then Invalid()
    else
      var b := if s[a] == '0' then a + 1 else DigitsEnd(s, a);
      var whole := DigitsAt(s, a, b);
      match Fraction(s, b, true)
      case None => Invalid()
      case Some((frac, c)) =>
        match Exponent(s, c)
        case None => Invalid()
        case Some((exp, e)) =>
          var magnitude := Scale10(whole as real + frac, exp);
          Ok((if neg then -magnitude else magnitude, e))
  }

  function HexValue(c: char): Option<nat> {
    if '0' <= c <= '9' then Some(c as int - '0' as int)
    else if 'a' <= c <= 'f' then Some(c as int - 'a' as int + 10)
    else if 'A' <= c <= 'F' then Some(c as int - 'A' as int + 10)
    else None
  }

  /** The code unit written as four hex digits at `i`. */
  function Hex4(s: string, i: nat): (r: Option<nat>)
    ensures r.Some? ==> r.value < 0x1_0000
  {
    if i + 4 > |s| then None
    else match (HexValue(s[i]), HexValue(s[i + 1]), HexValue(s[i + 2]), HexValue(s[i + 3]))
      case (Some(a), Some(b), Some(c), Some(d)) =>
        if a < 16 && b < 16 && c < 16 && d < 16 then Some(((a * 16 + b) * 16 + c) * 16 + d) else None
      case _ => None
  }

  predicate IsHighSurrogate(u: nat) {
    0xD800 <= u < 0xDC00
  }

  predicate IsLowSurrogate(u: nat) {
    0xDC00 <= u < 0xE000
  }

  /** The escape after a backslash at `i`: the character and the position
      past the escape. A `\u` surrogate pair becomes one character; a lone
      surrogate has no Dafny `char` and is `Unmodelled`. */
  function Escape(s: string, i: nat): (r: Result<(char, nat)>)
    requires i < |s| && s[i] == '\\'
    ensures r.Ok? ==> i + 2 <= r.value.1 <= |s|
  {
    if i + 1 >= |s| then Invalid()
    else
      var c := s[i + 1];
      if c == '"' then Ok(('"', i + 2))
      else if c == '\\' then Ok(('\\', i + 2))
      else if c == '/' then Ok(('/', i + 2))
      else if c == 'b' then Ok((8 as char, i + 2))
      else if c == 'f' then Ok((12 as char, i + 2))
      else if c == 'n' then Ok(('\n', i + 2))
      else if c == 'r' then Ok(('\r', i + 2))
      else if c == 't' then Ok(('\t', i + 2))
      else if c != 'u' then Invalid()
      else
        match Hex4(s, i + 2)
        case None => Invalid()
        case Some(u) =>
          if IsLowSurrogate(u) then Err(Error(ErrorKind.Unmodelled, "lone surrogate in JSON string"))
          else if !IsHighSurrogate(u) then Ok((u as char, i + 6))
          else if i + 8 <= |s| && s[i + 6] == '\\' && s[i + 7] == 'u' && Hex4(s, i + 8).Some?
            && IsLowSurrogate(Hex4(s, i + 8).value)
          then
            var lo := Hex4(s, i + 8).value;
            Ok(((0x1_0000 + (u - 0xD800) * 0x400 + (lo - 0xDC00)) as char, i + 12))
          else Err(Error(ErrorKind.Unmodelled, "lone surrogate in JSON string"))
  }

  /** The characters of a JSON string from `i` up to its closing quote,
      appended to `acc`; the position past the quote. */
  function StringBody(s: string, i: nat, acc: string): (r: Result<(string, nat)>)
    requires i <= |s|
    ensures r.Ok? ==> i < r.value.1 <= |s|
    decreases |s| - i
  {
    if i == |s| then Invalid()
    else if s[i] == '"' then Ok((acc, i + 1))
    else if s[i] == '\\' then
      var p :- Escape(s, i);
      StringBody(s, p.1, acc + [p.0])
    else if s[i] < ' ' then Invalid()
    else StringBody(s, i + 1, acc + [s[i]])
  }

  /** A JSON string at `i`. */
  function JsonString(s: string, i: nat): (r: Result<(string, nat)>)
    requires i <= |s|
    ensures r.Ok? ==> i < r.value.1 <= |s|
  {
    if i < |s| && s[i] == '"' then StringBody(s, i + 1, "") else Invalid()
  }

  /** A keyword (`null`, `true`, `false`) at `i`. */
  function Keyword(s: string, i: nat, word: string, v: Value): (r: Result<(Value, nat)>)
    requires |word| > 0
    ensures r.Ok? ==> i < r.value.1 <= |s|
  {
    if At(s, word, i) then Ok((v, i + |word|)) else Invalid()
  }

  /** A JSON value with the whitespace around it, starting at `i`. */
  function Element(s: string, i: nat): (r: Result<(Value, nat)>)
    requires i <= |s|
    ensures r.Ok? ==> i < r.value.1 <= |s|
    decreases |s| - i, 1
  {
    var k := SkipWs(s, i);
    if k == |s| then Invalid()
    else
      var p :- ValueAt(s, k);
      Ok((p.0, SkipWs(s, p.1)))
  }

  /** A JSON value starting exactly at `k`. */
  function ValueAt(s: string, k: nat): (r: Result<(Value, nat)>)
    requires k < |s|
    ensures r.Ok? ==> k < r.value.1 <= |s|
    decreases |s| - k, 0
  {
    var c := s[k];
    if c == '{' then
      var k2 := SkipWs(s, k + 1);
      if k2 < |s| && s[k2] == '}' then Ok((Obj([]), k2 + 1)) else Members(s, k + 1, [])
    else if c == '[' then
      var k2 := SkipWs(s, k + 1);
      if k2 < |s| && s[k2] == ']' then Ok((Arr([]), k2 + 1)) else Items(s, k + 1, [])
    else if c == '"' then
      var p :- JsonString(s, k);
      Ok((Str(p.0), p.1))
    else if c == 'n' then Keyword(s, k, "null", Null)
    else if c == 't' then Keyword(s, k, "true", Bool(true))
    else if c == 'f' then Keyword(s, k, "false", Bool(false))
    else if c == '-' || IsDigit(c) then
      var p :- JsonNumber(s, k);
      Ok((Num(p.0), p.1))
    else Invalid()
  }

  /** Array elements from `j` (just past `[` or `,`), appended to `acc`. */
  function Items(s: string, j: nat, acc: seq<Value>): (r: Result<(Value, nat)>)
    requires j <= |s|
    ensures r.Ok? ==> j < r.value.1 <= |s|
    decreases |s| - j, 2
  {
    var p :- Element(s, j);
    var e := p.1;
    if e < |s| && s[e] == ',' then Items(s, e + 1, acc + [p.0])
    else if e < |s| && s[e] == ']' then Ok((Arr(acc + [p.0]), e + 1))
    else Invalid()
  }

  /** Object members from `j` (just past `{` or `,`), assigned into `acc`
      in order, so a repeated key keeps its first position and its last
      value. */
  function Members(s: string, j: nat, acc: Entries): (r: Result<(Value, nat)>)
    requires j <= |s|
    ensures r.Ok? ==> j < r.value.1 <= |s|
    decreases |s| - j, 2
  {
    var k := SkipWs(s, j);
    var key :- JsonString(s, k);
    var colon := SkipWs(s, key.1);
    if colon == |s| || s[colon] != ':' then Invalid()
    else
      var p :- Element(s, colon + 1);
      var e := p.1;
      var acc' := Put(acc, key.0, p.0);
      if e < |s| && s[e] == ',' then Members(s, e + 1, acc')
      else if e < |s| && s[e] == '}' then Ok((Obj(acc'), e + 1))
      else Invalid()
  }

  /** `JSON.parse(s)` (without a reviver): one element spanning the whole
      text. */
  function JsonParse(s: string): (r: Result<Value>)
    ensures r.Err? ==> r.error.kind in {ErrorKind.SyntaxError, ErrorKind.Unmodelled}
  {
    match Element(s, 0)
    case Err(e) => if e.kind == ErrorKind.Unmodelled then Err(e) else Invalid()
    case Ok((v, end)) => if end == |s| then Ok(v) else Invalid()
  }

  /** A digit string without a leading zero (or a lone `0`) at the start of
      `s` is a JSON number spanning all of `s`, with the digits' value. */
  lemma JsonNumberOfDigits(s: string)
    requires |s| > 0 && forall k :: 0 <= k < |s| ==> IsDigit(s[k])
    requires |s| > 1 ==> s[0] != '0'
    ensures JsonNumber(s, 0) == Ok((DigitsAt(s, 0, |s|) as real, |s|))
  {
    var b := DigitsEnd(s, 0);
    assert b == |s|;
    assert Fraction(s, |s|, true) == Some((0.0, |s|));
    assert Exponent(s, |s|) == Some((0, |s|));
    assert Scale10(DigitsAt(s, 0, |s|) as real + 0.0, 0) == DigitsAt(s, 0, |s|) as real;
  }

  /** The decimal text of a natural number is JSON for that number. */
  lemma JsonParseNat(n: nat)
    ensures JsonParse(NatToString(n)) == Ok(Num(n as real))
  {
    var s := NatToString(n);
    assert !IsJsonWs(s[0]);
    assert SkipWs(s, 0) == 0;
    JsonNumberOfDigits(s);
    assert s[0..|s|] == s;
    NatToStringValue(n);
    assert DigitsAt(s, 0, |s|) == n;
    assert s[0] != '{' && s[0] != '[' && s[0] != '"' && s[0] != 'n' && s[0] != 't' && s[0] != 'f';
    assert ValueAt(s, 0) == Ok((Num(n as real), |s|));
    assert Element(s, 0) == Ok((Num(n as real), |s|));
  }

  /** A text whose first character cannot begin a JSON value is rejected. */
  lemma JsonParseRejects(s: string)
    requires |s| > 0 && !IsJsonWs(s[0]) && !IsDigit(s[0])
    requires s[0] != '{' && s[0] != '[' && s[0] != '"' && s[0] != '-'
    requires s[0] != 'n' && s[0] != 't' && s[0] != 'f'
    ensures JsonParse(s) == Invalid()
  {
    assert SkipWs(s, 0) == 0;
    assert ValueAt(s, 0) == Invalid();
    assert Element(s, 0) == Invalid();
  }

  predicate IsHexDigit(c: char) {
    HexValue(c).Some?
  }

  /** `decodeURIComponent(s)`: every `%XX` escape is decoded. An escape of
      a byte of 0x80 or more starts a UTF-8 sequence, which the model does
      not decode. */
  function DecodeUriComponent(s: string): (r: Result<string>)
    ensures r.Err? ==> r.error.kind in {ErrorKind.URIError, ErrorKind.Unmodelled}
    decreases |s|
  {
    if s == [] then Ok([])
    else if s[0] != '%' then
      var rest :- DecodeUriComponent(s[1..]);
      Ok([s[0]] + rest)
    else if |s| < 3 || !IsHexDigit(s[1]) || !IsHexDigit(s[2]) then
      Err(Error(ErrorKind.URIError, "URI malformed"))
    else
      var byte := HexValue(s[1]).value * 16 + HexValue(s[2]).value;
      if byte >= 0x80 then Err(Error(ErrorKind.Unmodelled, "multi-byte UTF-8 sequence in URI component"))
      else
        var rest :- DecodeUriComponent(s[3..]);
        Ok([byte as char] + rest)
  }

  /** Text without `%` decodes to itself. */
  lemma {:induction false} DecodeWithoutPercent(s: string)
    requires '%' !in s
    ensures DecodeUriComponent(s) == Ok(s)
    decreases |s|
  {
    if s != [] {
      DecodeWithoutPercent(s[1..]);
      assert s == [s[0]] + s[1..];
    }
  }

  /** The characters `String.prototype.trim` and `Number` strip: white
      space and line terminators. */
  predicate IsJsWs(c: char) {
    c == '\t' || c == 11 as char || c == 12 as char || c == ' ' || c == 0xA0 as char
    || c == 0xFEFF as char || c == 0x1680 as char || (0x2000 as char <= c <= 0x200A as char)
    || c == 0x202F as char || c == 0x205F as char || c == 0x3000 as char
    || c == '\n' || c == '\r' || c == 0x2028 as char || c == 0x2029 as char
  }

  function TrimStart(s: string): (t: string)
    ensures |t| <= |s| && (t != [] ==> !IsJsWs(t[0]))
    ensures s != [] && !IsJsWs(s[0]) ==> t == s
    decreases |s|
  {
    if s != [] && IsJsWs(s[0]) then TrimStart(s[1..]) else s
  }

  function TrimEnd(s: string): (t: string)
    ensures |t| <= |s| && (t != [] ==> !IsJsWs(t[|t| - 1]))
    ensures t == s[..|t|]
    ensures s != [] && !IsJsWs(s[0]) ==> t != []
    decreases |s|
  {
    if s != [] && IsJsWs(s[|s| - 1]) then TrimEnd(s[..|s| - 1]) else s
  }

  /** The value of the digits of `s` in base `radix`, if all of them are
      digits of that base. */
  function RadixValue(s: string, radix: nat): Option<nat>
    requires 2 <= radix <= 16
    decreases |s|
  {
    if s == [] then Some(0)
    else
      match (RadixValue(s[..|s| - 1], radix), HexValue(s[|s| - 1]))
      case (Some(v), Some(d)) => if d < radix then Some(v * radix + d) else None
      case _ => None
  }

  /** A `StrUnsignedDecimalLiteral` other than `Infinity`, spanning all of
      `t` from `i`: digits, an optional `.` and digits, at least one digit
      in all, and an optional exponent. */
  function UnsignedDecimal(t: string, i: nat): Option<real>
    requires i <= |t|
  {
    var b := DigitsEnd(t, i);
    match Fraction(t, b, false)
    case None => None
    case Some((frac, c)) =>
      if b == i && c <= b + 1 then None
      else
        match Exponent(t, c)
        case None => None
        case Some((exp, e)) =>
          if e != |t| then None else Some(Scale10(DigitsAt(t, i, b) as real + frac, exp))
  }

  /** The spellings of an infinity that `Number` accepts. */
  predicate IsInfinityText(t: string) {
    t == "Infinity" || t == "+Infinity" || t == "-Infinity"
  }

  lemma InfinityTextStart(t: string)
    requires IsInfinityText(t)
    ensures t[0] == 'I' || t[0] == '+' || t[0] == '-'
  {
  }

  /** The base a `0x`, `0o` or `0b` prefix selects, or 0 for none. */
  function RadixOf(c: char): nat {
    if c == 'x' || c == 'X' then 16
    else if c == 'o' || c == 'O' then 8
    else if c == 'b' || c == 'B' then 2
    else 0
  }

  /** `Number(s)` for a string: `Ok(None)` is `NaN`. Infinities have no
      value in the model. */
  function StringToNumber(s: string): Result<Option<real>> {
    TrimmedToNumber(TrimEnd(TrimStart(s)))
  }

  /** `Number` after trimming. */
  function TrimmedToNumber(t: string): Result<Option<real>> {
    if t == "" then Ok(Some(0.0))
    else if IsInfinityText(t) then Err(Error(ErrorKind.Unmodelled, "Infinity"))
    else if |t| > 2 && t[0] == '0' && RadixOf(t[1]) != 0 then
      Ok(match RadixValue(t[2..], RadixOf(t[1])) case Some(v) => Some(v as real) case None => None)
    else if t[0] == '-' || t[0] == '+' then
      Ok(match UnsignedDecimal(t, 1) case Some(v) => Some(if t[0] == '-' then -v else v) case None => None)
    else Ok(UnsignedDecimal(t, 0))
  }

  /** `Number` reads a digit string as its decimal value. */
  lemma UnsignedDecimalOfDigits(s: string)
    requires |s| > 0 && forall k :: 0 <= k < |s| ==> IsDigit(s[k])
    ensures UnsignedDecimal(s, 0) == Some(DigitsAt(s, 0, |s|) as real)
  {
    var b := DigitsEnd(s, 0);
    assert b == |s|;
    assert Fraction(s, |s|, false) == Some((0.0, |s|));
    assert Exponent(s, |s|) == Some((0, |s|));
    assert Scale10(DigitsAt(s, 0, |s|) as real + 0.0, 0) == DigitsAt(s, 0, |s|) as real;
  }

  /** A trimmed text starting with a digit, and not with a radix prefix, is
      read as an unsigned decimal literal. */
  lemma StringToNumberDecimal(t: string)
    requires t != [] && IsDigit(t[0])
    requires !(|t| > 2 && t[0] == '0')
    ensures TrimmedToNumber(t) == Ok(UnsignedDecimal(t, 0))
  {
    if IsInfinityText(t) {
      InfinityTextStart(t);
    }
  }

  /** `Number` reads the decimal text of a natural number as that number. */
  lemma StringToNumberNat(n: nat)
    ensures StringToNumber(NatToString(n)) == Ok(Some(n as real))
  {
    var s := NatToString(n);
    assert !IsJsWs(s[0]) && !IsJsWs(s[|s| - 1]);
    assert TrimStart(s) == s;
    assert TrimEnd(s) == s;
    StringToNumberDecimal(s);
    UnsignedDecimalOfDigits(s);
    assert s[0..|s|] == s;
    NatToStringValue(n);
    assert DigitsAt(s, 0, |s|) == n;
  }

  /** Text that starts with a letter other than `I` is not a number. */
  lemma StringToNumberRejects(s: string)
    requires |s| > 0 && ('a' <= s[0] <= 'z' || ('A' <= s[0] <= 'Z' && s[0] != 'I'))
    ensures StringToNumber(s) == Ok(None)
  {
    assert !IsJsWs(s[0]);
    assert TrimStart(s) == s;
    var t := TrimEnd(s);
    assert t == s[..|t|] && t != [];
    assert t[0] == s[0];
    if IsInfinityText(t) {
      InfinityTextStart(t);
    }
    assert t[0] != '0' && t[0] != '-' && t[0] != '+';
    assert DigitsEnd(t, 0) == 0;
    assert t[0] != '.';
    assert UnsignedDecimal(t, 0) == None;
    assert TrimmedToNumber(t) == Ok(None);
  }
}
