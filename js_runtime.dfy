/** Optional values, for JavaScript's "maybe absent" results (a missing reply, NaN from Number()). */
module Wrappers {
  datatype Option<+T> = None | Some(value: T)
}

/**
 * The slice of JavaScript's string and value semantics that the two handlers rely on:
 * strings as UTF-16 code units, the `\s` / `trim` whitespace set, `\d`, `lastIndexOf`,
 * truthiness, `Number(...)` and decimal rendering of a count.
 */
module JsRuntime {
  import opened Wrappers

  /** One UTF-16 code unit. JavaScript's `length`, indices and `slice` all count these. */
  type CodeUnit = u: int | 0 <= u < 0x1_0000

  /** A JavaScript string value. */
  type Text = seq<CodeUnit>

  const LF: CodeUnit := 0x0A

  /**
   * ECMAScript WhiteSpace or LineTerminator. This one set is what the regular-expression
   * class `\s` matches (with or without the `u` flag) and what `trim`/`trimEnd` remove.
   */
  predicate IsWhitespace(u: CodeUnit)
    ensures u == LF ==> IsWhitespace(u)
    ensures 0x21 <= u <= 0x7E ==> !IsWhitespace(u)
    ensures IsWhitespace(u) ==> !IsDigit(u)
  {
    u == 0x09 || u == 0x0A || u == 0x0B || u == 0x0C || u == 0x0D || u == 0x20
    || u == 0xA0 || u == 0x1680 || (0x2000 <= u <= 0x200A) || u == 0x2028 || u == 0x2029
    || u == 0x202F || u == 0x205F || u == 0x3000 || u == 0xFEFF
  }

  /** The regular-expression class `\d`: ASCII 0-9 only, also under the `u` flag. */
  predicate IsDigit(u: CodeUnit) {
    0x30 <= u <= 0x39
  }

  predicate AllWhitespace(s: Text) {
    forall i :: 0 <= i < |s| ==> IsWhitespace(s[i])
  }

  predicate AllDigits(s: Text) {
    forall i :: 0 <= i < |s| ==> IsDigit(s[i])
  }

  /** Every unit of `s` in [lo, hi) is whitespace, read as a statement about the slice. */
  lemma WhitespaceSlice(s: Text, lo: nat, hi: nat)
    requires lo <= hi <= |s|
    requires forall j :: lo <= j < hi ==> IsWhitespace(s[j])
    ensures AllWhitespace(s[lo..hi])
  {
    forall j | 0 <= j < hi - lo
      ensures IsWhitespace(s[lo..hi][j])
    {
      assert s[lo..hi][j] == s[lo + j];
    }
  }

  /** Where `trimEnd` stops: scanning back from `i`, the end of the last non-whitespace unit. */
  function TrimEndIndex(s: Text, i: nat): (k: nat)
    requires i <= |s|
    ensures k <= i
    ensures forall j :: k <= j < i ==> IsWhitespace(s[j])
    ensures k > 0 ==> !IsWhitespace(s[k - 1])
  {
    if i > 0 && IsWhitespace(s[i - 1]) then TrimEndIndex(s, i - 1) else i
  }

  /** Where `trimStart` stops: scanning forward from `i`, the first non-whitespace unit. */
  function TrimStartIndex(s: Text, i: nat): (k: nat)
    requires i <= |s|
    ensures i <= k <= |s|
    ensures forall j :: i <= j < k ==> IsWhitespace(s[j])
    ensures k < |s| ==> !IsWhitespace(s[k])
    decreases |s| - i
  {
    if i < |s| && IsWhitespace(s[i]) then TrimStartIndex(s, i + 1) else i
  }

  /** `s.trimEnd()`: the longest prefix that does not end in whitespace. */
  function TrimEnd(s: Text): (r: Text)
    ensures |r| <= |s| && r == s[..|r|]
    ensures |r| > 0 ==> !IsWhitespace(r[|r| - 1])
    ensures AllWhitespace(s[|r|..])
  {
    var k := TrimEndIndex(s, |s|);
    WhitespaceSlice(s, k, |s|);
    assert s[k..|s|] == s[k..];
    s[..k]
  }

  /** `s.trimStart()`: the longest suffix that does not start with whitespace. */
  function TrimStart(s: Text): (r: Text)
    ensures |r| <= |s| && r == s[|s| - |r|..]
    ensures |r| > 0 ==> !IsWhitespace(r[0])
    ensures AllWhitespace(s[..|s| - |r|])
  {
    var k := TrimStartIndex(s, 0);
    WhitespaceSlice(s, 0, k);
    assert s[0..k] == s[..k];
    s[k..]
  }

  /**
   * `s.trim()`: the stretch of `s` left once whitespace is removed at both ends, i.e. a
   * substring with only whitespace before and after it; empty exactly when `s` is all whitespace.
   */
  function Trim(s: Text): (r: Text)
    ensures |r| == 0 <==> AllWhitespace(s)
    ensures |r| > 0 ==> !IsWhitespace(r[0]) && !IsWhitespace(r[|r| - 1])
    ensures |r| <= |s|
    ensures
      var e := TrimEnd(s);
      |r| <= |e| && r == s[|e| - |r|..|e|]
      && AllWhitespace(s[..|e| - |r|]) && AllWhitespace(s[|e|..])
  {
    var e := TrimEnd(s);
    TrimStartWithinPrefix(s, e);
    TrimOfBlank(s);
    TrimKeepsLastUnit(s, e);
    TrimStart(e)
  }

  /** Whitespace before `k` and whitespace from `k` on make an all-whitespace text. */
  lemma WhitespaceJoin(s: Text, k: nat)
    requires k <= |s| && AllWhitespace(s[..k]) && AllWhitespace(s[k..])
    ensures AllWhitespace(s)
  {
    forall j | 0 <= j < |s|
      ensures IsWhitespace(s[j])
    {
      if j < k {
        assert s[j] == s[..k][j];
      } else {
        assert s[j] == s[k..][j - k];
      }
    }
  }

  /** `trim` leaves nothing of a text exactly when the text is all whitespace. */
  lemma TrimOfBlank(s: Text)
    ensures |TrimStart(TrimEnd(s))| == 0 <==> AllWhitespace(s)
  {
    var e := TrimEnd(s);
    var r := TrimStart(e);
    assert |e| > 0 ==> e[|e| - 1] == s[|e| - 1];
    if |r| == 0 {
      assert AllWhitespace(e[..|e|]) by { assert e[..|e|] == e[..|e| - |r|]; }
      assert s[..|e|] == e[..|e|];
      WhitespaceJoin(s, |e|);
    }
  }

  /** What `trim` keeps of a non-blank text ends with the last unit `trimEnd` kept. */
  lemma TrimKeepsLastUnit(s: Text, e: Text)
    requires e == TrimEnd(s)
    ensures
      var r := TrimStart(e);
      |r| > 0 ==> r[|r| - 1] == e[|e| - 1]
  {
    var r := TrimStart(e);
    assert |r| > 0 ==> r[|r| - 1] == e[|e| - |r|..][|r| - 1];
  }

  /** Trimming the start of a prefix `e` of `s` leaves a stretch of `s` with only whitespace before it. */
  lemma TrimStartWithinPrefix(s: Text, e: Text)
    requires |e| <= |s| && e == s[..|e|]
    ensures
      var r := TrimStart(e);
      r == s[|e| - |r|..|e|] && AllWhitespace(s[..|e| - |r|])
  {
    var r := TrimStart(e);
    var k := |e| - |r|;
    forall j | 0 <= j < |r|
      ensures r[j] == s[k..|e|][j]
    {
      assert r[j] == e[k..][j] == e[k + j] == s[..|e|][k + j];
    }
    assert r == s[k..|e|];
    forall j | 0 <= j < k
      ensures IsWhitespace(s[..k][j])
    {
      assert s[..k][j] == e[..k][j];
    }
  }

  /** The largest index k <= i with s[k] == u, or -1 when there is none. */
  function LastAtOrBefore(s: Text, u: CodeUnit, i: int): (k: int)
    requires -1 <= i < |s|
    ensures -1 <= k <= i
    ensures 0 <= k ==> s[k] == u
    ensures forall j :: k < j <= i ==> s[j] != u
    decreases i + 1
  {
    if i < 0 then -1
    else if s[i] == u then i
    else LastAtOrBefore(s, u, i - 1)
  }

  /**
   * `s.lastIndexOf(u, fromIndex)` for a one-unit search string. The language clamps
   * `fromIndex` into [0, |s|] first, so a negative `fromIndex` still inspects index 0.
   */
  function LastIndexOf(s: Text, u: CodeUnit, fromIndex: int): (k: int)
    ensures -1 <= k < |s|
    ensures 0 <= k ==> s[k] == u && k <= (if fromIndex < 0 then 0 else fromIndex)
    ensures forall j :: k < j < |s| && j <= (if fromIndex < 0 then 0 else fromIndex) ==> s[j] != u
  {
    var start := if fromIndex < 0 then 0 else fromIndex;
    LastAtOrBefore(s, u, if start < |s| then start else |s| - 1)
  }

  /** A JavaScript value as it arrives in a parsed JSON request body. */
  datatype JsValue =
    | Undefined
    | Null
    | Boolean(b: bool)
    | Number(n: real)
    | String(s: Text)
    | Array(items: seq<JsValue>)
    | Object

  /** JavaScript truthiness: `!v` is `!Truthy(v)`. */
  predicate Truthy(v: JsValue)
    ensures Truthy(v) <==>
      v !in {JsValue.Undefined, JsValue.Null, JsValue.Boolean(false), JsValue.Number(0.0), JsValue.String([])}
  {
    match v
    case Undefined => false
    case Null => false
    case Boolean(b) => b
    case Number(n) => n != 0.0
    case String(s) => |s| > 0
    case Array(_) => true
    case Object => true
  }

  /** `typeof v`; note that `null` and arrays report "object". */
  function TypeOf(v: JsValue): (r: string)
    ensures r in {"undefined", "object", "boolean", "number", "string"}
    ensures r == "object" <==> v.Null? || v.Array? || v.Object?
    ensures r == "string" <==> v.String?
    ensures r == "number" <==> v.Number?
  {
    match v
    case Undefined => "undefined"
    case Null => "object"
    case Boolean(_) => "boolean"
    case Number(_) => "number"
    case String(_) => "string"
    case Array(_) => "object"
    case Object => "object"
  }

  /**
   * The grammar `Number()` accepts on strings (whitespace, signs, fractions, exponents,
   * hexadecimal, ...). It is a parameter of the model: `None` stands for NaN.
   */
  type NumberParser = Text -> Option<real>

  /**
   * A fact about `Number()`'s string grammar: its numeric literals have no `_` (numeric
   * separators belong to source code only), so a string holding one converts to NaN.
   */
  ghost predicate RejectsUnderscore(parse: NumberParser) {
    forall s: Text :: 0x5F in s ==> parse(s).None?
  }

  /** `Number(v)` for a value that is a number or a string. */
  function ToNumber(v: JsValue, parse: NumberParser): (r: Option<real>)
    requires v.Number? || v.String?
    ensures v.Number? ==> r == Some(v.n)
    ensures v.String? ==> r == parse(v.s)
  {
    if v.Number? then Some(v.n) else parse(v.s)
  }

  /** The decimal digits of `n`, most significant first, as a template literal renders it. */
  function NatToDecimal(n: nat): (r: Text)
    ensures |r| >= 1 && AllDigits(r)
    ensures r[0] == 0x30 ==> n == 0
    ensures n == 0 ==> r == [0x30]
    decreases n
  {
    if n < 10 then [0x30 + n] else NatToDecimal(n / 10) + [0x30 + n % 10]
  }

  /** The value of a run of decimal digits (what `\d+` captured), read most significant first. */
  function DecimalValue(s: Text): nat
    requires AllDigits(s)
  {
    if |s| == 0 then 0 else 10 * DecimalValue(s[..|s| - 1]) + (s[|s| - 1] - 0x30)
  }

  /** Reading back the digits written for `n` gives `n`. */
  lemma {:induction false} DecimalRoundTrip(n: nat)
    ensures DecimalValue(NatToDecimal(n)) == n
  {
    if n >= 10 {
      var r := NatToDecimal(n);
      assert r[..|r| - 1] == NatToDecimal(n / 10);
      DecimalRoundTrip(n / 10);
    }
  }
}
