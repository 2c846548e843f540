/**
 * The two text helpers of the generation endpoint (api/generate.js): capping a model reply
 * at a physical length, and stripping one trailing `（文字数：N文字）` footer (ASCII digits,
 * only whitespace after it) and attaching a blank line and a new footer whose N is the length
 * of the text before the blank line.
 */
module OutputShaping {
  import opened Wrappers
  import opened JsRuntime

  /** "\n（※上限に達したため一部省略）" ("part omitted: the limit was reached"), 16 units. */
  const OmissionNote: Text := [0x0A, 0xFF08, 0x203B, 0x4E0A, 0x9650, 0x306B, 0x9054, 0x3057,
                               0x305F, 0x305F, 0x3081, 0x4E00, 0x90E8, 0x7701, 0x7565, 0xFF09]

  /** "（文字数：" ("(character count:"), which opens the footer. */
  const FooterOpen: Text := [0xFF08, 0x6587, 0x5B57, 0x6570, 0xFF1A]

  /** "文字）" ("characters)"), which closes it. */
  const FooterClose: Text := [0x6587, 0x5B57, 0xFF09]

  /** "\n\n": the blank line written between the script and its footer. */
  const FooterSeparator: Text := [LF, LF]

  /** "（", the first unit of every footer. */
  const FullWidthLeftParen: CodeUnit := 0xFF08

  // ---------------------------------------------------------------------------------------
  // hardCapTo2000Chars
  // ---------------------------------------------------------------------------------------

  /**
   * The rule for where a too-long text is cut: at the last newline whose index lies in
   * [1, cap - 10] (the newline itself is dropped; one at index 0 does not count), or at
   * `cap` when there is no such newline.
   */
  ghost predicate IsCutPoint(text: Text, cap: nat, p: int)
    requires |text| > cap
  {
    0 <= p
    && (forall k :: p < k <= cap - 10 ==> text[k] != LF)
    && ((1 <= p <= cap - 10 && text[p] == LF)
        || (p == cap && forall k :: 1 <= k <= cap - 10 ==> text[k] != LF))
  }

  /** `slicePoint`: `text.lastIndexOf('\n', cap - 10)` when that is positive, else `cap`. */
  function CutPoint(text: Text, cap: nat): (p: nat)
    requires |text| > cap
    ensures p <= cap && IsCutPoint(text, cap, p)
  {
    var cutoff := LastIndexOf(text, LF, cap - 10);
    if cutoff > 0 then cutoff else cap
  }

  /**
   * `hardCapTo2000Chars(text, cap)`. A text of at most `cap` units, the empty one included,
   * comes back unchanged. A longer one is cut at its cut point and the omission note is
   * appended: at most `cap` of its units survive, and the note can take the total up to
   * `|OmissionNote|` units past `cap`.
   */
  function HardCap(text: Text, cap: nat): (r: Text)
    ensures |text| <= cap ==> r == text
    ensures |text| > cap ==>
      |OmissionNote| <= |r| <= cap + |OmissionNote|
      && IsCutPoint(text, cap, |r| - |OmissionNote|)
      && r == text[..|r| - |OmissionNote|] + OmissionNote
    ensures |r| == 0 <==> |text| == 0
  {
    if |text| == 0 then []
    else if |text| <= cap then text
    else text[..CutPoint(text, cap)] + OmissionNote
  }

  // ---------------------------------------------------------------------------------------
  // The footer pattern /（文字数：\d+文字）\s*$/u
  // ---------------------------------------------------------------------------------------

  /** How many units the greedy `\d+` consumes from the start of `s`. */
  function DigitRun(s: Text): (n: nat)
    ensures n <= |s| && AllDigits(s[..n])
    ensures n < |s| ==> !IsDigit(s[n])
  {
    if |s| > 0 && IsDigit(s[0]) then
      var n := 1 + DigitRun(s[1..]);
      assert s[..n] == [s[0]] + s[1..][..n - 1];
      n
    else
      0
  }

  /**
   * Does the pattern match `t` from its first unit: a footer with at least one digit,
   * followed by nothing but whitespace up to the end of the text?
   */
  predicate IsFooterTail(t: Text)
    ensures IsFooterTail(t) ==> |FooterOpen| + 1 + |FooterClose| <= |t|
  {
    |t| >= |FooterOpen| && t[..|FooterOpen|] == FooterOpen
    && (var n := DigitRun(t[|FooterOpen|..]);
        var close := |FooterOpen| + n;
        1 <= n && close + |FooterClose| <= |t|
        && t[close..close + |FooterClose|] == FooterClose
        && AllWhitespace(t[close + |FooterClose|..]))
  }

  /** The same pattern read declaratively: footer, one or more digits, then any whitespace. */
  ghost predicate FooterPattern(t: Text) {
    exists d: Text, w: Text :: 1 <= |d| && AllDigits(d) && AllWhitespace(w)
      && t == FooterOpen + d + FooterClose + w
  }

  /** Greedy `\d+` stops exactly where the digits end. */
  lemma {:induction false} DigitRunStopsAtNonDigit(d: Text, rest: Text)
    requires AllDigits(d)
    requires |rest| > 0 && !IsDigit(rest[0])
    ensures DigitRun(d + rest) == |d|
    decreases |d|
  {
    if |d| > 0 {
      assert (d + rest)[1..] == d[1..] + rest;
      DigitRunStopsAtNonDigit(d[1..], rest);
    } else {
      assert d + rest == rest;
    }
  }

  /** Every footer with digits `d`, followed by whitespace `w`, matches. */
  lemma FooterTailOfParts(d: Text, w: Text)
    requires 1 <= |d| && AllDigits(d) && AllWhitespace(w)
    ensures IsFooterTail(FooterOpen + d + FooterClose + w)
  {
    var t := FooterOpen + d + FooterClose + w;
    assert t[..|FooterOpen|] == FooterOpen;
    assert t[|FooterOpen|..] == d + (FooterClose + w);
    DigitRunStopsAtNonDigit(d, FooterClose + w);
    var close := |FooterOpen| + |d|;
    assert t[close..close + |FooterClose|] == FooterClose;
    assert t[close + |FooterClose|..] == w;
  }

  /** The scanning predicate and the declarative pattern agree on every text. */
  lemma FooterTailIsPattern(t: Text)
    ensures IsFooterTail(t) <==> FooterPattern(t)
  {
    if IsFooterTail(t) {
      var n := DigitRun(t[|FooterOpen|..]);
      var close := |FooterOpen| + n;
      var d := t[|FooterOpen|..close];
      var w := t[close + |FooterClose|..];
      assert d == t[|FooterOpen|..][..n];
      assert t == FooterOpen + d + FooterClose + w;
    }
    if FooterPattern(t) {
      var d: Text, w: Text :| 1 <= |d| && AllDigits(d) && AllWhitespace(w)
        && t == FooterOpen + d + FooterClose + w;
      FooterTailOfParts(d, w);
    }
  }

  /** A matching tail holds "（" only at its first unit. */
  lemma FooterTailOpensOnce(t: Text)
    requires IsFooterTail(t)
    ensures t[0] == FullWidthLeftParen
    ensures forall k :: 0 < k < |t| ==> t[k] != FullWidthLeftParen
  {
    var n := DigitRun(t[|FooterOpen|..]);
    var close := |FooterOpen| + n;
    assert t[0] == t[..|FooterOpen|][0];
    forall k | 0 < k < |t|
      ensures t[k] != FullWidthLeftParen
    {
      if k < |FooterOpen| {
        assert t[k] == t[..|FooterOpen|][k] == FooterOpen[k];
      } else if k < close {
        assert t[k] == t[|FooterOpen|..][..n][k - |FooterOpen|];
      } else if k < close + |FooterClose| {
        assert t[k] == t[close..close + |FooterClose|][k - close];
      } else {
        assert t[k] == t[close + |FooterClose|..][k - close - |FooterClose|];
      }
    }
  }

  /** The pattern is anchored at the end and "（" occurs once in a match: at most one start matches. */
  lemma FooterMatchIsUnique(text: Text, i: nat, j: nat)
    requires i <= |text| && j <= |text|
    ensures IsFooterTail(text[i..]) && IsFooterTail(text[j..]) ==> i == j
  {
    if IsFooterTail(text[i..]) {
      FooterTailOpensOnce(text[i..]);
      assert i < |text| ==> text[i..][0] == text[i];
      assert i < j < |text| ==> text[i..][j - i] == text[j];
    }
    if IsFooterTail(text[j..]) {
      FooterTailOpensOnce(text[j..]);
      assert j < |text| ==> text[j..][0] == text[j];
      assert j < i < |text| ==> text[j..][i - j] == text[i];
    }
  }

  /**
   * The regular-expression engine's scan: from `i` on, the first start position that matches
   * (that it is the first is FindFooterFromIsLeftmost), or None when no position does.
   */
  function FindFooterFrom(text: Text, i: nat): (r: Option<nat>)
    requires i <= |text|
    ensures r.Some? ==> i <= r.value < |text| && IsFooterTail(text[r.value..])
    ensures r.None? ==> forall j :: i <= j <= |text| ==> !IsFooterTail(text[j..])
    decreases |text| - i
  {
    if i == |text| then
      assert !IsFooterTail(text[i..]) by { assert |text[i..]| == 0; }
      None
    else if IsFooterTail(text[i..]) then Some(i)
    else FindFooterFrom(text, i + 1)
  }

  /** The scan's answer is the leftmost match: no position between its start and the answer matches. */
  lemma FindFooterFromIsLeftmost(text: Text, i: nat)
    requires i <= |text|
    ensures
      var r := FindFooterFrom(text, i);
      r.Some? ==> forall j :: i <= j < r.value ==> !IsFooterTail(text[j..])
  {
    var r := FindFooterFrom(text, i);
    if r.Some? {
      forall j | i <= j < r.value
        ensures !IsFooterTail(text[j..])
      {
        FooterMatchIsUnique(text, j, r.value);
      }
    }
  }

  /** Wherever the pattern matches, the scan finds exactly that position. */
  lemma FindFooterFindsTheMatch(text: Text, i: nat)
    requires i <= |text| && IsFooterTail(text[i..])
    ensures FindFooterFrom(text, 0) == Some(i)
  {
    var r := FindFooterFrom(text, 0);
    assert r.Some?;
    FooterMatchIsUnique(text, r.value, i);
  }

  /**
   * `text.replace(/（文字数：\d+文字）\s*$/u, '')`: the first (and only) match, a footer
   * followed by whitespace up to the end, is removed; with no match the text is unchanged.
   */
  function StripFooter(text: Text): (r: Text)
    ensures |r| <= |text| && r == text[..|r|]
    ensures |r| < |text| ==> IsFooterTail(text[|r|..])
    ensures |r| == |text| ==> forall j :: 0 <= j <= |text| ==> !IsFooterTail(text[j..])
  {
    match FindFooterFrom(text, 0)
    case Some(i) => text[..i]
    case None => text
  }

  /** A text without "（" has no footer to strip. */
  lemma StripFooterWithoutParen(text: Text)
    ensures (forall k :: 0 <= k < |text| ==> text[k] != FullWidthLeftParen) ==> StripFooter(text) == text
  {
    var r := StripFooter(text);
    if |r| < |text| {
      FooterTailOpensOnce(text[|r|..]);
      assert text[|r|..][0] == text[|r|];
    }
  }

  /**
   * `cleaned`: the text with its footer removed and then `trimEnd`. It is a prefix of the
   * text, it never ends in whitespace, and only whitespace lies between it and the footer.
   */
  function Cleaned(text: Text): (c: Text)
    ensures |c| <= |text| && c == text[..|c|]
    ensures |c| > 0 ==> !IsWhitespace(c[|c| - 1])
    ensures |c| <= |StripFooter(text)| && AllWhitespace(StripFooter(text)[|c|..])
  {
    var s := StripFooter(text);
    var c := TrimEnd(s);
    PrefixOfPrefix(text, s, c);
    c
  }

  /** A prefix of a prefix of `a` is a prefix of `a`. */
  lemma PrefixOfPrefix(a: Text, b: Text, c: Text)
    requires |b| <= |a| && b == a[..|b|]
    requires |c| <= |b| && c == b[..|c|]
    ensures c == a[..|c|]
  {
    forall k | 0 <= k < |c|
      ensures c[k] == a[..|c|][k]
    {
      assert c[k] == b[..|c|][k] == b[k] == a[..|b|][k];
    }
  }

  // ---------------------------------------------------------------------------------------
  // rewriteCharCountFooter
  // ---------------------------------------------------------------------------------------

  /** The footer for a count: "（文字数：" + the decimal digits + "文字）". */
  function Footer(count: nat): (f: Text)
    ensures IsFooterTail(f)
  {
    var d := NatToDecimal(count);
    FooterTailOfParts(d, []);
    assert FooterOpen + d + FooterClose + [] == FooterOpen + d + FooterClose;
    FooterOpen + d + FooterClose
  }

  /** What a reader of a footed text sees: the text before the footer and the count it states. */
  datatype FooterReading = FooterReading(body: Text, count: nat)

  /** Reads the footer the pattern matches, if any: the text before it and its number. */
  function ReadFooter(text: Text): (r: Option<FooterReading>)
    ensures r.None? <==> StripFooter(text) == text
    ensures r.Some? ==> r.value.body == StripFooter(text)
  {
    match FindFooterFrom(text, 0)
    case None => None
    case Some(i) =>
      var digitsAndRest := text[i + |FooterOpen|..];
      var digits := digitsAndRest[..DigitRun(digitsAndRest)];
      Some(FooterReading(text[..i], DecimalValue(digits)))
  }

  /**
   * Round trip of the footer: after any text, the written footer is the one the pattern
   * finds, everything before it is that text, and its number reads back as written.
   */
  lemma ReadFooterAfter(body: Text, n: nat)
    ensures ReadFooter(body + Footer(n)) == Some(FooterReading(body, n))
  {
    var y := body + Footer(n);
    var i := |body|;
    assert y[i..] == Footer(n);
    FindFooterFindsTheMatch(y, i);
    assert y[i + |FooterOpen|..] == Footer(n)[|FooterOpen|..];
    FooterDigitsReadBack(n);
    assert y[..i] == body;
  }

  /** After the opening of the footer for `n`, `\d+` captures exactly the digits of `n`. */
  lemma FooterDigitsReadBack(n: nat)
    ensures var t := Footer(n)[|FooterOpen|..];
      DigitRun(t) == |NatToDecimal(n)| && DecimalValue(t[..DigitRun(t)]) == n
  {
    var d := NatToDecimal(n);
    assert Footer(n)[|FooterOpen|..] == d + FooterClose;
    DigitRunStopsAtNonDigit(d, FooterClose);
    assert (d + FooterClose)[..|d|] == d;
    DecimalRoundTrip(n);
  }

  /**
   * `rewriteCharCountFooter(text)`. The empty text gets the bare footer "（文字数：0文字）".
   * Any other text keeps only its cleaned prefix, followed by a blank line and a footer with
   * the canonical decimal digits of the cleaned prefix's length in UTF-16 units, and nothing
   * after it; that number reads back as the length.
   */
  function RewriteFooter(text: Text): (r: Text)
    ensures |text| == 0 ==> r == FooterOpen + NatToDecimal(0) + FooterClose
    ensures |text| > 0 ==>
      var c := Cleaned(text);
      r == c + FooterSeparator + FooterOpen + NatToDecimal(|c|) + FooterClose
    ensures |text| > 0 ==>
      var c := Cleaned(text);
      c == text[..|c|] && |c| <= |r| && r[..|c|] == c
      && ReadFooter(r) == Some(FooterReading(c + FooterSeparator, |c|))
  {
    if |text| == 0 then Footer(0)
    else
      var c := Cleaned(text);
      FootedTextReadsBack(c);
      c + FooterSeparator + FooterOpen + NatToDecimal(|c|) + FooterClose
  }

  /** A text followed by a blank line and the footer of its length starts with that text and reads back as it. */
  lemma FootedTextReadsBack(c: Text)
    ensures
      var r := c + FooterSeparator + FooterOpen + NatToDecimal(|c|) + FooterClose;
      |c| <= |r| && r[..|c|] == c
      && ReadFooter(r) == Some(FooterReading(c + FooterSeparator, |c|))
  {
    var r := c + FooterSeparator + FooterOpen + NatToDecimal(|c|) + FooterClose;
    assert r == (c + FooterSeparator) + Footer(|c|);
    assert r[..|c|] == c;
    ReadFooterAfter(c + FooterSeparator, |c|);
  }

  /** Removing trailing whitespace from a text that had none, plus whitespace, gives that text. */
  lemma {:induction false} TrimEndDropsPadding(c: Text, w: Text)
    requires |c| == 0 || !IsWhitespace(c[|c| - 1])
    requires AllWhitespace(w)
    ensures TrimEnd(c + w) == c
    decreases |w|
  {
    if |w| == 0 {
      assert c + w == c;
    } else {
      assert (c + w)[..|c + w| - 1] == c + w[..|w| - 1];
      TrimEndDropsPadding(c, w[..|w| - 1]);
    }
  }

  /** Rewriting an already rewritten non-empty text changes nothing. */
  lemma RewriteFooterIdempotent(text: Text)
    requires |text| > 0
    ensures RewriteFooter(RewriteFooter(text)) == RewriteFooter(text)
  {
    var c := Cleaned(text);
    assert RewriteFooter(text) == c + FooterSeparator + FooterOpen + NatToDecimal(|c|) + FooterClose;
    FootedTextIsFixed(c);
  }

  /** Cleaning a text without trailing whitespace, footed with its own length, gives that text back. */
  lemma CleanedOfFooted(c: Text)
    requires |c| == 0 || !IsWhitespace(c[|c| - 1])
    ensures Cleaned(c + FooterSeparator + FooterOpen + NatToDecimal(|c|) + FooterClose) == c
  {
    SeparatorIsPadding(c);
    var y := c + FooterSeparator + FooterOpen + NatToDecimal(|c|) + FooterClose;
    FootedTextReadsBack(c);
    assert StripFooter(y) == c + FooterSeparator;
  }

  /** The blank line before the footer is dropped again by `trimEnd`. */
  lemma SeparatorIsPadding(c: Text)
    requires |c| == 0 || !IsWhitespace(c[|c| - 1])
    ensures TrimEnd(c + FooterSeparator) == c
  {
    assert FooterSeparator[0] == LF && FooterSeparator[1] == LF;
    TrimEndDropsPadding(c, FooterSeparator);
  }

  /** A text without trailing whitespace, footed with its own length, is left as it is by a rewrite. */
  lemma FootedTextIsFixed(c: Text)
    requires |c| == 0 || !IsWhitespace(c[|c| - 1])
    ensures
      var y := c + FooterSeparator + FooterOpen + NatToDecimal(|c|) + FooterClose;
      RewriteFooter(y) == y
  {
    CleanedOfFooted(c);
  }

  /** A non-empty text with no "（" and no trailing whitespace is kept whole and footed with its length. */
  lemma FootingOfPlainText(text: Text)
    requires |text| > 0 && !IsWhitespace(text[|text| - 1])
    requires forall k :: 0 <= k < |text| ==> text[k] != FullWidthLeftParen
    ensures RewriteFooter(text) == text + FooterSeparator + Footer(|text|)
  {
    StripFooterWithoutParen(text);
    assert TrimEnd(text) == text;
    assert Cleaned(text) == text;
    assert text + FooterSeparator + Footer(|text|)
        == text + FooterSeparator + FooterOpen + NatToDecimal(|text|) + FooterClose;
  }

  /**
   * The empty text is the exception: its bare footer is itself a footer-only text, which a
   * second rewrite turns into an empty body, a blank line and the footer.
   */
  lemma EmptyTextIsNotFixed()
    ensures RewriteFooter([]) == Footer(0)
    ensures RewriteFooter(RewriteFooter([])) == FooterSeparator + Footer(0)
    ensures RewriteFooter(RewriteFooter([])) != RewriteFooter([])
  {
    BareFooterRewrite(0);
    assert |FooterSeparator + Footer(0)| != |Footer(0)|;
  }

  /** A footer with nothing before it is cleaned away entirely; the rewrite puts it back after a blank line. */
  lemma BareFooterRewrite(n: nat)
    ensures RewriteFooter(Footer(n)) == FooterSeparator + Footer(0)
  {
    ReadFooterAfter([], n);
    assert [] + Footer(n) == Footer(n);
    assert Cleaned(Footer(n)) == [];
    var d := NatToDecimal(0);
    assert RewriteFooter(Footer(n)) == [] + FooterSeparator + FooterOpen + d + FooterClose;
    Regroup(FooterSeparator, FooterOpen, d, FooterClose);
  }

  /** An empty text followed by four pieces is the first piece followed by the other three. */
  lemma Regroup(a: Text, b: Text, c: Text, d: Text)
    ensures [] + a + b + c + d == a + (b + c + d)
  {
  }
}
