# manzaimaker-backend: output shaping and credit top-up, in Dafny

This project models the deterministic core of two HTTP handlers of the manzai (comic
dialogue) script generator's backend, and proves what they promise.

**`api/generate.js`: generating a script.** The handler checks the method and the body
fields. It computes a target length in (0, 2000] (300 by default) and the upper bound
`min(target + 50, 2000)` that the prompt states. It falls back to one comedic element,
"緊張と緩和", when the request names none. It then asks a language model for a script and
shapes the reply. The reply is trimmed, and replaced by a fixed failure message when it is
blank. It is capped at 2000 UTF-16 units by `hardCapTo2000Chars`, which cuts at the last
newline in [1, 1990] (or at 2000) and appends an omission note. Finally
`rewriteCharCountFooter` strips one trailing `（文字数：N文字）` footer with ASCII digits that
has only whitespace after it, right-trims the text, and appends a blank line and a footer
whose N is the UTF-16 length of the text before the blank line. A footer followed by other
text, or written with full-width digits, is not stripped and stays in the output.

**`api/credit/add.js`: topping up paid credits.** The handler decodes `delta` into an
amount. A number is taken as it is. A string with a positive numeric value gives that value.
The product tokens `credit_1`, `credit_10` and `credit_100` give 1, 10 and 100. Anything
else gives 0. A request with a falsy `user_id` or an amount that is not positive is refused
with 400. Otherwise the handler reads the user's `paid_credits` from the `user_usage` table
(a missing row or a null value reads as 0) and upserts the sum.

Modules:

- `Wrappers` and `JsRuntime` (`js_runtime.dfy`): the JavaScript semantics both handlers
  rely on. Strings are sequences of UTF-16 code units, because `length`, indices and
  `slice` count those. One whitespace predicate covers ECMAScript WhiteSpace and
  LineTerminator, which is the set both `\s` and `trim`/`trimEnd` use. `\d` is ASCII 0-9.
  The module also holds `lastIndexOf` with its index clamping, truthiness, `Number(...)`,
  and the decimal rendering of a count with its inverse.
- `OutputShaping` (`output_shaping.dfy`): `hardCapTo2000Chars` and `rewriteCharCountFooter`.
  The regular expression `/（文字数：\d+文字）\s*$/u` is modelled as the engine's
  left-to-right scan for a start position that matches up to the end of the text. A proof
  shows that at most one position can match, so "first match" and "the match" coincide.
- `GenerateHandler` (`generate_handler.dfy`): the handler of `api/generate.js` as a pure
  function. The language model is a function parameter from the prompt's inputs to a reply.
- `CreditAdd` (`credit_add.dfy`): the `delta` decoding as a function. The table is a
  `Ledger` class whose `rows` map is updated in place by `AddCredit`.

Where the comments and the code disagree, the model follows the code:

- The header of `api/generate.js` says the output is forced to 2000 characters or fewer.
  The code caps only the body. A capped body keeps at most 2000 units of the reply but then
  gains the 16-unit omission note, and the footer comes on top of that. `HardCap` therefore
  states the bound `cap + 16`.
- The footer rewrite is idempotent on every non-empty text, but not on the empty one.
  `rewriteCharCountFooter('')` is a bare footer with no blank line before it. Rewriting that
  again strips the footer and adds a blank line.

## Model

| member | source | states |
|---|---|---|
| `JsRuntime.IsWhitespace` | api/generate.js:34 | the whitespace set of `\s` and `trim` contains the line feed, contains no printable ASCII character other than the space, and contains no digit |
| `JsRuntime.TrimEnd` | api/generate.js:34 | `trimEnd` returns a prefix of its input that is empty or does not end in whitespace, and everything it removed is whitespace |
| `JsRuntime.TrimEndIndex` | api/generate.js:34 | scanning back from an index, `trimEnd` stops after the last non-whitespace unit: everything between the stop and the index is whitespace |
| `JsRuntime.TrimStart` | api/generate.js:110 | the left half of `trim`: returns a suffix that is empty or does not start with whitespace, and everything it removed is whitespace |
| `JsRuntime.TrimStartIndex` | api/generate.js:110 | scanning forward from an index, `trim` stops at the first non-whitespace unit: everything it passed is whitespace |
| `JsRuntime.Trim` | api/generate.js:110 | `trim` is a contiguous stretch of the reply with only whitespace before and after it. It is empty exactly when the reply is all whitespace, and otherwise neither starts nor ends in whitespace |
| `JsRuntime.LastAtOrBefore` | api/generate.js:23 | the backward search finds the largest index at or before the start holding the unit, or -1 when no index does |
| `JsRuntime.LastIndexOf` | api/generate.js:23 | `lastIndexOf('\n', from)` after clamping `from` into the string (a negative `from` still inspects index 0): the last matching index not after it, or -1 |
| `JsRuntime.ToNumber` | api/generate.js:61 | `Number(v)` is the value itself for a number and the parser's verdict for a string (None stands for NaN) |
| `JsRuntime.TypeOf` | api/generate.js:51-56 | `typeof` gives one of "undefined", "object", "boolean", "number" and "string" here. It gives "object" exactly for null, arrays and objects, "string" exactly for strings and "number" exactly for numbers |
| `JsRuntime.Truthy` | api/credit/add.js:34 | a value is truthy exactly when it is not one of undefined, null, false, 0 and the empty string |
| `JsRuntime.NatToDecimal` | api/generate.js:37-39 | the count is rendered as a non-empty run of ASCII digits with no leading zero, and 0 is rendered as the single digit "0" |
| `JsRuntime.DecimalRoundTrip` | api/generate.js:37-39 | reading back the digits written for a count gives that count |
| `OutputShaping.CutPoint` | api/generate.js:22-24 | the cut point is the last newline with index in [1, cap - 10], or `cap` when there is none (a newline at index 0 does not count) |
| `OutputShaping.HardCap` | api/generate.js:18-27 | an empty text gives empty; a text of at most `cap` units is unchanged; a longer one becomes a prefix cut at a legal cut point plus the omission note, at most `cap` + 16 units long |
| `OutputShaping.DigitRun` | api/generate.js:34 | the greedy `\d+` consumes a maximal run of ASCII digits |
| `OutputShaping.DigitRunStopsAtNonDigit` | api/generate.js:34 | `\d+` over digits followed by a non-digit consumes exactly the digits |
| `OutputShaping.IsFooterTail` | api/generate.js:34 | the pattern matched from one start position to the end of the text; any match is at least as long as the footer with one digit |
| `OutputShaping.FooterTailOfParts` | api/generate.js:34 | every footer with one or more digits, followed by any whitespace to the end, matches the pattern |
| `OutputShaping.FooterTailIsPattern` | api/generate.js:34 | the scanning match and the declarative reading "footer open, digits, footer close, whitespace" agree on every text, in both directions |
| `OutputShaping.FooterTailOpensOnce` | api/generate.js:34 | a matching tail starts with "（" and holds no other "（" |
| `OutputShaping.FooterMatchIsUnique` | api/generate.js:34 | the pattern can match at no more than one start position of a text |
| `OutputShaping.FindFooterFrom` | api/generate.js:34 | the left-to-right scan returns a start position where the pattern matches up to the end, or reports that no position from the start of the scan matches |
| `OutputShaping.FindFooterFromIsLeftmost` | api/generate.js:34 | the position the scan returns is the leftmost match: no earlier position from the start of the scan matches |
| `OutputShaping.FindFooterFindsTheMatch` | api/generate.js:34 | wherever the pattern matches, the scan from the start finds exactly that position |
| `OutputShaping.StripFooter` | api/generate.js:34 | `replace` returns a prefix of the text. When something was removed, it was one footer followed only by whitespace up to the end. When nothing was removed, no position matches |
| `OutputShaping.StripFooterWithoutParen` | api/generate.js:34 | a text without "（" is left unchanged by the `replace` |
| `OutputShaping.Cleaned` | api/generate.js:34 | `cleaned` is a prefix of the input that does not end in whitespace, and only whitespace separates it from the removed footer |
| `OutputShaping.Footer` | api/generate.js:31 | the footer written for any count is matched by the footer pattern |
| `OutputShaping.ReadFooter` | api/generate.js:34 | reading a text's footer gives the text before it exactly when a footer is there to strip |
| `OutputShaping.ReadFooterAfter` | api/generate.js:34-39 | round trip: after any text, the written footer is the one found, the text before it is that text, and its number reads back as written |
| `OutputShaping.FooterDigitsReadBack` | api/generate.js:34-39 | after the opening of a written footer, the greedy `\d+` captures exactly the digits written, and they read back as the count |
| `OutputShaping.RewriteFooter` | api/generate.js:30-40 | the empty text gives "（文字数：0文字）". Otherwise the output is exactly the cleaned prefix of the input, a blank line, "（文字数：", the canonical decimal digits of the cleaned prefix's UTF-16 length and "文字）", with nothing after it. Its footer reads back as the cleaned prefix plus the blank line, with the prefix's length |
| `OutputShaping.FootedTextReadsBack` | api/generate.js:39 | a text followed by a blank line and the footer of its own length keeps that text as its prefix, and reading the footer back gives the text plus the blank line, and its length |
| `OutputShaping.FootingOfPlainText` | api/generate.js:30-39 | a text with no "（" and no trailing whitespace is kept whole and footed with its own length |
| `OutputShaping.TrimEndDropsPadding` | api/generate.js:34 | `trimEnd` of a text without trailing whitespace, plus whitespace, is that text |
| `OutputShaping.RewriteFooterIdempotent` | api/generate.js:29-39 | for every non-empty text, rewriting the footer a second time changes nothing |
| `OutputShaping.CleanedOfFooted` | api/generate.js:34-39 | cleaning a text that has no trailing whitespace, footed with its own length, gives that text back |
| `OutputShaping.FootedTextIsFixed` | api/generate.js:30-39 | a text that has no trailing whitespace, footed with its own length, is left unchanged by a rewrite |
| `OutputShaping.EmptyTextIsNotFixed` | api/generate.js:30-31 | the empty text is the exception: the second rewrite turns the bare footer into a blank line plus the footer |
| `OutputShaping.BareFooterRewrite` | api/generate.js:34-39 | a footer with nothing before it, whatever its number, is cleaned away entirely, and the rewrite gives a blank line and "（文字数：0文字）" |
| `GenerateHandler.FieldsValid` | api/generate.js:51-56 | the input check passes exactly when `typeof` gives "string" for theme, genre and characters, and "number" or "string" for length |
| `GenerateHandler.TargetLength` | api/generate.js:61-63 | the target is always in (0, 2000]. A NaN or non-positive length gives 300, a length above 2000 gives 2000, and a length in between is kept |
| `GenerateHandler.UpperBound` | api/generate.js:87-90 | `min(target + 50, 2000)` is at most 2000, at most 50 above the target, one of the two, and not below a target within 2000 |
| `GenerateHandler.SafeElements` | api/generate.js:66-69 | the element list is never empty: a non-empty array is kept, and anything else becomes `['緊張と緩和']` |
| `GenerateHandler.Plan` | api/generate.js:48-90 | the request is planned exactly when the input check passes. The plan has the given theme, genre and characters. Its target is the clamped `Number(length)` (`TargetLength`), in (0, 2000]. Its upper bound is `min(target + 50, 2000)` (`UpperBound`), between the target and 2000. Its elements are the non-empty `safeElements` (`SafeElements`) |
| `GenerateHandler.ReplyText` | api/generate.js:109-111 | an absent, empty or whitespace-only reply becomes the failure message; any other reply is trimmed. The result is never empty |
| `GenerateHandler.PostProcess` | api/generate.js:109-117 | the output is exactly the cleaned, capped reply, a blank line and "（文字数：N文字）", where N is the canonical decimal length of that prefix and nothing follows. The number reads back as the length, and rewriting the footer again leaves the output unchanged |
| `GenerateHandler.BlankReplyGivesFailureMessage` | api/generate.js:109-117 | a blank or absent reply produces exactly the failure message, a blank line and "（文字数：26文字）" |
| `GenerateHandler.FailureMessageFooting` | api/generate.js:111-117 | the failure message passes the cap unchanged and is footed with its own length, 26 |
| `GenerateHandler.Handle` | api/generate.js:42-126 | a non-POST request gives 405. Invalid fields give 400. A model call that throws gives 500. Otherwise the response is 200 with the post-processed reply, which is non-empty and carries a correct footer |
| `CreditAdd.TokenAmount` | api/credit/add.js:26-28 | `credit_1`, `credit_10` and `credit_100` stand for 1, 10 and 100, and every other string for 0 |
| `CreditAdd.DecodeDelta` | api/credit/add.js:13-32 | a number is used as it is. A string with a positive numeric value gives that value; any other string gives its token amount and never a negative one. Any other value gives 0 |
| `CreditAdd.ProductTokensDecode` | api/credit/add.js:18-28 | `credit_1`, `credit_10` and `credit_100` add 1, 10 and 100, because `Number()` of a string holding `_` is NaN, so the numeric branch never takes a token |
| `CreditAdd.Rejected` | api/credit/add.js:34 | a delta that is neither a number nor a string is refused, and so is a non-numeric string that is not a product token. A product token sent with a truthy `user_id` is never refused, whatever the numeric parser says |
| `CreditAdd.Accepted` | api/credit/add.js:11-34 | a request that reaches the store is a POST that passes the refusal check, so it has a truthy `user_id` and a delta that is a number or a string |
| `CreditAdd.Balance` | api/credit/add.js:43 | the current balance is the stored `paid_credits`, or 0 with no row or a null value |
| `CreditAdd.Upsert` | api/credit/add.js:46-48 | the upsert writes `next` as this user's `paid_credits` and keeps the user's other columns and every other user's row |
| `CreditAdd.Ledger.AddCredit` | api/credit/add.js:9-57 | A non-POST request gives 405. A falsy `user_id` or a non-positive amount gives 400 before the store is read. A read or write error gives 500. All of these leave the table unchanged. A success upserts previous balance plus amount, strictly above the previous balance, and returns the value written |

## Left out

- The OpenAI client, the model name, the temperature and the request itself. The model's answer is a function parameter from the prompt's inputs to "threw" or "replied with this content (or none)".
- The prompt wording. Only what it is built from is modelled: theme, genre, characters, the target, the upper bound and the elements.
- The grammar of JavaScript's `Number()` on strings (whitespace, signs, fractions, exponents, hexadecimal). It is a parameter `Text -> Option<real>`, with None standing for NaN. Amounts and targets are reals: fractional values such as `"0.5"` are accepted, as in the source.
- `JsRuntime.ToNumber`: infinities are not modelled. `Number("Infinity")` or an overflowing JSON number would give an infinite `targetLen` (reset to 300) or an infinite credit amount. The model has finite numbers only.
- `CreditAdd.Ledger.AddCredit`: floating-point rounding of `cur + add` is not modelled; the sum is exact real addition.
- `CreditAdd.DecodeDelta`: `Number(add) || 0` only matters for NaN, which the model does not contain, so here it is the identity.
- The Supabase client, environment variables and the `updated_at` timestamp. The table is a map from `user_id` to a row. The store's own coercion of `user_id` values is not modelled. Read and write failures are flags passed to `AddCredit`.
- The lack of isolation between the read and the upsert. Two simultaneous top-ups for one user can lose an update. The model runs one request as one sequential step.
- The HTTP shell (`res.status().json()`), the error detail in the 500 response, logging and the `config` exports.
- The exact bound "2000 characters or fewer" from the header comment of `api/generate.js` is not a property of the code (see above) and is not proved. `OutputShaping.HardCap` states the bound `cap + 16` the code actually keeps.
- Title and body splitting, speaker-label normalisation, closing-line enforcement, continuation requests, quota gating, free-use counting and technique catalogs. None of these has code in the two handlers modelled.
