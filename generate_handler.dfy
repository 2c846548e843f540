/**
 * The request handler of the generation endpoint (api/generate.js): the method and field
 * checks, the target length and the upper bound the prompt states, the element fallback,
 * and the chain that turns the model's reply into the response text.
 */
module GenerateHandler {
  import opened Wrappers
  import opened JsRuntime
  import opened OutputShaping

  /** The cap handed to `hardCapTo2000Chars`. */
  const PhysicalCap: nat := 2000

  /** The target length used when the requested one is not a positive number. */
  const DefaultTarget: real := 300.0

  /** The largest target length, and the ceiling of the prompt's upper bound. */
  const MaxTarget: real := 2000.0

  /** How far above the target the prompt's upper bound lies before the ceiling applies. */
  const BandWidth: real := 50.0

  /** "緊張と緩和" (tension and release): the element used when the request names none. */
  const DefaultElement: Text := [0x7DCA, 0x5F35, 0x3068, 0x7DE9, 0x548C]

  /** "生成に失敗しました。時間をおいて再度お試しください。" (generation failed; please retry later), 26 units. */
  const FailureMessage: Text := [0x751F, 0x6210, 0x306B, 0x5931, 0x6557, 0x3057, 0x307E, 0x3057,
                                 0x305F, 0x3002, 0x6642, 0x9593, 0x3092, 0x304A, 0x3044, 0x3066,
                                 0x518D, 0x5EA6, 0x304A, 0x8A66, 0x3057, 0x304F, 0x3060, 0x3055,
                                 0x3044, 0x3002]

  /** The request: its HTTP method and the body fields (Undefined when absent, as with no body). */
  datatype GenerateRequest = GenerateRequest(
    httpMethod: string,
    theme: JsValue,
    genre: JsValue,
    characters: JsValue,
    length: JsValue,
    elements: JsValue)

  /** What the (otherwise opaque) prompt is built from. */
  datatype PromptPlan = PromptPlan(
    theme: Text,
    genre: Text,
    characters: Text,
    target: real,
    upperBound: real,
    elements: seq<JsValue>)

  /**
   * The language model's answer to a prompt: the call threw, or it returned, with the first
   * choice's message content or nothing where the reply has no choice or no content.
   */
  datatype Completion = Threw | Replied(content: Option<Text>)

  /** 405, 400, 500, or 200 with the script text. */
  datatype GenerateResponse = MethodNotAllowed | InvalidFields | ServerError | Generated(text: Text)

  /** The input check: theme, genre and characters are strings; length is a number or a string. */
  predicate FieldsValid(req: GenerateRequest)
    ensures FieldsValid(req) <==>
      TypeOf(req.theme) == "string" && TypeOf(req.genre) == "string"
      && TypeOf(req.characters) == "string"
      && (TypeOf(req.length) == "number" || TypeOf(req.length) == "string")
  {
    req.theme.String? && req.genre.String? && req.characters.String?
    && (req.length.Number? || req.length.String?)
  }

  /**
   * `targetLen`: `Number(length)`, replaced by 300 when it is NaN or not positive, then
   * lowered to 2000. Always in (0, 2000]; a valid request in that range is kept as it is.
   */
  function TargetLength(length: JsValue, parse: NumberParser): (t: real)
    requires length.Number? || length.String?
    ensures 0.0 < t <= MaxTarget
    ensures ToNumber(length, parse).None? ==> t == DefaultTarget
    ensures ToNumber(length, parse).Some? ==>
      var v := ToNumber(length, parse).value;
      (v <= 0.0 ==> t == DefaultTarget)
      && (0.0 < v <= MaxTarget ==> t == v)
      && (MaxTarget < v ==> t == MaxTarget)
  {
    var n := ToNumber(length, parse);
    var t := if n.None? || n.value <= 0.0 then DefaultTarget else n.value;
    if t > MaxTarget then MaxTarget else t
  }

  /**
   * The upper bound the prompt asks for, `Math.min(targetLen + 50, 2000)`: never above 2000,
   * never more than 50 over the target, and never below a target within the cap.
   */
  function UpperBound(target: real): (u: real)
    ensures u <= MaxTarget && u <= target + BandWidth
    ensures u == MaxTarget || u == target + BandWidth
    ensures target <= MaxTarget ==> target <= u
  {
    if target + BandWidth < MaxTarget then target + BandWidth else MaxTarget
  }

  /** `safeElements`: a non-empty array as given, anything else the one default element. */
  function SafeElements(elements: JsValue): (r: seq<JsValue>)
    ensures |r| > 0
    ensures elements.Array? && |elements.items| > 0 ==> r == elements.items
    ensures !(elements.Array? && |elements.items| > 0) ==> r == [String(DefaultElement)]
  {
    if elements.Array? && |elements.items| > 0 then elements.items else [String(DefaultElement)]
  }

  /**
   * Everything the handler computes before calling the model. None exactly when the input
   * check fails; otherwise a target in (0, 2000], an upper bound between the target and
   * 2000 and at most 50 above it, and a non-empty element list.
   */
  function Plan(req: GenerateRequest, parse: NumberParser): (r: Option<PromptPlan>)
    ensures r.Some? <==> FieldsValid(req)
    ensures r.Some? ==>
      0.0 < r.value.target <= r.value.upperBound <= MaxTarget
      && r.value.upperBound <= r.value.target + BandWidth
      && |r.value.elements| > 0
      && r.value.theme == req.theme.s && r.value.genre == req.genre.s
      && r.value.characters == req.characters.s
    ensures r.Some? ==>
      r.value.target == TargetLength(req.length, parse)
      && r.value.upperBound == UpperBound(r.value.target)
      && r.value.elements == SafeElements(req.elements)
  {
    if !FieldsValid(req) then None
    else
      var target := TargetLength(req.length, parse);
      Some(PromptPlan(req.theme.s, req.genre.s, req.characters.s, target, UpperBound(target),
                      SafeElements(req.elements)))
  }

  /**
   * `content?.trim() || FailureMessage`: the trimmed reply, or the failure message when the
   * reply is absent, empty or only whitespace. Never empty.
   */
  function ReplyText(content: Option<Text>): (t: Text)
    ensures |t| > 0
    ensures content.None? || AllWhitespace(content.value) ==> t == FailureMessage
    ensures content.Some? && !AllWhitespace(content.value) ==> t == Trim(content.value)
  {
    var trimmed := if content.Some? then Trim(content.value) else [];
    if |trimmed| == 0 then FailureMessage else trimmed
  }

  /**
   * The text sent back: the reply text, capped at 2000 units, then given its footer. The
   * result is the cleaned text, a blank line and the footer with the canonical digits of the
   * cleaned text's length, nothing after it; so rewriting the footer again changes nothing.
   */
  function PostProcess(content: Option<Text>): (out: Text)
    ensures RewriteFooter(out) == out
    ensures
      var c := Cleaned(HardCap(ReplyText(content), PhysicalCap));
      out == c + FooterSeparator + FooterOpen + NatToDecimal(|c|) + FooterClose
    ensures
      var c := Cleaned(HardCap(ReplyText(content), PhysicalCap));
      |c| <= |out| && out[..|c|] == c
      && ReadFooter(out) == Some(FooterReading(c + FooterSeparator, |c|))
  {
    var capped := HardCap(ReplyText(content), PhysicalCap);
    RewriteFooterIdempotent(capped);
    RewriteFooter(capped)
  }

  /** The failure message holds no "（" and ends in "。", which is not whitespace. */
  lemma FailureMessageIsPlain()
    ensures forall k :: 0 <= k < |FailureMessage| ==> FailureMessage[k] != FullWidthLeftParen
    ensures |FailureMessage| == 26 && !IsWhitespace(FailureMessage[25])
  {
  }

  /** An absent or blank reply yields the failure message footed with its own length, 26. */
  lemma BlankReplyGivesFailureMessage(content: Option<Text>)
    requires content.None? || AllWhitespace(content.value)
    ensures PostProcess(content) == FailureMessage + FooterSeparator + Footer(26)
  {
    assert ReplyText(content) == FailureMessage;
    FailureMessageFooting();
  }

  /** The failure message passes the cap unchanged and is footed with its own length. */
  lemma FailureMessageFooting()
    ensures RewriteFooter(HardCap(FailureMessage, PhysicalCap))
      == FailureMessage + FooterSeparator + Footer(26)
  {
    FailureMessageIsPlain();
    assert HardCap(FailureMessage, PhysicalCap) == FailureMessage;
    FootingOfPlainText(FailureMessage);
  }

  /**
   * The handler: 405 for any method but POST, 400 when the input check fails, 500 when the
   * model call throws, otherwise 200 with the post-processed reply to the planned prompt.
   */
  function Handle(req: GenerateRequest, parse: NumberParser, backend: PromptPlan -> Completion)
    : (resp: GenerateResponse)
    ensures resp.MethodNotAllowed? <==> req.httpMethod != "POST"
    ensures resp.InvalidFields? <==> req.httpMethod == "POST" && !FieldsValid(req)
    ensures resp.ServerError? <==>
      req.httpMethod == "POST" && FieldsValid(req) && backend(Plan(req, parse).value).Threw?
    ensures resp.Generated? ==>
      resp.text == PostProcess(backend(Plan(req, parse).value).content)
      && |resp.text| > 0 && RewriteFooter(resp.text) == resp.text
  {
    if req.httpMethod != "POST" then MethodNotAllowed
    else
      match Plan(req, parse)
      case None => InvalidFields
      case Some(plan) =>
        match backend(plan)
        case Threw => ServerError
        case Replied(content) => Generated(PostProcess(content))
  }
}
