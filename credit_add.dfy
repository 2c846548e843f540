/**
 * The credit top-up endpoint (api/credit/add.js): decoding the amount from `delta`, then a
 * read of one user's `paid_credits` in the `user_usage` store and an upsert of the sum.
 */
module CreditAdd {
  import opened Wrappers
  import opened JsRuntime

  /** "credit_1": the client's one-credit product token. */
  const Credit1: Text := [0x63, 0x72, 0x65, 0x64, 0x69, 0x74, 0x5F, 0x31]

  /** "credit_10" */
  const Credit10: Text := Credit1 + [0x30]

  /** "credit_100" */
  const Credit100: Text := Credit10 + [0x30]

  /** The amount a product token stands for; any other string stands for nothing. */
  function TokenAmount(s: Text): (a: real)
    ensures s == Credit1 ==> a == 1.0
    ensures s == Credit10 ==> a == 10.0
    ensures s == Credit100 ==> a == 100.0
    ensures s != Credit1 && s != Credit10 && s != Credit100 ==> a == 0.0
  {
    if s == Credit1 then 1.0
    else if s == Credit10 then 10.0
    else if s == Credit100 then 100.0
    else 0.0
  }

  /**
   * `add` as line 32 leaves it. A number is taken as it is. A string whose `Number()` value
   * is positive gives that value; any other string gives its token amount, so a string never
   * gives a negative amount. Any other value (absent, null, boolean, object) gives 0.
   */
  function DecodeDelta(delta: JsValue, parse: NumberParser): (amount: real)
    ensures delta.Number? ==> amount == delta.n
    ensures delta.String? ==> 0.0 <= amount
    ensures delta.String? && parse(delta.s).Some? && parse(delta.s).value > 0.0 ==>
      amount == parse(delta.s).value
    ensures delta.String? && !(parse(delta.s).Some? && parse(delta.s).value > 0.0) ==>
      amount == TokenAmount(delta.s)
    ensures !delta.Number? && !delta.String? ==> amount == 0.0
  {
    var add :=
      if delta.Number? then delta.n
      else if delta.String? then
        var n := parse(delta.s);
        if n.Some? && n.value > 0.0 then n.value else TokenAmount(delta.s)
      else 0.0;
    // `Number(add) || 0`: without NaN in the model, 0 is the only falsy number left.
    if add != 0.0 then add else 0.0
  }

  /** The product tokens always decode to their amounts: `Number()` never accepts them. */
  lemma ProductTokensDecode(parse: NumberParser)
    requires RejectsUnderscore(parse)
    ensures DecodeDelta(String(Credit1), parse) == 1.0
    ensures DecodeDelta(String(Credit10), parse) == 10.0
    ensures DecodeDelta(String(Credit100), parse) == 100.0
  {
    assert Credit1[6] == 0x5F && Credit10[6] == 0x5F && Credit100[6] == 0x5F;
  }

  /** A `user_usage` row: `paid_credits` (possibly null) and the columns this endpoint never writes. */
  datatype UsageRow = UsageRow(paidCredits: Option<real>, otherColumns: map<string, JsValue>)

  /** `data?.paid_credits ?? 0`: the user's stored balance, 0 with no row or a null value. */
  function Balance(rows: map<JsValue, UsageRow>, user: JsValue): (cur: real)
    ensures user !in rows || rows[user].paidCredits.None? ==> cur == 0.0
    ensures user in rows && rows[user].paidCredits.Some? ==> cur == rows[user].paidCredits.value
  {
    if user in rows && rows[user].paidCredits.Some? then rows[user].paidCredits.value else 0.0
  }

  /**
   * The upsert of `{ user_id, paid_credits: next }`: the user's row now holds `next` (a new
   * row if there was none); its other columns and every other user's row are left as they were.
   */
  function Upsert(rows: map<JsValue, UsageRow>, user: JsValue, next: real)
    : (rows': map<JsValue, UsageRow>)
    ensures rows'.Keys == rows.Keys + {user}
    ensures rows'[user].paidCredits == Some(next) && Balance(rows', user) == next
    ensures user in rows ==> rows'[user].otherColumns == rows[user].otherColumns
    ensures forall u :: u in rows && u != user ==> rows'[u] == rows[u]
  {
    var others := if user in rows then rows[user].otherColumns else map[];
    rows[user := UsageRow(Some(next), others)]
  }

  /** The request: its HTTP method and the body fields `user_id` and `delta`. */
  datatype CreditRequest = CreditRequest(httpMethod: string, userId: JsValue, delta: JsValue)

  /** Whether the store's select and its upsert report an error on this request. */
  datatype StoreFaults = StoreFaults(readFails: bool, writeFails: bool)

  /** 405, 400, 500, or 200 with the new `paid_credits`. */
  datatype TopUpResult = MethodNotAllowed | BadParams | StoreError | Ok(paidCredits: real)

  /** `!user_id || add <= 0`: the request is refused before the store is touched. */
  predicate Rejected(req: CreditRequest, parse: NumberParser)
    ensures !req.delta.Number? && !req.delta.String? ==> Rejected(req, parse)
    ensures req.delta.String? && parse(req.delta.s).None? && TokenAmount(req.delta.s) == 0.0 ==>
      Rejected(req, parse)
    ensures Truthy(req.userId) && req.delta.String? && TokenAmount(req.delta.s) > 0.0 ==>
      !Rejected(req, parse)
  {
    !Truthy(req.userId) || DecodeDelta(req.delta, parse) <= 0.0
  }

  /** A POST request that passes the refusal check: only such a request reaches the store. */
  predicate Accepted(req: CreditRequest, parse: NumberParser)
    ensures Accepted(req, parse) ==> Truthy(req.userId) && (req.delta.Number? || req.delta.String?)
  {
    req.httpMethod == "POST" && !Rejected(req, parse)
  }

  /** The `user_usage` table as this endpoint sees it. */
  class Ledger {
    /** The rows, keyed by `user_id`. */
    var rows: map<JsValue, UsageRow>

    constructor (initial: map<JsValue, UsageRow>)
      ensures rows == initial
    {
      rows := initial;
    }

    /**
     * The handler: method check, decoding, the refusal check, then read the balance and
     * upsert balance + amount. Every failure leaves the table as it was; a success writes
     * only this user's `paid_credits`, raises it strictly, and reports the value written.
     */
    method AddCredit(req: CreditRequest, parse: NumberParser, faults: StoreFaults)
      returns (result: TopUpResult)
      modifies this
      ensures req.httpMethod != "POST" ==> result == MethodNotAllowed
      ensures req.httpMethod == "POST" && Rejected(req, parse) ==> result == BadParams
      ensures Accepted(req, parse) && faults.readFails ==> result == StoreError
      ensures Accepted(req, parse) && faults.writeFails ==> result == StoreError
      ensures Accepted(req, parse) && !faults.readFails && !faults.writeFails ==>
        result == Ok(Balance(old(rows), req.userId) + DecodeDelta(req.delta, parse))
      ensures !result.Ok? ==> rows == old(rows)
      ensures result.Ok? ==>
        rows == Upsert(old(rows), req.userId, result.paidCredits)
        && result.paidCredits == Balance(rows, req.userId)
        && result.paidCredits > Balance(old(rows), req.userId)
    {
      if req.httpMethod != "POST" {
        return MethodNotAllowed;
      }
      var add := DecodeDelta(req.delta, parse);
      if !Truthy(req.userId) || add <= 0.0 {
        return BadParams;
      }
      if faults.readFails {
        return StoreError;
      }
      var cur := Balance(rows, req.userId);
      var next := cur + add;
      if faults.writeFails {
        return StoreError;
      }
      rows := Upsert(rows, req.userId, next);
      return Ok(next);
    }
  }
}
