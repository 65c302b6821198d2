/** The Payme merchant API: HTTP Basic authorisation of the caller, the
    JSON-RPC envelopes as the code builds them, and the dispatcher with its
    five methods (payments/services.py, `PaymeProvider` and
    `PaymeService`). Base64 decoding is an input function. */
module PaymeService {
  import opened Wrappers
  import opened Errors
  import opened Tables
  import Text
  import Orders
  import Payments
  import opened Store
  import opened PaymentServices

  // ---------------------------------------------------------------
  // Authorisation
  // ---------------------------------------------------------------

  /** The second space-separated piece of the header: `split(" ")[1]`. */
  function Token(header: string): string
    requires ' ' in header
  {
    Text.Split(header, ' ')[1]
  }

  /** `verify_signature`: the header must start with "Basic "; its token
      must decode (base64, then UTF-8) to exactly two colon-separated
      pieces, the user "Paycom" and the merchant secret. Any failure on
      the way is a refusal. `decode` is base64 followed by UTF-8 decoding,
      `None` when either raises. */
  predicate Authorized(header: Option<string>, secret: string, decode: string -> Option<string>) {
    && header.Some? && header.value != ""
    && Text.StartsWith(header.value, "Basic ")
    && var h := header.value;
       assert h[5] == ' ';
       var decoded := decode(Token(h));
       && decoded.Some?
       && var parts := Text.Split(decoded.value, ':');
          |parts| == 2 && parts[0] == "Paycom" && parts[1] == secret
  }

  /** The credential is accepted exactly when the token decodes to
      "Paycom:" followed by a colon-free secret. */
  lemma AuthorizedIff(header: Option<string>, secret: string, decode: string -> Option<string>)
    ensures Authorized(header, secret, decode) <==>
              && header.Some? && Text.StartsWith(header.value, "Basic ")
              && (assert header.value[5] == ' '; decode(Token(header.value)) == Some("Paycom:" + secret))
              && ':' !in secret
  {
    if header.Some? && Text.StartsWith(header.value, "Basic ") {
      var h := header.value;
      assert h[5] == ' ';
      var decoded := decode(Token(h));
      if decoded.Some? {
        Text.SplitInTwo(decoded.value, ':', "Paycom", secret);
        assert "Paycom:" + secret == "Paycom" + [':'] + secret;
        var parts := Text.Split(decoded.value, ':');
        assert (|parts| == 2 && parts[0] == "Paycom" && parts[1] == secret) <==> parts == ["Paycom", secret];
      }
    }
  }

  /** "Basic " and a space-free token that decodes to "Paycom:" and a
      colon-free secret is accepted: base64 text never holds a space. */
  lemma BasicCredentialAccepted(token: string, secret: string, decode: string -> Option<string>)
    requires ' ' !in token && ':' !in secret
    requires decode(token) == Some("Paycom:" + secret)
    ensures Authorized(Some("Basic " + token), secret, decode)
  {
    var h := "Basic " + token;
    Text.SplitInTwo(h, ' ', "Basic", token);
    assert h == "Basic" + [' '] + token;
    assert Token(h) == token;
    AuthorizedIff(Some(h), secret, decode);
    assert h[..6] == "Basic ";
  }

  // ---------------------------------------------------------------
  // Envelopes
  // ---------------------------------------------------------------

  /** The JSON values the replies are made of. */
  datatype Json = JNull | JBool(b: bool) | JInt(i: int) | JString(s: string) | JObject(fields: map<string, Json>)

  /** `error_response`: {"error": {"code", "message", "data": null}, "id"}. */
  function ErrorResponse(code: int, message: string, id: Json): Json {
    JObject(map["error" := JObject(map["code" := JInt(code), "message" := JString(message), "data" := JNull]), "id" := id])
  }

  /** `success_response`: {"result", "id"}. */
  function SuccessResponse(result: Json, id: Json): Json {
    JObject(map["result" := result, "id" := id])
  }

  /** A reply as built here: an object with the request id and exactly
      one of "error" and "result"; there is no "jsonrpc" member. */
  predicate IsEnvelope(j: Json, id: Json) {
    && j.JObject?
    && "id" in j.fields && j.fields["id"] == id
    && (j.fields.Keys == {"error", "id"} || j.fields.Keys == {"result", "id"})
  }

  /** The error code of an error reply. */
  function ErrorCode(j: Json): Option<int> {
    if j.JObject? && "error" in j.fields && j.fields["error"].JObject? && "code" in j.fields["error"].fields
       && j.fields["error"].fields["code"].JInt?
    then Some(j.fields["error"].fields["code"].i)
    else None
  }

  /** The "state" of a success reply's transaction result. */
  function StateOf(j: Json): Option<int> {
    if j.JObject? && "result" in j.fields && j.fields["result"].JObject? && "state" in j.fields["result"].fields
       && j.fields["result"].fields["state"].JInt?
    then Some(j.fields["result"].fields["state"].i)
    else None
  }

  lemma EnvelopesAreEnvelopes(code: int, message: string, result: Json, id: Json)
    ensures IsEnvelope(ErrorResponse(code, message, id), id) && ErrorCode(ErrorResponse(code, message, id)) == Some(code)
    ensures "jsonrpc" !in ErrorResponse(code, message, id).fields
    ensures IsEnvelope(SuccessResponse(result, id), id) && ErrorCode(SuccessResponse(result, id)).None?
    ensures "jsonrpc" !in SuccessResponse(result, id).fields
  {
    assert ErrorResponse(code, message, id).fields.Keys == {"error", "id"};
    assert SuccessResponse(result, id).fields.Keys == {"result", "id"};
  }

  /** {"transaction", "state", <stamp>} with the stamp in milliseconds. */
  function TxResult(key: nat, state: int, stamp: string, seconds: nat): Json {
    JObject(map["transaction" := JInt(key), "state" := JInt(state), stamp := JInt(seconds * 1000)])
  }

  // ---------------------------------------------------------------
  // Methods
  // ---------------------------------------------------------------

  /** The request's parameters: the Payme transaction id ("id"), the
      order id ("account"."order_id"), the amount in tiyin, Payme's time,
      and the whole object as logged. Absent members are `None`. */
  datatype Params = Params(txId: Option<string>, orderId: Option<nat>, amount: Option<int>, time: Option<int>, raw: Payments.Dict)

  /** `Order.objects.get(id=order_id)` succeeds. */
  predicate OrderFound(w: World, params: Params) {
    params.orderId.Some? && params.orderId.value in w.orders.rows
  }

  /** `filter(payme_transaction_id=id)`; Django reads `=None` as IS NULL,
      so a missing id matches the payments that have none. */
  function WithTx(txId: Option<string>): Payments.Payment -> bool {
    (p: Payments.Payment) => p.paymeTransactionId == txId
  }

  /** The same filter narrowed to one order. */
  function OfOrderWithTx(orderId: nat, txId: Option<string>): Payments.Payment -> bool {
    (p: Payments.Payment) => p.orderId == orderId && p.paymeTransactionId == txId
  }

  /** `check_perform_transaction`: -31050 for an unknown order, then
      -31001 unless the amount is the order's total in tiyin, then -31008
      unless the order awaits payment; otherwise {"allow": true}. */
  function CheckPerformTransaction(w: World, params: Params, id: Json): (j: Json)
    ensures !OrderFound(w, params) ==> j == ErrorResponse(-31050, "Order not found", id)
    ensures OrderFound(w, params) ==>
              var o := w.orders.rows[params.orderId.value];
              && (params.amount != Some(o.total) ==> j == ErrorResponse(-31001, "Incorrect amount", id))
              && (params.amount == Some(o.total) && o.status != Orders.AwaitingPayment ==>
                    j == ErrorResponse(-31008, "Order not ready for payment", id))
              && (params.amount == Some(o.total) && o.status == Orders.AwaitingPayment ==>
                    j == SuccessResponse(JObject(map["allow" := JBool(true)]), id))
  {
    if !OrderFound(w, params) then ErrorResponse(-31050, "Order not found", id)
    else
      var o := w.orders.rows[params.orderId.value];
      if params.amount != Some(o.total) then ErrorResponse(-31001, "Incorrect amount", id)
      else if o.status != Orders.AwaitingPayment then ErrorResponse(-31008, "Order not ready for payment", id)
      else SuccessResponse(JObject(map["allow" := JBool(true)]), id)
  }

  /** `create_transaction`: -31050 for an unknown order; a payment of the
      order with the same Payme id is reported (state 1 if successful,
      else 0) and nothing is created; otherwise `create_payment` runs for
      the amount, the Payme id and time are stored, the payment moves to
      PROCESSING and a "payme_create" log row is written, with state 1. A
      missing amount raises, as `Decimal(None)` does. */
  function CreateTransaction(w: World, params: Params, id: Json, uuidHex: string, now: nat): (r: Result<(World, Json), Error>)
    requires |uuidHex| == 32 && forall i :: 0 <= i < 32 ==> IsLowerHex(uuidHex[i])
    ensures !OrderFound(w, params) ==> r == Ok((w, ErrorResponse(-31050, "Order not found", id)))
    ensures OrderFound(w, params) && Any(w.payments, OfOrderWithTx(params.orderId.value, params.txId)) ==>
              var k := Newest(w.payments, OfOrderWithTx(params.orderId.value, params.txId)).value;
              var p := w.payments.rows[k];
              r == Ok((w, SuccessResponse(TxResult(k, if p.status == Payments.Success then 1 else 0, "create_time", p.createdAt), id)))
    ensures OrderFound(w, params) && !Any(w.payments, OfOrderWithTx(params.orderId.value, params.txId)) ==>
              && (params.amount.None? ==> r == Fail(MissingAmount))
              && (params.amount.Some? ==>
                    var c := CreatePayment(w, params.orderId.value, Payments.Payme, params.amount.value, uuidHex, now);
                    && (c.Fail? ==> r == Fail(c.error))
                    && (c.Ok? ==>
                          var (w1, k) := c.value;
                          var p := w1.payments.rows[k];
                          && (r.Ok? <==> p.status == Payments.Pending)
                          && (r.Fail? ==> r.error == IllegalPaymentTransition)
                          && (r.Ok? ==>
                                r.value.1 == SuccessResponse(TxResult(k, 1, "create_time", p.createdAt), id)
                                && r.value.0 == w1.(payments := Put(w1.payments, k, p.(status := Payments.Processing,
                                                                                       paymeTransactionId := params.txId,
                                                                                       paymeTime := params.time)),
                                                    paymentLogs := w1.paymentLogs + [Payments.Log(k, "payme_create", params.raw, map[], "")]))))
  {
    if !OrderFound(w, params) then Ok((w, ErrorResponse(-31050, "Order not found", id)))
    else
      var orderId := params.orderId.value;
      match Newest(w.payments, OfOrderWithTx(orderId, params.txId))
      case Some(k) =>
        var p := w.payments.rows[k];
        Ok((w, SuccessResponse(TxResult(k, if p.status == Payments.Success then 1 else 0, "create_time", p.createdAt), id)))
      case None =>
        if params.amount.None? then Fail(MissingAmount)
        else
          match CreatePayment(w, orderId, Payments.Payme, params.amount.value, uuidHex, now)
          case Fail(e) => Fail(e)
          case Ok((w1, k)) =>
            var p := w1.payments.rows[k];
            match Payments.MarkProcessing(p.(paymeTransactionId := params.txId, paymeTime := params.time))
            case Fail(e) => Fail(e)
            case Ok(p') =>
              Ok((w1.(payments := Put(w1.payments, k, p'),
                      paymentLogs := w1.paymentLogs + [Payments.Log(k, "payme_create", params.raw, map[], "")]),
                  SuccessResponse(TxResult(k, 1, "create_time", p.createdAt), id)))
  }

  /** `perform_transaction`: -31003 for an unknown Payme id; otherwise
      `complete_payment` runs and the reply has state 2 and the time. */
  function PerformTransaction(w: World, params: Params, id: Json, now: nat): (r: Result<(World, Json), Error>)
    requires PaymentsLinked(w)
    ensures !Any(w.payments, WithTx(params.txId)) ==> r == Ok((w, ErrorResponse(-31003, "Transaction not found", id)))
    ensures Any(w.payments, WithTx(params.txId)) ==>
              var k := Newest(w.payments, WithTx(params.txId)).value;
              match CompletePayment(w, k, params.raw, now)
              case Ok(w') => r == Ok((w', SuccessResponse(TxResult(k, 2, "perform_time", now), id)))
              case Fail(e) => r == Fail(e)
  {
    match Newest(w.payments, WithTx(params.txId))
    case None => Ok((w, ErrorResponse(-31003, "Transaction not found", id)))
    case Some(k) =>
      match CompletePayment(w, k, params.raw, now)
      case Fail(e) => Fail(e)
      case Ok(w') => Ok((w', SuccessResponse(TxResult(k, 2, "perform_time", now), id)))
  }

  /** `cancel_transaction`: -31003 for an unknown Payme id; otherwise
      `mark_cancelled` runs (raising for a successful or refunded payment),
      a "payme_cancel" log row is written and the reply has state -1. */
  function CancelTransaction(w: World, params: Params, id: Json, now: nat): (r: Result<(World, Json), Error>)
    ensures !Any(w.payments, WithTx(params.txId)) ==> r == Ok((w, ErrorResponse(-31003, "Transaction not found", id)))
    ensures Any(w.payments, WithTx(params.txId)) ==>
              var k := Newest(w.payments, WithTx(params.txId)).value;
              var p := w.payments.rows[k];
              && (r.Ok? <==> p.status !in {Payments.Success, Payments.Refunded})
              && (r.Fail? ==> r.error == IllegalPaymentTransition)
              && (r.Ok? ==>
                    r.value.1 == SuccessResponse(TxResult(k, -1, "cancel_time", now), id)
                    && r.value.0 == w.(payments := Put(w.payments, k, p.(status := Payments.Cancelled, cancelledAt := Some(now))),
                                       paymentLogs := w.paymentLogs + [Payments.Log(k, "payme_cancel", params.raw, map[], "")]))
  {
    match Newest(w.payments, WithTx(params.txId))
    case None => Ok((w, ErrorResponse(-31003, "Transaction not found", id)))
    case Some(k) =>
      match Payments.MarkCancelled(w.payments.rows[k], now)
      case Fail(e) => Fail(e)
      case Ok(p') =>
        Ok((w.(payments := Put(w.payments, k, p'),
               paymentLogs := w.paymentLogs + [Payments.Log(k, "payme_cancel", params.raw, map[], "")]),
            SuccessResponse(TxResult(k, -1, "cancel_time", now), id)))
  }

  /** `check_transaction`: read only; -31003 for an unknown Payme id,
      otherwise state 2 for a successful payment and 1 for any other. */
  function CheckTransaction(w: World, params: Params, id: Json): (j: Json)
    ensures !Any(w.payments, WithTx(params.txId)) ==> j == ErrorResponse(-31003, "Transaction not found", id)
    ensures Any(w.payments, WithTx(params.txId)) ==>
              var k := Newest(w.payments, WithTx(params.txId)).value;
              var p := w.payments.rows[k];
              j == SuccessResponse(TxResult(k, if p.status == Payments.Success then 2 else 1, "create_time", p.createdAt), id)
  {
    match Newest(w.payments, WithTx(params.txId))
    case None => ErrorResponse(-31003, "Transaction not found", id)
    case Some(k) =>
      var p := w.payments.rows[k];
      SuccessResponse(TxResult(k, if p.status == Payments.Success then 2 else 1, "create_time", p.createdAt), id)
  }

  const Methods: set<string> :=
    {"CheckPerformTransaction", "CreateTransaction", "PerformTransaction", "CancelTransaction", "CheckTransaction"}

  /** `handle_request`: routes the five method names; anything else is
      -32601 "Method not found". Every reply carries the request id, and
      the two checks never change the database. */
  function HandleRequest(w: World, name: string, params: Params, id: Json, uuidHex: string, now: nat): (r: Result<(World, Json), Error>)
    requires PaymentsLinked(w)
    requires |uuidHex| == 32 && forall i :: 0 <= i < 32 ==> IsLowerHex(uuidHex[i])
    ensures name !in Methods ==> r == Ok((w, ErrorResponse(-32601, "Method not found", id)))
    ensures name == "CheckPerformTransaction" ==> r == Ok((w, CheckPerformTransaction(w, params, id)))
    ensures name == "CreateTransaction" ==> r == CreateTransaction(w, params, id, uuidHex, now)
    ensures name == "PerformTransaction" ==> r == PerformTransaction(w, params, id, now)
    ensures name == "CancelTransaction" ==> r == CancelTransaction(w, params, id, now)
    ensures name == "CheckTransaction" ==> r == Ok((w, CheckTransaction(w, params, id)))
  {
    if name == "CheckPerformTransaction" then Ok((w, CheckPerformTransaction(w, params, id)))
    else if name == "CreateTransaction" then CreateTransaction(w, params, id, uuidHex, now)
    else if name == "PerformTransaction" then PerformTransaction(w, params, id, now)
    else if name == "CancelTransaction" then CancelTransaction(w, params, id, now)
    else if name == "CheckTransaction" then Ok((w, CheckTransaction(w, params, id)))
    else Ok((w, ErrorResponse(-32601, "Method not found", id)))
  }

  /** Every error and every success reply built for a request id is an
      envelope carrying that id. */
  lemma RepliesAreEnvelopes(id: Json)
    ensures forall code: int, message: string :: IsEnvelope(ErrorResponse(code, message, id), id)
    ensures forall result: Json :: IsEnvelope(SuccessResponse(result, id), id)
  {
    forall code: int, message: string
      ensures IsEnvelope(ErrorResponse(code, message, id), id)
    {
      EnvelopesAreEnvelopes(code, message, JNull, id);
    }
    forall result: Json
      ensures IsEnvelope(SuccessResponse(result, id), id)
    {
      EnvelopesAreEnvelopes(0, "", result, id);
    }
  }

  /** CheckPerformTransaction always answers with an envelope carrying the
      request id. */
  lemma CheckPerformEnvelope(w: World, params: Params, id: Json)
    ensures IsEnvelope(CheckPerformTransaction(w, params, id), id)
  {
    if !OrderFound(w, params) {
      EnvelopesAreEnvelopes(-31050, "Order not found", JNull, id);
    } else {
      var o := w.orders.rows[params.orderId.value];
      if params.amount != Some(o.total) {
        EnvelopesAreEnvelopes(-31001, "Incorrect amount", JNull, id);
      } else if o.status != Orders.AwaitingPayment {
        EnvelopesAreEnvelopes(-31008, "Order not ready for payment", JNull, id);
      } else {
        EnvelopesAreEnvelopes(0, "", JObject(map["allow" := JBool(true)]), id);
      }
    }
  }

  /** CheckTransaction always answers with an envelope carrying the
      request id. */
  lemma CheckTransactionEnvelope(w: World, params: Params, id: Json)
    ensures IsEnvelope(CheckTransaction(w, params, id), id)
  {
    RepliesAreEnvelopes(id);
  }

  /** Every reply PerformTransaction gives is an envelope carrying the
      request id. */
  lemma PerformTransactionEnvelope(w: World, params: Params, id: Json, now: nat)
    requires PaymentsLinked(w)
    ensures PerformTransaction(w, params, id, now).Ok? ==> IsEnvelope(PerformTransaction(w, params, id, now).value.1, id)
  {
    RepliesAreEnvelopes(id);
  }

  /** Every reply CancelTransaction gives is an envelope carrying the
      request id. */
  lemma CancelTransactionEnvelope(w: World, params: Params, id: Json, now: nat)
    ensures CancelTransaction(w, params, id, now).Ok? ==> IsEnvelope(CancelTransaction(w, params, id, now).value.1, id)
  {
    RepliesAreEnvelopes(id);
  }

  /** Every reply CreateTransaction gives is an envelope carrying the
      request id. */
  lemma CreateTransactionEnvelope(w: World, params: Params, id: Json, uuidHex: string, now: nat)
    requires |uuidHex| == 32 && forall i :: 0 <= i < 32 ==> IsLowerHex(uuidHex[i])
    ensures CreateTransaction(w, params, id, uuidHex, now).Ok? ==> IsEnvelope(CreateTransaction(w, params, id, uuidHex, now).value.1, id)
  {
    RepliesAreEnvelopes(id);
  }

  /** The row a successful CreateTransaction adds. */
  function CreatedPayment(w: World, params: Params, uuidHex: string, now: nat): Payments.Payment
    requires OrderFound(w, params) && params.amount.Some?
    requires |uuidHex| == 32 && forall i :: 0 <= i < 32 ==> IsLowerHex(uuidHex[i])
  {
    var orderId := params.orderId.value;
    NewPayment(w.orders.rows[orderId], orderId, GeneratePaymentId(uuidHex), Payments.Payme, params.amount.value, now)
      .(status := Payments.Processing, paymeTransactionId := params.txId, paymeTime := params.time)
  }

  /** A CreateTransaction that finds no matching payment and succeeds did
      not meet an earlier successful Payme payment of the order: that one
      would have been handed back and refused by `mark_processing`. */
  lemma CreatedFresh(w: World, params: Params, id: Json, uuidHex: string, now: nat)
    requires |uuidHex| == 32 && forall i :: 0 <= i < 32 ==> IsLowerHex(uuidHex[i])
    requires OrderFound(w, params) && !Any(w.payments, OfOrderWithTx(params.orderId.value, params.txId))
    requires CreateTransaction(w, params, id, uuidHex, now).Ok?
    ensures params.amount.Some?
    ensures !Any(w.payments, SucceededFor(params.orderId.value, Payments.Payme))
    ensures var c := CreatePayment(w, params.orderId.value, Payments.Payme, params.amount.value, uuidHex, now);
            && c.Ok?
            && c.value.1 == w.payments.next
            && c.value.0.orders == w.orders
            && c.value.0.payments.rows == w.payments.rows[c.value.1 := NewPayment(w.orders.rows[params.orderId.value], params.orderId.value,
                                                                                 GeneratePaymentId(uuidHex), Payments.Payme, params.amount.value, now)]
  {
    var c := CreatePayment(w, params.orderId.value, Payments.Payme, params.amount.value, uuidHex, now);
    assert c.Ok?;
    if Any(w.payments, SucceededFor(params.orderId.value, Payments.Payme)) {
      assert false;
    }
  }

  /** The world a successful CreateTransaction leaves when no matching
      payment existed: the one CreatePayment built, with the new row moved
      to PROCESSING under the Payme id and one "payme_create" log row. */
  lemma CreatedWorld(w: World, params: Params, id: Json, uuidHex: string, now: nat)
    requires |uuidHex| == 32 && forall i :: 0 <= i < 32 ==> IsLowerHex(uuidHex[i])
    requires OrderFound(w, params) && !Any(w.payments, OfOrderWithTx(params.orderId.value, params.txId))
    requires CreateTransaction(w, params, id, uuidHex, now).Ok?
    ensures params.amount.Some?
    ensures var c := CreatePayment(w, params.orderId.value, Payments.Payme, params.amount.value, uuidHex, now);
            && c.Ok?
            && CreateTransaction(w, params, id, uuidHex, now).value.0.payments
               == Put(c.value.0.payments, c.value.1, CreatedPayment(w, params, uuidHex, now))
            && CreateTransaction(w, params, id, uuidHex, now).value.0.orders == c.value.0.orders
            && StateOf(CreateTransaction(w, params, id, uuidHex, now).value.1) == Some(1)
  {
    CreatedFresh(w, params, id, uuidHex, now);
  }

  /** A CreateTransaction that finds no matching payment and succeeds
      adds exactly one row, under the next key: a PROCESSING Payme payment
      of the order carrying the Payme id. */
  lemma CreatedRow(w: World, params: Params, id: Json, uuidHex: string, now: nat)
    requires |uuidHex| == 32 && forall i :: 0 <= i < 32 ==> IsLowerHex(uuidHex[i])
    requires OrderFound(w, params) && !Any(w.payments, OfOrderWithTx(params.orderId.value, params.txId))
    requires CreateTransaction(w, params, id, uuidHex, now).Ok?
    ensures var w1 := CreateTransaction(w, params, id, uuidHex, now).value.0;
            var k := w.payments.next;
            && w1.orders == w.orders
            && k in w1.payments.rows
            && w1.payments.rows[k].orderId == params.orderId.value
            && w1.payments.rows[k].paymeTransactionId == params.txId
            && w1.payments.rows[k].status == Payments.Processing
            && w1.payments.rows[k].createdAt == now
            && (forall j :: j in w1.payments.rows && j != k ==> j in w.payments.rows && w1.payments.rows[j] == w.payments.rows[j])
    ensures StateOf(CreateTransaction(w, params, id, uuidHex, now).value.1) == Some(1)
  {
    CreatedFresh(w, params, id, uuidHex, now);
    CreatedWorld(w, params, id, uuidHex, now);
  }

  /** Replaying CreateTransaction creates nothing and reports the same
      transaction, but with state 0 where the first reply said 1, because
      the payment is now PROCESSING rather than SUCCESS. */
  lemma CreateTransactionReplay(w: World, params: Params, id: Json, uuidHex: string, now: nat,
                                id2: Json, uuidHex2: string, later: nat)
    requires |uuidHex| == 32 && forall i :: 0 <= i < 32 ==> IsLowerHex(uuidHex[i])
    requires |uuidHex2| == 32 && forall i :: 0 <= i < 32 ==> IsLowerHex(uuidHex2[i])
    requires OrderFound(w, params) && !Any(w.payments, OfOrderWithTx(params.orderId.value, params.txId))
    requires CreateTransaction(w, params, id, uuidHex, now).Ok?
    ensures StateOf(CreateTransaction(w, params, id, uuidHex, now).value.1) == Some(1)
    ensures var w1 := CreateTransaction(w, params, id, uuidHex, now).value.0;
            CreateTransaction(w1, params, id2, uuidHex2, later)
              == Ok((w1, SuccessResponse(TxResult(w.payments.next, 0, "create_time", now), id2)))
  {
    CreatedRow(w, params, id, uuidHex, now);
    var k := w.payments.next;
    var w1 := CreateTransaction(w, params, id, uuidHex, now).value.0;
    var pred := OfOrderWithTx(params.orderId.value, params.txId);
    assert pred(w1.payments.rows[k]);
    assert Newest(w1.payments, pred) == Some(k);
  }

  /** After a successful PerformTransaction the same Payme id still finds
      the same payment, now successful, and every payment keeps its
      order. */
  lemma PerformedPayment(w: World, params: Params, id: Json, now: nat)
    requires PaymentsLinked(w) && Any(w.payments, WithTx(params.txId))
    requires PerformTransaction(w, params, id, now).Ok?
    ensures var k := Newest(w.payments, WithTx(params.txId)).value;
            var w1 := PerformTransaction(w, params, id, now).value.0;
            && PaymentsLinked(w1)
            && Newest(w1.payments, WithTx(params.txId)) == Some(k)
            && w1.payments.rows[k].status == Payments.Success
  {
    var k := Newest(w.payments, WithTx(params.txId)).value;
    var w1 := CompletePayment(w, k, params.raw, now).value;
    CompletePaymentKeepsLinks(w, k, params.raw, now);
    CompletePaymentKeepsIds(w, k, params.raw, now);
    NewestUnchanged(w.payments, w1.payments, WithTx(params.txId));
  }

  /** PerformTransaction is idempotent: a second call finds the same
      payment already successful, changes nothing and again answers
      state 2. */
  lemma PerformIdempotent(w: World, params: Params, id: Json, now: nat, id2: Json, later: nat)
    requires PaymentsLinked(w) && Any(w.payments, WithTx(params.txId))
    requires PerformTransaction(w, params, id, now).Ok?
    ensures var w1 := PerformTransaction(w, params, id, now).value.0;
            && PaymentsLinked(w1)
            && PerformTransaction(w1, params, id2, later)
                 == Ok((w1, SuccessResponse(TxResult(Newest(w.payments, WithTx(params.txId)).value, 2, "perform_time", later), id2)))
  {
    PerformedPayment(w, params, id, now);
  }

  /** A performed transaction can no longer be cancelled. */
  lemma CancelAfterPerformRefused(w: World, params: Params, id: Json, now: nat, id2: Json, later: nat)
    requires PaymentsLinked(w) && Any(w.payments, WithTx(params.txId))
    requires PerformTransaction(w, params, id, now).Ok?
    ensures CancelTransaction(PerformTransaction(w, params, id, now).value.0, params, id2, later) == Fail(IllegalPaymentTransition)
  {
    PerformedPayment(w, params, id, now);
  }
}
