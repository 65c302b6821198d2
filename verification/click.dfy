/** The Click webhook: the PREPARE and COMPLETE handlers with their
    error-code ladders and replies (payments/services.py, `ClickProvider`
    and `ClickService`). MD5 is an input function. */
module ClickService {
  import opened Wrappers
  import opened Errors
  import opened Tables
  import Text
  import Orders
  import Payments
  import opened Store
  import opened PaymentServices

  /** The merchant settings the provider reads. */
  datatype Config = Config(serviceId: string, secretKey: string)

  /** A webhook request. Text fields appear as Python renders them into the
      signature; `amount` is the request's amount in tiyin and `amountText`
      its decimal text; `raw` is the whole request as logged. */
  datatype Request = Request(
    clickTransId: string,
    merchantTransId: string,             // our payment id
    amount: int,
    amountText: string,
    action: string,
    signTime: string,
    signString: string,
    error: int,
    paydocId: Option<string>,
    raw: Payments.Dict)

  datatype Kind = Prepare | Complete

  /** A reply; `merchantRefId` is sent as `merchant_prepare_id` for PREPARE
      and as `merchant_confirm_id` for COMPLETE. */
  datatype Reply = Reply(kind: Kind, clickTransId: string, merchantTransId: string, merchantRefId: string, error: int, errorNote: string)

  /** `prepare_response` / `complete_response`: both echo our payment id
      as the merchant reference. */
  function Respond(kind: Kind, req: Request, error: int, note: string): (r: Reply)
    ensures r.merchantRefId == req.merchantTransId && r.merchantTransId == req.merchantTransId
    ensures r.clickTransId == req.clickTransId && r.kind == kind && r.error == error && r.errorNote == note
  {
    Reply(kind, req.clickTransId, req.merchantTransId, req.merchantTransId, error, note)
  }

  /** The text the signature covers: Click's transaction id, the service
      id, the secret, our payment id, the amount, the action and the sign
      time, concatenated. */
  function SignedText(cfg: Config, req: Request): string {
    req.clickTransId + cfg.serviceId + cfg.secretKey + req.merchantTransId + req.amountText + req.action + req.signTime
  }

  /** `verify_signature`: the request's sign string must be the MD5 hex of
      the signed text. */
  predicate SignatureValid(md5: string -> string, cfg: Config, req: Request) {
    md5(SignedText(cfg, req)) == req.signString
  }

  /** `handle_prepare`. Checks, in order: the signature (-1), the payment
      (-5), the amount (-2), the order's status (-9); a refused request
      changes nothing. Otherwise Click's transaction id is stored, the
      payment moves to PROCESSING (raising unless it is PENDING) and a
      "click_prepare" log row is written. */
  function HandlePrepare(w: World, cfg: Config, md5: string -> string, req: Request): (r: Result<(World, Reply), Error>)
    requires PaymentsLinked(w)
    ensures !SignatureValid(md5, cfg, req) ==> r == Ok((w, Respond(Prepare, req, -1, "Invalid signature")))
    ensures SignatureValid(md5, cfg, req) && PaymentById(w, req.merchantTransId).None? ==>
              r == Ok((w, Respond(Prepare, req, -5, "Payment not found")))
    ensures SignatureValid(md5, cfg, req) && PaymentById(w, req.merchantTransId).Some? ==>
              var k := PaymentById(w, req.merchantTransId).value;
              var p := w.payments.rows[k];
              && (p.amount != req.amount ==> r == Ok((w, Respond(Prepare, req, -2, "Incorrect amount"))))
              && (p.amount == req.amount && w.orders.rows[p.orderId].status != Orders.AwaitingPayment ==>
                    r == Ok((w, Respond(Prepare, req, -9, "Order not ready for payment"))))
              && (p.amount == req.amount && w.orders.rows[p.orderId].status == Orders.AwaitingPayment ==>
                    (r.Ok? <==> p.status == Payments.Pending)
                    && (r.Fail? ==> r.error == IllegalPaymentTransition)
                    && (r.Ok? ==>
                          r.value.1 == Respond(Prepare, req, 0, "Success")
                          && r.value.0 == w.(payments := Put(w.payments, k, p.(status := Payments.Processing, clickTransId := Some(req.clickTransId))),
                                             paymentLogs := w.paymentLogs + [Payments.Log(k, "click_prepare", req.raw, map[], "")])))
    ensures r.Ok? && r.value.1.error != 0 ==> r.value.0 == w
  {
    if !SignatureValid(md5, cfg, req) then Ok((w, Respond(Prepare, req, -1, "Invalid signature")))
    else
      match PaymentById(w, req.merchantTransId)
      case None => Ok((w, Respond(Prepare, req, -5, "Payment not found")))
      case Some(k) =>
        var p := w.payments.rows[k];
        if p.amount != req.amount then Ok((w, Respond(Prepare, req, -2, "Incorrect amount")))
        else if w.orders.rows[p.orderId].status != Orders.AwaitingPayment then
          Ok((w, Respond(Prepare, req, -9, "Order not ready for payment")))
        else
          match Payments.MarkProcessing(p.(clickTransId := Some(req.clickTransId)))
          case Fail(e) => Fail(e)
          case Ok(p') =>
            Ok((w.(payments := Put(w.payments, k, p'),
                   paymentLogs := w.paymentLogs + [Payments.Log(k, "click_prepare", req.raw, map[], "")]),
                Respond(Prepare, req, 0, "Success")))
  }

  /** `handle_complete`. No signature is checked. An unknown payment gives
      -5; error 0 stores the paydoc id and completes the payment (the whole
      call rolling back if that raises); any other error fails the payment
      and is echoed back. */
  function HandleComplete(w: World, req: Request, now: nat): (r: Result<(World, Reply), Error>)
    requires PaymentsLinked(w)
    ensures PaymentById(w, req.merchantTransId).None? ==> r == Ok((w, Respond(Complete, req, -5, "Payment not found")))
    ensures PaymentById(w, req.merchantTransId).Some? ==>
              var k := PaymentById(w, req.merchantTransId).value;
              var p := w.payments.rows[k];
              var w1 := w.(payments := Put(w.payments, k, p.(clickPaydocId := req.paydocId)));
              && (req.error == 0 ==>
                    match CompletePayment(w1, k, req.raw, now)
                    case Ok(w') => r == Ok((w', Respond(Complete, req, 0, "Success")))
                    case Fail(e) => r == Fail(e))
              && (req.error != 0 ==>
                    r == Ok((FailPayment(w, k, "Click error: " + Text.IntToString(req.error), req.raw),
                             Respond(Complete, req, req.error, "Payment failed"))))
  {
    match PaymentById(w, req.merchantTransId)
    case None => Ok((w, Respond(Complete, req, -5, "Payment not found")))
    case Some(k) =>
      var p := w.payments.rows[k];
      if req.error == 0 then
        var w1 := w.(payments := Put(w.payments, k, p.(clickPaydocId := req.paydocId)));
        match CompletePayment(w1, k, req.raw, now)
        case Fail(e) => Fail(e)
        case Ok(w') => Ok((w', Respond(Complete, req, 0, "Success")))
      else
        Ok((FailPayment(w, k, "Click error: " + Text.IntToString(req.error), req.raw),
            Respond(Complete, req, req.error, "Payment failed")))
  }

  /** A second PREPARE of a prepared payment raises out of
      `mark_processing` instead of answering with an error code. */
  lemma PrepareTwiceRaises(w: World, cfg: Config, md5: string -> string, req: Request)
    requires PaymentsLinked(w)
    requires HandlePrepare(w, cfg, md5, req).Ok? && HandlePrepare(w, cfg, md5, req).value.1.error == 0
    ensures PaymentsLinked(HandlePrepare(w, cfg, md5, req).value.0)
    ensures HandlePrepare(HandlePrepare(w, cfg, md5, req).value.0, cfg, md5, req) == Fail(IllegalPaymentTransition)
  {
    var w' := HandlePrepare(w, cfg, md5, req).value.0;
    NewestUnchanged(w.payments, w'.payments, HasPaymentId(req.merchantTransId));
  }

  /** COMPLETE of a Click payment that never passed PREPARE (so has no
      Click transaction id) fails validation inside `mark_success`, and the
      whole call rolls back. */
  lemma CompleteWithoutPrepareFails(w: World, req: Request, now: nat)
    requires PaymentsLinked(w) && req.error == 0
    requires PaymentById(w, req.merchantTransId).Some?
    requires var p := w.payments.rows[PaymentById(w, req.merchantTransId).value];
             p.provider == Payments.Click && p.status in {Payments.Pending, Payments.Processing} && !Truthy(p.clickTransId)
    ensures HandleComplete(w, req, now) == Fail(PaymentCleanFailed)
  {
  }

  /** COMPLETE with error 0 of a processing Click payment that holds its
      Click transaction id succeeds: the payment becomes SUCCESS and an
      order awaiting payment becomes PAID. */
  lemma CompleteAfterPrepare(w: World, done: Request, now: nat)
    requires PaymentsLinked(w) && done.error == 0
    requires PaymentById(w, done.merchantTransId).Some?
    requires var p := w.payments.rows[PaymentById(w, done.merchantTransId).value];
             p.provider == Payments.Click && p.status == Payments.Processing && Truthy(p.clickTransId)
             && w.orders.rows[p.orderId].status == Orders.AwaitingPayment
    ensures var r := HandleComplete(w, done, now);
            var k := PaymentById(w, done.merchantTransId).value;
            var oid := w.payments.rows[k].orderId;
            && r.Ok? && r.value.1.error == 0
            && k in r.value.0.payments.rows && r.value.0.payments.rows[k].status == Payments.Success
            && oid in r.value.0.orders.rows && r.value.0.orders.rows[oid].status == Orders.Paid
  {
    var k := PaymentById(w, done.merchantTransId).value;
    var p := w.payments.rows[k];
    var w1 := w.(payments := Put(w.payments, k, p.(clickPaydocId := done.paydocId)));
    assert Payments.MarkSuccess(w1.payments.rows[k], done.raw, now).Ok?;
  }

  /** A successful PREPARE followed by COMPLETE with error 0 for the same
      Click payment succeeds: the payment is SUCCESS and its order PAID. */
  lemma PrepareThenComplete(w: World, cfg: Config, md5: string -> string, req: Request, done: Request, now: nat)
    requires PaymentsLinked(w)
    requires req.clickTransId != ""
    requires HandlePrepare(w, cfg, md5, req).Ok? && HandlePrepare(w, cfg, md5, req).value.1.error == 0
    requires w.payments.rows[PaymentById(w, req.merchantTransId).value].provider == Payments.Click
    requires done.merchantTransId == req.merchantTransId && done.error == 0
    ensures var w1 := HandlePrepare(w, cfg, md5, req).value.0;
            var k := PaymentById(w, req.merchantTransId).value;
            var oid := w.payments.rows[k].orderId;
            && PaymentsLinked(w1)
            && var r := HandleComplete(w1, done, now);
               && r.Ok? && r.value.1.error == 0
               && k in r.value.0.payments.rows && r.value.0.payments.rows[k].status == Payments.Success
               && oid in r.value.0.orders.rows && r.value.0.orders.rows[oid].status == Orders.Paid
  {
    var w1 := HandlePrepare(w, cfg, md5, req).value.0;
    var k := PaymentById(w, req.merchantTransId).value;
    NewestUnchanged(w.payments, w1.payments, HasPaymentId(req.merchantTransId));
    assert PaymentById(w1, done.merchantTransId) == Some(k);
    CompleteAfterPrepare(w1, done, now);
  }

  /** Because COMPLETE is unsigned and `mark_failed` has no status guard,
      a COMPLETE with a non-zero error turns a successful payment FAILED. */
  lemma UnsignedCompleteFailsSuccess(w: World, req: Request, now: nat)
    requires PaymentsLinked(w) && req.error != 0
    requires PaymentById(w, req.merchantTransId).Some?
    requires w.payments.rows[PaymentById(w, req.merchantTransId).value].status == Payments.Success
    ensures HandleComplete(w, req, now).Ok?
    ensures var k := PaymentById(w, req.merchantTransId).value;
            k in HandleComplete(w, req, now).value.0.payments.rows
            && HandleComplete(w, req, now).value.0.payments.rows[k].status == Payments.Failed
            && HandleComplete(w, req, now).value.1.error == req.error
  {
  }
}
