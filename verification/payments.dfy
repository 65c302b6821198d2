/** The payment record and its state machine (payments/models.py). */
module Payments {
  import opened Wrappers
  import opened Errors

  datatype Status = Pending | Processing | Success | Failed | Cancelled | Refunded

  datatype Provider = Click | Payme | Cash

  /** A JSON object with its values rendered as text; the empty object is
      falsy. */
  type Dict = map<string, string>

  datatype Payment = Payment(
    orderId: nat,
    userId: nat,
    paymentId: string,
    provider: Provider,
    status: Status,
    amount: int,                       // tiyin
    clickTransId: Option<string>,
    clickPaydocId: Option<string>,
    paymeTransactionId: Option<string>,
    paymeTime: Option<int>,
    providerResponse: Dict,
    errorMessage: string,
    completedAt: Option<nat>,
    cancelledAt: Option<nat>,
    createdAt: nat)

  /** One `PaymentLog` row. */
  datatype Log = Log(paymentKey: nat, event: string, request: Dict, response: Dict, error: string)

  /** `Payment.clean`: a successful Click payment needs its Click
      transaction id and a successful Payme payment its Payme transaction
      id. */
  predicate Clean(p: Payment) {
    && (p.provider == Click && p.status == Success ==> Truthy(p.clickTransId))
    && (p.provider == Payme && p.status == Success ==> Truthy(p.paymeTransactionId))
  }

  /** `mark_processing`: only a pending payment may start processing. */
  function MarkProcessing(p: Payment): (r: Result<Payment, Error>)
    ensures r.Ok? <==> p.status == Pending
    ensures r.Ok? ==> r.value == p.(status := Processing)
    ensures r.Fail? ==> r.error == IllegalPaymentTransition
  {
    if p.status != Pending then Fail(IllegalPaymentTransition) else Ok(p.(status := Processing))
  }

  /** `mark_success`: idempotent on a successful payment; otherwise only a
      pending or processing payment succeeds, the provider response is
      replaced only by a non-empty one, and `full_clean` must pass. */
  function MarkSuccess(p: Payment, response: Dict, now: nat): (r: Result<Payment, Error>)
    ensures p.status == Success ==> r == Ok(p)
    ensures p.status in {Failed, Cancelled, Refunded} ==> r == Fail(IllegalPaymentTransition)
    ensures p.status in {Pending, Processing} ==>
              (r.Ok? <==> Clean(p.(status := Success)))
    ensures p.status != Success && r.Ok? ==>
              r.value.status == Success && r.value.completedAt == Some(now)
              && r.value.providerResponse == (if response != map[] then response else p.providerResponse)
              && r.value.(status := p.status, completedAt := p.completedAt, providerResponse := p.providerResponse) == p
    ensures r.Ok? ==> Clean(r.value) || r.value == p
    ensures r.Fail? ==> r.error in {IllegalPaymentTransition, PaymentCleanFailed}
  {
    if p.status == Success then Ok(p)
    else if p.status !in {Pending, Processing} then Fail(IllegalPaymentTransition)
    else
      var q := p.(status := Success, completedAt := Some(now),
                  providerResponse := if response != map[] then response else p.providerResponse);
      if !Clean(q) then Fail(PaymentCleanFailed) else Ok(q)
  }

  /** Completing a Click payment that never received a Click transaction
      id fails validation. */
  lemma ClickSuccessNeedsTransId(p: Payment, response: Dict, now: nat)
    requires p.provider == Click && p.status in {Pending, Processing} && !Truthy(p.clickTransId)
    ensures MarkSuccess(p, response, now) == Fail(PaymentCleanFailed)
  {
  }

  /** A second `mark_success` changes nothing. */
  lemma MarkSuccessIdempotent(p: Payment, response: Dict, now: nat, later: nat, response2: Dict)
    ensures MarkSuccess(p, response, now).Ok? ==>
              MarkSuccess(MarkSuccess(p, response, now).value, response2, later) == MarkSuccess(p, response, now)
  {
  }

  /** `mark_failed`: idempotent on a failed payment; from every other
      status, a successful one included, the payment becomes failed with the
      message. */
  function MarkFailed(p: Payment, message: string, response: Dict): (r: Payment)
    ensures p.status == Failed ==> r == p
    ensures r.status == Failed
    ensures p.status != Failed ==>
              r.errorMessage == message
              && r.providerResponse == (if response != map[] then response else p.providerResponse)
              && r.(status := p.status, errorMessage := p.errorMessage, providerResponse := p.providerResponse) == p
  {
    if p.status == Failed then p
    else p.(status := Failed, errorMessage := message,
            providerResponse := if response != map[] then response else p.providerResponse)
  }

  /** `mark_cancelled`: refused for successful or refunded payments. */
  function MarkCancelled(p: Payment, now: nat): (r: Result<Payment, Error>)
    ensures r.Ok? <==> p.status !in {Success, Refunded}
    ensures r.Ok? ==> r.value == p.(status := Cancelled, cancelledAt := Some(now))
    ensures r.Fail? ==> r.error == IllegalPaymentTransition
  {
    if p.status in {Success, Refunded} then Fail(IllegalPaymentTransition)
    else Ok(p.(status := Cancelled, cancelledAt := Some(now)))
  }

  /** One state-machine step, named for the lemma below. */
  datatype Step = ToProcessing | ToSuccess(response: Dict) | ToFailed(message: string, response: Dict) | ToCancelled

  function Apply(p: Payment, s: Step, now: nat): Result<Payment, Error> {
    match s
    case ToProcessing => MarkProcessing(p)
    case ToSuccess(response) => MarkSuccess(p, response, now)
    case ToFailed(message, response) => Ok(MarkFailed(p, message, response))
    case ToCancelled => MarkCancelled(p, now)
  }

  /** REFUNDED is only declared: no sequence of steps reaches it from a
      payment that was not already refunded. */
  lemma {:induction false} NeverRefunded(p: Payment, steps: seq<Step>, now: nat)
    requires p.status != Refunded
    ensures ApplyAll(p, steps, now).Ok? ==> ApplyAll(p, steps, now).value.status != Refunded
    decreases |steps|
  {
    if steps != [] {
      var r := Apply(p, steps[0], now);
      if r.Ok? {
        NeverRefunded(r.value, steps[1..], now);
      }
    }
  }

  function ApplyAll(p: Payment, steps: seq<Step>, now: nat): Result<Payment, Error>
    decreases |steps|
  {
    if steps == [] then Ok(p)
    else
      match Apply(p, steps[0], now)
      case Fail(e) => Fail(e)
      case Ok(q) => ApplyAll(q, steps[1..], now)
  }
}
