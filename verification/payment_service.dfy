/** `PaymentService`, the provider-agnostic layer: creating, completing and
    failing a payment, each with its `PaymentLog` row, and the lookup by
    the internal payment id (payments/services.py). */
module PaymentServices {
  import opened Wrappers
  import opened Errors
  import opened Tables
  import Text
  import Orders
  import Payments
  import opened Store

  /** Every payment points at a stored order: the `PROTECT` foreign key. */
  predicate PaymentsLinked(w: World) {
    forall k :: k in w.payments.rows ==> w.payments.rows[k].orderId in w.orders.rows
  }

  predicate IsLowerHex(c: char) {
    '0' <= c <= '9' || 'a' <= c <= 'f'
  }

  predicate IsUpperHex(c: char) {
    '0' <= c <= '9' || 'A' <= c <= 'F'
  }

  /** `str.upper` on one character, for the ASCII letters. */
  function Upper(c: char): char {
    if 'a' <= c <= 'z' then (c as int - 'a' as int + 'A' as int) as char else c
  }

  /** `str.lower` on one character, for the ASCII letters. */
  function Lower(c: char): char {
    if 'A' <= c <= 'Z' then (c as int - 'A' as int + 'a' as int) as char else c
  }

  /** `str.upper`; on lower-case hex it gives upper-case hex that
      `str.lower` turns back. */
  function UpperAll(s: string): (r: string)
    ensures |r| == |s| && forall i :: 0 <= i < |s| ==> r[i] == Upper(s[i])
    ensures forall i :: 0 <= i < |s| && IsLowerHex(s[i]) ==> IsUpperHex(r[i]) && Lower(r[i]) == s[i]
  {
    if s == [] then []
    else
      var c := s[0];
      assert IsLowerHex(c) ==> IsUpperHex(Upper(c)) && Lower(Upper(c)) == c by {
        if '0' <= c <= '9' {
          assert Upper(c) == c;
        } else if 'a' <= c <= 'f' {
          assert Upper(c) as int == c as int - 32;
        }
      }
      [Upper(c)] + UpperAll(s[1..])
  }

  /** `generate_payment_id`: "PAY-" and the first 16 characters of a random
      UUID's hex, upper-cased. The UUID's 32 lower-case hex digits are an
      input. */
  function GeneratePaymentId(uuidHex: string): (id: string)
    requires |uuidHex| == 32 && forall i :: 0 <= i < 32 ==> IsLowerHex(uuidHex[i])
    ensures |id| == 20 && id[..4] == "PAY-"
    ensures forall i :: 4 <= i < 20 ==> IsUpperHex(id[i]) && Lower(id[i]) == uuidHex[i - 4]
  {
    "PAY-" + UpperAll(uuidHex[..16])
  }

  function ProviderName(p: Payments.Provider): string {
    match p
    case Click => "click"
    case Payme => "payme"
    case Cash => "cash"
  }

  /** The payments of `orderId` with `provider` that have succeeded. */
  function SucceededFor(orderId: nat, provider: Payments.Provider): Payments.Payment -> bool {
    (p: Payments.Payment) => p.orderId == orderId && p.provider == provider && p.status == Payments.Success
  }

  function HasPaymentId(id: string): Payments.Payment -> bool {
    (p: Payments.Payment) => p.paymentId == id
  }

  /** `get_payment_by_id`: the newest payment with that internal id. */
  function PaymentById(w: World, id: string): (r: Option<nat>)
    ensures r.Some? ==> r.value in w.payments.rows && w.payments.rows[r.value].paymentId == id
    ensures r.None? <==> forall k :: k in w.payments.rows ==> w.payments.rows[k].paymentId != id
  {
    Newest(w.payments, HasPaymentId(id))
  }

  /** A fresh PENDING payment with no provider data. */
  function NewPayment(o: Orders.Order, orderId: nat, id: string, provider: Payments.Provider, amount: int, now: nat): Payments.Payment {
    Payments.Payment(orderId, o.userId, id, provider, Payments.Pending, amount,
                     None, None, None, None, map[], "", None, None, now)
  }

  /** `create_payment`: the order must await payment; an existing
      successful payment of the order with the same provider is returned
      as is; otherwise a PENDING payment of the order's user is created
      under a fresh payment id, which the database keeps unique, and one
      "created" log row is written. */
  function CreatePayment(w: World, orderId: nat, provider: Payments.Provider, amount: int, uuidHex: string, now: nat)
    : (r: Result<(World, nat), Error>)
    requires orderId in w.orders.rows
    requires |uuidHex| == 32 && forall i :: 0 <= i < 32 ==> IsLowerHex(uuidHex[i])
    ensures w.orders.rows[orderId].status != Orders.AwaitingPayment ==> r == Fail(OrderNotAwaitingPayment)
    ensures w.orders.rows[orderId].status == Orders.AwaitingPayment && Any(w.payments, SucceededFor(orderId, provider)) ==>
              r.Ok? && r.value.0 == w && r.value.1 in w.payments.rows
              && SucceededFor(orderId, provider)(w.payments.rows[r.value.1])
    ensures r.Fail? ==> r.error in {OrderNotAwaitingPayment, DuplicatePaymentId}
    ensures r.Ok? && !Any(w.payments, SucceededFor(orderId, provider)) ==>
              var (w', k) := r.value;
              var id := GeneratePaymentId(uuidHex);
              && PaymentById(w, id).None?
              && k == w.payments.next
              && w'.payments.rows == w.payments.rows[k := NewPayment(w.orders.rows[orderId], orderId, id, provider, amount, now)]
              && w'.paymentLogs == w.paymentLogs
                   + [Payments.Log(k, "created", map["amount" := Text.IntToString(amount), "provider" := ProviderName(provider)], map[], "")]
              && w' == w.(payments := w'.payments, paymentLogs := w'.paymentLogs)
  {
    var o := w.orders.rows[orderId];
    if o.status != Orders.AwaitingPayment then Fail(OrderNotAwaitingPayment)
    else
      match Newest(w.payments, SucceededFor(orderId, provider))
      case Some(k) => Ok((w, k))
      case None =>
        var id := GeneratePaymentId(uuidHex);
        if PaymentById(w, id).Some? then Fail(DuplicatePaymentId)
        else
          var (t, k) := Insert(w.payments, NewPayment(o, orderId, id, provider, amount, now));
          var log := Payments.Log(k, "created", map["amount" := Text.IntToString(amount), "provider" := ProviderName(provider)], map[], "");
          Ok((w.(payments := t, paymentLogs := w.paymentLogs + [log]), k))
  }

  /** Creating a payment keeps every payment linked to its order. */
  lemma CreatePaymentKeepsLinks(w: World, orderId: nat, provider: Payments.Provider, amount: int, uuidHex: string, now: nat)
    requires PaymentsLinked(w) && orderId in w.orders.rows
    requires |uuidHex| == 32 && forall i :: 0 <= i < 32 ==> IsLowerHex(uuidHex[i])
    requires CreatePayment(w, orderId, provider, amount, uuidHex, now).Ok?
    ensures PaymentsLinked(CreatePayment(w, orderId, provider, amount, uuidHex, now).value.0)
  {
  }

  /** `complete_payment`: a successful payment is left alone and no log is
      written; otherwise `mark_success` runs (and may refuse), an order
      awaiting payment moves to PAID with its history row, and one
      "completed" log row records the provider data. */
  function CompletePayment(w: World, key: nat, data: Payments.Dict, now: nat): (r: Result<World, Error>)
    requires key in w.payments.rows && w.payments.rows[key].orderId in w.orders.rows
    ensures w.payments.rows[key].status == Payments.Success ==> r == Ok(w)
    ensures w.payments.rows[key].status != Payments.Success ==>
              (r.Ok? <==> Payments.MarkSuccess(w.payments.rows[key], data, now).Ok?)
    ensures r.Fail? ==> r.error in {IllegalPaymentTransition, PaymentCleanFailed}
    ensures w.payments.rows[key].status != Payments.Success && r.Ok? ==>
              var p := w.payments.rows[key];
              var o := w.orders.rows[p.orderId];
              && r.value.payments == Put(w.payments, key, Payments.MarkSuccess(p, data, now).value)
              && r.value.payments.rows[key].status == Payments.Success
              && r.value.paymentLogs == w.paymentLogs + [Payments.Log(key, "completed", map[], data, "")]
              && p.orderId in r.value.orders.rows
              && r.value.orders.rows[p.orderId].status == (if o.status == Orders.AwaitingPayment then Orders.Paid else o.status)
              && r.value.history == w.history
                   + (if o.status == Orders.AwaitingPayment then [Orders.StatusChange(p.orderId, Orders.AwaitingPayment, Orders.Paid, None)] else [])
              && r.value == w.(payments := r.value.payments, paymentLogs := r.value.paymentLogs,
                               orders := r.value.orders, history := r.value.history)
  {
    var p := w.payments.rows[key];
    if p.status == Payments.Success then Ok(w)
    else
      match Payments.MarkSuccess(p, data, now)
      case Fail(e) => Fail(e)
      case Ok(p') =>
        var w1 := w.(payments := Put(w.payments, key, p'),
                     paymentLogs := w.paymentLogs + [Payments.Log(key, "completed", map[], data, "")]);
        if w1.orders.rows[p.orderId].status != Orders.AwaitingPayment then Ok(w1)
        else ChangeOrderStatus(w1, p.orderId, Orders.Paid, None)
  }

  /** Completing keeps every payment linked to its order. */
  lemma CompletePaymentKeepsLinks(w: World, key: nat, data: Payments.Dict, now: nat)
    requires PaymentsLinked(w) && key in w.payments.rows
    requires CompletePayment(w, key, data, now).Ok?
    ensures PaymentsLinked(CompletePayment(w, key, data, now).value)
  {
  }

  /** Completing touches no payment's identity: the same keys, each with
      its order and provider transaction ids, and the completed payment is
      SUCCESS. */
  lemma CompletePaymentKeepsIds(w: World, key: nat, data: Payments.Dict, now: nat)
    requires key in w.payments.rows && w.payments.rows[key].orderId in w.orders.rows
    requires CompletePayment(w, key, data, now).Ok?
    ensures var w' := CompletePayment(w, key, data, now).value;
            && w'.payments.rows.Keys == w.payments.rows.Keys
            && (forall j :: j in w.payments.rows ==>
                  && w'.payments.rows[j].orderId == w.payments.rows[j].orderId
                  && w'.payments.rows[j].paymeTransactionId == w.payments.rows[j].paymeTransactionId
                  && w'.payments.rows[j].paymentId == w.payments.rows[j].paymentId)
            && w'.payments.rows[key].status == Payments.Success
  {
    var p := w.payments.rows[key];
    if p.status != Payments.Success {
      var p' := Payments.MarkSuccess(p, data, now).value;
      assert CompletePayment(w, key, data, now).value.payments.rows == w.payments.rows[key := p'];
    }
  }

  /** Completing twice is completing once. */
  lemma CompletePaymentIdempotent(w: World, key: nat, data: Payments.Dict, now: nat, data2: Payments.Dict, later: nat)
    requires key in w.payments.rows && w.payments.rows[key].orderId in w.orders.rows
    requires CompletePayment(w, key, data, now).Ok?
    ensures var w' := CompletePayment(w, key, data, now).value;
            key in w'.payments.rows && w'.payments.rows[key].orderId in w'.orders.rows
            && CompletePayment(w', key, data2, later) == Ok(w')
  {
  }

  /** `fail_payment`: `mark_failed` (which has no status guard) and one
      "failed" log row with the message and the provider data. */
  function FailPayment(w: World, key: nat, message: string, data: Payments.Dict): (r: World)
    requires key in w.payments.rows
    ensures key in r.payments.rows && r.payments.rows[key].status == Payments.Failed
    ensures r.payments == Put(w.payments, key, Payments.MarkFailed(w.payments.rows[key], message, data))
    ensures r.paymentLogs == w.paymentLogs + [Payments.Log(key, "failed", map[], data, message)]
    ensures r == w.(payments := r.payments, paymentLogs := r.paymentLogs)
  {
    var p := Payments.MarkFailed(w.payments.rows[key], message, data);
    w.(payments := Put(w.payments, key, p),
       paymentLogs := w.paymentLogs + [Payments.Log(key, "failed", map[], data, message)])
  }

  /** The idempotent return of a successful payment is out of reach after
      a completion: completing moves the order out of AWAITING_PAYMENT, so
      a second `create_payment` for it is refused. */
  lemma CreateAfterCompleteRefused(w: World, key: nat, data: Payments.Dict, now: nat,
                                   provider: Payments.Provider, amount: int, uuidHex: string, later: nat)
    requires key in w.payments.rows && w.payments.rows[key].orderId in w.orders.rows
    requires w.payments.rows[key].status != Payments.Success
    requires w.orders.rows[w.payments.rows[key].orderId].status == Orders.AwaitingPayment
    requires |uuidHex| == 32 && forall i :: 0 <= i < 32 ==> IsLowerHex(uuidHex[i])
    requires CompletePayment(w, key, data, now).Ok?
    ensures var w' := CompletePayment(w, key, data, now).value;
            var orderId := w.payments.rows[key].orderId;
            orderId in w'.orders.rows
            && CreatePayment(w', orderId, provider, amount, uuidHex, later) == Fail(OrderNotAwaitingPayment)
  {
  }
}
