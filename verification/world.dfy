/** The database as one immutable record, the order-status write that
    every service shares, and the stock ledger (orders/models.py,
    orders/services.py). Every service is `@transaction.atomic`: a `Fail`
    result stands for a rolled-back call that leaves the world as it was. */
module Store {
  import opened Wrappers
  import opened Errors
  import opened Tables
  import Orders
  import Payments
  import Prescriptions
  import Deliveries
  import Users
  import Otp
  import Notifications
  import Text

  /** The fields of `products.Product` the core reads; `expiry` is a day
      number. */
  datatype Product = Product(price: int, stock: nat, rxRequired: bool, isActive: bool, expiry: Option<nat>)

  /** A `CartItem`; its quantity is a `PositiveIntegerField`, so the
      database refuses a negative one. */
  datatype CartLine = CartLine(id: nat, productId: nat, quantity: nat)

  datatype LegacyStatus = LegacyPending | LegacySuccess | LegacyFailed

  /** The older one-payment-per-order record `OrderPayment`. */
  datatype OrderPayment = OrderPayment(paymentId: string, transactionId: Option<string>, amount: int, status: LegacyStatus)

  datatype World = World(
    products: map<nat, Product>,
    carts: map<nat, seq<CartLine>>,              // user id -> the cart's lines, oldest first
    nextLineId: nat,
    orders: Table<Orders.Order>,
    history: seq<Orders.StatusChange>,           // OrderStatusHistory, oldest first
    orderPayments: map<nat, OrderPayment>,       // order id -> its OrderPayment
    payments: Table<Payments.Payment>,
    paymentLogs: seq<Payments.Log>,
    prescriptions: Prescriptions.Prescriptions,
    deliveries: Deliveries.Deliveries,
    deliveryHistory: seq<Deliveries.Change>,
    users: Users.Users,
    codes: Otp.Codes,
    notifications: Notifications.Notifications)

  /** `Order.change_status` with its history row: the transition must be in
      the table; on success exactly one row (old, new, actor) is appended
      and nothing else changes. */
  function ChangeOrderStatus(w: World, orderId: nat, to: Orders.Status, changedBy: Option<nat>): (r: Result<World, Error>)
    requires orderId in w.orders.rows
    ensures r.Ok? <==> Orders.CanTransition(w.orders.rows[orderId].status, to)
    ensures r.Fail? ==> r.error == IllegalTransition
    ensures r.Ok? ==>
              r.value == w.(orders := Put(w.orders, orderId, w.orders.rows[orderId].(status := to)),
                            history := w.history + [Orders.StatusChange(orderId, w.orders.rows[orderId].status, to, changedBy)])
  {
    var o := w.orders.rows[orderId];
    match Orders.ChangeStatus(o, to)
    case Fail(e) => Fail(e)
    case Ok(o') =>
      Ok(w.(orders := Put(w.orders, orderId, o'),
            history := w.history + [Orders.StatusChange(orderId, o.status, to, changedBy)]))
  }

  /** Nothing leaves DELIVERED or CANCELLED, and a refused change writes
      no history. */
  lemma TerminalOrdersStay(w: World, orderId: nat, to: Orders.Status, changedBy: Option<nat>)
    requires orderId in w.orders.rows
    requires w.orders.rows[orderId].status in {Orders.Delivered, Orders.Cancelled}
    ensures ChangeOrderStatus(w, orderId, to, changedBy) == Fail(IllegalTransition)
  {
    Orders.NoSelfOrTerminalExit(w.orders.rows[orderId].status, to);
  }

  /** A run of successful changes appends one history row per change,
      keeps the earlier rows, ends in the last target, and its statuses
      form a run of allowed transitions, so at most eight changes ever
      succeed on one order. */
  lemma {:induction false} ChangeAllAppends(w: World, orderId: nat, targets: seq<Orders.Status>)
    requires orderId in w.orders.rows
    requires ChangeAll(w, orderId, targets).Ok?
    ensures var w' := ChangeAll(w, orderId, targets).value;
            && |w'.history| == |w.history| + |targets|
            && w'.history[..|w.history|] == w.history
            && orderId in w'.orders.rows
            && w'.orders.rows[orderId].status == (if targets == [] then w.orders.rows[orderId].status else targets[|targets| - 1])
    ensures Orders.IsRun([w.orders.rows[orderId].status] + targets)
    ensures |targets| <= 8
    decreases |targets|
  {
    var start := w.orders.rows[orderId].status;
    if targets != [] {
      var w1 := ChangeOrderStatus(w, orderId, targets[0], None).value;
      ChangeAllAppends(w1, orderId, targets[1..]);
      var w' := ChangeAll(w, orderId, targets).value;
      assert w'.history[..|w1.history|] == w1.history;
      assert w'.history[..|w.history|] == w'.history[..|w1.history|][..|w.history|];
      var run := [start] + targets;
      var tail := [targets[0]] + targets[1..];
      assert Orders.CanTransition(start, targets[0]);
      forall i | 0 < i < |run|
        ensures Orders.CanTransition(run[i - 1], run[i])
      {
        if i > 1 {
          assert run[i - 1] == tail[i - 2] && run[i] == tail[i - 1];
        }
      }
      Orders.RunsAreShort(run);
    } else {
      assert [start] + targets == [start];
    }
  }

  /** A run of status changes by the same actor, stopping at the first
      refusal. */
  function ChangeAll(w: World, orderId: nat, targets: seq<Orders.Status>): Result<World, Error>
    requires orderId in w.orders.rows
    decreases |targets|
  {
    if targets == [] then Ok(w)
    else
      match ChangeOrderStatus(w, orderId, targets[0], None)
      case Fail(e) => Fail(e)
      case Ok(w1) => ChangeAll(w1, orderId, targets[1..])
  }

  // ---------------------------------------------------------------
  // Stock ledger
  // ---------------------------------------------------------------

  /** `StockService.decrease`: a conditional update that touches the row
      only when the stock covers `qty`, and raises when it touched none. */
  function Decrease(products: map<nat, Product>, id: nat, qty: nat): (r: Result<map<nat, Product>, Error>)
    ensures r.Ok? <==> id in products && products[id].stock >= qty
    ensures r.Ok? ==> r.value == products[id := products[id].(stock := products[id].stock - qty)]
    ensures r.Fail? ==> r.error == InsufficientStock
  {
    if id in products && products[id].stock >= qty then Ok(products[id := products[id].(stock := products[id].stock - qty)])
    else Fail(InsufficientStock)
  }

  /** `StockService.increase`: unconditional; a missing product is
      ignored. */
  function Increase(products: map<nat, Product>, id: nat, qty: nat): (r: map<nat, Product>)
    ensures r.Keys == products.Keys
    ensures id in products ==> r[id] == products[id].(stock := products[id].stock + qty)
    ensures forall x :: x in products && x != id ==> r[x] == products[x]
  {
    if id in products then products[id := products[id].(stock := products[id].stock + qty)] else products
  }

  /** Putting back what was taken restores the ledger. */
  lemma IncreaseUndoesDecrease(products: map<nat, Product>, id: nat, qty: nat)
    requires Decrease(products, id, qty).Ok?
    ensures Increase(Decrease(products, id, qty).value, id, qty) == products
  {
    var p' := Increase(Decrease(products, id, qty).value, id, qty);
    assert p'[id] == products[id];
  }

  /** The stock after `DecreaseAll`/`IncreaseAll` differs only in `stock`. */
  predicate SameButStock(a: map<nat, Product>, b: map<nat, Product>) {
    a.Keys == b.Keys && forall x :: x in a ==> a[x].(stock := b[x].stock) == b[x]
  }

  /** Each item's `decrease` in turn, stopping at the first refusal. */
  function DecreaseAll(products: map<nat, Product>, items: seq<Orders.Item>): Result<map<nat, Product>, Error>
    decreases |items|
  {
    if items == [] then Ok(products)
    else
      match Decrease(products, items[0].productId, items[0].quantity)
      case Fail(e) => Fail(e)
      case Ok(p1) => DecreaseAll(p1, items[1..])
  }

  /** Each item's `increase` in turn. */
  function IncreaseAll(products: map<nat, Product>, items: seq<Orders.Item>): map<nat, Product>
    decreases |items|
  {
    if items == [] then products
    else IncreaseAll(Increase(products, items[0].productId, items[0].quantity), items[1..])
  }

  /** Every item names a stocked product and each product's stock covers
      all of its units among the items. */
  predicate Covers(products: map<nat, Product>, items: seq<Orders.Item>) {
    && (forall i :: 0 <= i < |items| ==> items[i].productId in products)
    && (forall x :: x in products ==> products[x].stock >= Orders.QuantityOf(items, x))
  }

  /** The sequential decrements succeed exactly when the stock covers the
      items, and then each product loses exactly its units. */
  lemma {:induction false} DecreaseAllExact(products: map<nat, Product>, items: seq<Orders.Item>)
    ensures DecreaseAll(products, items).Ok? <==> Covers(products, items)
    ensures DecreaseAll(products, items).Fail? ==> DecreaseAll(products, items).error == InsufficientStock
    ensures DecreaseAll(products, items).Ok? ==>
              var p' := DecreaseAll(products, items).value;
              SameButStock(products, p')
              && forall x :: x in products ==> p'[x].stock == products[x].stock - Orders.QuantityOf(items, x)
    decreases |items|
  {
    if items != [] {
      var a := items[0];
      var rest := items[1..];
      assert forall x :: Orders.QuantityOf(items, x) == (if a.productId == x then a.quantity else 0) + Orders.QuantityOf(rest, x);
      var d := Decrease(products, a.productId, a.quantity);
      if d.Ok? {
        var p1 := d.value;
        DecreaseAllExact(p1, rest);
        assert (forall i :: 0 <= i < |items| ==> items[i].productId in products)
               <==> a.productId in products && (forall i :: 0 <= i < |rest| ==> rest[i].productId in p1) by {
          assert p1.Keys == products.Keys;
          if forall i :: 0 <= i < |rest| ==> rest[i].productId in p1 {
            forall i | 0 <= i < |items| ensures items[i].productId in products {
              if i > 0 { assert items[i] == rest[i - 1]; }
            }
          }
        }
      } else if a.productId !in products {
        assert items[0].productId !in products;
      } else {
        assert products[a.productId].stock < Orders.QuantityOf(items, a.productId);
      }
    }
  }

  /** Each product gains exactly its units; nothing else changes. */
  lemma {:induction false} IncreaseAllExact(products: map<nat, Product>, items: seq<Orders.Item>)
    ensures SameButStock(products, IncreaseAll(products, items))
    ensures forall x :: x in products ==>
              IncreaseAll(products, items)[x].stock == products[x].stock + Orders.QuantityOf(items, x)
    decreases |items|
  {
    if items != [] {
      var a := items[0];
      IncreaseAllExact(Increase(products, a.productId, a.quantity), items[1..]);
      assert forall x :: Orders.QuantityOf(items, x) == (if a.productId == x then a.quantity else 0) + Orders.QuantityOf(items[1..], x);
    }
  }

  /** Increasing by the same items undoes a successful decrease of all of
      them. */
  lemma IncreaseAllUndoesDecreaseAll(products: map<nat, Product>, items: seq<Orders.Item>)
    requires DecreaseAll(products, items).Ok?
    ensures IncreaseAll(DecreaseAll(products, items).value, items) == products
  {
    var p1 := DecreaseAll(products, items).value;
    DecreaseAllExact(products, items);
    IncreaseAllExact(p1, items);
    var p2 := IncreaseAll(p1, items);
    assert forall x :: x in products ==> p2[x] == products[x];
  }

  // ---------------------------------------------------------------
  // The legacy OrderPayment
  // ---------------------------------------------------------------

  /** `OrderPayment.mark_success`: a no-op when already successful;
      otherwise stores the transaction id (unique across order payments)
      and moves the order to PAID through `change_status`, the whole call
      rolling back when either step fails. */
  function MarkOrderPaymentSuccess(w: World, orderId: nat, transactionId: string): (r: Result<World, Error>)
    requires orderId in w.orderPayments && orderId in w.orders.rows
    ensures w.orderPayments[orderId].status == LegacySuccess ==> r == Ok(w)
    ensures w.orderPayments[orderId].status != LegacySuccess ==>
              (r.Ok? <==> (forall k :: k in w.orderPayments && k != orderId ==> w.orderPayments[k].transactionId != Some(transactionId))
                          && w.orders.rows[orderId].status == Orders.AwaitingPayment)
    ensures w.orderPayments[orderId].status != LegacySuccess && r.Ok? ==>
              orderId in r.value.orderPayments && orderId in r.value.orders.rows
              && r.value.orderPayments[orderId] == w.orderPayments[orderId].(status := LegacySuccess, transactionId := Some(transactionId))
              && r.value.orders.rows[orderId].status == Orders.Paid
              && r.value.history == w.history + [Orders.StatusChange(orderId, Orders.AwaitingPayment, Orders.Paid, None)]
  {
    var op := w.orderPayments[orderId];
    if op.status == LegacySuccess then Ok(w)
    else if exists k :: k in w.orderPayments && k != orderId && w.orderPayments[k].transactionId == Some(transactionId) then
      Fail(UniqueViolation)
    else
      var w1 := w.(orderPayments := w.orderPayments[orderId := op.(status := LegacySuccess, transactionId := Some(transactionId))]);
      ChangeOrderStatus(w1, orderId, Orders.Paid, None)
  }

  // ---------------------------------------------------------------
  // Prescription decisions
  // ---------------------------------------------------------------

  /** `approve_prescription` on a stored prescription: only the
      prescription row changes. */
  function ApprovePrescription(w: World, key: nat, operator: nat, now: nat): (r: Result<World, Error>)
    requires key in w.prescriptions.rows
    ensures r.Ok? <==> w.prescriptions.rows[key].status == Prescriptions.Pending
    ensures r.Fail? ==> r.error == NotPending
    ensures r.Ok? ==> key in r.value.prescriptions.rows
                      && r.value.prescriptions.rows[key].status == Prescriptions.Approved
                      && r.value == w.(prescriptions := r.value.prescriptions)
                      && r.value.prescriptions.rows == w.prescriptions.rows[key := r.value.prescriptions.rows[key]]
  {
    var q :- Prescriptions.ApproveService(w.prescriptions.rows[key], operator, now);
    Ok(w.(prescriptions := Put(w.prescriptions, key, q)))
  }

  /** `reject_prescription` on a stored prescription: only the
      prescription row changes. */
  function RejectPrescription(w: World, key: nat, operator: nat, reason: Option<string>, now: nat): (r: Result<World, Error>)
    requires key in w.prescriptions.rows
    ensures r.Ok? <==> w.prescriptions.rows[key].status == Prescriptions.Pending && Truthy(reason)
    ensures r.Fail? ==> r.error in {NotPending, MissingReason}
    ensures r.Ok? ==> key in r.value.prescriptions.rows
                      && r.value.prescriptions.rows[key].status == Prescriptions.Rejected
                      && r.value.prescriptions.rows[key].rejectionReason == reason
                      && r.value == w.(prescriptions := r.value.prescriptions)
                      && r.value.prescriptions.rows == w.prescriptions.rows[key := r.value.prescriptions.rows[key]]
  {
    var q :- Prescriptions.RejectService(w.prescriptions.rows[key], operator, reason, now);
    Ok(w.(prescriptions := Put(w.prescriptions, key, q)))
  }

  /** Approval never advances the linked order: an order awaiting its
      prescription still awaits it afterwards, and no history row is
      written. */
  lemma ApprovalLeavesOrderWaiting(w: World, key: nat, operator: nat, now: nat)
    requires key in w.prescriptions.rows
    requires w.prescriptions.rows[key].orderId.Some?
    requires w.prescriptions.rows[key].orderId.value in w.orders.rows
    requires w.orders.rows[w.prescriptions.rows[key].orderId.value].status == Orders.AwaitingPrescription
    requires ApprovePrescription(w, key, operator, now).Ok?
    ensures var w' := ApprovePrescription(w, key, operator, now).value;
            var oid := w.prescriptions.rows[key].orderId.value;
            oid in w'.orders.rows && w'.orders.rows[oid].status == Orders.AwaitingPrescription
            && w'.history == w.history
  {
  }

  // ---------------------------------------------------------------
  // Sending a one-time code
  // ---------------------------------------------------------------

  function HasPhone(phone: string): Users.User -> bool {
    (u: Users.User) => u.phone == phone
  }

  /** `_get_or_create_temp_user`: the user holding the phone, or a new
      active customer whose username is the phone; the new row has no
      usable password, and a clash on the unique username refuses it. */
  function TempUser(t: Users.Users, phone: string): (r: Result<(Users.Users, nat), Error>)
    ensures Any(t, HasPhone(phone)) ==> r.Ok? && r.value.0 == t
    ensures r.Fail? ==> r.error == UniqueViolation
    ensures r.Ok? ==> r.value.1 in r.value.0.rows && r.value.0.rows[r.value.1].phone == phone
    ensures r.Ok? && !Any(t, HasPhone(phone)) ==>
              var u := r.value.0.rows[r.value.1];
              r.value.1 !in t.rows && r.value.0.rows == t.rows[r.value.1 := u]
              && u.username == phone && u.isActive && !u.isVerified && u.role == "customer"
              && u.password == Users.Unusable
  {
    match Newest(t, HasPhone(phone))
    case Some(k) => Ok((t, k))
    case None =>
      Users.SaveNew(t, Users.User(phone, phone, "", "", Users.Unusable, "customer", false, false, true, false, None))
  }

  /** `OTPService.send_otp`: the rate limit, the fresh four-digit code that
      retires the phone's earlier ones, and `notify` of an "otp" SYSTEM row
      and a PENDING SMS row for the phone's user, both carrying the code.
      The SMS row's key is returned: it is handed to `Send` once the call
      has committed. `draw` is the random draw below 9000 and the two
      messages are the rendered templates. */
  function SendOtp(w: World, phone: string, draw: nat, systemMessage: string, smsMessage: string, now: nat)
    : (r: Result<(World, nat), Error>)
    requires draw < 9000
    ensures !Otp.CanSendSms(w.codes, phone, now) ==> r == Fail(RateLimited)
    ensures r.Fail? ==> r.error in {RateLimited, UniqueViolation}
    ensures r.Ok? ==>
              var (w', sms) := r.value;
              && Otp.SendCode(w.codes, phone, draw, now).Ok?
              && w'.codes == Otp.SendCode(w.codes, phone, draw, now).value.0
              && sms !in w.notifications.rows && sms in w'.notifications.rows
              && var n := w'.notifications.rows[sms];
                 && n.channel == Notifications.Sms && n.status == Notifications.Pending
                 && n.phone == phone && n.kind == "otp" && n.metadata == map["code" := Otp.GenerateCode(draw)]
                 && n.userId in w'.users.rows && w'.users.rows[n.userId].phone == phone
    ensures r.Ok? ==> |r.value.0.notifications.rows| == |w.notifications.rows| + 2
    ensures r.Ok? ==> r.value.0 == w.(codes := r.value.0.codes, users := r.value.0.users,
                                      notifications := r.value.0.notifications)
    ensures r.Ok? && Any(w.users, HasPhone(phone)) ==> r.value.0.users == w.users
  {
    var (codes, _) :- Otp.SendCode(w.codes, phone, draw, now);
    var (users, userId) :- TempUser(w.users, phone);
    var code := Otp.GenerateCode(draw);
    var (notes, _, sms) := Notifications.Notify(w.notifications, userId, phone, "otp", map["code" := code],
                                                systemMessage, smsMessage, true, now);
    assert sms.Some?;
    Ok((w.(codes := codes, users := users, notifications := notes), sms.value))
  }

  /** The code `send_otp` texts to a phone is accepted by the
      verification request until it expires, for any input that normalises
      to that phone or to its bare digits, and names that phone. */
  lemma SendOtpThenVerify(w: World, phone: string, draw: nat, systemMessage: string, smsMessage: string, now: nat,
                          phoneInput: string, later: nat)
    requires draw < 9000 && now <= later <= now + Otp.ExpireSeconds
    requires SendOtp(w, phone, draw, systemMessage, smsMessage, now).Ok?
    requires Users.NormalizePhone(phoneInput).Ok?
    requires phone == Users.NormalizePhone(phoneInput).value || phone == Text.Digits(Users.NormalizePhone(phoneInput).value)
    ensures var w' := SendOtp(w, phone, draw, systemMessage, smsMessage, now).value.0;
            var r := Otp.VerifyOtpRequest(w'.codes, phoneInput, Otp.GenerateCode(draw), later);
            r.Ok? && r.value.1 == phone
  {
    Otp.SendThenVerifyRequest(w.codes, phone, draw, now, phoneInput, later);
  }
}
