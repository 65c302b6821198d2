/** The order services: all-or-nothing checkout with frozen prices, the
    role-gated status change and the stock-restoring cancellation
    (orders/services.py). The `NotificationService.order_*` calls these
    make are not defined anywhere, so the members here leave them out; the
    `...AsWritten` members model what the code does with them. */
module OrderServices {
  import opened Wrappers
  import opened Errors
  import opened Tables
  import opened Store
  import Orders
  import Carts
  import Dashboard

  /** Every line names a known product. */
  predicate Known(w: World, lines: seq<CartLine>) {
    forall i :: 0 <= i < |lines| ==> lines[i].productId in w.products
  }

  /** The order items checkout builds: each line with its product's price
      at this instant. */
  function Freeze(w: World, lines: seq<CartLine>): (items: seq<Orders.Item>)
    requires Known(w, lines)
    ensures |items| == |lines|
    ensures forall i :: 0 <= i < |lines| ==>
              items[i] == Orders.Item(lines[i].productId, lines[i].quantity, w.products[lines[i].productId].price)
  {
    if lines == [] then []
    else [Orders.Item(lines[0].productId, lines[0].quantity, w.products[lines[0].productId].price)] + Freeze(w, lines[1..])
  }

  /** At the moment of checkout the frozen total is the cart's live
      total. */
  lemma {:induction false} FrozenTotalIsCartTotal(w: World, lines: seq<CartLine>)
    requires Known(w, lines)
    ensures Orders.Total(Freeze(w, lines)) == Carts.CartTotal(w, lines)
    decreases |lines|
  {
    if lines != [] {
      FrozenTotalIsCartTotal(w, lines[1..]);
      assert Freeze(w, lines)[1..] == Freeze(w, lines[1..]);
    }
  }

  /** A price change after checkout moves the cart's live total but not
      the order's: the frozen items keep the checkout price, so the two
      totals, equal at checkout, then differ by the price difference times
      the units of that product. */
  lemma CartFollowsPriceOrderDoesNot(w: World, lines: seq<CartLine>, productId: nat, price: int)
    requires Known(w, lines) && productId in w.products
    ensures Orders.Total(Freeze(w, lines)) == Carts.CartTotal(w, lines)
    ensures Carts.CartTotal(Carts.Reprice(w, productId, price), lines) - Orders.Total(Freeze(w, lines))
            == (price - w.products[productId].price) * Carts.LinesQuantity(lines, productId)
  {
    FrozenTotalIsCartTotal(w, lines);
    Carts.CartTotalFollowsPrice(w, lines, productId, price);
  }

  /** `expiry_date < today`. */
  predicate Expired(p: Product, today: nat) {
    p.expiry.Some? && p.expiry.value < today
  }

  predicate AnyExpired(w: World, lines: seq<CartLine>, today: nat)
    requires Known(w, lines)
  {
    exists i :: 0 <= i < |lines| && Expired(w.products[lines[i].productId], today)
  }

  predicate AnyNeedsPrescription(w: World, lines: seq<CartLine>)
    requires Known(w, lines)
  {
    exists i :: 0 <= i < |lines| && w.products[lines[i].productId].rxRequired
  }

  /** The status a new order starts in. */
  function InitialStatus(needsPrescription: bool): Orders.Status {
    if needsPrescription then Orders.AwaitingPrescription else Orders.AwaitingPayment
  }

  /** `OrderCreationService.checkout` with the product's prescription flag
      read as `is_prescription_required`. */
  function Checkout(w: World, userId: nat, address: string, now: nat): (r: Result<(World, nat), Error>)
    requires Carts.CartsWellFormed(w)
    ensures var lines := Carts.LinesOf(w, userId);
            && (lines == [] ==> r == Fail(CartEmpty))
            && (lines != [] && AnyExpired(w, lines, Dashboard.DayOf(now)) ==> r == Fail(ProductExpired))
            && (r.Ok? <==> lines != [] && !AnyExpired(w, lines, Dashboard.DayOf(now)) && Covers(w.products, Freeze(w, lines)))
    ensures r.Fail? ==> r.error in {CartEmpty, ProductExpired, InsufficientStock}
    ensures r.Ok? ==>
              var (w', k) := r.value;
              var lines := Carts.LinesOf(w, userId);
              var items := Freeze(w, lines);
              var needs := AnyNeedsPrescription(w, lines);
              && k !in w.orders.rows && k in w'.orders.rows
              && w'.orders.rows == w.orders.rows[k := w'.orders.rows[k]]
              && w'.orders.rows[k] == Orders.Order(userId, InitialStatus(needs), Orders.Total(items), address, needs, None, items, now)
              && DecreaseAll(w.products, items) == Ok(w'.products)
              && SameButStock(w.products, w'.products)
              && (forall x :: x in w.products ==> w'.products[x].stock == w.products[x].stock - Orders.QuantityOf(items, x))
              && Carts.LinesOf(w', userId) == []
              && (forall u :: u != userId ==> Carts.LinesOf(w', u) == Carts.LinesOf(w, u))
              && w'.history == w.history
              && w' == w.(orders := w'.orders, products := w'.products, carts := w'.carts)
  {
    var lines := Carts.LinesOf(w, userId);
    if lines == [] then Fail(CartEmpty)
    else
      var today := Dashboard.DayOf(now);
      if AnyExpired(w, lines, today) then Fail(ProductExpired)
      else
        var items := Freeze(w, lines);
        var needs := AnyNeedsPrescription(w, lines);
        var (orders', k) := Insert(w.orders, Orders.Order(userId, InitialStatus(needs), Orders.Total(items), address, needs, None, items, now));
        DecreaseAllExact(w.products, items);
        match DecreaseAll(w.products, items)
        case Fail(e) => Fail(e)
        case Ok(products') => Ok((w.(orders := orders', products := products', carts := w.carts[userId := []]), k))
  }

  /** Who may move an order into each status; the empty set means
      `ROLE_PERMISSIONS` has no entry and everyone passes the gate. */
  function AllowedRoles(to: Orders.Status): set<string> {
    match to
    case Preparing => {"operator", "admin"}
    case ReadyForDelivery => {"operator", "admin"}
    case OnTheWay => {"courier", "admin"}
    case Delivered => {"courier", "admin"}
    case _ => {}
  }

  /** The role gate of `OrderStatusService.change_status`; an actor
      without a role is absent. */
  predicate PassesGate(to: Orders.Status, role: Option<string>) {
    AllowedRoles(to) == {} || (role.Some? && role.value in AllowedRoles(to))
  }

  /** The gate restricts only PREPARING and READY_FOR_DELIVERY (operators
      and admins) and ON_THE_WAY and DELIVERED (couriers and admins). */
  lemma GateScope(to: Orders.Status, role: Option<string>)
    ensures to !in {Orders.Preparing, Orders.ReadyForDelivery, Orders.OnTheWay, Orders.Delivered} ==> PassesGate(to, role)
    ensures to in {Orders.Preparing, Orders.ReadyForDelivery} ==>
              (PassesGate(to, role) <==> role == Some("operator") || role == Some("admin"))
    ensures to in {Orders.OnTheWay, Orders.Delivered} ==>
              (PassesGate(to, role) <==> role == Some("courier") || role == Some("admin"))
  {
  }

  /** `OrderStatusService.change_status`: the gate first, then
      `Order.change_status` decides legality. */
  function ChangeStatusService(w: World, orderId: nat, to: Orders.Status, role: Option<string>, actorId: Option<nat>)
    : (r: Result<World, Error>)
    requires orderId in w.orders.rows
    ensures !PassesGate(to, role) ==> r == Fail(RoleNotAllowed)
    ensures r.Ok? <==> PassesGate(to, role) && Orders.CanTransition(w.orders.rows[orderId].status, to)
    ensures r.Fail? ==> r.error in {RoleNotAllowed, IllegalTransition}
    ensures r.Ok? ==>
              && r.value.orders.rows == w.orders.rows[orderId := w.orders.rows[orderId].(status := to)]
              && r.value.history == w.history + [Orders.StatusChange(orderId, w.orders.rows[orderId].status, to, actorId)]
              && r.value == w.(orders := r.value.orders, history := r.value.history)
  {
    if !PassesGate(to, role) then Fail(RoleNotAllowed)
    else ChangeOrderStatus(w, orderId, to, actorId)
  }

  /** The statuses an order may still be cancelled from. */
  predicate Cancellable(s: Orders.Status) {
    s in {Orders.Draft, Orders.AwaitingPayment, Orders.AwaitingPrescription}
  }

  /** `OrderCancelService.cancel`: every item's quantity goes back to
      stock and the order becomes CANCELLED through `change_status`. */
  function Cancel(w: World, orderId: nat, actorId: Option<nat>): (r: Result<World, Error>)
    requires orderId in w.orders.rows
    ensures r.Ok? <==> Cancellable(w.orders.rows[orderId].status)
    ensures r.Fail? ==> r.error == InvalidOrderStatus
    ensures r.Ok? ==>
              var o := w.orders.rows[orderId];
              && r.value.products == IncreaseAll(w.products, o.items)
              && SameButStock(w.products, r.value.products)
              && (forall x :: x in w.products ==> r.value.products[x].stock == w.products[x].stock + Orders.QuantityOf(o.items, x))
              && r.value.orders.rows == w.orders.rows[orderId := o.(status := Orders.Cancelled)]
              && r.value.history == w.history + [Orders.StatusChange(orderId, o.status, Orders.Cancelled, actorId)]
              && r.value == w.(products := r.value.products, orders := r.value.orders, history := r.value.history)
  {
    var o := w.orders.rows[orderId];
    if !Cancellable(o.status) then Fail(InvalidOrderStatus)
    else
      IncreaseAllExact(w.products, o.items);
      var w1 := w.(products := IncreaseAll(w.products, o.items));
      ChangeOrderStatus(w1, orderId, Orders.Cancelled, actorId)
  }

  /** Checking out and then cancelling the new order restores every
      product's stock exactly. */
  lemma CheckoutThenCancelRestoresStock(w: World, userId: nat, address: string, now: nat, actorId: Option<nat>)
    requires Carts.CartsWellFormed(w)
    requires Checkout(w, userId, address, now).Ok?
    ensures var (w1, k) := Checkout(w, userId, address, now).value;
            && k in w1.orders.rows
            && Cancel(w1, k, actorId).Ok?
            && Cancel(w1, k, actorId).value.products == w.products
            && Cancel(w1, k, actorId).value.orders.rows[k].status == Orders.Cancelled
  {
    var (w1, k) := Checkout(w, userId, address, now).value;
    var items := Freeze(w, Carts.LinesOf(w, userId));
    assert w1.orders.rows[k].items == items;
    IncreaseAllUndoesDecreaseAll(w.products, items);
  }

  // ---------------------------------------------------------------
  // As written
  // ---------------------------------------------------------------

  /** `checkout` as written: the first line's product is checked for
      expiry and then asked for `requires_prescription`, an attribute
      `Product` does not have, so every non-empty cart whose first product
      is unexpired raises and rolls back. */
  function CheckoutAsWritten(w: World, userId: nat, address: string, now: nat): (r: Result<(World, nat), Error>)
    requires Carts.CartsWellFormed(w)
    ensures r.Fail?
    ensures var lines := Carts.LinesOf(w, userId);
            lines != [] && !Expired(w.products[lines[0].productId], Dashboard.DayOf(now)) ==> r == Fail(AttributeError)
  {
    var lines := Carts.LinesOf(w, userId);
    if lines == [] then Fail(CartEmpty)
    else if Expired(w.products[lines[0].productId], Dashboard.DayOf(now)) then Fail(ProductExpired)
    else Fail(AttributeError)
  }

  /** The cart the corrected checkout turns into an order is refused as
      written. */
  lemma CheckoutAsWrittenRefusesGoodCarts(w: World, userId: nat, address: string, now: nat)
    requires Carts.CartsWellFormed(w)
    requires Checkout(w, userId, address, now).Ok?
    ensures CheckoutAsWritten(w, userId, address, now) == Fail(AttributeError)
  {
    var lines := Carts.LinesOf(w, userId);
    assert !Expired(w.products[lines[0].productId], Dashboard.DayOf(now));
  }

  /** `checkout` with only the prescription flag repaired: the final
      `NotificationService.order_created` call raises, so every order the
      loop would create is rolled back. */
  function CheckoutNotifyAsWritten(w: World, userId: nat, address: string, now: nat): (r: Result<(World, nat), Error>)
    requires Carts.CartsWellFormed(w)
    ensures r.Fail?
    ensures Checkout(w, userId, address, now).Ok? ==> r == Fail(AttributeError)
    ensures Checkout(w, userId, address, now).Fail? ==> r == Checkout(w, userId, address, now)
  {
    match Checkout(w, userId, address, now)
    case Ok(_) => Fail(AttributeError)
    case Fail(e) => Fail(e)
  }

  /** `OrderStatusService.change_status` as written: after a legal change
      `NotificationService.order_status_changed` raises and the change is
      rolled back. */
  function ChangeStatusServiceAsWritten(w: World, orderId: nat, to: Orders.Status, role: Option<string>, actorId: Option<nat>)
    : (r: Result<World, Error>)
    requires orderId in w.orders.rows
    ensures r.Fail?
    ensures ChangeStatusService(w, orderId, to, role, actorId).Ok? ==> r == Fail(AttributeError)
    ensures ChangeStatusService(w, orderId, to, role, actorId).Fail? ==> r == ChangeStatusService(w, orderId, to, role, actorId)
  {
    if !PassesGate(to, role) then Fail(RoleNotAllowed)
    else
      match ChangeOrderStatus(w, orderId, to, actorId)
      case Fail(e) => Fail(e)
      case Ok(_) => Fail(AttributeError)
  }

  /** `OrderCancelService.cancel` as written: after the stock is restored
      and the status changed, `NotificationService.order_cancelled` raises,
      so no order is ever cancelled through it and no stock comes back. */
  function CancelAsWritten(w: World, orderId: nat, actorId: Option<nat>): (r: Result<World, Error>)
    requires orderId in w.orders.rows
    ensures r.Fail?
    ensures Cancellable(w.orders.rows[orderId].status) ==> r == Fail(AttributeError)
    ensures !Cancellable(w.orders.rows[orderId].status) ==> r == Fail(InvalidOrderStatus)
  {
    var o := w.orders.rows[orderId];
    if !Cancellable(o.status) then Fail(InvalidOrderStatus)
    else
      var w1 := w.(products := IncreaseAll(w.products, o.items));
      match ChangeOrderStatus(w1, orderId, Orders.Cancelled, actorId)
      case Fail(e) => Fail(e)
      case Ok(_) => Fail(AttributeError)
  }
}
