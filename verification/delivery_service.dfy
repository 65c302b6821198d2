/** `DeliveryService`: assigning a courier, the courier's two status
    moves and cancellation (delivery/services.py). The courier moves write
    the order's status directly, without `Order.change_status` and without
    an order-history row. */
module DeliveryServices {
  import opened Wrappers
  import opened Errors
  import opened Tables
  import Orders
  import Users
  import Deliveries
  import opened Store

  /** The role `Delivery.clean` sees for the delivery's courier; "" when
      there is none. */
  function CourierRole(w: World, d: Deliveries.Delivery): string {
    if d.courierId.Some? && d.courierId.value in w.users.rows then w.users.rows[d.courierId.value].role else ""
  }

  /** `get_object_or_404(User, id=…, role="courier", is_active=True)`. */
  predicate ActiveCourier(w: World, userId: nat) {
    userId in w.users.rows && w.users.rows[userId].role == "courier" && w.users.rows[userId].isActive
  }

  function ActiveOf(orderId: nat): Deliveries.Delivery -> bool {
    (d: Deliveries.Delivery) => d.orderId == orderId && d.isActive
  }

  function AnyOf(orderId: nat): Deliveries.Delivery -> bool {
    (d: Deliveries.Delivery) => d.orderId == orderId
  }

  /** Every delivery points at a stored order (`PROTECT`). */
  predicate DeliveriesLinked(w: World) {
    forall k :: k in w.deliveries.rows ==> w.deliveries.rows[k].orderId in w.orders.rows
  }

  /** `assign_courier`: the order must be READY_FOR_DELIVERY and the user an
      active courier. The order's active delivery, if there is one, gets
      the courier and the assignment time and keeps its status; otherwise
      a READY delivery is created, which the one-to-one order field
      refuses when the order already has an inactive delivery. Returns the
      delivery's key. */
  function AssignCourier(w: World, orderId: nat, courierId: nat, now: nat): (r: Result<(World, nat), Error>)
    requires orderId in w.orders.rows
    requires Deliveries.OnePerOrder(w.deliveries)
    ensures w.orders.rows[orderId].status != Orders.ReadyForDelivery ==> r == Fail(OrderNotReady)
    ensures w.orders.rows[orderId].status == Orders.ReadyForDelivery && !ActiveCourier(w, courierId) ==> r == Fail(CourierNotFound)
    ensures r.Fail? ==> r.error in {OrderNotReady, CourierNotFound, DuplicateDelivery, DeliveryValidation}
    ensures r.Ok? ==>
              var (w', k) := r.value;
              && w.orders.rows[orderId].status == Orders.ReadyForDelivery && ActiveCourier(w, courierId)
              && k in w'.deliveries.rows
              && w'.deliveries.rows[k].orderId == orderId && w'.deliveries.rows[k].isActive
              && w'.deliveries.rows[k].courierId == Some(courierId)
              && w'.deliveries.rows[k].assignedAt == Some(now)
              && (k in w.deliveries.rows ==>
                    w'.deliveries == Put(w.deliveries, k, w.deliveries.rows[k].(courierId := Some(courierId), assignedAt := Some(now))))
              && (k !in w.deliveries.rows ==>
                    !Any(w.deliveries, AnyOf(orderId))
                    && w'.deliveries == Insert(w.deliveries, Deliveries.NewDelivery(orderId, Some(courierId), Some(now), now)).0)
              && w' == w.(deliveries := w'.deliveries)
    ensures w.orders.rows[orderId].status == Orders.ReadyForDelivery && ActiveCourier(w, courierId) && !Any(w.deliveries, AnyOf(orderId)) ==>
              r.Ok? && r.value.1 == w.deliveries.next && r.value.0.deliveries.rows[r.value.1].status == Deliveries.Ready
    ensures w.orders.rows[orderId].status == Orders.ReadyForDelivery && ActiveCourier(w, courierId)
            && Any(w.deliveries, AnyOf(orderId)) && !Any(w.deliveries, ActiveOf(orderId)) ==>
              r == Fail(DuplicateDelivery)
  {
    if w.orders.rows[orderId].status != Orders.ReadyForDelivery then Fail(OrderNotReady)
    else if !ActiveCourier(w, courierId) then Fail(CourierNotFound)
    else
      var active := Newest(w.deliveries, ActiveOf(orderId));
      if active.Some? then
        var k := active.value;
        var d := w.deliveries.rows[k].(courierId := Some(courierId), assignedAt := Some(now));
        match Deliveries.Save(d, "courier", now)
        case Fail(e) => Fail(e)
        case Ok(d') => Ok((w.(deliveries := Put(w.deliveries, k, d')), k))
      else if Any(w.deliveries, AnyOf(orderId)) then Fail(DuplicateDelivery)
      else
        var d := Deliveries.NewDelivery(orderId, Some(courierId), Some(now), now);
        match Deliveries.Save(d, "courier", now)
        case Fail(e) => Fail(e)
        case Ok(d') =>
          var (t, k) := Insert(w.deliveries, d');
          Ok((w.(deliveries := t), k))
  }

  /** Assigning keeps one delivery per order. */
  lemma AssignKeepsOnePerOrder(w: World, orderId: nat, courierId: nat, now: nat)
    requires orderId in w.orders.rows && Deliveries.OnePerOrder(w.deliveries)
    requires AssignCourier(w, orderId, courierId, now).Ok?
    ensures Deliveries.OnePerOrder(AssignCourier(w, orderId, courierId, now).value.0.deliveries)
  {
    var (w', k) := AssignCourier(w, orderId, courierId, now).value;
    if k !in w.deliveries.rows {
      assert forall j :: j in w.deliveries.rows ==> !AnyOf(orderId)(w.deliveries.rows[j]);
    }
  }

  /** Reassigning the courier of an active delivery keeps its status. */
  lemma ReassignKeepsStatus(w: World, orderId: nat, courierId: nat, now: nat, k: nat)
    requires orderId in w.orders.rows && Deliveries.OnePerOrder(w.deliveries)
    requires k in w.deliveries.rows && w.deliveries.rows[k].orderId == orderId && w.deliveries.rows[k].isActive
    requires AssignCourier(w, orderId, courierId, now).Ok?
    ensures AssignCourier(w, orderId, courierId, now).value.1 == k
    ensures AssignCourier(w, orderId, courierId, now).value.0.deliveries.rows[k].status == w.deliveries.rows[k].status
  {
    var (w', k') := AssignCourier(w, orderId, courierId, now).value;
    assert ActiveOf(orderId)(w.deliveries.rows[k]);
  }

  /** `mark_on_the_way`: the caller must have the courier role and be the
      delivery's courier (PermissionDenied, checked first), and the
      delivery must be READY. The delivery becomes ON_THE_WAY, the order's
      status is overwritten with ON_THE_WAY, and one delivery-history row
      READY -> ON_THE_WAY by the courier is written. */
  function MarkOnTheWay(w: World, deliveryId: nat, courier: nat): (r: Result<World, Error>)
    requires deliveryId in w.deliveries.rows && courier in w.users.rows
    requires DeliveriesLinked(w)
    ensures var d := w.deliveries.rows[deliveryId];
            (w.users.rows[courier].role != "courier" || d.courierId != Some(courier)) ==> r == Fail(PermissionDenied)
    ensures var d := w.deliveries.rows[deliveryId];
            r.Ok? <==> w.users.rows[courier].role == "courier" && d.courierId == Some(courier) && d.status == Deliveries.Ready
    ensures r.Fail? ==> r.error in {PermissionDenied, DeliveryValidation}
    ensures r.Ok? ==>
              var d := w.deliveries.rows[deliveryId];
              && r.value.deliveries == Put(w.deliveries, deliveryId, d.(status := Deliveries.OnTheWay))
              && r.value.orders == Put(w.orders, d.orderId, w.orders.rows[d.orderId].(status := Orders.OnTheWay))
              && r.value.deliveryHistory == w.deliveryHistory + [Deliveries.Change(deliveryId, Deliveries.Ready, Deliveries.OnTheWay, Some(courier))]
              && r.value.history == w.history
              && r.value == w.(deliveries := r.value.deliveries, orders := r.value.orders, deliveryHistory := r.value.deliveryHistory)
  {
    var d := w.deliveries.rows[deliveryId];
    if w.users.rows[courier].role != "courier" then Fail(PermissionDenied)
    else if d.courierId != Some(courier) then Fail(PermissionDenied)
    else if d.status != Deliveries.Ready then Fail(DeliveryValidation)
    else
      var d1 := d.(status := Deliveries.OnTheWay);
      match Deliveries.Save(d1, CourierRole(w, d1), 0)
      case Fail(e) => Fail(e)
      case Ok(d') =>
        Ok(w.(deliveries := Put(w.deliveries, deliveryId, d'),
              orders := Put(w.orders, d.orderId, w.orders.rows[d.orderId].(status := Orders.OnTheWay)),
              deliveryHistory := w.deliveryHistory + [Deliveries.Change(deliveryId, Deliveries.Ready, Deliveries.OnTheWay, Some(courier))]))
  }

  /** `mark_delivered`: the same permission checks, then the delivery must
      be ON_THE_WAY. It becomes DELIVERED, stamped and inactive, the
      order's status is overwritten with DELIVERED, and one history row
      ON_THE_WAY -> DELIVERED is written. */
  function MarkDelivered(w: World, deliveryId: nat, courier: nat, now: nat): (r: Result<World, Error>)
    requires deliveryId in w.deliveries.rows && courier in w.users.rows
    requires DeliveriesLinked(w)
    ensures var d := w.deliveries.rows[deliveryId];
            (w.users.rows[courier].role != "courier" || d.courierId != Some(courier)) ==> r == Fail(PermissionDenied)
    ensures var d := w.deliveries.rows[deliveryId];
            r.Ok? <==> w.users.rows[courier].role == "courier" && d.courierId == Some(courier) && d.status == Deliveries.OnTheWay
    ensures r.Fail? ==> r.error in {PermissionDenied, DeliveryValidation}
    ensures r.Ok? ==>
              var d := w.deliveries.rows[deliveryId];
              && r.value.deliveries == Put(w.deliveries, deliveryId,
                                           d.(status := Deliveries.Delivered, deliveredAt := Some(now), isActive := false))
              && r.value.orders == Put(w.orders, d.orderId, w.orders.rows[d.orderId].(status := Orders.Delivered))
              && r.value.deliveryHistory == w.deliveryHistory + [Deliveries.Change(deliveryId, Deliveries.OnTheWay, Deliveries.Delivered, Some(courier))]
              && r.value.history == w.history
              && r.value == w.(deliveries := r.value.deliveries, orders := r.value.orders, deliveryHistory := r.value.deliveryHistory)
  {
    var d := w.deliveries.rows[deliveryId];
    if w.users.rows[courier].role != "courier" then Fail(PermissionDenied)
    else if d.courierId != Some(courier) then Fail(PermissionDenied)
    else if d.status != Deliveries.OnTheWay then Fail(DeliveryValidation)
    else
      var d1 := d.(status := Deliveries.Delivered, deliveredAt := Some(now), isActive := false);
      match Deliveries.Save(d1, CourierRole(w, d1), now)
      case Fail(e) => Fail(e)
      case Ok(d') =>
        Ok(w.(deliveries := Put(w.deliveries, deliveryId, d'),
              orders := Put(w.orders, d.orderId, w.orders.rows[d.orderId].(status := Orders.Delivered)),
              deliveryHistory := w.deliveryHistory + [Deliveries.Change(deliveryId, Deliveries.OnTheWay, Deliveries.Delivered, Some(courier))]))
  }

  /** The courier who took a delivery on the way can mark it delivered. */
  lemma OnTheWayThenDelivered(w: World, deliveryId: nat, courier: nat, now: nat)
    requires deliveryId in w.deliveries.rows && courier in w.users.rows && DeliveriesLinked(w)
    requires MarkOnTheWay(w, deliveryId, courier).Ok?
    ensures var w1 := MarkOnTheWay(w, deliveryId, courier).value;
            && DeliveriesLinked(w1)
            && MarkDelivered(w1, deliveryId, courier, now).Ok?
            && |MarkDelivered(w1, deliveryId, courier, now).value.deliveryHistory| == |w.deliveryHistory| + 2
            && MarkDelivered(w1, deliveryId, courier, now).value.history == w.history
  {
    var w1 := MarkOnTheWay(w, deliveryId, courier).value;
    assert w1.deliveries.rows.Keys == w.deliveries.rows.Keys;
    assert w1.orders.rows.Keys == w.orders.rows.Keys;
  }

  /** The direct write ignores the order's state machine: an order that
      was CANCELLED, which `change_status` never leaves, is moved to
      ON_THE_WAY. */
  lemma OnTheWayRevivesCancelledOrder(w: World, deliveryId: nat, courier: nat)
    requires deliveryId in w.deliveries.rows && courier in w.users.rows && DeliveriesLinked(w)
    requires w.users.rows[courier].role == "courier"
    requires w.deliveries.rows[deliveryId].courierId == Some(courier)
    requires w.deliveries.rows[deliveryId].status == Deliveries.Ready
    requires w.orders.rows[w.deliveries.rows[deliveryId].orderId].status == Orders.Cancelled
    ensures MarkOnTheWay(w, deliveryId, courier).Ok?
    ensures var o := w.deliveries.rows[deliveryId].orderId;
            MarkOnTheWay(w, deliveryId, courier).value.orders.rows[o].status == Orders.OnTheWay
            && !Orders.CanTransition(Orders.Cancelled, Orders.OnTheWay)
  {
  }

  /** `cancel_delivery` as written: a DELIVERED delivery is refused; any
      other is saved as CANCELED, but the order write then names a status
      the order enum does not define, the attribute lookup raises and the
      whole call rolls back. No call succeeds. */
  function CancelDeliveryAsWritten(w: World, deliveryId: nat, changedBy: Option<nat>, reason: string, now: nat): (r: Result<World, Error>)
    requires deliveryId in w.deliveries.rows
    ensures w.deliveries.rows[deliveryId].status == Deliveries.Delivered ==> r == Fail(DeliveryValidation)
    ensures w.deliveries.rows[deliveryId].status != Deliveries.Delivered ==> r.Fail? && r.error in {DeliveryValidation, AttributeError}
  {
    var d := w.deliveries.rows[deliveryId];
    if d.status == Deliveries.Delivered then Fail(DeliveryValidation)
    else
      var d1 := d.(status := Deliveries.Canceled, canceledAt := Some(now), isActive := false, note := reason);
      match Deliveries.Save(d1, CourierRole(w, d1), now)
      case Fail(e) => Fail(e)
      case Ok(_) => Fail(AttributeError)
  }

  /** `cancel_delivery` as evidently intended, with the order set to
      CANCELLED: a DELIVERED delivery is refused; otherwise the delivery
      becomes CANCELED, stamped, inactive and annotated with the reason,
      the order's status is overwritten with CANCELLED, and one history
      row (old status -> CANCELED) is written. */
  function CancelDelivery(w: World, deliveryId: nat, changedBy: Option<nat>, reason: string, now: nat): (r: Result<World, Error>)
    requires deliveryId in w.deliveries.rows
    requires DeliveriesLinked(w)
    ensures w.deliveries.rows[deliveryId].status == Deliveries.Delivered ==> r == Fail(DeliveryValidation)
    ensures var d := w.deliveries.rows[deliveryId];
            r.Ok? <==> d.status != Deliveries.Delivered && (d.courierId.Some? ==> CourierRole(w, d) == "courier")
    ensures r.Fail? ==> r.error == DeliveryValidation
    ensures r.Ok? ==>
              var d := w.deliveries.rows[deliveryId];
              && r.value.deliveries == Put(w.deliveries, deliveryId,
                                           d.(status := Deliveries.Canceled, canceledAt := Some(now), isActive := false, note := reason))
              && r.value.orders == Put(w.orders, d.orderId, w.orders.rows[d.orderId].(status := Orders.Cancelled))
              && r.value.deliveryHistory == w.deliveryHistory + [Deliveries.Change(deliveryId, d.status, Deliveries.Canceled, changedBy)]
              && r.value.history == w.history
              && r.value == w.(deliveries := r.value.deliveries, orders := r.value.orders, deliveryHistory := r.value.deliveryHistory)
  {
    var d := w.deliveries.rows[deliveryId];
    if d.status == Deliveries.Delivered then Fail(DeliveryValidation)
    else
      var d1 := d.(status := Deliveries.Canceled, canceledAt := Some(now), isActive := false, note := reason);
      match Deliveries.Save(d1, CourierRole(w, d1), now)
      case Fail(e) => Fail(e)
      case Ok(d') =>
        Ok(w.(deliveries := Put(w.deliveries, deliveryId, d'),
              orders := Put(w.orders, d.orderId, w.orders.rows[d.orderId].(status := Orders.Cancelled)),
              deliveryHistory := w.deliveryHistory + [Deliveries.Change(deliveryId, d.status, Deliveries.Canceled, changedBy)]))
  }

  /** The two versions part exactly where the corrected one succeeds:
      there the version as written raises instead. */
  lemma CancelDeliveryDiscrepancy(w: World, deliveryId: nat, changedBy: Option<nat>, reason: string, now: nat)
    requires deliveryId in w.deliveries.rows && DeliveriesLinked(w)
    ensures CancelDelivery(w, deliveryId, changedBy, reason, now).Ok? ==>
              CancelDeliveryAsWritten(w, deliveryId, changedBy, reason, now) == Fail(AttributeError)
    ensures CancelDelivery(w, deliveryId, changedBy, reason, now).Fail? ==>
              CancelDeliveryAsWritten(w, deliveryId, changedBy, reason, now) == CancelDelivery(w, deliveryId, changedBy, reason, now)
  {
  }

  /** After a corrected cancellation the order has no active delivery, so
      the unique-active constraint holds trivially for it, and the
      delivery can no longer be cancelled, marked, or moved. */
  lemma CancelledDeliveryIsFinal(w: World, deliveryId: nat, changedBy: Option<nat>, reason: string, now: nat, courier: nat)
    requires deliveryId in w.deliveries.rows && DeliveriesLinked(w) && courier in w.users.rows
    requires CancelDelivery(w, deliveryId, changedBy, reason, now).Ok?
    ensures var w1 := CancelDelivery(w, deliveryId, changedBy, reason, now).value;
            && deliveryId in w1.deliveries.rows && courier in w1.users.rows && DeliveriesLinked(w1)
            && !Deliveries.CanCancel(w1.deliveries.rows[deliveryId])
            && MarkOnTheWay(w1, deliveryId, courier).Fail?
            && MarkDelivered(w1, deliveryId, courier, now).Fail?
  {
    var w1 := CancelDelivery(w, deliveryId, changedBy, reason, now).value;
    assert w1.orders.rows.Keys == w.orders.rows.Keys;
  }
}
