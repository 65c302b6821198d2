/** The delivery record: statuses, validation, save ordering and the
    status predicates (delivery/models.py). */
module Deliveries {
  import opened Wrappers
  import opened Errors
  import opened Tables

  datatype Status = Ready | OnTheWay | Delivered | Canceled

  datatype Delivery = Delivery(
    orderId: nat,
    courierId: Option<nat>,
    status: Status,
    isActive: bool,
    assignedAt: Option<nat>,
    deliveredAt: Option<nat>,
    canceledAt: Option<nat>,
    note: string,
    createdAt: nat)

  /** One `DeliveryStatusHistory` row. */
  datatype Change = Change(deliveryId: nat, oldStatus: Status, newStatus: Status, changedBy: Option<nat>)

  /** A delivery as `objects.create` stores it: READY and active. */
  function NewDelivery(orderId: nat, courierId: Option<nat>, assignedAt: Option<nat>, now: nat): (d: Delivery)
    ensures d.status == Ready && d.isActive
    ensures d.orderId == orderId && d.courierId == courierId && d.assignedAt == assignedAt
    ensures d.deliveredAt.None? && d.canceledAt.None?
  {
    Delivery(orderId, courierId, Ready, true, assignedAt, None, None, "", now)
  }

  /** `Delivery.clean`; `courierRole` is the role of the assigned courier's
      user row. */
  predicate Clean(d: Delivery, courierRole: string) {
    && (d.courierId.Some? ==> courierRole == "courier")
    && (d.status == OnTheWay ==> d.courierId.Some?)
    && (d.status == Delivered ==> d.deliveredAt.Some?)
    && (d.status == Canceled ==> d.canceledAt.Some?)
  }

  /** `Delivery.save`: `full_clean` first, then the timestamp autofill. */
  function Save(d: Delivery, courierRole: string, now: nat): (r: Result<Delivery, Error>)
    ensures r.Ok? <==> Clean(d, courierRole)
    ensures r.Fail? ==> r.error == DeliveryValidation
    ensures r.Ok? ==> r.value == d
  {
    if !Clean(d, courierRole) then Fail(DeliveryValidation)
    else
      var d1 := if d.status == Delivered && d.deliveredAt.None? then d.(deliveredAt := Some(now)) else d;
      var d2 := if d1.status == Canceled && d1.canceledAt.None? then d1.(canceledAt := Some(now)) else d1;
      Ok(d2)
  }

  /** Because validation runs first, the timestamp autofill can never rescue
      a DELIVERED or CANCELED record that lacks its timestamp. */
  lemma AutofillNeverRescues(d: Delivery, courierRole: string, now: nat)
    requires (d.status == Delivered && d.deliveredAt.None?) || (d.status == Canceled && d.canceledAt.None?)
    ensures Save(d, courierRole, now) == Fail(DeliveryValidation)
  {
  }

  /** `can_mark_on_the_way`. */
  predicate CanMarkOnTheWay(d: Delivery) {
    d.status == Ready && d.courierId.Some?
  }

  /** `can_mark_delivered`. */
  predicate CanMarkDelivered(d: Delivery) {
    d.status == OnTheWay
  }

  /** `can_cancel`. */
  predicate CanCancel(d: Delivery) {
    d.status != Delivered && d.status != Canceled
  }

  /** A clean record in each status admits exactly the moves the lifecycle
      READY -> ON_THE_WAY -> DELIVERED (or CANCELED before delivery)
      allows. */
  lemma PredicatesFollowLifecycle(d: Delivery, courierRole: string)
    requires Clean(d, courierRole)
    ensures d.status == OnTheWay ==> CanMarkDelivered(d) && CanCancel(d) && !CanMarkOnTheWay(d)
    ensures d.status == Delivered || d.status == Canceled ==>
              !CanMarkOnTheWay(d) && !CanMarkDelivered(d) && !CanCancel(d)
    ensures d.status == Ready ==> CanCancel(d) && !CanMarkDelivered(d) && (CanMarkOnTheWay(d) <==> d.courierId.Some?)
  {
  }

  type Deliveries = Table<Delivery>

  /** The partial unique constraint: at most one active delivery per
      order. */
  predicate OneActivePerOrder(t: Deliveries) {
    forall j, k ::
      (j in t.rows && k in t.rows && t.rows[j].isActive && t.rows[k].isActive
       && t.rows[j].orderId == t.rows[k].orderId) ==> j == k
  }

  /** The one-to-one `order` field: at most one delivery per order at all. */
  predicate OnePerOrder(t: Deliveries) {
    forall j, k :: j in t.rows && k in t.rows && t.rows[j].orderId == t.rows[k].orderId ==> j == k
  }

  /** The one-to-one field implies the partial constraint. */
  lemma OnePerOrderImpliesOneActive(t: Deliveries)
    requires OnePerOrder(t)
    ensures OneActivePerOrder(t)
  {
  }
}
