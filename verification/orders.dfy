/** Orders: the status machine, order items with frozen prices, totals and
    the status-history row (orders/models.py). Money is in tiyin. */
module Orders {
  import opened Wrappers
  import opened Errors

  datatype Status =
    | Draft
    | AwaitingPrescription
    | AwaitingPayment
    | Paid
    | Preparing
    | ReadyForDelivery
    | OnTheWay
    | Delivered
    | Cancelled

  /** `Order.ALLOWED_TRANSITIONS.get(status, [])`. */
  function Allowed(s: Status): seq<Status> {
    match s
    case Draft => [AwaitingPrescription, AwaitingPayment, Cancelled]
    case AwaitingPrescription => [AwaitingPayment, Cancelled]
    case AwaitingPayment => [Paid, Cancelled]
    case Paid => [Preparing]
    case Preparing => [ReadyForDelivery]
    case ReadyForDelivery => [OnTheWay]
    case OnTheWay => [Delivered]
    case Delivered => []
    case Cancelled => []
  }

  predicate CanTransition(from: Status, to: Status) {
    to in Allowed(from)
  }

  /** No status lists itself, and nothing leaves DELIVERED or CANCELLED. */
  lemma NoSelfOrTerminalExit(s: Status, t: Status)
    ensures !CanTransition(s, s)
    ensures s == Delivered || s == Cancelled ==> !CanTransition(s, t)
  {
  }

  /** The position of a status along the lifecycle; CANCELLED comes last. */
  function Rank(s: Status): nat {
    match s
    case Draft => 0
    case AwaitingPrescription => 1
    case AwaitingPayment => 2
    case Paid => 3
    case Preparing => 4
    case ReadyForDelivery => 5
    case OnTheWay => 6
    case Delivered => 7
    case Cancelled => 8
  }

  /** Every allowed transition moves forward, so the lifecycle has no
      cycles. */
  lemma TransitionMovesForward(from: Status, to: Status)
    requires CanTransition(from, to)
    ensures Rank(from) < Rank(to)
  {
  }

  /** A run of statuses in which each step is allowed. */
  predicate IsRun(run: seq<Status>) {
    forall i :: 0 < i < |run| ==> CanTransition(run[i - 1], run[i])
  }

  /** A run never revisits a status: it is at most nine statuses long and
      ends strictly after it starts. */
  lemma {:induction false} RunsAreShort(run: seq<Status>)
    requires |run| >= 1 && IsRun(run)
    ensures Rank(run[|run| - 1]) >= Rank(run[0]) + |run| - 1
    ensures |run| <= 9
  {
    if |run| > 1 {
      var init := run[..|run| - 1];
      assert IsRun(init) by {
        forall i | 0 < i < |init| ensures CanTransition(init[i - 1], init[i]) {
          assert init[i - 1] == run[i - 1] && init[i] == run[i];
        }
      }
      RunsAreShort(init);
      TransitionMovesForward(run[|run| - 2], run[|run| - 1]);
    }
  }

  /** An order line; `price` is frozen when the line is created. */
  datatype Item = Item(productId: nat, quantity: nat, price: int)

  /** `OrderItem.subtotal`: the frozen price times the quantity. */
  function Subtotal(i: Item): int {
    i.price * i.quantity
  }

  /** The aggregate `Sum(quantity * price)` over an order's items, 0 for
      none. */
  function Total(items: seq<Item>): int {
    if items == [] then 0 else Subtotal(items[0]) + Total(items[1..])
  }

  lemma {:induction false} TotalAppend(items: seq<Item>, x: Item)
    ensures Total(items + [x]) == Total(items) + Subtotal(x)
  {
    if items != [] {
      assert (items + [x])[1..] == items[1..] + [x];
      TotalAppend(items[1..], x);
    } else {
      assert items + [x] == [x];
    }
  }

  lemma {:induction false} TotalConcat(a: seq<Item>, b: seq<Item>)
    ensures Total(a + b) == Total(a) + Total(b)
  {
    if a != [] {
      assert (a + b)[1..] == a[1..] + b;
      TotalConcat(a[1..], b);
    } else {
      assert a + b == b;
    }
  }

  lemma TotalRemoveAt(items: seq<Item>, i: nat)
    requires i < |items|
    ensures Total(items[..i] + items[i + 1..]) == Total(items) - Subtotal(items[i])
  {
    assert items == items[..i] + ([items[i]] + items[i + 1..]);
    TotalConcat(items[..i], [items[i]] + items[i + 1..]);
    TotalConcat(items[..i], items[i + 1..]);
    assert Total([items[i]] + items[i + 1..]) == Subtotal(items[i]) + Total(items[i + 1..]) by {
      assert ([items[i]] + items[i + 1..])[1..] == items[i + 1..];
    }
  }

  /** The units of `product` among `items`. */
  function QuantityOf(items: seq<Item>, product: nat): nat {
    if items == [] then 0
    else (if items[0].productId == product then items[0].quantity else 0) + QuantityOf(items[1..], product)
  }

  datatype Order = Order(
    userId: nat,
    status: Status,
    total: int,
    address: string,
    needsPrescription: bool,
    courierId: Option<nat>,
    items: seq<Item>,
    createdAt: nat)

  /** One `OrderStatusHistory` row. */
  datatype StatusChange = StatusChange(orderId: nat, from: Status, to: Status, changedBy: Option<nat>)

  /** `Order.recalculate_total`. */
  function RecalculateTotal(o: Order): (r: Order)
    ensures r.total == Total(o.items)
    ensures o.items == [] ==> r.total == 0
    ensures r.(total := o.total) == o
  {
    o.(total := Total(o.items))
  }

  /** The price `OrderItem.save` stores: a missing or zero price is
      replaced by the product's current price. */
  function EffectivePrice(given: Option<int>, productPrice: int): (p: int)
    ensures given.Some? && given.value != 0 ==> p == given.value
    ensures given.None? || given.value == 0 ==> p == productPrice
  {
    if given.None? || given.value == 0 then productPrice else given.value
  }

  /** `OrderItem.save` of a new line, followed by the order's
      `recalculate_total`. */
  function SaveNewItem(o: Order, productId: nat, quantity: nat, price: Option<int>, productPrice: int): (r: Order)
    ensures r.items == o.items + [Item(productId, quantity, EffectivePrice(price, productPrice))]
    ensures o.total == Total(o.items) ==> r.total == o.total + quantity * EffectivePrice(price, productPrice)
    ensures r.(items := o.items, total := o.total) == o
  {
    var item := Item(productId, quantity, EffectivePrice(price, productPrice));
    TotalAppend(o.items, item);
    RecalculateTotal(o.(items := o.items + [item]))
  }

  /** `OrderItem.delete` of line `i`, followed by `recalculate_total`. */
  function DeleteItem(o: Order, i: nat): (r: Order)
    requires i < |o.items|
    ensures r.items == o.items[..i] + o.items[i + 1..]
    ensures o.total == Total(o.items) ==> r.total == o.total - Subtotal(o.items[i])
    ensures r.(items := o.items, total := o.total) == o
  {
    TotalRemoveAt(o.items, i);
    RecalculateTotal(o.(items := o.items[..i] + o.items[i + 1..]))
  }

  /** `Order.change_status` on the order row alone: the transition must be
      in the table; the history row it writes is `HistoryRow`. */
  function ChangeStatus(o: Order, to: Status): (r: Result<Order, Error>)
    ensures r.Ok? <==> CanTransition(o.status, to)
    ensures r.Ok? ==> r.value == o.(status := to)
    ensures r.Fail? ==> r.error == IllegalTransition
  {
    if to !in Allowed(o.status) then Fail(IllegalTransition) else Ok(o.(status := to))
  }
}
