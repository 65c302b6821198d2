/** The dashboard's metric counters: the per-day `DailyStats` row and the
    per-product and per-courier performance rows, each bumped by an
    `increment_*` function (dashboard/services.py). Dates are whole days
    since the epoch; a missing row reads as the all-zero row
    `get_or_create` would make. */
module Dashboard {
  import opened Wrappers
  import Orders
  import Payments
  import Deliveries

  const SecondsPerDay: nat := 86400

  /** The calendar date of a clock reading. */
  function DayOf(seconds: nat): nat {
    seconds / SecondsPerDay
  }

  /** `_date_range(days)`: the inclusive span of `days` days ending
      today. */
  function DateRange(days: int, now: nat): (r: (int, int))
    ensures r.1 == DayOf(now)
    ensures r.1 - r.0 + 1 == days
  {
    var today := DayOf(now);
    (today - (days - 1), today)
  }

  datatype DailyStats = DailyStats(totalOrders: nat, completedOrders: nat, cancelledOrders: nat, totalRevenue: int)

  const ZeroStats := DailyStats(0, 0, 0, 0)

  type Daily = map<nat, DailyStats>

  /** `DailyStats.objects.get_or_create(date=day)` as read. */
  function StatsFor(m: Daily, day: nat): DailyStats {
    if day in m then m[day] else ZeroStats
  }

  /** `increment_order_created_metrics`. */
  function OrderCreated(m: Daily, o: Orders.Order): (r: Daily)
    ensures StatsFor(r, DayOf(o.createdAt)).totalOrders == StatsFor(m, DayOf(o.createdAt)).totalOrders + 1
    ensures StatsFor(r, DayOf(o.createdAt)).(totalOrders := StatsFor(m, DayOf(o.createdAt)).totalOrders)
            == StatsFor(m, DayOf(o.createdAt))
    ensures forall d :: d != DayOf(o.createdAt) ==> StatsFor(r, d) == StatsFor(m, d)
  {
    var day := DayOf(o.createdAt);
    var s := StatsFor(m, day);
    m[day := s.(totalOrders := s.totalOrders + 1)]
  }

  /** `increment_order_status_metrics`; `before` is the status before the
      save, absent when the caller gives none. */
  function OrderStatusChanged(m: Daily, o: Orders.Order, before: Option<Orders.Status>): (r: Daily)
    ensures var day := DayOf(o.createdAt);
            && StatsFor(r, day).completedOrders
               == StatsFor(m, day).completedOrders + (if o.status == Orders.Delivered && before != Some(Orders.Delivered) then 1 else 0)
            && StatsFor(r, day).cancelledOrders
               == StatsFor(m, day).cancelledOrders + (if o.status == Orders.Cancelled && before != Some(Orders.Cancelled) then 1 else 0)
            && StatsFor(r, day).totalOrders == StatsFor(m, day).totalOrders
            && StatsFor(r, day).totalRevenue == StatsFor(m, day).totalRevenue
    ensures forall d :: d != DayOf(o.createdAt) ==> StatsFor(r, d) == StatsFor(m, d)
  {
    var day := DayOf(o.createdAt);
    var s := StatsFor(m, day);
    var s1 := if o.status == Orders.Delivered && before != Some(Orders.Delivered)
              then s.(completedOrders := s.completedOrders + 1) else s;
    var s2 := if o.status == Orders.Cancelled && before != Some(Orders.Cancelled)
              then s1.(cancelledOrders := s1.cancelledOrders + 1) else s1;
    m[day := s2]
  }

  /** Re-saving an order in the status it already had changes no counter,
      and a counter moves only on entry into its status. */
  lemma StatusMetricsCountEntriesOnly(m: Daily, o: Orders.Order, before: Orders.Status)
    ensures before == o.status ==> forall d :: StatsFor(OrderStatusChanged(m, o, Some(before)), d) == StatsFor(m, d)
    ensures o.status !in {Orders.Delivered, Orders.Cancelled} ==>
              forall d :: StatsFor(OrderStatusChanged(m, o, Some(before)), d) == StatsFor(m, d)
  {
  }

  /** `increment_revenue_metrics`; the day is that of the payment's order.
      The amount is added only on a payment's entry into SUCCESS. */
  function RevenueChanged(m: Daily, p: Payments.Payment, orderCreatedAt: nat, before: Option<Payments.Status>): (r: Daily)
    ensures p.status != Payments.Success || before == Some(Payments.Success) ==> r == m
    ensures p.status == Payments.Success && before != Some(Payments.Success) ==>
              var day := DayOf(orderCreatedAt);
              StatsFor(r, day) == StatsFor(m, day).(totalRevenue := StatsFor(m, day).totalRevenue + p.amount)
              && forall d :: d != day ==> StatsFor(r, d) == StatsFor(m, d)
  {
    if p.status != Payments.Success then m
    else if before == Some(Payments.Success) then m
    else
      var day := DayOf(orderCreatedAt);
      var s := StatsFor(m, day);
      m[day := s.(totalRevenue := s.totalRevenue + p.amount)]
  }

  /** Counting the same successful payment twice, the second time with its
      previous status SUCCESS, adds its amount once. */
  lemma RevenueCountedOnce(m: Daily, p: Payments.Payment, orderCreatedAt: nat, before: Option<Payments.Status>)
    ensures RevenueChanged(RevenueChanged(m, p, orderCreatedAt, before), p, orderCreatedAt, Some(Payments.Success))
            == RevenueChanged(m, p, orderCreatedAt, before)
  {
  }

  datatype ProductPerformance = ProductPerformance(totalSold: nat, totalRevenue: int, lastSoldAt: Option<nat>)

  type ProductPerf = map<nat, ProductPerformance>

  function PerfFor(m: ProductPerf, product: nat): ProductPerformance {
    if product in m then m[product] else ProductPerformance(0, 0, None)
  }

  /** `increment_product_performance`: one update per order item. */
  function ProductSold(m: ProductPerf, items: seq<Orders.Item>, now: nat): ProductPerf
    decreases |items|
  {
    if items == [] then m
    else
      var it := items[0];
      var p := PerfFor(m, it.productId);
      var m1 := m[it.productId := ProductPerformance(p.totalSold + it.quantity,
                                                       p.totalRevenue + it.price * it.quantity, Some(now))];
      ProductSold(m1, items[1..], now)
  }

  /** The frozen revenue of `product` among `items`. */
  function RevenueOf(items: seq<Orders.Item>, product: nat): int {
    if items == [] then 0
    else (if items[0].productId == product then Orders.Subtotal(items[0]) else 0) + RevenueOf(items[1..], product)
  }

  /** Each product's counters rise by exactly its units and its frozen
      revenue in the order; products not in the order are untouched. */
  lemma {:induction false} ProductSoldAddsPerProduct(m: ProductPerf, items: seq<Orders.Item>, now: nat, product: nat)
    ensures PerfFor(ProductSold(m, items, now), product).totalSold == PerfFor(m, product).totalSold + Orders.QuantityOf(items, product)
    ensures PerfFor(ProductSold(m, items, now), product).totalRevenue == PerfFor(m, product).totalRevenue + RevenueOf(items, product)
    ensures (forall i :: 0 <= i < |items| ==> items[i].productId != product) ==>
              PerfFor(ProductSold(m, items, now), product) == PerfFor(m, product)
    decreases |items|
  {
    if items != [] {
      var it := items[0];
      var p := PerfFor(m, it.productId);
      var m1 := m[it.productId := ProductPerformance(p.totalSold + it.quantity,
                                                       p.totalRevenue + it.price * it.quantity, Some(now))];
      ProductSoldAddsPerProduct(m1, items[1..], now, product);
      if (forall i :: 0 <= i < |items| ==> items[i].productId != product) {
        assert forall i :: 0 <= i < |items[1..]| ==> items[1..][i].productId != product by {
          forall i | 0 <= i < |items[1..]| ensures items[1..][i].productId != product {
            assert items[1..][i] == items[i + 1];
          }
        }
        assert items[0].productId != product;
      }
    }
  }

  datatype CourierPerformance = CourierPerformance(totalDeliveries: nat, successfulDeliveries: nat)

  type CourierPerf = map<nat, CourierPerformance>

  function CourierFor(m: CourierPerf, courier: nat): CourierPerformance {
    if courier in m then m[courier] else CourierPerformance(0, 0)
  }

  /** `increment_courier_performance`. */
  function DeliveryCompleted(m: CourierPerf, d: Deliveries.Delivery): (r: CourierPerf)
    ensures d.status != Deliveries.Delivered || d.courierId.None? ==> r == m
    ensures d.status == Deliveries.Delivered && d.courierId.Some? ==>
              var c := d.courierId.value;
              CourierFor(r, c).totalDeliveries == CourierFor(m, c).totalDeliveries + 1
              && CourierFor(r, c).successfulDeliveries == CourierFor(m, c).successfulDeliveries + 1
              && forall other :: other != c ==> CourierFor(r, other) == CourierFor(m, other)
  {
    if d.status != Deliveries.Delivered then m
    else if d.courierId.None? then m
    else
      var c := CourierFor(m, d.courierId.value);
      m[d.courierId.value := CourierPerformance(c.totalDeliveries + 1, c.successfulDeliveries + 1)]
  }
}
