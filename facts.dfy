/** The six fact builders. Each keeps one row per source record (joined with
    its order header where the fact needs the header's keys), renames the
    record's own key to `id`, resolves its timestamps to calendar surrogate
    keys and "HH:MM:SS" times, and writes -1 for a missing relational key. */
module Facts {
  import opened Nullable
  import opened Civil
  import opened Source
  import opened Relational
  import opened Warehouse
  import opened KeyResolution

  /** fillna(-1).astype(int) of a relational key: the key itself, or -1
      where it is missing. Since source ids are never negative, -1 then
      marks exactly the missing keys. */
  function Sentinel(key: Option<int>): (k: int)
    ensures key.None? ==> k == -1
    ensures key.Some? ==> k == key.value
    ensures (key.Some? ==> key.value >= 0) ==> (k == -1 <==> key.None?)
  {
    GetOr(key, -1)
  }

  /** _get_date_id of one timestamp column of a table. */
  function DateIdsOf<T>(rows: seq<T>, cell: T -> Cell, cal: seq<CalendarRow>, parse: string -> Option<Timestamp>): (ids: seq<Option<int>>)
    ensures |ids| >= |rows|
    ensures KeysUnique(cal, CalendarDateKey) ==>
              forall i :: 0 <= i < |rows| ==> ResolvesTo(NormalizedDay(cell(rows[i]), parse), cal, ids[i])
  {
    var cells := Column(rows, cell);
    assert forall i :: 0 <= i < |rows| ==> cells[i] == cell(rows[i]);
    DateIdColumn(cells, parse, cal)
  }

  /** _get_time of one timestamp column of a table. */
  function TimesOf<T>(rows: seq<T>, cell: T -> Cell, parse: string -> Option<Timestamp>): (times: seq<string>)
    ensures |times| == |rows|
    ensures forall i :: 0 <= i < |rows| ==> ClockOf(times[i], cell(rows[i]), parse)
  {
    var cells := Column(rows, cell);
    assert forall i :: 0 <= i < |rows| ==> cells[i] == cell(rows[i]);
    TimeColumn(cells, parse)
  }

  // The order header columns the item, payment and shipment facts carry.

  function OrderCustomer(o: SalesOrder): Option<int> { o.customerId }
  function OrderChannel(o: SalesOrder): Option<int> { o.channelId }
  function OrderStore(o: SalesOrder): Option<int> { o.storeId }
  function OrderBilling(o: SalesOrder): Option<int> { o.billingAddressId }
  function OrderShipping(o: SalesOrder): Option<int> { o.shippingAddressId }

  /** A header key after the left merge: null when no order matched. */
  function HeaderKey(header: Option<SalesOrder>, field: SalesOrder -> Option<int>): (k: Option<int>)
    ensures header.None? ==> k.None?
    ensures header.Some? ==> k == field(header.value)
  {
    if header.Some? then field(header.value) else None
  }

  /** The header's order_date after the left merge: null when no order matched. */
  function HeaderDate(header: Option<SalesOrder>): (c: Cell)
    ensures header.None? ==> c.None?
    ensures header.Some? ==> c == header.value.orderDate
  {
    if header.Some? then header.value.orderDate else None
  }

  // ---------------------------------------------------------------------
  // fact_sales_order

  function OrderDateCell(o: SalesOrder): Cell { o.orderDate }

  function SalesOrderFactOf(o: SalesOrder, dateId: Option<int>, time: string): SalesOrderFact
  {
    SalesOrderFact(o.orderId, o.customerId, o.channelId, Sentinel(o.storeId), dateId, time,
                   Sentinel(o.billingAddressId), Sentinel(o.shippingAddressId), o.status,
                   o.currencyCode, o.subtotal, o.taxAmount, o.shippingFee, o.totalAmount)
  }

  /** What a fact_sales_order row must hold for its order: the order id as
      `id`, customer and channel as they are (still nullable), -1 for a
      missing store or address, the order's time of day, and the status and
      amounts passed through. */
  predicate SalesOrderFactAgrees(f: SalesOrderFact, o: SalesOrder, parse: string -> Option<Timestamp>)
  {
    && f.id == o.orderId
    && f.customerId == o.customerId && f.channelId == o.channelId
    && f.storeId == Sentinel(o.storeId)
    && f.billingAddressId == Sentinel(o.billingAddressId)
    && f.shippingAddressId == Sentinel(o.shippingAddressId)
    && ClockOf(f.orderTime, o.orderDate, parse)
    && f.statusOrder == o.status && f.currencyCode == o.currencyCode
    && f.subtotal == o.subtotal && f.taxAmount == o.taxAmount
    && f.shippingFee == o.shippingFee && f.totalAmount == o.totalAmount
  }

  /** create_fact_sales_order: one row per order, in order; each agrees with
      its order, and with distinct calendar dates its order_date_id is the
      calendar key of the order's day. */
  function CreateFactSalesOrder(orders: seq<SalesOrder>, cal: seq<CalendarRow>, parse: string -> Option<Timestamp>): (facts: seq<SalesOrderFact>)
    ensures |facts| == |orders|
    ensures forall i :: 0 <= i < |orders| ==> SalesOrderFactAgrees(facts[i], orders[i], parse)
    ensures KeysUnique(cal, CalendarDateKey) ==>
              forall i :: 0 <= i < |orders| ==> ResolvesTo(NormalizedDay(orders[i].orderDate, parse), cal, facts[i].orderDateId)
  {
    var dateIds := DateIdsOf(orders, OrderDateCell, cal, parse);
    var times := TimesOf(orders, OrderDateCell, parse);
    seq(|orders|, i requires 0 <= i < |orders| => SalesOrderFactOf(orders[i], dateIds[i], times[i]))
  }

  // ---------------------------------------------------------------------
  // fact_sales_order_item

  function ItemHeaderDate(p: (SalesOrderItem, Option<SalesOrder>)): Cell { HeaderDate(p.1) }

  function SalesOrderItemFactOf(p: (SalesOrderItem, Option<SalesOrder>), dateId: Option<int>): SalesOrderItemFact
  {
    var (item, header) := p;
    SalesOrderItemFact(item.orderItemId, item.orderId,
                       Sentinel(HeaderKey(header, OrderCustomer)), Sentinel(HeaderKey(header, OrderChannel)),
                       Sentinel(HeaderKey(header, OrderStore)), Sentinel(item.productId), dateId,
                       item.quantity, item.unitPrice, item.discountAmount, item.lineTotal)
  }

  /** What a fact_sales_order_item row must hold for its item and the item's
      order header (None when no order matched): the item id as `id`, the
      order id as it is, the header's customer, channel and store and the
      item's product each with -1 when missing, the measures passed through. */
  predicate SalesOrderItemFactAgrees(f: SalesOrderItemFact, item: SalesOrderItem, header: Option<SalesOrder>)
  {
    && f.id == item.orderItemId && f.orderId == item.orderId
    && f.customerId == Sentinel(HeaderKey(header, OrderCustomer))
    && f.channelId == Sentinel(HeaderKey(header, OrderChannel))
    && f.storeId == Sentinel(HeaderKey(header, OrderStore))
    && f.productId == Sentinel(item.productId)
    && f.quantity == item.quantity && f.unitPrice == item.unitPrice
    && f.discountAmount == item.discountAmount && f.lineTotal == item.lineTotal
  }

  /** The item facts of the merged rows, one per merged row: each agrees
      with its item and header, and with distinct calendar dates its
      order_date_id is the calendar key of the header's order day. */
  function SalesOrderItemFacts(joined: seq<(SalesOrderItem, Option<SalesOrder>)>, cal: seq<CalendarRow>,
                               parse: string -> Option<Timestamp>): (facts: seq<SalesOrderItemFact>)
    ensures |facts| == |joined|
    ensures forall i :: 0 <= i < |joined| ==> SalesOrderItemFactAgrees(facts[i], joined[i].0, joined[i].1)
    ensures KeysUnique(cal, CalendarDateKey) ==>
              forall i :: 0 <= i < |joined| ==> ResolvesTo(NormalizedDay(HeaderDate(joined[i].1), parse), cal, facts[i].orderDateId)
  {
    var dateIds := DateIdsOf(joined, ItemHeaderDate, cal, parse);
    seq(|joined|, i requires 0 <= i < |joined| => SalesOrderItemFactOf(joined[i], dateIds[i]))
  }

  /** create_fact_sales_order_item: the items left-merged with their order
      headers. The merge never drops an item. */
  function CreateFactSalesOrderItem(items: seq<SalesOrderItem>, orders: seq<SalesOrder>, cal: seq<CalendarRow>,
                                    parse: string -> Option<Timestamp>): (facts: seq<SalesOrderItemFact>)
    ensures |facts| >= |items|
  {
    SalesOrderItemFacts(LeftJoin(items, orders, ItemOrder, OrderKey), cal, parse)
  }

  /** The merge never drops an item: every item has a fact agreeing with it
      and with a header that is its own order, or none when no order has
      its id. */
  lemma SalesOrderItemFactsKeepEveryItem(items: seq<SalesOrderItem>, orders: seq<SalesOrder>, cal: seq<CalendarRow>,
                                         parse: string -> Option<Timestamp>, i: int)
    requires 0 <= i < |items|
    ensures var facts := CreateFactSalesOrderItem(items, orders, cal, parse);
            exists k, h :: 0 <= k < |facts| && SalesOrderItemFactAgrees(facts[k], items[i], h)
                           && (h.Some? ==> h.value in orders && OrderKey(h.value) == ItemOrder(items[i]))
                           && (h.None? ==> forall o :: o in orders ==> OrderKey(o) != ItemOrder(items[i]))
  {
    var joined := LeftJoin(items, orders, ItemOrder, OrderKey);
    LeftJoinPositionOf(items, orders, ItemOrder, OrderKey, i);
    var k :| 0 <= k < |joined| && joined[k].0 == items[i];
    assert joined[k] in joined;
    var facts := CreateFactSalesOrderItem(items, orders, cal, parse);
    assert facts[k] == SalesOrderItemFacts(joined, cal, parse)[k];
    var h := joined[k].1;
    assert h.Some? ==> h.value in orders && OrderKey(h.value) == ItemOrder(items[i]);
    assert h.None? ==> forall o :: o in orders ==> OrderKey(o) != ItemOrder(items[i]);
    assert 0 <= k < |facts| && SalesOrderItemFactAgrees(facts[k], items[i], h);
  }

  /** With distinct order ids, fact_sales_order_item has one row per item,
      in item order, each agreeing with its item and the order it names; with
      distinct calendar dates too, order_date_id is the calendar key of that
      order's day, null when the order is missing. */
  lemma SalesOrderItemFactsFollowItems(items: seq<SalesOrderItem>, orders: seq<SalesOrder>, cal: seq<CalendarRow>,
                                       parse: string -> Option<Timestamp>)
    requires KeysUnique(orders, OrderKey)
    ensures var facts := CreateFactSalesOrderItem(items, orders, cal, parse);
            && |facts| == |items|
            && (forall i :: 0 <= i < |items| ==>
                  SalesOrderItemFactAgrees(facts[i], items[i], Find(orders, OrderKey, items[i].orderId)))
            && (KeysUnique(cal, CalendarDateKey) ==>
                  forall i :: 0 <= i < |items| ==>
                    ResolvesTo(NormalizedDay(HeaderDate(Find(orders, OrderKey, items[i].orderId)), parse), cal,
                               facts[i].orderDateId))
  {
    LeftJoinOneToOne(items, orders, ItemOrder, OrderKey);
  }

  /** An item whose order is missing keeps its row, with -1 for the
      customer, channel and store it would have taken from the header, and
      no order date. */
  lemma OrphanItemGetsSentinels(items: seq<SalesOrderItem>, orders: seq<SalesOrder>, cal: seq<CalendarRow>,
                                parse: string -> Option<Timestamp>, i: int)
    requires KeysUnique(orders, OrderKey) && KeysUnique(cal, CalendarDateKey)
    requires 0 <= i < |items|
    requires forall o :: o in orders ==> Some(o.orderId) != items[i].orderId
    ensures var facts := CreateFactSalesOrderItem(items, orders, cal, parse);
            && |facts| == |items|
            && facts[i].id == items[i].orderItemId
            && facts[i].customerId == -1 && facts[i].channelId == -1 && facts[i].storeId == -1
            && facts[i].orderDateId.None?
  {
    SalesOrderItemFactsFollowItems(items, orders, cal, parse);
    assert Find(orders, OrderKey, items[i].orderId).None? by {
      forall o | o in orders ensures OrderKey(o) != items[i].orderId {
      }
    }
  }

  // ---------------------------------------------------------------------
  // fact_payment

  function PaidAtCell(p: (Payment, Option<SalesOrder>)): Cell { p.0.paidAt }

  function PaymentFactOf(p: (Payment, Option<SalesOrder>), dateId: Option<int>, time: string): PaymentFact
  {
    var (payment, header) := p;
    PaymentFact(payment.paymentId,
                Sentinel(HeaderKey(header, OrderCustomer)), Sentinel(HeaderKey(header, OrderBilling)),
                Sentinel(HeaderKey(header, OrderChannel)), Sentinel(HeaderKey(header, OrderStore)),
                payment.paymentMethod, payment.status, payment.amount, dateId, time, payment.transactionRef)
  }

  /** What a fact_payment row must hold for its payment and the payment's
      order header: the payment id as `id`, the header's customer, billing
      address, channel and store each with -1 when missing, the payment's
      time of day, and its method, status, amount and reference. */
  predicate PaymentFactAgrees(f: PaymentFact, payment: Payment, header: Option<SalesOrder>, parse: string -> Option<Timestamp>)
  {
    && f.id == payment.paymentId
    && f.customerId == Sentinel(HeaderKey(header, OrderCustomer))
    && f.billingAddressId == Sentinel(HeaderKey(header, OrderBilling))
    && f.channelId == Sentinel(HeaderKey(header, OrderChannel))
    && f.storeId == Sentinel(HeaderKey(header, OrderStore))
    && ClockOf(f.paidAtTime, payment.paidAt, parse)
    && f.paymentMethod == payment.paymentMethod && f.statusPayment == payment.status
    && f.amount == payment.amount && f.transactionRef == payment.transactionRef
  }

  /** The payment facts of the merged rows, one per merged row: each agrees
      with its payment and header, and with distinct calendar dates its
      paid_at_date_id is the calendar key of the payment's day. */
  function PaymentFacts(joined: seq<(Payment, Option<SalesOrder>)>, cal: seq<CalendarRow>,
                        parse: string -> Option<Timestamp>): (facts: seq<PaymentFact>)
    ensures |facts| == |joined|
    ensures forall i :: 0 <= i < |joined| ==> PaymentFactAgrees(facts[i], joined[i].0, joined[i].1, parse)
    ensures KeysUnique(cal, CalendarDateKey) ==>
              forall i :: 0 <= i < |joined| ==> ResolvesTo(NormalizedDay(joined[i].0.paidAt, parse), cal, facts[i].paidAtDateId)
  {
    var dateIds := DateIdsOf(joined, PaidAtCell, cal, parse);
    var times := TimesOf(joined, PaidAtCell, parse);
    seq(|joined|, i requires 0 <= i < |joined| => PaymentFactOf(joined[i], dateIds[i], times[i]))
  }

  /** create_fact_payment: the payments left-merged with their order
      headers. The merge never drops a payment. */
  function CreateFactPayment(payments: seq<Payment>, orders: seq<SalesOrder>, cal: seq<CalendarRow>,
                             parse: string -> Option<Timestamp>): (facts: seq<PaymentFact>)
    ensures |facts| >= |payments|
  {
    PaymentFacts(LeftJoin(payments, orders, PaymentOrder, OrderKey), cal, parse)
  }

  /** The merge never drops a payment: every payment has a fact agreeing
      with it and with a header that is its own order, or none when no
      order has its id. */
  lemma PaymentFactsKeepEveryPayment(payments: seq<Payment>, orders: seq<SalesOrder>, cal: seq<CalendarRow>,
                                     parse: string -> Option<Timestamp>, i: int)
    requires 0 <= i < |payments|
    ensures var facts := CreateFactPayment(payments, orders, cal, parse);
            exists k, h :: 0 <= k < |facts| && PaymentFactAgrees(facts[k], payments[i], h, parse)
                           && (h.Some? ==> h.value in orders && OrderKey(h.value) == PaymentOrder(payments[i]))
                           && (h.None? ==> forall o :: o in orders ==> OrderKey(o) != PaymentOrder(payments[i]))
  {
    var joined := LeftJoin(payments, orders, PaymentOrder, OrderKey);
    LeftJoinPositionOf(payments, orders, PaymentOrder, OrderKey, i);
    var k :| 0 <= k < |joined| && joined[k].0 == payments[i];
    assert joined[k] in joined;
    var facts := CreateFactPayment(payments, orders, cal, parse);
    assert facts[k] == PaymentFacts(joined, cal, parse)[k];
    var h := joined[k].1;
    assert h.Some? ==> h.value in orders && OrderKey(h.value) == PaymentOrder(payments[i]);
    assert h.None? ==> forall o :: o in orders ==> OrderKey(o) != PaymentOrder(payments[i]);
    assert 0 <= k < |facts| && PaymentFactAgrees(facts[k], payments[i], h, parse);
  }

  /** With distinct order ids, fact_payment has one row per payment, in
      payment order, each agreeing with its payment and the order it names;
      with distinct calendar dates too, paid_at_date_id is the calendar key
      of the payment's day. */
  lemma PaymentFactsFollowPayments(payments: seq<Payment>, orders: seq<SalesOrder>, cal: seq<CalendarRow>,
                                   parse: string -> Option<Timestamp>)
    requires KeysUnique(orders, OrderKey)
    ensures var facts := CreateFactPayment(payments, orders, cal, parse);
            && |facts| == |payments|
            && (forall i :: 0 <= i < |payments| ==>
                  PaymentFactAgrees(facts[i], payments[i], Find(orders, OrderKey, payments[i].orderId), parse))
            && (KeysUnique(cal, CalendarDateKey) ==>
                  forall i :: 0 <= i < |payments| ==>
                    ResolvesTo(NormalizedDay(payments[i].paidAt, parse), cal, facts[i].paidAtDateId))
  {
    LeftJoinOneToOne(payments, orders, PaymentOrder, OrderKey);
  }

  // ---------------------------------------------------------------------
  // fact_shipment

  /** (delivered_at - shipped_at).dt.days: the whole days of the elapsed
      time, rounded down as Timedelta.days does, or null when either end is
      missing or unparseable. A delivery no earlier than its shipment never
      counts negative days. */
  function LeadDays(shipped: Option<Timestamp>, delivered: Option<Timestamp>): (days: Option<int>)
    ensures days.Some? <==> shipped.Some? && delivered.Some?
    ensures days.Some? ==>
              var elapsed := EpochNanos(delivered.value) - EpochNanos(shipped.value);
              days.value * NanosPerDay <= elapsed < (days.value + 1) * NanosPerDay
    ensures days.Some? && EpochNanos(shipped.value) <= EpochNanos(delivered.value) ==> days.value >= 0
  {
    if shipped.Some? && delivered.Some? then
      Some((EpochNanos(delivered.value) - EpochNanos(shipped.value)) / NanosPerDay)
    else
      None
  }

  /** In calendar terms the lead time is the difference of the two days,
      less one when the delivery's time of day is earlier than the
      shipment's: a parcel shipped at 18:00 and delivered at 09:00 the next
      day took zero whole days. */
  lemma LeadDaysCountsWholeDays(shipped: Timestamp, delivered: Timestamp)
    ensures LeadDays(Some(shipped), Some(delivered)) ==
              Some(delivered.day - shipped.day - (if delivered.nanoOfDay < shipped.nanoOfDay then 1 else 0))
  {
    var q := delivered.day - shipped.day - (if delivered.nanoOfDay < shipped.nanoOfDay then 1 else 0);
    var elapsed := EpochNanos(delivered) - EpochNanos(shipped);
    var r := LeadDays(Some(shipped), Some(delivered)).value;
    assert elapsed == (delivered.day - shipped.day) * NanosPerDay + (delivered.nanoOfDay - shipped.nanoOfDay);
    assert q * NanosPerDay <= elapsed < (q + 1) * NanosPerDay;
    FloorIsUnique(elapsed, r, q);
  }

  /** Two integers that both bracket x between multiples of a day are equal. */
  lemma FloorIsUnique(x: int, a: int, b: int)
    requires a * NanosPerDay <= x < (a + 1) * NanosPerDay
    requires b * NanosPerDay <= x < (b + 1) * NanosPerDay
    ensures a == b
  {
  }

  function ShippedAtCell(p: (Shipment, Option<SalesOrder>)): Cell { p.0.shippedAt }
  function DeliveredAtCell(p: (Shipment, Option<SalesOrder>)): Cell { p.0.deliveredAt }

  function ShipmentFactOf(p: (Shipment, Option<SalesOrder>), shippedId: Option<int>, shippedTime: string,
                          deliveredId: Option<int>, deliveredTime: string, parse: string -> Option<Timestamp>): ShipmentFact
  {
    var (shipment, header) := p;
    ShipmentFact(shipment.shipmentId,
                 Sentinel(HeaderKey(header, OrderCustomer)), Sentinel(HeaderKey(header, OrderShipping)),
                 Sentinel(HeaderKey(header, OrderChannel)), shipment.carrier,
                 shippedId, shippedTime, deliveredId, deliveredTime, shipment.trackingNumber,
                 LeadDays(ParseCell(shipment.shippedAt, parse), ParseCell(shipment.deliveredAt, parse)))
  }

  /** What a fact_shipment row must hold for its shipment and the shipment's
      order header: the shipment id as `id`, the header's customer, shipping
      address and channel each with -1 when missing, both times of day, the
      lead time in days, and the carrier and tracking number. */
  predicate ShipmentFactAgrees(f: ShipmentFact, shipment: Shipment, header: Option<SalesOrder>, parse: string -> Option<Timestamp>)
  {
    && f.id == shipment.shipmentId
    && f.customerId == Sentinel(HeaderKey(header, OrderCustomer))
    && f.shippingAddressId == Sentinel(HeaderKey(header, OrderShipping))
    && f.channelId == Sentinel(HeaderKey(header, OrderChannel))
    && ClockOf(f.shippedAtTime, shipment.shippedAt, parse)
    && ClockOf(f.deliveredAtTime, shipment.deliveredAt, parse)
    && f.diasDeEntrega == LeadDays(ParseCell(shipment.shippedAt, parse), ParseCell(shipment.deliveredAt, parse))
    && f.carrier == shipment.carrier && f.trackingNumber == shipment.trackingNumber
  }

  /** The shipment facts of the merged rows, one per merged row: each agrees
      with its shipment and header, and with distinct calendar dates both
      date keys are the calendar keys of the shipment's days. */
  function ShipmentFacts(joined: seq<(Shipment, Option<SalesOrder>)>, cal: seq<CalendarRow>,
                         parse: string -> Option<Timestamp>): (facts: seq<ShipmentFact>)
    ensures |facts| == |joined|
    ensures forall i :: 0 <= i < |joined| ==> ShipmentFactAgrees(facts[i], joined[i].0, joined[i].1, parse)
    ensures KeysUnique(cal, CalendarDateKey) ==>
              forall i :: 0 <= i < |joined| ==>
                && ResolvesTo(NormalizedDay(joined[i].0.shippedAt, parse), cal, facts[i].shippedAtDateId)
                && ResolvesTo(NormalizedDay(joined[i].0.deliveredAt, parse), cal, facts[i].deliveredAtDateId)
  {
    var shippedIds := DateIdsOf(joined, ShippedAtCell, cal, parse);
    var deliveredIds := DateIdsOf(joined, DeliveredAtCell, cal, parse);
    var shippedTimes := TimesOf(joined, ShippedAtCell, parse);
    var deliveredTimes := TimesOf(joined, DeliveredAtCell, parse);
    seq(|joined|, i requires 0 <= i < |joined| =>
      ShipmentFactOf(joined[i], shippedIds[i], shippedTimes[i], deliveredIds[i], deliveredTimes[i], parse))
  }

  /** create_fact_shipment: the shipments left-merged with their order
      headers. The merge never drops a shipment. */
  function CreateFactShipment(shipments: seq<Shipment>, orders: seq<SalesOrder>, cal: seq<CalendarRow>,
                              parse: string -> Option<Timestamp>): (facts: seq<ShipmentFact>)
    ensures |facts| >= |shipments|
  {
    ShipmentFacts(LeftJoin(shipments, orders, ShipmentOrder, OrderKey), cal, parse)
  }

  /** The merge never drops a shipment: every shipment has a fact agreeing
      with it and with a header that is its own order, or none when no
      order has its id. */
  lemma ShipmentFactsKeepEveryShipment(shipments: seq<Shipment>, orders: seq<SalesOrder>, cal: seq<CalendarRow>,
                                       parse: string -> Option<Timestamp>, i: int)
    requires 0 <= i < |shipments|
    ensures var facts := CreateFactShipment(shipments, orders, cal, parse);
            exists k, h :: 0 <= k < |facts| && ShipmentFactAgrees(facts[k], shipments[i], h, parse)
                           && (h.Some? ==> h.value in orders && OrderKey(h.value) == ShipmentOrder(shipments[i]))
                           && (h.None? ==> forall o :: o in orders ==> OrderKey(o) != ShipmentOrder(shipments[i]))
  {
    var joined := LeftJoin(shipments, orders, ShipmentOrder, OrderKey);
    LeftJoinPositionOf(shipments, orders, ShipmentOrder, OrderKey, i);
    var k :| 0 <= k < |joined| && joined[k].0 == shipments[i];
    assert joined[k] in joined;
    var facts := CreateFactShipment(shipments, orders, cal, parse);
    assert facts[k] == ShipmentFacts(joined, cal, parse)[k];
    var h := joined[k].1;
    assert h.Some? ==> h.value in orders && OrderKey(h.value) == ShipmentOrder(shipments[i]);
    assert h.None? ==> forall o :: o in orders ==> OrderKey(o) != ShipmentOrder(shipments[i]);
    assert 0 <= k < |facts| && ShipmentFactAgrees(facts[k], shipments[i], h, parse);
  }

  /** With distinct order ids, fact_shipment has one row per shipment, in
      shipment order, each agreeing with its shipment and the order it
      names; with distinct calendar dates too, both date keys are the
      calendar keys of the shipment's days. */
  lemma ShipmentFactsFollowShipments(shipments: seq<Shipment>, orders: seq<SalesOrder>, cal: seq<CalendarRow>,
                                     parse: string -> Option<Timestamp>)
    requires KeysUnique(orders, OrderKey)
    ensures var facts := CreateFactShipment(shipments, orders, cal, parse);
            && |facts| == |shipments|
            && (forall i :: 0 <= i < |shipments| ==>
                  ShipmentFactAgrees(facts[i], shipments[i], Find(orders, OrderKey, shipments[i].orderId), parse))
            && (KeysUnique(cal, CalendarDateKey) ==>
                  forall i :: 0 <= i < |shipments| ==>
                    && ResolvesTo(NormalizedDay(shipments[i].shippedAt, parse), cal, facts[i].shippedAtDateId)
                    && ResolvesTo(NormalizedDay(shipments[i].deliveredAt, parse), cal, facts[i].deliveredAtDateId))
  {
    LeftJoinOneToOne(shipments, orders, ShipmentOrder, OrderKey);
  }

  // ---------------------------------------------------------------------
  // fact_web_session

  function StartedAtCell(w: WebSession): Cell { w.startedAt }
  function EndedAtCell(w: WebSession): Cell { w.endedAt }

  function WebSessionFactOf(w: WebSession, startedId: Option<int>, startedTime: string,
                            endedId: Option<int>, endedTime: string): WebSessionFact
  {
    WebSessionFact(w.sessionId, Sentinel(w.customerId), startedId, startedTime, endedId, endedTime, w.source, w.device)
  }

  /** What a fact_web_session row must hold for its session: the session id
      as `id`, -1 for a missing customer, both times of day, and the source
      and device passed through. */
  predicate WebSessionFactAgrees(f: WebSessionFact, w: WebSession, parse: string -> Option<Timestamp>)
  {
    && f.id == w.sessionId
    && f.customerId == Sentinel(w.customerId)
    && ClockOf(f.startedAtTime, w.startedAt, parse)
    && ClockOf(f.endedAtTime, w.endedAt, parse)
    && f.source == w.source && f.device == w.device
  }

  /** create_fact_web_session: one row per session, in order; each agrees
      with its session, and with distinct calendar dates both date keys are
      the calendar keys of the session's days. */
  function CreateFactWebSession(sessions: seq<WebSession>, cal: seq<CalendarRow>, parse: string -> Option<Timestamp>): (facts: seq<WebSessionFact>)
    ensures |facts| == |sessions|
    ensures forall i :: 0 <= i < |sessions| ==> WebSessionFactAgrees(facts[i], sessions[i], parse)
    ensures KeysUnique(cal, CalendarDateKey) ==>
              forall i :: 0 <= i < |sessions| ==>
                && ResolvesTo(NormalizedDay(sessions[i].startedAt, parse), cal, facts[i].startedAtDateId)
                && ResolvesTo(NormalizedDay(sessions[i].endedAt, parse), cal, facts[i].endedAtDateId)
  {
    var startedIds := DateIdsOf(sessions, StartedAtCell, cal, parse);
    var endedIds := DateIdsOf(sessions, EndedAtCell, cal, parse);
    var startedTimes := TimesOf(sessions, StartedAtCell, parse);
    var endedTimes := TimesOf(sessions, EndedAtCell, parse);
    seq(|sessions|, i requires 0 <= i < |sessions| =>
      WebSessionFactOf(sessions[i], startedIds[i], startedTimes[i], endedIds[i], endedTimes[i]))
  }

  // ---------------------------------------------------------------------
  // fact_nps_response

  function RespondedAtCell(n: NpsResponse): Cell { n.respondedAt }

  function NpsResponseFactOf(n: NpsResponse, dateId: Option<int>, time: string): NpsResponseFact
  {
    NpsResponseFact(n.npsId, Sentinel(n.customerId), Sentinel(n.channelId), dateId, time, n.score)
  }

  /** create_fact_nps_response: one row per response, in order, with the
      response id as `id`, -1 for a missing customer or channel, the time of
      day, the score passed through, and with distinct calendar dates the
      date key the calendar key of the response's day. */
  function CreateFactNpsResponse(responses: seq<NpsResponse>, cal: seq<CalendarRow>, parse: string -> Option<Timestamp>): (facts: seq<NpsResponseFact>)
    ensures |facts| == |responses|
    ensures forall i :: 0 <= i < |responses| ==>
              && facts[i].id == responses[i].npsId
              && facts[i].customerId == Sentinel(responses[i].customerId)
              && facts[i].channelId == Sentinel(responses[i].channelId)
              && ClockOf(facts[i].respondedAtTime, responses[i].respondedAt, parse)
              && facts[i].score == responses[i].score
    ensures KeysUnique(cal, CalendarDateKey) ==>
              forall i :: 0 <= i < |responses| ==>
                ResolvesTo(NormalizedDay(responses[i].respondedAt, parse), cal, facts[i].respondedAtDateId)
  {
    var dateIds := DateIdsOf(responses, RespondedAtCell, cal, parse);
    var times := TimesOf(responses, RespondedAtCell, parse);
    seq(|responses|, i requires 0 <= i < |responses| => NpsResponseFactOf(responses[i], dateIds[i], times[i]))
  }
}
