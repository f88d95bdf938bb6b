/** transform_all_data: the calendar first, then the five entity dimensions,
    then the six facts, every fact resolving its dates against that one
    calendar. Missing input (the extraction step's None) gives None. */
module Transform {
  import opened Nullable
  import opened Civil
  import opened Source
  import opened Relational
  import opened Warehouse
  import opened KeyResolution
  import opened CalendarDimension
  import opened Dimensions
  import opened Facts

  /** The names of the twelve warehouse tables. */
  const TableNames: set<string> := {
    "dim_calendar", "dim_customer", "dim_product", "dim_channel", "dim_address", "dim_store",
    "fact_sales_order", "fact_sales_order_item", "fact_payment", "fact_shipment",
    "fact_web_session", "fact_nps_response"
  }

  /** The dictionary of the twelve tables, each under its name. */
  function Assemble(calendar: Table, customer: Table, product: Table, channel: Table, address: Table, store: Table,
                    salesOrder: Table, salesOrderItem: Table, payment: Table, shipment: Table,
                    webSession: Table, npsResponse: Table): (dw: map<string, Table>)
    ensures dw.Keys == TableNames
    ensures dw["dim_calendar"] == calendar && dw["dim_customer"] == customer
    ensures dw["dim_product"] == product && dw["dim_channel"] == channel
    ensures dw["dim_address"] == address && dw["dim_store"] == store
    ensures dw["fact_sales_order"] == salesOrder && dw["fact_sales_order_item"] == salesOrderItem
    ensures dw["fact_payment"] == payment && dw["fact_shipment"] == shipment
    ensures dw["fact_web_session"] == webSession && dw["fact_nps_response"] == npsResponse
  {
    map[
      "dim_calendar" := calendar, "dim_customer" := customer, "dim_product" := product,
      "dim_channel" := channel, "dim_address" := address, "dim_store" := store,
      "fact_sales_order" := salesOrder, "fact_sales_order_item" := salesOrderItem,
      "fact_payment" := payment, "fact_shipment" := shipment,
      "fact_web_session" := webSession, "fact_nps_response" := npsResponse
    ]
  }

  /** The dictionary of warehouse tables built from the raw tables: the
      calendar, the five entity dimensions, and the six facts, every fact
      resolving its dates against that calendar. */
  function WarehouseTables(data: SourceData, parse: string -> Option<Timestamp>): (dw: map<string, Table>)
    ensures dw.Keys == TableNames
    ensures dw["dim_calendar"] == CalendarTable(CreateDimCalendar(data, parse))
    ensures dw["fact_sales_order"] == SalesOrderTable(CreateFactSalesOrder(data.salesOrder, CreateDimCalendar(data, parse), parse))
  {
    var cal := CreateDimCalendar(data, parse);
    Assemble(
      CalendarTable(cal),
      CustomerTable(CreateDimCustomer(data.customer)),
      ProductTable(CreateDimProduct(data.product, data.productCategory)),
      ChannelTable(CreateDimChannel(data.channel)),
      AddressTable(CreateDimAddress(data.address, data.province)),
      StoreTable(CreateDimStore(data.store, data.address, data.province)),
      SalesOrderTable(CreateFactSalesOrder(data.salesOrder, cal, parse)),
      SalesOrderItemTable(CreateFactSalesOrderItem(data.salesOrderItem, data.salesOrder, cal, parse)),
      PaymentTable(CreateFactPayment(data.payment, data.salesOrder, cal, parse)),
      ShipmentTable(CreateFactShipment(data.shipment, data.salesOrder, cal, parse)),
      WebSessionTable(CreateFactWebSession(data.webSession, cal, parse)),
      NpsResponseTable(CreateFactNpsResponse(data.npsResponse, cal, parse)))
  }

  /** transform_all_data: None for no input; otherwise the dictionary,
      filled one table at a time, dimensions before facts. */
  method TransformAllData(data: Option<SourceData>, parse: string -> Option<Timestamp>)
    returns (tables: Option<map<string, Table>>)
    ensures data.None? <==> tables.None?
    ensures data.Some? ==> tables.value == WarehouseTables(data.value, parse)
    ensures data.Some? ==> tables.value.Keys == TableNames
  {
    if data.None? {
      return None;
    }
    var d := data.value;
    var cal := CreateDimCalendar(d, parse);
    var calendar := CalendarTable(cal);
    var customer := CustomerTable(CreateDimCustomer(d.customer));
    var product := ProductTable(CreateDimProduct(d.product, d.productCategory));
    var channel := ChannelTable(CreateDimChannel(d.channel));
    var address := AddressTable(CreateDimAddress(d.address, d.province));
    var store := StoreTable(CreateDimStore(d.store, d.address, d.province));
    var salesOrder := SalesOrderTable(CreateFactSalesOrder(d.salesOrder, cal, parse));
    var salesOrderItem := SalesOrderItemTable(CreateFactSalesOrderItem(d.salesOrderItem, d.salesOrder, cal, parse));
    var payment := PaymentTable(CreateFactPayment(d.payment, d.salesOrder, cal, parse));
    var shipment := ShipmentTable(CreateFactShipment(d.shipment, d.salesOrder, cal, parse));
    var webSession := WebSessionTable(CreateFactWebSession(d.webSession, cal, parse));
    var npsResponse := NpsResponseTable(CreateFactNpsResponse(d.npsResponse, cal, parse));
    var dw: map<string, Table> := map[];
    dw := dw["dim_calendar" := calendar];
    dw := dw["dim_customer" := customer];
    dw := dw["dim_product" := product];
    dw := dw["dim_channel" := channel];
    dw := dw["dim_address" := address];
    dw := dw["dim_store" := store];
    dw := dw["fact_sales_order" := salesOrder];
    dw := dw["fact_sales_order_item" := salesOrderItem];
    dw := dw["fact_payment" := payment];
    dw := dw["fact_shipment" := shipment];
    dw := dw["fact_web_session" := webSession];
    dw := dw["fact_nps_response" := npsResponse];
    FilledInOrder(calendar, customer, product, channel, address, store,
                  salesOrder, salesOrderItem, payment, shipment, webSession, npsResponse);
    return Some(dw);
  }

  /** Filling an empty dictionary one table at a time, in the order
      transform_all_data does, gives the dictionary of the twelve tables. */
  lemma FilledInOrder(calendar: Table, customer: Table, product: Table, channel: Table, address: Table, store: Table,
                      salesOrder: Table, salesOrderItem: Table, payment: Table, shipment: Table,
                      webSession: Table, npsResponse: Table)
    ensures map[]["dim_calendar" := calendar]["dim_customer" := customer]["dim_product" := product]
                 ["dim_channel" := channel]["dim_address" := address]["dim_store" := store]
                 ["fact_sales_order" := salesOrder]["fact_sales_order_item" := salesOrderItem]
                 ["fact_payment" := payment]["fact_shipment" := shipment]
                 ["fact_web_session" := webSession]["fact_nps_response" := npsResponse]
            == Assemble(calendar, customer, product, channel, address, store,
                        salesOrder, salesOrderItem, payment, shipment, webSession, npsResponse)
  {
  }

  /** A date key that resolves against the built calendar points at one of
      its rows: it lies between 1 and the number of calendar rows. */
  lemma ResolvedKeyInCalendar(data: SourceData, parse: string -> Option<Timestamp>, day: Option<int>, fk: Option<int>)
    requires ResolvesTo(day, CreateDimCalendar(data, parse), fk)
    requires fk.Some?
    ensures 1 <= fk.value <= |CreateDimCalendar(data, parse)|
  {
    var cal := CreateDimCalendar(data, parse);
    var r :| r in cal && r.date == day.value && r.id == fk.value;
    var i :| 0 <= i < |cal| && cal[i] == r;
  }

  /** A value of the nine collected columns resolves against the built
      calendar exactly when it parses, and then to the row of its day. */
  lemma CollectedValueResolves(data: SourceData, parse: string -> Option<Timestamp>, k: int, fk: Option<int>)
    requires 0 <= k < |CollectedCells(data)|
    requires ResolvesTo(NormalizedDay(CollectedCells(data)[k], parse), CreateDimCalendar(data, parse), fk)
    ensures fk.Some? <==> ParseCell(CollectedCells(data)[k], parse).Some?
    ensures fk.Some? ==>
              var days := CollectDays(CollectedCells(data), parse);
              days != [] && fk.value == ParseCell(CollectedCells(data)[k], parse).value.day - Min(days) + 1
  {
    var cal := CreateDimCalendar(data, parse);
    var day := NormalizedDay(CollectedCells(data)[k], parse);
    if day.Some? {
      CollectedDayHasRow(data, parse, k);
      var days := CollectDays(CollectedCells(data), parse);
      UniqueRowKey(cal, day.value, day.value - Min(days) + 1, fk);
    }
  }

  /** `fk` is set exactly when `cell` parses, and then names the calendar
      row (row fk - 1) whose date is the cell's day. */
  predicate KeyNamesDay(fk: Option<int>, cal: seq<CalendarRow>, cell: Cell, parse: string -> Option<Timestamp>)
  {
    && (fk.Some? <==> ParseCell(cell, parse).Some?)
    && (fk.Some? ==> 1 <= fk.value <= |cal| && cal[fk.value - 1].date == ParseCell(cell, parse).value.day)
  }

  /** When a day has exactly one calendar row, with id `id`, the lookup of
      that day gives `id`. */
  lemma UniqueRowKey(cal: seq<CalendarRow>, z: int, id: int, fk: Option<int>)
    requires exists r :: r in cal && r.date == z && r.id == id
    requires forall r1, r2 :: r1 in cal && r2 in cal && r1.date == z && r2.date == z ==> r1 == r2
    requires ResolvesTo(Some(z), cal, fk)
    ensures fk == Some(id)
  {
    var row :| row in cal && row.date == z && row.id == id;
    var r :| r in cal && r.date == z && r.id == fk.value;
    assert r == row;
  }

  /** A collected value's date key, phrased for the fact tables: it is set
      exactly when the value parses, and then names the calendar row whose
      date is the value's day. */
  lemma CollectedKeyNamesItsDay(data: SourceData, parse: string -> Option<Timestamp>, k: int, cell: Cell, fk: Option<int>)
    requires 0 <= k < |CollectedCells(data)| && CollectedCells(data)[k] == cell
    requires ResolvesTo(NormalizedDay(cell, parse), CreateDimCalendar(data, parse), fk)
    ensures KeyNamesDay(fk, CreateDimCalendar(data, parse), cell, parse)
  {
    CollectedValueResolves(data, parse, k, fk);
    if fk.Some? {
      ResolvedKeyInCalendar(data, parse, NormalizedDay(cell, parse), fk);
    }
  }

  /** The i-th order's order_date is the i-th collected value. */
  lemma OrderDateIsCollected(data: SourceData, i: int)
    requires 0 <= i < |data.salesOrder|
    ensures i < |CollectedCells(data)| && CollectedCells(data)[i] == data.salesOrder[i].orderDate
  {
    var head := Column(data.salesOrder, (o: SalesOrder) => o.orderDate);
    assert CollectedCells(data)[i] == head[i];
  }

  /** Every order's order_date_id is set exactly when its order_date parses,
      and is then the calendar key of its day: order dates are among the
      values the calendar is built from, so none falls outside it. */
  lemma OrderDateAlwaysResolves(data: SourceData, parse: string -> Option<Timestamp>, i: int)
    requires 0 <= i < |data.salesOrder|
    ensures var facts := CreateFactSalesOrder(data.salesOrder, CreateDimCalendar(data, parse), parse);
            KeyNamesDay(facts[i].orderDateId, CreateDimCalendar(data, parse), data.salesOrder[i].orderDate, parse)
  {
    var cal := CreateDimCalendar(data, parse);
    var facts := CreateFactSalesOrder(data.salesOrder, cal, parse);
    CalendarDatesUnique(data, parse);
    OrderDateIsCollected(data, i);
    CollectedKeyNamesItsDay(data, parse, i, data.salesOrder[i].orderDate, facts[i].orderDateId);
  }

  /** ended_at is not among the collected columns, so a session's
      ended_at_date_id is set exactly when its end parses and the end's day
      lies within the calendar's span; an end after the latest collected
      day gets a null key. */
  lemma EndedAtResolvesWithinSpan(data: SourceData, parse: string -> Option<Timestamp>, i: int)
    requires 0 <= i < |data.webSession|
    ensures var facts := CreateFactWebSession(data.webSession, CreateDimCalendar(data, parse), parse);
            var end := ParseCell(data.webSession[i].endedAt, parse);
            var days := CollectDays(CollectedCells(data), parse);
            facts[i].endedAtDateId.Some? <==> end.Some? && days != [] && Min(days) <= end.value.day <= Max(days)
  {
    var cal := CreateDimCalendar(data, parse);
    CalendarDatesUnique(data, parse);
    var days := CollectDays(CollectedCells(data), parse);
    var end := NormalizedDay(data.webSession[i].endedAt, parse);
    if end.Some? {
      if days != [] {
        CalendarSpan(data, parse, end.value);
      } else {
        assert cal == [];
      }
    }
  }

  /** The i-th response's responded_at is a collected value: the third
      collected column, after the order dates and the session starts. */
  lemma RespondedAtIsCollected(data: SourceData, i: int)
    requires 0 <= i < |data.npsResponse|
    ensures var k := |data.salesOrder| + |data.webSession| + i;
            k < |CollectedCells(data)| && CollectedCells(data)[k] == data.npsResponse[i].respondedAt
  {
    var a := Column(data.salesOrder, (o: SalesOrder) => o.orderDate);
    var b := Column(data.webSession, (w: WebSession) => w.startedAt);
    var c := Column(data.npsResponse, (n: NpsResponse) => n.respondedAt);
    var k := |data.salesOrder| + |data.webSession| + i;
    assert (a + b + c)[k] == c[i];
    assert CollectedCells(data)[k] == (a + b + c)[k];
  }

  /** Every response's responded_at_date_id is set exactly when its
      responded_at parses, and then names the calendar row of its day. */
  lemma RespondedAtAlwaysResolves(data: SourceData, parse: string -> Option<Timestamp>, i: int)
    requires 0 <= i < |data.npsResponse|
    ensures var facts := CreateFactNpsResponse(data.npsResponse, CreateDimCalendar(data, parse), parse);
            KeyNamesDay(facts[i].respondedAtDateId, CreateDimCalendar(data, parse), data.npsResponse[i].respondedAt, parse)
  {
    var cal := CreateDimCalendar(data, parse);
    var facts := CreateFactNpsResponse(data.npsResponse, cal, parse);
    var cell := data.npsResponse[i].respondedAt;
    CalendarDatesUnique(data, parse);
    assert ResolvesTo(NormalizedDay(cell, parse), cal, facts[i].respondedAtDateId);
    RespondedAtIsCollected(data, i);
    CollectedKeyNamesItsDay(data, parse, |data.salesOrder| + |data.webSession| + i, cell, facts[i].respondedAtDateId);
  }

  /** The i-th session's started_at is a collected value: the second
      collected column, after the order dates. */
  lemma StartedAtIsCollected(data: SourceData, i: int)
    requires 0 <= i < |data.webSession|
    ensures var k := |data.salesOrder| + i;
            k < |CollectedCells(data)| && CollectedCells(data)[k] == data.webSession[i].startedAt
  {
    var a := Column(data.salesOrder, (o: SalesOrder) => o.orderDate);
    var b := Column(data.webSession, (w: WebSession) => w.startedAt);
    var k := |data.salesOrder| + i;
    assert (a + b)[k] == b[i];
    assert CollectedCells(data)[k] == (a + b)[k];
  }

  /** Every session's started_at_date_id is set exactly when its
      started_at parses, and then names the calendar row of its day. */
  lemma StartedAtAlwaysResolves(data: SourceData, parse: string -> Option<Timestamp>, i: int)
    requires 0 <= i < |data.webSession|
    ensures var facts := CreateFactWebSession(data.webSession, CreateDimCalendar(data, parse), parse);
            KeyNamesDay(facts[i].startedAtDateId, CreateDimCalendar(data, parse), data.webSession[i].startedAt, parse)
  {
    var cal := CreateDimCalendar(data, parse);
    var facts := CreateFactWebSession(data.webSession, cal, parse);
    var cell := data.webSession[i].startedAt;
    CalendarDatesUnique(data, parse);
    assert ResolvesTo(NormalizedDay(cell, parse), cal, facts[i].startedAtDateId);
    StartedAtIsCollected(data, i);
    CollectedKeyNamesItsDay(data, parse, |data.salesOrder| + i, cell, facts[i].startedAtDateId);
  }

  /** The i-th payment's paid_at is a collected value: the fourth collected
      column. */
  lemma PaidAtIsCollected(data: SourceData, i: int)
    requires 0 <= i < |data.payment|
    ensures var k := |data.salesOrder| + |data.webSession| + |data.npsResponse| + i;
            k < |CollectedCells(data)| && CollectedCells(data)[k] == data.payment[i].paidAt
  {
    var a := Column(data.salesOrder, (o: SalesOrder) => o.orderDate)
             + Column(data.webSession, (w: WebSession) => w.startedAt)
             + Column(data.npsResponse, (n: NpsResponse) => n.respondedAt);
    var d := Column(data.payment, (p: Payment) => p.paidAt);
    var k := |a| + i;
    assert (a + d)[k] == d[i];
    assert CollectedCells(data)[k] == (a + d)[k];
  }

  /** Every payment fact's paid_at_date_id is set exactly when the paid_at
      of its merged payment parses, and then names the calendar row of its
      day. */
  lemma PaidAtAlwaysResolves(data: SourceData, parse: string -> Option<Timestamp>, k: int)
    requires 0 <= k < |CreateFactPayment(data.payment, data.salesOrder, CreateDimCalendar(data, parse), parse)|
    ensures var joined := LeftJoin(data.payment, data.salesOrder, PaymentOrder, OrderKey);
            var facts := CreateFactPayment(data.payment, data.salesOrder, CreateDimCalendar(data, parse), parse);
            k < |joined| && KeyNamesDay(facts[k].paidAtDateId, CreateDimCalendar(data, parse), joined[k].0.paidAt, parse)
  {
    var cal := CreateDimCalendar(data, parse);
    var joined := LeftJoin(data.payment, data.salesOrder, PaymentOrder, OrderKey);
    var facts := CreateFactPayment(data.payment, data.salesOrder, cal, parse);
    var cell := joined[k].0.paidAt;
    CalendarDatesUnique(data, parse);
    assert ResolvesTo(NormalizedDay(cell, parse), cal, facts[k].paidAtDateId);
    assert joined[k] in joined;
    PaidAtNamesItsDay(data, parse, joined[k].0, facts[k].paidAtDateId);
  }

  /** A payment's paid_at is collected, so its resolved key names its day. */
  lemma PaidAtNamesItsDay(data: SourceData, parse: string -> Option<Timestamp>, p: Payment, fk: Option<int>)
    requires p in data.payment
    requires ResolvesTo(NormalizedDay(p.paidAt, parse), CreateDimCalendar(data, parse), fk)
    ensures KeyNamesDay(fk, CreateDimCalendar(data, parse), p.paidAt, parse)
  {
    var i :| 0 <= i < |data.payment| && data.payment[i] == p;
    PaidAtIsCollected(data, i);
    CollectedKeyNamesItsDay(data, parse, |data.salesOrder| + |data.webSession| + |data.npsResponse| + i, p.paidAt, fk);
  }

  /** The i-th shipment's shipped_at and delivered_at are collected values:
      the fifth and sixth collected columns. */
  lemma ShipmentDatesAreCollected(data: SourceData, i: int)
    requires 0 <= i < |data.shipment|
    ensures var k := |data.salesOrder| + |data.webSession| + |data.npsResponse| + |data.payment| + i;
            && k + |data.shipment| < |CollectedCells(data)|
            && CollectedCells(data)[k] == data.shipment[i].shippedAt
            && CollectedCells(data)[k + |data.shipment|] == data.shipment[i].deliveredAt
  {
    var a := Column(data.salesOrder, (o: SalesOrder) => o.orderDate)
             + Column(data.webSession, (w: WebSession) => w.startedAt)
             + Column(data.npsResponse, (n: NpsResponse) => n.respondedAt)
             + Column(data.payment, (p: Payment) => p.paidAt);
    var e := Column(data.shipment, (s: Shipment) => s.shippedAt);
    var f := Column(data.shipment, (s: Shipment) => s.deliveredAt);
    var k := |a| + i;
    assert (a + e + f)[k] == e[i];
    assert (a + e + f)[k + |e|] == f[i];
    assert CollectedCells(data)[k] == (a + e + f)[k];
    assert CollectedCells(data)[k + |e|] == (a + e + f)[k + |e|];
  }

  /** Every shipment fact's shipped_at_date_id and delivered_at_date_id are
      set exactly when the matching timestamp of its merged shipment parses,
      and then name the calendar row of that day. */
  lemma ShipmentDatesAlwaysResolve(data: SourceData, parse: string -> Option<Timestamp>, k: int)
    requires 0 <= k < |CreateFactShipment(data.shipment, data.salesOrder, CreateDimCalendar(data, parse), parse)|
    ensures var joined := LeftJoin(data.shipment, data.salesOrder, ShipmentOrder, OrderKey);
            var facts := CreateFactShipment(data.shipment, data.salesOrder, CreateDimCalendar(data, parse), parse);
            && k < |joined|
            && KeyNamesDay(facts[k].shippedAtDateId, CreateDimCalendar(data, parse), joined[k].0.shippedAt, parse)
            && KeyNamesDay(facts[k].deliveredAtDateId, CreateDimCalendar(data, parse), joined[k].0.deliveredAt, parse)
  {
    var cal := CreateDimCalendar(data, parse);
    var joined := LeftJoin(data.shipment, data.salesOrder, ShipmentOrder, OrderKey);
    var facts := CreateFactShipment(data.shipment, data.salesOrder, cal, parse);
    var shipped, delivered := joined[k].0.shippedAt, joined[k].0.deliveredAt;
    CalendarDatesUnique(data, parse);
    assert ResolvesTo(NormalizedDay(shipped, parse), cal, facts[k].shippedAtDateId);
    assert ResolvesTo(NormalizedDay(delivered, parse), cal, facts[k].deliveredAtDateId);
    assert joined[k] in joined;
    ShipmentDatesNameTheirDays(data, parse, joined[k].0, facts[k].shippedAtDateId, facts[k].deliveredAtDateId);
  }

  /** A shipment's two timestamps are collected, so their resolved keys
      name their days. */
  lemma ShipmentDatesNameTheirDays(data: SourceData, parse: string -> Option<Timestamp>, s: Shipment,
                                   shippedKey: Option<int>, deliveredKey: Option<int>)
    requires s in data.shipment
    requires ResolvesTo(NormalizedDay(s.shippedAt, parse), CreateDimCalendar(data, parse), shippedKey)
    requires ResolvesTo(NormalizedDay(s.deliveredAt, parse), CreateDimCalendar(data, parse), deliveredKey)
    ensures KeyNamesDay(shippedKey, CreateDimCalendar(data, parse), s.shippedAt, parse)
    ensures KeyNamesDay(deliveredKey, CreateDimCalendar(data, parse), s.deliveredAt, parse)
  {
    var i :| 0 <= i < |data.shipment| && data.shipment[i] == s;
    ShipmentDatesAreCollected(data, i);
    var base := |data.salesOrder| + |data.webSession| + |data.npsResponse| + |data.payment| + i;
    CollectedKeyNamesItsDay(data, parse, base, s.shippedAt, shippedKey);
    CollectedKeyNamesItsDay(data, parse, base + |data.shipment|, s.deliveredAt, deliveredKey);
  }
}
