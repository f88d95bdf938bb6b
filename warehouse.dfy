/** The star schema the transformation produces: the calendar dimension,
    five entity dimensions (each row a surrogate key plus the attributes,
    natural key first), and six fact tables whose `id` is the source's own
    natural key. */
module Warehouse {
  import opened Nullable
  import opened Source
  import opened Relational

  /** One day of dim_calendar. `date` is the day number (days since
      1970-01-01) of the midnight timestamp pandas stores. */
  datatype CalendarRow = CalendarRow(
    id: int,
    date: int,
    day: int,
    month: int,
    year: int,
    dayName: string,
    monthName: string,
    quarter: int,
    weekNumber: int,
    yearMonth: string,
    isWeekend: bool)

  /** The label dim_product gives a missing category or parent category. */
  const NoCategory: string := "Sin Categoría"

  datatype CustomerDim = CustomerDim(
    customerKey: int,
    email: Cell,
    firstName: Cell,
    lastName: Cell,
    phone: Cell,
    status: Cell,
    createdAt: Cell)

  datatype ChannelDim = ChannelDim(channelKey: int, code: Cell, name: Cell)

  datatype AddressDim = AddressDim(
    addressKey: int,
    line1: Cell,
    line2: Cell,
    city: Cell,
    provinceName: Cell,
    provinceCode: Cell,
    postalCode: Cell,
    countryCode: Cell,
    createdAt: Cell)

  datatype ProductDim = ProductDim(
    productKey: int,
    sku: Cell,
    name: Cell,
    listPrice: Cell,
    status: Cell,
    createdAt: Cell,
    categoryName: string,
    parentCategoryName: string)

  datatype StoreDim = StoreDim(
    storeKey: int,
    name: Cell,
    line: Cell,
    city: Cell,
    provinceName: Cell,
    provinceCode: Cell,
    postalCode: Cell,
    countryCode: Cell,
    createdAt: Cell)

  function CustomerDimKey(c: CustomerDim): int { c.customerKey }
  function ChannelDimKey(c: ChannelDim): int { c.channelKey }
  function AddressDimKey(a: AddressDim): int { a.addressKey }
  function ProductDimKey(p: ProductDim): int { p.productKey }
  function StoreDimKey(s: StoreDim): int { s.storeKey }

  /** fact_sales_order. customer_id and channel_id stay nullable: this
      builder substitutes the -1 sentinel only for the store and addresses. */
  datatype SalesOrderFact = SalesOrderFact(
    id: int,
    customerId: Option<int>,
    channelId: Option<int>,
    storeId: int,
    orderDateId: Option<int>,
    orderTime: string,
    billingAddressId: int,
    shippingAddressId: int,
    statusOrder: Cell,
    currencyCode: Cell,
    subtotal: Cell,
    taxAmount: Cell,
    shippingFee: Cell,
    totalAmount: Cell)

  datatype SalesOrderItemFact = SalesOrderItemFact(
    id: int,
    orderId: Option<int>,
    customerId: int,
    channelId: int,
    storeId: int,
    productId: int,
    orderDateId: Option<int>,
    quantity: Cell,
    unitPrice: Cell,
    discountAmount: Cell,
    lineTotal: Cell)

  datatype PaymentFact = PaymentFact(
    id: int,
    customerId: int,
    billingAddressId: int,
    channelId: int,
    storeId: int,
    paymentMethod: Cell,
    statusPayment: Cell,
    amount: Cell,
    paidAtDateId: Option<int>,
    paidAtTime: string,
    transactionRef: Cell)

  datatype ShipmentFact = ShipmentFact(
    id: int,
    customerId: int,
    shippingAddressId: int,
    channelId: int,
    carrier: Cell,
    shippedAtDateId: Option<int>,
    shippedAtTime: string,
    deliveredAtDateId: Option<int>,
    deliveredAtTime: string,
    trackingNumber: Cell,
    diasDeEntrega: Option<int>)

  datatype WebSessionFact = WebSessionFact(
    id: int,
    customerId: int,
    startedAtDateId: Option<int>,
    startedAtTime: string,
    endedAtDateId: Option<int>,
    endedAtTime: string,
    source: Cell,
    device: Cell)

  datatype NpsResponseFact = NpsResponseFact(
    id: int,
    customerId: int,
    channelId: int,
    respondedAtDateId: Option<int>,
    respondedAtTime: string,
    score: Cell)

  /** One table of the warehouse, as the dictionary holds it. */
  datatype Table =
    | CalendarTable(calendar: seq<CalendarRow>)
    | CustomerTable(customers: seq<Keyed<CustomerDim>>)
    | ProductTable(products: seq<Keyed<ProductDim>>)
    | ChannelTable(channels: seq<Keyed<ChannelDim>>)
    | AddressTable(addresses: seq<Keyed<AddressDim>>)
    | StoreTable(stores: seq<Keyed<StoreDim>>)
    | SalesOrderTable(salesOrders: seq<SalesOrderFact>)
    | SalesOrderItemTable(salesOrderItems: seq<SalesOrderItemFact>)
    | PaymentTable(payments: seq<PaymentFact>)
    | ShipmentTable(shipments: seq<ShipmentFact>)
    | WebSessionTable(webSessions: seq<WebSessionFact>)
    | NpsResponseTable(npsResponses: seq<NpsResponseFact>)

  /** The column names of each table, in the order the builders select them;
      the fields of the row types above follow the same order. */
  function Columns(t: Table): seq<string>
  {
    match t
    case CalendarTable(_) =>
      ["id", "date", "day", "month", "year", "day_name", "month_name", "quarter",
       "week_number", "year_month", "is_weekend"]
    case CustomerTable(_) =>
      ["id", "customer_key", "email", "first_name", "last_name", "phone", "status", "created_at"]
    case ProductTable(_) =>
      ["id", "product_key", "sku", "name", "list_price", "status", "created_at",
       "category_name", "parent_category_name"]
    case ChannelTable(_) => ["id", "channel_key", "code", "name"]
    case AddressTable(_) =>
      ["id", "address_key", "line1", "line2", "city", "province_name", "province_code",
       "postal_code", "country_code", "created_at"]
    case StoreTable(_) =>
      ["id", "store_key", "name", "line", "city", "province_name", "province_code",
       "postal_code", "country_code", "created_at"]
    case SalesOrderTable(_) =>
      ["id", "customer_id", "channel_id", "store_id", "order_date_id", "order_time",
       "billing_address_id", "shipping_address_id", "status_order", "currency_code",
       "subtotal", "tax_amount", "shipping_fee", "total_amount"]
    case SalesOrderItemTable(_) =>
      ["id", "order_id", "customer_id", "channel_id", "store_id", "product_id", "order_date_id",
       "quantity", "unit_price", "discount_amount", "line_total"]
    case PaymentTable(_) =>
      ["id", "customer_id", "billing_address_id", "channel_id", "store_id",
       "method", "status_payment", "amount", "paid_at_date_id", "paid_at_time",
       "transaction_ref"]
    case ShipmentTable(_) =>
      ["id", "customer_id", "shipping_address_id", "channel_id", "carrier",
       "shipped_at_date_id", "shipped_at_time", "delivered_at_date_id", "delivered_at_time",
       "tracking_number", "dias_de_entrega"]
    case WebSessionTable(_) =>
      ["id", "customer_id", "started_at_date_id", "started_at_time",
       "ended_at_date_id", "ended_at_time", "source", "device"]
    case NpsResponseTable(_) =>
      ["id", "customer_id", "channel_id", "responded_at_date_id", "responded_at_time", "score"]
  }
}
