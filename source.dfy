/** The raw relational tables the transformation reads, one record type per
    table, as the extraction step hands them over: a dictionary of data
    frames keyed by table name ('sales_order', 'customer', ...).

    Cells the transformation only carries through (names, codes, statuses,
    monetary amounts, the text of timestamps) are `Cell`s: the cell's text,
    or None for a null. Identifiers are integers; a primary key is never
    null, a foreign key may be. */
module Source {
  import opened Nullable

  /** A cell passed through verbatim: its text, or None for a null. */
  type Cell = Option<string>

  datatype SalesOrder = SalesOrder(
    orderId: int,
    customerId: Option<int>,
    channelId: Option<int>,
    storeId: Option<int>,
    orderDate: Cell,
    billingAddressId: Option<int>,
    shippingAddressId: Option<int>,
    status: Cell,
    currencyCode: Cell,
    subtotal: Cell,
    taxAmount: Cell,
    shippingFee: Cell,
    totalAmount: Cell)

  datatype SalesOrderItem = SalesOrderItem(
    orderItemId: int,
    orderId: Option<int>,
    productId: Option<int>,
    quantity: Cell,
    unitPrice: Cell,
    discountAmount: Cell,
    lineTotal: Cell)

  datatype Payment = Payment(
    paymentId: int,
    orderId: Option<int>,
    paymentMethod: Cell,
    status: Cell,
    amount: Cell,
    paidAt: Cell,
    transactionRef: Cell)

  datatype Shipment = Shipment(
    shipmentId: int,
    orderId: Option<int>,
    carrier: Cell,
    shippedAt: Cell,
    deliveredAt: Cell,
    trackingNumber: Cell)

  datatype WebSession = WebSession(
    sessionId: int,
    customerId: Option<int>,
    startedAt: Cell,
    endedAt: Cell,
    source: Cell,
    device: Cell)

  datatype NpsResponse = NpsResponse(
    npsId: int,
    customerId: Option<int>,
    channelId: Option<int>,
    respondedAt: Cell,
    score: Cell)

  datatype Customer = Customer(
    customerId: int,
    email: Cell,
    firstName: Cell,
    lastName: Cell,
    phone: Cell,
    status: Cell,
    createdAt: Cell)

  datatype Channel = Channel(channelId: int, code: Cell, name: Cell)

  datatype Address = Address(
    addressId: int,
    line1: Cell,
    line2: Cell,
    city: Cell,
    provinceId: Option<int>,
    postalCode: Cell,
    countryCode: Cell,
    createdAt: Cell)

  datatype Province = Province(provinceId: int, name: Cell, code: Cell)

  datatype Product = Product(
    productId: int,
    sku: Cell,
    name: Cell,
    listPrice: Cell,
    status: Cell,
    createdAt: Cell,
    categoryId: Option<int>)

  /** A product category; root categories have no parent. */
  datatype ProductCategory = ProductCategory(categoryId: int, name: Cell, parentId: Option<int>)

  datatype Store = Store(storeId: int, name: Cell, addressId: Option<int>)

  /** The dictionary of raw tables, one field per key the transformation reads. */
  datatype SourceData = SourceData(
    salesOrder: seq<SalesOrder>,
    salesOrderItem: seq<SalesOrderItem>,
    payment: seq<Payment>,
    shipment: seq<Shipment>,
    webSession: seq<WebSession>,
    npsResponse: seq<NpsResponse>,
    customer: seq<Customer>,
    channel: seq<Channel>,
    address: seq<Address>,
    province: seq<Province>,
    product: seq<Product>,
    productCategory: seq<ProductCategory>,
    store: seq<Store>)

  // Join keys, as named functions so that every join and every lemma about
  // it speaks of the same key function.

  function OrderKey(o: SalesOrder): Option<int> { Some(o.orderId) }
  function ProvinceKey(p: Province): Option<int> { Some(p.provinceId) }
  function AddressKey(a: Address): Option<int> { Some(a.addressId) }
  function CategoryKey(c: ProductCategory): Option<int> { Some(c.categoryId) }

  function AddressProvince(a: Address): Option<int> { a.provinceId }
  function StoreAddress(s: Store): Option<int> { s.addressId }
  function ItemOrder(i: SalesOrderItem): Option<int> { i.orderId }
  function PaymentOrder(p: Payment): Option<int> { p.orderId }
  function ShipmentOrder(s: Shipment): Option<int> { s.orderId }
}
