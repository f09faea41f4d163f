/** The stored records of the warehouse (warehouse/db/models.js) as datatypes, with the
    JSON form (`toJSON()` / the populated document) that the display masks read. */
module Models {
  import opened Common
  import opened Json

  type UserId = nat
  type CategoryId = nat
  type ProductId = nat
  type CartRowId = nat
  type OrderId = nat
  type TokenId = nat

  /** A JavaScript Date as milliseconds since the epoch. */
  type Timestamp = int

  type Bytes = seq<bv8>

  /** The schema pins privilegeLevel to 0..4: 1 a normal user, 3 a trusted operator,
      4 the store owner. */
  type PrivilegeLevel = n: int | 0 <= n <= 4

  /** The level given to every self-registered account. */
  const NormalUserLevel: PrivilegeLevel := 1

  /** The lowest level that counts as an operator, for the admin gate and for the
      manual-delivery notice alike. */
  const TrustedLevel: PrivilegeLevel := 3

  datatype User = User(
    id: UserId,
    fullName: string,
    email: string,
    emailVerified: bool,
    publicKey: Bytes,
    privilegeLevel: PrivilegeLevel,
    emailVerificationToken: string,
    lastEmailVerificationSent: Option<Timestamp>,
    lastRequestPasswordRequest: Option<Timestamp>,
    createdAt: Timestamp)

  datatype Category = Category(
    categoryName: string,
    parentCategory: Option<CategoryId>,
    categorySales1d: int,
    categorySales7d: int,
    categorySales1m: int)

  datatype ForgotPasswordToken = ForgotPasswordToken(user: UserId, tokenSecret: Bytes)

  /** The `type` string of a product, read as a tag; any other string is kept as it is. */
  datatype ProductType = ManuallyDelivered | AutomaticallyDelivered | Unrecognised(tag: string)

  const ManualTag := "MANUALLY_DELIVERED"
  const AutomaticTag := "AUTOMATICALLY_DELIVERED"

  function ParseProductType(tag: string): ProductType
  {
    if tag == ManualTag then ManuallyDelivered
    else if tag == AutomaticTag then AutomaticallyDelivered
    else Unrecognised(tag)
  }

  function TypeTag(t: ProductType): string
  {
    match t
    case ManuallyDelivered => ManualTag
    case AutomaticallyDelivered => AutomaticTag
    case Unrecognised(tag) => tag
  }

  /** Reading a stored `type` string and writing it back loses nothing. */
  lemma TypeTagRoundTrip(tag: string)
    ensures TypeTag(ParseProductType(tag)) == tag
  {
  }

  datatype Product = Product(
    kind: ProductType,
    name: string,
    skuNo: string,
    upperTagline: string,
    lowerDescription: string,
    additionalInformation: Option<Value>,
    productPhoto: string,
    price: int,
    category: CategoryId,
    orders1d: int,
    orders7d: int,
    orders1m: int)

  /** One redeemable code; its identity is its position in the code collection. */
  datatype ProductCode = ProductCode(product: ProductId, code: string, redeemed: bool)

  datatype CartRow = CartRow(id: CartRowId, user: UserId, product: ProductId, quantity: nat)

  /** A line of an order: product, the unit price when ordered, and the quantity. */
  datatype OrderItem = OrderItem(product: ProductId, price: int, quantity: nat)

  datatype PaymentAttempt = PaymentAttempt(provider: string, paymentId: string, status: string)

  datatype OrderStatus =
    | AwaitingPayment
    | PaymentNotConfirmed
    | PaidAwaitingShipment
    | Shipped
    | Delivered
    | Archived

  function StatusName(s: OrderStatus): string
  {
    match s
    case AwaitingPayment => "AWAITING_PAYMENT"
    case PaymentNotConfirmed => "PAYMENT_NOT_CONFIRMED"
    case PaidAwaitingShipment => "PAID_AWAITING_SHIPMENT"
    case Shipped => "SHIPPED"
    case Delivered => "DELIVERED"
    case Archived => "ARCHIVED"
  }

  /** Shipment records are optional strings here (their internal id is a mixed field). */
  datatype Shipment = Shipment(shippingCompany: Option<string>, trackingId: Option<string>)

  datatype Order = Order(
    id: OrderId,
    creator: UserId,
    items: seq<OrderItem>,
    total: int,
    paymentOrderId: string,
    paymentAttempt: Option<PaymentAttempt>,
    status: OrderStatus,
    shipments: seq<Shipment>,
    createdAt: Timestamp)

  // ---- JSON forms of the records ----

  function BytesValue(b: Bytes): Value
  {
    JArr(seq(|b|, i requires 0 <= i < |b| => JNum(b[i] as int)))
  }

  function OptionalEntry(key: string, v: Option<Value>): Object
  {
    if v.Some? then map[key := v.value] else map[]
  }

  function TimeValue(t: Option<Timestamp>): Option<Value>
  {
    if t.Some? then Some(JNum(t.value)) else None
  }

  /** A category document. */
  function CategoryDoc(id: CategoryId, c: Category): Object
  {
    map[
      "id" := JNum(id),
      "categoryName" := JStr(c.categoryName),
      "categorySales1d" := JNum(c.categorySales1d),
      "categorySales7d" := JNum(c.categorySales7d),
      "categorySales1m" := JNum(c.categorySales1m)]
    + OptionalEntry("parentCategory", if c.parentCategory.Some? then Some(JNum(c.parentCategory.value)) else None)
  }

  /** An unpopulated reference as the handlers see it: the driver's ObjectID object,
      whose own `id` property holds the id's raw bytes (written here as the id itself). */
  function ObjectIdValue(id: nat): Value
  {
    JObj(map["id" := JNum(id)])
  }

  /** The `category` slot of a product: populated it is the category document, or null
      when the category is gone; unpopulated it is the ObjectID of the category. */
  function CategorySlot(p: Product, categories: map<CategoryId, Category>, populate: bool): Value
  {
    if !populate then ObjectIdValue(p.category)
    else if p.category in categories then JObj(CategoryDoc(p.category, categories[p.category]))
    else JNull
  }

  /** A product document. */
  function ProductDoc(id: ProductId, p: Product, category: Value): Object
  {
    map[
      "id" := JNum(id),
      "type" := JStr(TypeTag(p.kind)),
      "name" := JStr(p.name),
      "skuNo" := JStr(p.skuNo),
      "upperTagline" := JStr(p.upperTagline),
      "lowerDescription" := JStr(p.lowerDescription),
      "productPhoto" := JStr(p.productPhoto),
      "price" := JNum(p.price),
      "category" := category,
      "orders1d" := JNum(p.orders1d),
      "orders7d" := JNum(p.orders7d),
      "orders1m" := JNum(p.orders1m)]
    + OptionalEntry("additionalInformation", p.additionalInformation)
  }

  lemma ProductDocKeys(id: ProductId, p: Product, category: Value)
    ensures ProductDoc(id, p, category).Keys ==
      {"id", "type", "name", "skuNo", "upperTagline", "lowerDescription", "productPhoto", "price",
       "category", "orders1d", "orders7d", "orders1m"}
      + (if p.additionalInformation.Some? then {"additionalInformation"} else {})
  {
  }

  lemma ProductDocFields(id: ProductId, p: Product, category: Value)
    ensures var d := ProductDoc(id, p, category);
      "id" in d && "price" in d && "name" in d &&
      d["id"] == JNum(id) && d["price"] == JNum(p.price) && d["name"] == JStr(p.name)
  {
  }

  /** `user.toJSON()`: the stored fields under `_id`; the `id` virtual is not included. */
  function UserDoc(u: User): Object
  {
    map[
      "_id" := JNum(u.id),
      "fullName" := JStr(u.fullName),
      "email" := JStr(u.email),
      "email_verified" := JBool(u.emailVerified),
      "publicKey" := BytesValue(u.publicKey),
      "privilegeLevel" := JNum(u.privilegeLevel),
      "emailVerificationToken" := JStr(u.emailVerificationToken),
      "createdAt" := JNum(u.createdAt)]
    + OptionalEntry("lastEmailVerificationSent", TimeValue(u.lastEmailVerificationSent))
    + OptionalEntry("lastRequestPasswordRequest", TimeValue(u.lastRequestPasswordRequest))
  }

  function PaymentAttemptValue(a: PaymentAttempt): Value
  {
    JObj(map["provider" := JStr(a.provider), "paymentId" := JStr(a.paymentId), "status" := JStr(a.status)])
  }

  function ShipmentValue(s: Shipment): Value
  {
    JObj(OptionalEntry("shippingCompany", if s.shippingCompany.Some? then Some(JStr(s.shippingCompany.value)) else None)
      + OptionalEntry("trackingID", if s.trackingId.Some? then Some(JStr(s.trackingId.value)) else None))
  }

  /** An order line with its product reference as a bare id or a populated document. */
  function ItemDoc(it: OrderItem, product: Value): Object
  {
    map["product" := product, "price" := JNum(it.price), "quantity" := JNum(it.quantity)]
  }

  /** `order.toJSON()` (items unpopulated); the payment attempt sits under `paymentAttempt`. */
  function OrderDoc(o: Order): Object
  {
    map[
      "_id" := JNum(o.id),
      "orderCreator" := JNum(o.creator),
      "items" := JArr(seq(|o.items|, i requires 0 <= i < |o.items| => JObj(ItemDoc(o.items[i], JNum(o.items[i].product))))),
      "total" := JNum(o.total),
      "paymentOrderID" := JStr(o.paymentOrderId),
      "status" := JStr(StatusName(o.status)),
      "shipments" := JArr(seq(|o.shipments|, i requires 0 <= i < |o.shipments| => ShipmentValue(o.shipments[i]))),
      "createdAt" := JNum(o.createdAt)]
    + OptionalEntry("paymentAttempt", if o.paymentAttempt.Some? then Some(PaymentAttemptValue(o.paymentAttempt.value)) else None)
  }

  lemma OrderDocFields(o: Order)
    ensures var d := OrderDoc(o);
      && "_id" in d && d["_id"] == JNum(o.id)
      && "orderCreator" in d && d["orderCreator"] == JNum(o.creator)
      && "total" in d && d["total"] == JNum(o.total)
      && "status" in d && d["status"] == JStr(StatusName(o.status))
      && "paymentOrderID" in d && d["paymentOrderID"] == JStr(o.paymentOrderId)
      && "createdAt" in d && d["createdAt"] == JNum(o.createdAt)
  {
  }
}
