/** Checkout and payment (warehouse/routes/order-mgmt.js): turning a cart into an order,
    attaching the gateway payment, and showing a user their orders. */
module OrderMgmt {
  import opened Common
  import opened Json
  import opened Models
  import opened Responses
  import opened Store
  import opened ProductUtils
  import opened PublicDisplay
  import opened CartMgmt

  // ---- createOrder ----

  /** The line can be filled: the product is unlimited (-1) or has enough unredeemed codes. */
  predicate LineSatisfiable(row: CartRow, products: map<ProductId, Product>, codes: seq<ProductCode>)
    requires row.product in products
  {
    var avail := QuantityAvailable(row.product, products[row.product], codes);
    avail == -1 || avail >= row.quantity
  }

  predicate AllSatisfiable(rows: seq<CartRow>, products: map<ProductId, Product>, codes: seq<ProductCode>)
    requires forall i :: 0 <= i < |rows| ==> rows[i].product in products
  {
    forall i :: 0 <= i < |rows| ==> LineSatisfiable(rows[i], products, codes)
  }

  /** The order lines copied from the cart rows: product, its current price, quantity. */
  function Snapshot(rows: seq<CartRow>, products: map<ProductId, Product>): (r: seq<OrderItem>)
    requires forall i :: 0 <= i < |rows| ==> rows[i].product in products
    ensures |r| == |rows|
    ensures forall i :: 0 <= i < |r| ==>
      r[i].product == rows[i].product && r[i].quantity == rows[i].quantity && r[i].price == products[rows[i].product].price
  {
    seq(|rows|, i requires 0 <= i < |rows| => OrderItem(rows[i].product, products[rows[i].product].price, rows[i].quantity))
  }

  /** Σ price × quantity over the stored lines of an order. */
  function ItemsTotal(items: seq<OrderItem>): int
  {
    if |items| == 0 then 0
    else ItemsTotal(items[..|items| - 1]) + items[|items| - 1].price * items[|items| - 1].quantity
  }

  /** The lines stored on the order price exactly as the cart did. */
  lemma {:induction false} SnapshotTotal(rows: seq<CartRow>, products: map<ProductId, Product>)
    requires forall i :: 0 <= i < |rows| ==> rows[i].product in products
    ensures ItemsTotal(Snapshot(rows, products)) == CartTotal(rows, products)
    decreases |rows|
  {
    if |rows| > 0 {
      var n := |rows|;
      assert Snapshot(rows, products)[..n - 1] == Snapshot(rows[..n - 1], products);
      SnapshotTotal(rows[..n - 1], products);
    }
  }

  /** `CartProduct.deleteMany({user})`: the rows of every other user, in order. */
  function RemoveUserRows(cart: seq<CartRow>, u: UserId): (r: seq<CartRow>)
    ensures forall row :: row in r <==> row in cart && row.user != u
    ensures |r| <= |cart|
  {
    if |cart| == 0 then []
    else
      var prev := RemoveUserRows(cart[..|cart| - 1], u);
      assert forall row :: row in cart <==> row in cart[..|cart| - 1] || row == cart[|cart| - 1];
      if cart[|cart| - 1].user != u then prev + [cart[|cart| - 1]] else prev
  }

  /** Deleting the user's rows empties that user's cart and leaves every other cart as it was. */
  lemma {:induction false} RemoveUserRowsCarts(cart: seq<CartRow>, u: UserId, u': UserId)
    ensures CartOf(RemoveUserRows(cart, u), u') == if u' == u then [] else CartOf(cart, u')
    decreases |cart|
  {
    if |cart| > 0 {
      var n := |cart|;
      var prev := RemoveUserRows(cart[..n - 1], u);
      RemoveUserRowsCarts(cart[..n - 1], u, u');
      if cart[n - 1].user != u {
        assert (prev + [cart[n - 1]])[..|prev|] == prev;
      }
    }
  }

  /** Each of the conditions a consistent cart meets holds of its prefix. */
  lemma PrefixValid(cart: seq<CartRow>, products: map<ProductId, Product>)
    requires CartValid(cart, products) && |cart| > 0
    ensures CartValid(cart[..|cart| - 1], products)
    ensures var last := cart[|cart| - 1];
      forall i :: 0 <= i < |cart| - 1 ==>
        cart[i].id != last.id && (cart[i].user != last.user || cart[i].product != last.product)
  {
    var n := |cart|;
    assert RowIds(cart[..n - 1]) == RowIds(cart)[..n - 1];
    assert forall i :: 0 <= i < n ==> RowIds(cart)[i] == cart[i].id;
  }

  /** A row whose id and pair are new can be appended to a consistent cart. */
  lemma AppendValid(r: seq<CartRow>, last: CartRow, products: map<ProductId, Product>)
    requires CartValid(r, products) && last.product in products && last.quantity >= 1
    requires forall i :: 0 <= i < |r| ==> r[i].id != last.id && (r[i].user != last.user || r[i].product != last.product)
    ensures CartValid(r + [last], products)
  {
    assert RowIds(r + [last]) == RowIds(r) + [last.id];
  }

  lemma {:induction false} RemoveUserRowsValid(cart: seq<CartRow>, products: map<ProductId, Product>, u: UserId)
    requires CartValid(cart, products)
    ensures CartValid(RemoveUserRows(cart, u), products)
    decreases |cart|
  {
    if |cart| > 0 {
      var n := |cart|;
      var pre := cart[..n - 1];
      PrefixValid(cart, products);
      RemoveUserRowsValid(pre, products, u);
      var last := cart[n - 1];
      if last.user != u {
        var r := RemoveUserRows(pre, u);
        forall i | 0 <= i < |r|
          ensures r[i].id != last.id && (r[i].user != last.user || r[i].product != last.product)
        {
          assert r[i] in pre;
        }
        AppendValid(r, last, products);
      }
    }
  }

  /** What a successful checkout answers with. */
  datatype Placed = Placed(totalPrice: int, paymentOrderId: string, orderId: OrderId)

  /** The order a successful checkout stores. */
  function NewOrder(id: OrderId, user: UserId, rows: seq<CartRow>, products: map<ProductId, Product>,
                    paymentOrderId: string, now: Timestamp): (o: Order)
    requires forall i :: 0 <= i < |rows| ==> rows[i].product in products
    ensures o.id == id && o.creator == user && o.status == AwaitingPayment
    ensures o.paymentOrderId == paymentOrderId && o.paymentAttempt.None? && o.shipments == []
    ensures o.items == Snapshot(rows, products)
    ensures o.total == 100 * ItemsTotal(o.items)
  {
    SnapshotTotal(rows, products);
    Order(id, user, Snapshot(rows, products), 100 * CartTotal(rows, products), paymentOrderId, None,
          AwaitingPayment, [], now)
  }

  /** The lines copied from one user's rows of a consistent cart name pairwise
      different products. */
  lemma SnapshotDistinct(cart: seq<CartRow>, products: map<ProductId, Product>, u: UserId)
    requires CartValid(cart, products)
    ensures forall i :: 0 <= i < |CartOf(cart, u)| ==> CartOf(cart, u)[i].product in products
    ensures DistinctProducts(Snapshot(CartOf(cart, u), products))
  {
    var rows := CartOf(cart, u);
    assert forall i :: 0 <= i < |rows| ==> rows[i] in cart;
    CartOfDistinctProducts(cart, u);
    var items := Snapshot(rows, products);
    forall j, k | 0 <= j < k < |items| ensures items[j].product != items[k].product {
      assert items[j].product == rows[j].product && items[k].product == rows[k].product;
    }
  }

  lemma AppendOrderKeepsValid(orders: seq<Order>, users: seq<User>, products: map<ProductId, Product>,
                              jobs: set<OrderId>, o: Order)
    requires OrdersValid(orders, users, products) && JobsValid(jobs, orders)
    requires o.id !in OrderIds(orders) && o.creator in UserIds(users) && ItemsValid(o.items, products)
    requires DistinctProducts(o.items)
    ensures OrdersValid(orders + [o], users, products) && JobsValid(jobs, orders + [o])
    ensures OrderIds(orders + [o]) == OrderIds(orders) + [o.id]
  {
    assert OrderIds(orders + [o]) == OrderIds(orders) + [o.id];
    forall id | id in jobs
      ensures HasPaymentAttempt(orders + [o], id)
    {
      assert HasPaymentAttempt(orders, id);
      IndexOfAppend(OrderIds(orders), o.id, id);
    }
  }

  /** `createOrder` for the signed-in `user`. The gateway answers the order creation with
      `paymentOrderId`; `now` is the clock. The cart is deleted before the gateway is
      called, so when the store rejects an empty (required) `paymentOrderID`, the handler
      throws with the cart gone, the gateway order created and no order stored. */
  method CreateOrder(l: Ledger, user: UserId, currency: string, paymentOrderId: string,
                     newOrderId: OrderId, now: Timestamp) returns (r: Result<Placed, ErrorCode>)
    requires l.Valid()
    requires user in UserIds(l.users)             // the request is authenticated
    requires newOrderId !in OrderIds(l.orders)    // the store hands out a fresh id
    modifies l`cart, l`orders, l`gatewayLog
    ensures l.Valid()
    ensures var rows := CartOf(old(l.cart), user);
      && (|rows| == 0 ==> r == Err(NoProductsInCart))
      && (|rows| > 0 && !AllSatisfiable(rows, l.products, l.codes) ==> r == Err(ProductUnsatisfiable))
    ensures var rows := CartOf(old(l.cart), user);
      |rows| == 0 || !AllSatisfiable(rows, l.products, l.codes) ==>
        l.cart == old(l.cart) && l.orders == old(l.orders) && l.gatewayLog == old(l.gatewayLog)
    ensures var rows := CartOf(old(l.cart), user);
      |rows| > 0 && AllSatisfiable(rows, l.products, l.codes) ==>
        var o := NewOrder(newOrderId, user, rows, l.products, paymentOrderId, now);
        && l.cart == RemoveUserRows(old(l.cart), user)
        && l.gatewayLog == old(l.gatewayLog) + [CreateRemoteOrder(o.total, currency)]
        && (paymentOrderId == "" ==> r == Err(HandlerThrew) && l.orders == old(l.orders))
        && (paymentOrderId != "" ==> r == Ok(Placed(o.total, paymentOrderId, newOrderId)) && l.orders == old(l.orders) + [o])
  {
    var rows := CartOf(l.cart, user);
    if |rows| == 0 {
      return Err(NoProductsInCart);
    }
    SnapshotDistinct(l.cart, l.products, user);
    if !AllSatisfiable(rows, l.products, l.codes) {
      return Err(ProductUnsatisfiable);
    }
    var o := NewOrder(newOrderId, user, rows, l.products, paymentOrderId, now);
    ClearCart(l, user);
    l.gatewayLog := l.gatewayLog + [CreateRemoteOrder(o.total, currency)];
    if paymentOrderId == "" {
      return Err(HandlerThrew);
    }
    StoreOrder(l, o);
    return Ok(Placed(o.total, paymentOrderId, newOrderId));
  }

  /** `CartProduct.deleteMany({user})`. */
  method ClearCart(l: Ledger, user: UserId)
    requires l.Valid()
    modifies l`cart
    ensures l.Valid()
    ensures l.cart == RemoveUserRows(old(l.cart), user)
  {
    RemoveUserRowsValid(l.cart, l.products, user);
    l.cart := RemoveUserRows(l.cart, user);
  }

  /** `Order.create` of an order with a fresh id, an existing creator and known, pairwise
      different products. */
  method StoreOrder(l: Ledger, o: Order)
    requires l.Valid()
    requires o.id !in OrderIds(l.orders) && o.creator in UserIds(l.users)
    requires ItemsValid(o.items, l.products) && DistinctProducts(o.items)
    modifies l`orders
    ensures l.Valid()
    ensures l.orders == old(l.orders) + [o]
  {
    AppendOrderKeepsValid(l.orders, l.users, l.products, l.deliveryJobs, o);
    l.orders := l.orders + [o];
  }

  /** Checkout charges a hundred times the cart's own total (the smallest currency unit),
      and the order stores the very amount sent to the gateway. */
  lemma CheckoutChargesCartTotal(cart: seq<CartRow>, products: map<ProductId, Product>, user: UserId,
                                 id: OrderId, paymentOrderId: string, now: Timestamp)
    requires CartValid(cart, products)
    ensures var rows := CartOf(cart, user);
      NewOrder(id, user, rows, products, paymentOrderId, now).total == 100 * GetProductsInCart(cart, products, user).totalPrice
  {
    var rows := CartOf(cart, user);
    assert forall i :: 0 <= i < |rows| ==> rows[i] in cart;
    SnapshotTotal(rows, products);
  }

  // ---- handlePayment ----

  /** The gateway statuses that count as paid. */
  predicate Confirmed(status: string)
  {
    status == "authorized" || status == "captured"
  }

  /** The refusals of `handlePayment`, in the order the handler tests them. */
  function PaymentGuard(orders: seq<Order>, user: UserId, id: OrderId): (r: Option<ErrorCode>)
    ensures r == Some(OrderNotFound) <==> id !in OrderIds(orders)
    ensures r == Some(OrderNotOwned) <==> id in OrderIds(orders) && orders[FindOrder(orders, id).value].creator != user
    ensures r == Some(PaymentAlreadyAdded) <==>
      id in OrderIds(orders) && orders[FindOrder(orders, id).value].creator == user
      && orders[FindOrder(orders, id).value].paymentAttempt.Some?
    ensures r.None? <==>
      id in OrderIds(orders) && orders[FindOrder(orders, id).value].creator == user
      && orders[FindOrder(orders, id).value].paymentAttempt.None?
  {
    var k := FindOrder(orders, id);
    if k.None? then Some(OrderNotFound)
    else if orders[k.value].creator != user then Some(OrderNotOwned)
    else if orders[k.value].paymentAttempt.Some? then Some(PaymentAlreadyAdded)
    else None
  }

  /** The order once the payment is attached: the attempt records the gateway's status, the
      order status follows it, and nothing else about the order changes. */
  function AttachPayment(o: Order, paymentId: string, gatewayStatus: string): (r: Order)
    ensures r.paymentAttempt == Some(PaymentAttempt("Razorpay", paymentId, gatewayStatus))
    ensures r.status == if Confirmed(gatewayStatus) then PaidAwaitingShipment else PaymentNotConfirmed
    ensures r.(paymentAttempt := o.paymentAttempt, status := o.status) == o
  {
    o.(paymentAttempt := Some(PaymentAttempt("Razorpay", paymentId, gatewayStatus)),
       status := if Confirmed(gatewayStatus) then PaidAwaitingShipment else PaymentNotConfirmed)
  }

  /** Once a payment is attached, any later attempt on that order is refused, by its
      owner too: a payment is attached at most once. */
  lemma SecondAttachRefused(orders: seq<Order>, user: UserId, id: OrderId, paymentId: string,
                            gatewayStatus: string, user': UserId)
    requires PaymentGuard(orders, user, id).None?
    ensures var k := FindOrder(orders, id).value;
      var orders' := orders[k := AttachPayment(orders[k], paymentId, gatewayStatus)];
      PaymentGuard(orders', user', id) == Some(if user' == user then PaymentAlreadyAdded else OrderNotOwned)
  {
    var k := FindOrder(orders, id).value;
    OrderIdsAfterUpdate(orders, k, AttachPayment(orders[k], paymentId, gatewayStatus));
  }

  /** `handlePayment` for the signed-in `user`; `gatewayStatus` is what the gateway reports
      for `paymentId`. An empty status is not confirmed, so the check is scheduled first;
      the save then rejects the attempt's empty required status, no attempt is stored and
      the handler throws. */
  method HandlePayment(l: Ledger, user: UserId, orderId: OrderId, paymentId: string, gatewayStatus: string)
    returns (r: Result<OrderStatus, ErrorCode>)
    requires l.Valid()
    requires |paymentId| >= 1  // the schema requires a non-empty payment id
    modifies l`orders, l`deliveryJobs, l`checkJobs
    ensures l.Valid()
    ensures PaymentGuard(old(l.orders), user, orderId).Some? ==>
      && r == Err(PaymentGuard(old(l.orders), user, orderId).value)
      && l.orders == old(l.orders) && l.deliveryJobs == old(l.deliveryJobs) && l.checkJobs == old(l.checkJobs)
    ensures PaymentGuard(old(l.orders), user, orderId).None? && gatewayStatus == "" ==>
      && r == Err(HandlerThrew)
      && l.orders == old(l.orders) && l.deliveryJobs == old(l.deliveryJobs)
      && l.checkJobs == old(l.checkJobs) + {orderId}
    ensures PaymentGuard(old(l.orders), user, orderId).None? && gatewayStatus != "" ==>
      var k := FindOrder(old(l.orders), orderId).value;
      var o := AttachPayment(old(l.orders)[k], paymentId, gatewayStatus);
      && l.orders == old(l.orders)[k := o]
      && r == Ok(o.status)
      && (Confirmed(gatewayStatus) ==>
            l.deliveryJobs == old(l.deliveryJobs) + {orderId} && l.checkJobs == old(l.checkJobs))
      && (!Confirmed(gatewayStatus) ==>
            l.checkJobs == old(l.checkJobs) + {orderId} && l.deliveryJobs == old(l.deliveryJobs))
  {
    var guard := PaymentGuard(l.orders, user, orderId);
    if guard.Some? {
      return Err(guard.value);
    }
    if gatewayStatus == "" {
      l.checkJobs := l.checkJobs + {orderId};
      return Err(HandlerThrew);
    }
    var k := FindOrder(l.orders, orderId).value;
    var o := AttachPayment(l.orders[k], paymentId, gatewayStatus);
    OrderUpdateKeepsValid(l.orders, l.users, l.products, l.deliveryJobs, k, o);
    OrderIdsAfterUpdate(l.orders, k, o);
    l.orders := l.orders[k := o];
    assert HasPaymentAttempt(l.orders, orderId);
    if Confirmed(gatewayStatus) {
      l.deliveryJobs := l.deliveryJobs + {orderId};
    } else {
      l.checkJobs := l.checkJobs + {orderId};
    }
    return Ok(o.status);
  }

  // ---- getOrderById / listOrder ----

  /** An order line with its product populated (the product's category stays an ObjectID).
      A product missing from the store populates to null; a consistent store has none
      (`OrdersValid` keeps every line's product), and in the source the mask would then
      throw at `pro.category`. */
  function PopulatedItem(it: OrderItem, products: map<ProductId, Product>): Object
  {
    if it.product in products then
      var p := products[it.product];
      ItemDoc(it, JObj(ProductDoc(it.product, p, CategorySlot(p, map[], false))))
    else ItemDoc(it, JNull)
  }

  /** The masked form of an order with `items.product` populated. */
  function OrderView(o: Order, products: map<ProductId, Product>): (r: Object)
    ensures "_id" in r && r["_id"] == JNum(o.id)
    ensures "orderCreator" in r && r["orderCreator"] == JNum(o.creator)
    ensures "createdAt" in r && r["createdAt"] == JNum(o.createdAt)
    ensures "total" in r && r["total"] == JNum(o.total)
    ensures "status" in r && r["status"] == JStr(StatusName(o.status))
    ensures "paymentOrderID" in r && r["paymentOrderID"] == JStr(o.paymentOrderId)
    ensures "paymentAttempt" !in r && "paymentAttempts" !in r
    ensures "items" in r && r["items"].JArr? && |r["items"].elems| == |o.items|
    ensures forall i :: 0 <= i < |o.items| ==> r["items"].elems[i] == JObj(MaskItem(PopulatedItem(o.items[i], products)))
  {
    OrderDocFields(o);
    MaskedOrderHidesPayment(o, seq(|o.items|, i requires 0 <= i < |o.items| => PopulatedItem(o.items[i], products)));
    assert "_id" in OrderKeys && "orderCreator" in OrderKeys && "createdAt" in OrderKeys;
    assert "total" in OrderKeys && "status" in OrderKeys && "paymentOrderID" in OrderKeys;
    MaskOrder(OrderDoc(o), seq(|o.items|, i requires 0 <= i < |o.items| => PopulatedItem(o.items[i], products)))
  }

  /** `getOrderById`: no id, or an order that is missing or someone else's, is refused;
      otherwise the caller's own order, masked. */
  function GetOrderById(orders: seq<Order>, products: map<ProductId, Product>, user: UserId,
                        id: Option<OrderId>): (r: Result<Object, ErrorCode>)
    ensures id.None? <==> r == Err(IdMissing)
    ensures r == Err(OrderNotOwned) <==>
      id.Some? && (id.value !in OrderIds(orders) || orders[FindOrder(orders, id.value).value].creator != user)
    ensures r.Ok? ==>
      && id.Some? && id.value in OrderIds(orders)
      && var o := orders[FindOrder(orders, id.value).value];
      && o.creator == user && r.value == OrderView(o, products)
    ensures id.Some? && id.value in OrderIds(orders) && orders[FindOrder(orders, id.value).value].creator == user ==> r.Ok?
  {
    if id.None? then Err(IdMissing)
    else
      var k := FindOrder(orders, id.value);
      if k.None? || orders[k.value].creator != user then Err(OrderNotOwned)
      else Ok(OrderView(orders[k.value], products))
  }

  /** `Order.find({orderCreator: user})`: the user's orders, in creation order. */
  function OrdersOf(orders: seq<Order>, u: UserId): (r: seq<Order>)
    ensures forall o :: o in r <==> o in orders && o.creator == u
    ensures |r| <= |orders|
  {
    if |orders| == 0 then []
    else
      var prev := OrdersOf(orders[..|orders| - 1], u);
      assert forall o :: o in orders <==> o in orders[..|orders| - 1] || o == orders[|orders| - 1];
      if orders[|orders| - 1].creator == u then prev + [orders[|orders| - 1]] else prev
  }

  predicate NewestFirst(s: seq<Order>)
  {
    forall i, j :: 0 <= i < j < |s| ==> s[i].createdAt >= s[j].createdAt
  }

  /** Place `o` before the first order that is not newer than it. */
  function InsertByDate(o: Order, sorted: seq<Order>): seq<Order>
  {
    if |sorted| == 0 then [o]
    else if o.createdAt >= sorted[0].createdAt then [o] + sorted
    else [sorted[0]] + InsertByDate(o, sorted[1..])
  }

  /** Insertion adds exactly the one order. */
  lemma {:induction false} InsertByDatePermutes(o: Order, sorted: seq<Order>)
    ensures multiset(InsertByDate(o, sorted)) == multiset(sorted) + multiset{o}
    decreases |sorted|
  {
    if |sorted| > 0 {
      assert sorted == [sorted[0]] + sorted[1..];
      if o.createdAt < sorted[0].createdAt {
        InsertByDatePermutes(o, sorted[1..]);
      }
    }
  }

  /** Every order of a newest-first list is no newer than its head. */
  lemma HeadIsNewest(sorted: seq<Order>)
    requires NewestFirst(sorted) && |sorted| > 0
    ensures NewestFirst(sorted[1..])
    ensures forall x :: x in multiset(sorted[1..]) ==> x.createdAt <= sorted[0].createdAt
  {
    var tail := sorted[1..];
    assert forall i :: 0 <= i < |tail| ==> tail[i] == sorted[i + 1];
    forall x | x in multiset(tail)
      ensures x.createdAt <= sorted[0].createdAt
    {
      var j :| 0 <= j < |tail| && tail[j] == x;
    }
  }

  /** An order put in front of a newest-first list no newer than it keeps it newest first. */
  lemma ConsNewestFirst(head: Order, rest: seq<Order>)
    requires NewestFirst(rest)
    requires forall x :: x in multiset(rest) ==> x.createdAt <= head.createdAt
    ensures NewestFirst([head] + rest)
  {
    var r := [head] + rest;
    forall i, j | 0 <= i < j < |r|
      ensures r[i].createdAt >= r[j].createdAt
    {
      assert r[j] == rest[j - 1];
      assert rest[j - 1] in multiset(rest);
      if i > 0 {
        assert r[i] == rest[i - 1];
      }
    }
  }

  /** Insertion keeps the list newest first. */
  lemma {:induction false} InsertByDateSorted(o: Order, sorted: seq<Order>)
    requires NewestFirst(sorted)
    ensures NewestFirst(InsertByDate(o, sorted))
    decreases |sorted|
  {
    if |sorted| == 0 {
    } else if o.createdAt >= sorted[0].createdAt {
      forall x | x in multiset(sorted)
        ensures x.createdAt <= o.createdAt
      {
        var j :| 0 <= j < |sorted| && sorted[j] == x;
      }
      ConsNewestFirst(o, sorted);
    } else {
      var tail := sorted[1..];
      HeadIsNewest(sorted);
      InsertByDateSorted(o, tail);
      InsertByDatePermutes(o, tail);
      ConsNewestFirst(sorted[0], InsertByDate(o, tail));
    }
  }

  /** `.sort({createdAt: -1})`, by insertion. */
  function SortNewestFirst(s: seq<Order>): seq<Order>
  {
    if |s| == 0 then [] else InsertByDate(s[0], SortNewestFirst(s[1..]))
  }

  /** The sort neither drops nor adds an order. */
  lemma {:induction false} SortNewestFirstPermutes(s: seq<Order>)
    ensures multiset(SortNewestFirst(s)) == multiset(s)
    decreases |s|
  {
    if |s| > 0 {
      var rest := SortNewestFirst(s[1..]);
      SortNewestFirstPermutes(s[1..]);
      InsertByDatePermutes(s[0], rest);
      assert s == [s[0]] + s[1..];
    }
  }

  /** The sort orders by date. */
  lemma {:induction false} SortNewestFirstSorted(s: seq<Order>)
    ensures NewestFirst(SortNewestFirst(s))
    decreases |s|
  {
    if |s| > 0 {
      SortNewestFirstSorted(s[1..]);
      InsertByDateSorted(s[0], SortNewestFirst(s[1..]));
    }
  }

  /** The masked views of a list of orders, position by position. */
  function Views(sorted: seq<Order>, products: map<ProductId, Product>): (r: seq<Object>)
    ensures |r| == |sorted|
    ensures forall i :: 0 <= i < |sorted| ==> r[i] == OrderView(sorted[i], products)
  {
    seq(|sorted|, i requires 0 <= i < |sorted| => OrderView(sorted[i], products))
  }

  /** Views of a newest-first list carry descending dates. */
  lemma ViewsNewestFirst(sorted: seq<Order>, products: map<ProductId, Product>)
    requires NewestFirst(sorted)
    ensures var views := Views(sorted, products);
      forall i, j :: 0 <= i < j < |views| ==> NumField(views[i], "createdAt") >= NumField(views[j], "createdAt")
  {
    var views := Views(sorted, products);
    forall i, j | 0 <= i < j < |views|
      ensures NumField(views[i], "createdAt") >= NumField(views[j], "createdAt")
    {
      assert NumField(views[i], "createdAt") == sorted[i].createdAt;
      assert NumField(views[j], "createdAt") == sorted[j].createdAt;
    }
  }

  /** Views of a rearrangement of the user's orders show only that user. */
  lemma OwnViews(mine: seq<Order>, sorted: seq<Order>, products: map<ProductId, Product>, user: UserId)
    requires multiset(sorted) == multiset(mine)
    requires forall o :: o in mine ==> o.creator == user
    ensures var views := Views(sorted, products);
      forall i :: 0 <= i < |views| ==> "orderCreator" in views[i] && views[i]["orderCreator"] == JNum(user)
  {
    var views := Views(sorted, products);
    forall i | 0 <= i < |views|
      ensures "orderCreator" in views[i] && views[i]["orderCreator"] == JNum(user)
    {
      assert sorted[i] in multiset(mine);
    }
  }

  /** Views of a rearrangement of some orders show each of those orders. */
  lemma ViewsCover(mine: seq<Order>, sorted: seq<Order>, products: map<ProductId, Product>)
    requires multiset(sorted) == multiset(mine)
    ensures var views := Views(sorted, products);
      forall o :: o in mine ==> exists i :: 0 <= i < |views| && views[i] == OrderView(o, products)
  {
    var views := Views(sorted, products);
    forall o | o in mine
      ensures exists i :: 0 <= i < |views| && views[i] == OrderView(o, products)
    {
      assert o in multiset(sorted);
      var i :| 0 <= i < |sorted| && sorted[i] == o;
      assert views[i] == OrderView(o, products);
    }
  }

  /** `listOrder`: every order of the caller and no other, newest first, each masked. */
  function ListOrder(orders: seq<Order>, products: map<ProductId, Product>, user: UserId): (r: seq<Object>)
    ensures |r| == |OrdersOf(orders, user)|
    ensures forall i :: 0 <= i < |r| ==> "orderCreator" in r[i] && r[i]["orderCreator"] == JNum(user)
    ensures forall i, j :: 0 <= i < j < |r| ==> NumField(r[i], "createdAt") >= NumField(r[j], "createdAt")
    ensures forall o :: o in orders && o.creator == user ==> exists i :: 0 <= i < |r| && r[i] == OrderView(o, products)
  {
    var mine := OrdersOf(orders, user);
    var sorted := SortNewestFirst(mine);
    SortNewestFirstSorted(mine);
    SortNewestFirstPermutes(mine);
    assert |sorted| == |multiset(sorted)| == |multiset(mine)| == |mine|;
    OwnViews(mine, sorted, products, user);
    ViewsCover(mine, sorted, products);
    ViewsNewestFirst(sorted, products);
    Views(sorted, products)
  }
}
