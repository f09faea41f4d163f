/** The in-memory ledger that stands for the MongoDB collections, the two job queues and
    the outside world the pipeline talks to (payment gateway, mailer). */
module Store {
  import opened Common
  import opened Models

  /** Gateway calls that change something at the gateway; status fetches are inputs. */
  datatype GatewayCall =
    | CreateRemoteOrder(amount: int, currency: string)
    | Refund(paymentId: string)

  /** A message handed to the mailer, recorded by what it says rather than by its wording
      (`OrderJobs.Render` gives the wording). */
  datatype Mail =
    | ShipRequest(to: string, productName: string, quantity: nat, buyer: string)  // operator: ship a manual line
    | CodesMail(to: string, productName: string, codes: seq<string>)              // buyer: one line's codes
    | StockoutNotice(to: string)                                                  // buyer: refunded for lack of stock

  /** A rendered e-mail, as `sendMail` receives it. */
  datatype Email = Email(to: string, subject: string, text: string)

  // ---- keys of the collections, for lookups by id ----

  function UserIds(users: seq<User>): seq<UserId>
  {
    seq(|users|, i requires 0 <= i < |users| => users[i].id)
  }

  function Emails(users: seq<User>): seq<string>
  {
    seq(|users|, i requires 0 <= i < |users| => users[i].email)
  }

  function RowIds(cart: seq<CartRow>): seq<CartRowId>
  {
    seq(|cart|, i requires 0 <= i < |cart| => cart[i].id)
  }

  function OrderIds(orders: seq<Order>): seq<OrderId>
  {
    seq(|orders|, i requires 0 <= i < |orders| => orders[i].id)
  }

  /** `User.findById(id)`. */
  function FindUser(users: seq<User>, id: UserId): Option<nat>
  {
    IndexOf(UserIds(users), id)
  }

  /** `User.findOne({email})`. */
  function FindUserByEmail(users: seq<User>, email: string): Option<nat>
  {
    IndexOf(Emails(users), email)
  }

  /** `CartProduct.findById(id)`. */
  function FindCartRow(cart: seq<CartRow>, id: CartRowId): Option<nat>
  {
    IndexOf(RowIds(cart), id)
  }

  /** `Order.findById(id)`. */
  function FindOrder(orders: seq<Order>, id: OrderId): Option<nat>
  {
    IndexOf(OrderIds(orders), id)
  }

  // ---- consistency of the ledger ----

  /** User ids are unique, and so are e-mail addresses (registration refuses a taken one). */
  predicate UsersValid(users: seq<User>)
  {
    Distinct(UserIds(users)) && Distinct(Emails(users))
  }

  /** At most one cart row per (user, product) pair. */
  predicate OneRowPerPair(cart: seq<CartRow>)
  {
    forall i, j :: 0 <= i < j < |cart| ==> cart[i].user != cart[j].user || cart[i].product != cart[j].product
  }

  /** Every cart row holds a positive quantity. */
  predicate PositiveQuantities(cart: seq<CartRow>)
  {
    forall i :: 0 <= i < |cart| ==> cart[i].quantity >= 1
  }

  predicate CartValid(cart: seq<CartRow>, products: map<ProductId, Product>)
  {
    && Distinct(RowIds(cart))
    && OneRowPerPair(cart)
    && PositiveQuantities(cart)
    && (forall i :: 0 <= i < |cart| ==> cart[i].product in products)
  }

  predicate ItemsValid(items: seq<OrderItem>, products: map<ProductId, Product>)
  {
    forall k :: 0 <= k < |items| ==> items[k].product in products && items[k].quantity >= 1
  }

  /** No two lines of an order are for the same product: the order was copied from a
      cart, which holds one row per product and user. */
  predicate DistinctProducts(items: seq<OrderItem>)
  {
    forall j, k :: 0 <= j < k < |items| ==> items[j].product != items[k].product
  }

  predicate OrdersValid(orders: seq<Order>, users: seq<User>, products: map<ProductId, Product>)
  {
    && Distinct(OrderIds(orders))
    && (forall i :: 0 <= i < |orders| ==> orders[i].creator in UserIds(users))
    && (forall i :: 0 <= i < |orders| ==> ItemsValid(orders[i].items, products))
    && (forall i :: 0 <= i < |orders| ==> DistinctProducts(orders[i].items))
  }

  /** The order exists and carries its payment attempt. */
  predicate HasPaymentAttempt(orders: seq<Order>, id: OrderId)
  {
    var k := FindOrder(orders, id);
    k.Some? && orders[k.value].paymentAttempt.Some?
  }

  /** Delivery jobs are only ever queued for orders whose payment attempt is attached:
      they are queued for a confirmed status, which the save that follows accepts. */
  predicate JobsValid(jobs: set<OrderId>, orders: seq<Order>)
  {
    forall id :: id in jobs ==> HasPaymentAttempt(orders, id)
  }

  /** Check jobs name stored orders, but not necessarily ones with an attempt: the check is
      scheduled before the save that attaches the attempt, and that save can be rejected. */
  predicate ScheduledValid(jobs: set<OrderId>, orders: seq<Order>)
  {
    forall id :: id in jobs ==> id in OrderIds(orders)
  }

  predicate TokensValid(tokens: map<TokenId, ForgotPasswordToken>, users: seq<User>)
  {
    forall t :: t in tokens ==> tokens[t].user in UserIds(users)
  }

  class Ledger {
    var users: seq<User>                          // creation order
    var categories: map<CategoryId, Category>
    var products: map<ProductId, Product>
    var codes: seq<ProductCode>                   // natural (insertion) order
    var cart: seq<CartRow>                        // natural (insertion) order
    var orders: seq<Order>                        // creation order
    var tokens: map<TokenId, ForgotPasswordToken>
    var deliveryJobs: set<OrderId>                // pending DELIVER_AFTER_ORDER jobs
    var checkJobs: set<OrderId>                   // scheduled CHECK_PENDING_TX jobs
    var gatewayLog: seq<GatewayCall>              // append-only
    var outbox: seq<Mail>                         // append-only

    ghost predicate Valid()
      reads this`users, this`products, this`cart, this`orders, this`deliveryJobs, this`checkJobs, this`tokens
    {
      && UsersValid(users)
      && CartValid(cart, products)
      && OrdersValid(orders, users, products)
      && JobsValid(deliveryJobs, orders)
      && ScheduledValid(checkJobs, orders)
      && TokensValid(tokens, users)
    }

    constructor ()
      ensures Valid()
      ensures users == [] && categories == map[] && products == map[] && codes == []
      ensures cart == [] && orders == [] && tokens == map[]
      ensures deliveryJobs == {} && checkJobs == {} && gatewayLog == [] && outbox == []
    {
      users, categories, products, codes := [], map[], map[], [];
      cart, orders, tokens := [], [], map[];
      deliveryJobs, checkJobs, gatewayLog, outbox := {}, {}, [], [];
    }
  }

  // ---- how the keys change under the updates the handlers make ----

  lemma UserIdsAfterUpdate(users: seq<User>, i: nat, u: User)
    requires i < |users| && u.id == users[i].id
    ensures UserIds(users[i := u]) == UserIds(users)
  {
    assert forall j :: 0 <= j < |users| ==> UserIds(users[i := u])[j] == UserIds(users)[j];
  }

  lemma EmailsAfterUpdate(users: seq<User>, i: nat, u: User)
    requires i < |users| && u.email == users[i].email
    ensures Emails(users[i := u]) == Emails(users)
  {
    assert forall j :: 0 <= j < |users| ==> Emails(users[i := u])[j] == Emails(users)[j];
  }

  lemma OrderIdsAfterUpdate(orders: seq<Order>, i: nat, o: Order)
    requires i < |orders| && o.id == orders[i].id
    ensures OrderIds(orders[i := o]) == OrderIds(orders)
  {
    assert forall j :: 0 <= j < |orders| ==> OrderIds(orders[i := o])[j] == OrderIds(orders)[j];
  }

  lemma RowIdsAfterUpdate(cart: seq<CartRow>, i: nat, r: CartRow)
    requires i < |cart| && r.id == cart[i].id
    ensures RowIds(cart[i := r]) == RowIds(cart)
  {
    assert forall j :: 0 <= j < |cart| ==> RowIds(cart[i := r])[j] == RowIds(cart)[j];
  }

  /** Replacing an order by one with the same id and creator, the same lines and a payment
      attempt whenever the old one had one keeps every consistency fact about orders and jobs. */
  lemma OrderUpdateKeepsValid(orders: seq<Order>, users: seq<User>, products: map<ProductId, Product>,
                              jobs: set<OrderId>, i: nat, o: Order)
    requires i < |orders| && OrdersValid(orders, users, products) && JobsValid(jobs, orders)
    requires o.id == orders[i].id && o.creator == orders[i].creator && o.items == orders[i].items
    requires orders[i].paymentAttempt.Some? ==> o.paymentAttempt.Some?
    ensures OrdersValid(orders[i := o], users, products)
    ensures JobsValid(jobs, orders[i := o])
  {
    OrderIdsAfterUpdate(orders, i, o);
    forall id | id in jobs
      ensures HasPaymentAttempt(orders[i := o], id)
    {
      assert HasPaymentAttempt(orders, id);
    }
  }
}
