/** The background workers (warehouse/jobs/order-jobs.js): `handleDelivery`, which fills
    a paid order from the code stock, and the pending-transaction reconciliation. */
module OrderJobs {
  import opened Common
  import opened Models
  import opened Text
  import opened Store
  import opened ProductUtils
  import opened Authentication
  import opened OrderMgmt

  // ---- the buyer e-mail with the codes ----

  const Dashes: string := "---------------"

  /** Fifteen dashes and a newline. */
  const DividerLine: string := Dashes + "\n"

  /** Every string followed by a newline. */
  function Lines(strs: seq<string>): string
  {
    if |strs| == 0 then "" else strs[0] + "\n" + Lines(strs[1..])
  }

  lemma {:induction false} LinesSnoc(strs: seq<string>, s: string)
    ensures Lines(strs + [s]) == Lines(strs) + s + "\n"
    decreases |strs|
  {
    if |strs| == 0 {
      assert strs + [s] == [s];
    } else {
      assert (strs + [s])[1..] == strs[1..] + [s];
      LinesSnoc(strs[1..], s);
    }
  }

  lemma {:induction false} JoinLines(strs: seq<string>, tail: seq<string>)
    requires |tail| >= 1
    ensures Lines(strs) + Join(tail, '\n') == Join(strs + tail, '\n')
    decreases |strs|
  {
    if |strs| == 0 {
      assert strs + tail == tail;
    } else {
      assert (strs + tail)[1..] == strs[1..] + tail;
      JoinLines(strs[1..], tail);
    }
  }

  function CodesHeader(name: string): string
  {
    "Here are the codes for " + name + "."
  }

  /** The body of the codes e-mail: header, divider, one code per line, divider. */
  function CodesMessage(name: string, strs: seq<string>): string
  {
    CodesHeader(name) + "\n" + DividerLine + Lines(strs) + DividerLine
  }

  /** Read line by line, the codes e-mail is its header, a divider, exactly the codes in
      order, and a closing divider (the final newline leaves an empty last line). */
  lemma CodesMessageLines(name: string, strs: seq<string>)
    requires '\n' !in name
    requires forall k :: 0 <= k < |strs| ==> '\n' !in strs[k]
    ensures Split(CodesMessage(name, strs), '\n') == [CodesHeader(name), Dashes] + strs + [Dashes, ""]
  {
    var parts := [CodesHeader(name), Dashes] + strs + [Dashes, ""];
    assert Join([Dashes, ""], '\n') == DividerLine;
    JoinLines([CodesHeader(name), Dashes] + strs, [Dashes, ""]);
    assert ([CodesHeader(name), Dashes] + strs)[1..] == [Dashes] + strs;
    assert ([Dashes] + strs)[1..] == strs;
    assert Lines([CodesHeader(name), Dashes] + strs) == CodesHeader(name) + "\n" + DividerLine + Lines(strs);
    assert CodesMessage(name, strs) == Join(parts, '\n');
    assert '\n' !in CodesHeader(name) by {
      assert CodesHeader(name) == "Here are the codes for " + name + ".";
    }
    assert forall k :: 0 <= k < |parts| ==> '\n' !in parts[k] by {
      forall k | 0 <= k < |parts| ensures '\n' !in parts[k] {
        if 2 <= k < 2 + |strs| { assert parts[k] == strs[k - 2]; }
      }
    }
    SplitJoin(parts, '\n');
  }

  // ---- what each order line needs ----

  predicate ItemsKnown(items: seq<OrderItem>, products: map<ProductId, Product>)
  {
    forall k :: 0 <= k < |items| ==> items[k].product in products
  }

  function KindOf(it: OrderItem, products: map<ProductId, Product>): ProductType
    requires it.product in products
  {
    products[it.product].kind
  }

  /** `ProductCodes.find({product: p, redeemed: false}).limit(n)`: the first `n` unredeemed
      codes of `p` in natural order, or all of them when there are fewer. */
  function SelectCodes(codes: seq<ProductCode>, p: ProductId, n: nat): (r: seq<nat>)
    ensures |r| == Min(n, CountUnredeemed(codes, p))
    ensures forall m :: 0 <= m < |r| ==> r[m] < |codes| && Available(codes[r[m]], p)
    ensures forall a, b :: 0 <= a < b < |r| ==> r[a] < r[b]
    ensures forall i, m :: 0 <= i < |codes| && Available(codes[i], p) && i !in r && 0 <= m < |r| ==> r[m] < i
  {
    var all := UnredeemedIndices(codes, p);
    var r := all[..Min(n, |all|)];
    assert forall i :: 0 <= i < |codes| && Available(codes[i], p) && i !in r ==>
      exists j :: |r| <= j < |all| && all[j] == i;
    r
  }

  /** Two lines of the same product are offered the same leading codes: the selection for
      the smaller quantity is a prefix of the one for the larger. */
  lemma SameProductOverlap(codes: seq<ProductCode>, p: ProductId, n1: nat, n2: nat)
    requires n1 <= n2
    ensures SelectCodes(codes, p, n1) == SelectCodes(codes, p, n2)[..|SelectCodes(codes, p, n1)|]
  {
  }

  /** An automatically delivered line whose product has fewer unredeemed codes than its
      quantity. */
  predicate Short(it: OrderItem, products: map<ProductId, Product>, codes: seq<ProductCode>)
    requires it.product in products
  {
    KindOf(it, products) == AutomaticallyDelivered && CountUnredeemed(codes, it.product) < it.quantity
  }

  /** A line is short exactly when the `codes.length !== quantity` test on its selection
      fires. */
  lemma ShortMeansSelectionShort(it: OrderItem, products: map<ProductId, Product>, codes: seq<ProductCode>)
    requires it.product in products
    ensures Short(it, products, codes) <==>
      KindOf(it, products) == AutomaticallyDelivered && |SelectCodes(codes, it.product, it.quantity)| != it.quantity
  {
  }

  /** The first line that falls short, if any. */
  function FirstShortfall(items: seq<OrderItem>, products: map<ProductId, Product>, codes: seq<ProductCode>): (r: Option<nat>)
    requires ItemsKnown(items, products)
    ensures r.Some? ==> r.value < |items| && Short(items[r.value], products, codes)
    ensures r.Some? ==> forall j :: 0 <= j < r.value ==> !Short(items[j], products, codes)
    ensures r.None? <==> forall j :: 0 <= j < |items| ==> !Short(items[j], products, codes)
  {
    if |items| == 0 then None
    else if Short(items[0], products, codes) then Some(0)
    else
      var rest := FirstShortfall(items[1..], products, codes);
      assert forall j :: 1 <= j < |items| ==> items[j] == items[1..][j - 1];
      if rest.None? then None else Some(rest.value + 1)
  }

  /** The line found by scanning up to the first short one is the first shortfall. */
  lemma FirstShortfallAt(items: seq<OrderItem>, products: map<ProductId, Product>, codes: seq<ProductCode>, i: nat)
    requires ItemsKnown(items, products) && i < |items|
    requires forall j :: 0 <= j < i ==> !Short(items[j], products, codes)
    requires Short(items[i], products, codes)
    ensures FirstShortfall(items, products, codes) == Some(i)
  {
  }

  // ---- the operator notice for manually delivered lines ----

  /** `User.findOne({privilegeLevel: {$gte: 3}}).sort({createdAt: -1})`: the operator
      created last (of equal dates, the later in the collection). */
  function LatestOperator(users: seq<User>): (r: Option<User>)
    ensures r.Some? ==> r.value in users && r.value.privilegeLevel >= TrustedLevel
    ensures r.Some? ==> forall u :: u in users && u.privilegeLevel >= TrustedLevel ==> u.createdAt <= r.value.createdAt
    ensures r.None? <==> forall u :: u in users ==> u.privilegeLevel < TrustedLevel
  {
    if |users| == 0 then None
    else
      var prev := LatestOperator(users[..|users| - 1]);
      var u := users[|users| - 1];
      assert forall v :: v in users <==> v in users[..|users| - 1] || v == u;
      if u.privilegeLevel >= TrustedLevel && (prev.None? || u.createdAt >= prev.value.createdAt) then Some(u)
      else prev
  }

  /** The operator who is told about manual lines is one the admin gate lets in. */
  lemma OperatorIsAdmin(users: seq<User>)
    requires LatestOperator(users).Some?
    ensures AdminGate(LatestOperator(users).value).CallNext?
  {
  }

  function ManualNotice(it: OrderItem, products: map<ProductId, Product>, operator: User, buyer: string): Mail
    requires it.product in products
  {
    ShipRequest(operator.email, products[it.product].name, it.quantity, buyer)
  }

  function ManualCount(items: seq<OrderItem>, products: map<ProductId, Product>): nat
    requires ItemsKnown(items, products)
  {
    if |items| == 0 then 0
    else ManualCount(items[..|items| - 1], products) + (if KindOf(items[|items| - 1], products) == ManuallyDelivered then 1 else 0)
  }

  /** One notice to the operator per manually delivered line, in line order; none at all
      when there is no operator. */
  function ManualNotices(items: seq<OrderItem>, products: map<ProductId, Product>, operator: Option<User>,
                         buyer: string): seq<Mail>
    requires ItemsKnown(items, products)
  {
    if |items| == 0 then []
    else
      var prev := ManualNotices(items[..|items| - 1], products, operator, buyer);
      var it := items[|items| - 1];
      if KindOf(it, products) == ManuallyDelivered && operator.Some? then prev + [ManualNotice(it, products, operator.value, buyer)]
      else prev
  }

  /** The operator gets one notice per manual line, all telling where to ship; with no
      operator nobody is told. */
  lemma {:induction false} ManualNoticesShape(items: seq<OrderItem>, products: map<ProductId, Product>,
                                              operator: Option<User>, buyer: string)
    requires ItemsKnown(items, products)
    ensures var r := ManualNotices(items, products, operator, buyer);
      && |r| == (if operator.Some? then ManualCount(items, products) else 0)
      && forall k :: 0 <= k < |r| ==> r[k].ShipRequest? && r[k].to == operator.value.email && r[k].buyer == buyer
    decreases |items|
  {
    if |items| > 0 {
      ManualNoticesShape(items[..|items| - 1], products, operator, buyer);
    }
  }

  // ---- the codes handed out for automatically delivered lines ----

  /** An automatic line with the name of its product and the positions of its codes. */
  datatype Batch = Batch(item: OrderItem, name: string, positions: seq<nat>)

  function AutomaticCount(items: seq<OrderItem>, products: map<ProductId, Product>): nat
    requires ItemsKnown(items, products)
  {
    if |items| == 0 then 0
    else AutomaticCount(items[..|items| - 1], products) + (if KindOf(items[|items| - 1], products) == AutomaticallyDelivered then 1 else 0)
  }

  /** What the first pass collects: one batch per automatically delivered line, in line
      order, each the selection for that line's product and quantity. */
  function Batches(items: seq<OrderItem>, products: map<ProductId, Product>, codes: seq<ProductCode>): seq<Batch>
    requires ItemsKnown(items, products)
  {
    if |items| == 0 then []
    else
      var prev := Batches(items[..|items| - 1], products, codes);
      var it := items[|items| - 1];
      if KindOf(it, products) == AutomaticallyDelivered then
        prev + [Batch(it, products[it.product].name, SelectCodes(codes, it.product, it.quantity))]
      else prev
  }

  /** One batch per automatic line, each that line with its product's name and the
      selection for its product and quantity. */
  lemma {:induction false} BatchesShape(items: seq<OrderItem>, products: map<ProductId, Product>, codes: seq<ProductCode>)
    requires ItemsKnown(items, products)
    ensures var r := Batches(items, products, codes);
      && |r| == AutomaticCount(items, products)
      && forall k :: 0 <= k < |r| ==>
        && r[k].item in items && r[k].item.product in products
        && KindOf(r[k].item, products) == AutomaticallyDelivered
        && r[k].name == products[r[k].item.product].name
        && r[k].positions == SelectCodes(codes, r[k].item.product, r[k].item.quantity)
    decreases |items|
  {
    if |items| > 0 {
      BatchesShape(items[..|items| - 1], products, codes);
      assert forall x :: x in items[..|items| - 1] ==> x in items;
    }
  }

  /** With no line falling short, every automatic line gets exactly its quantity of codes. */
  lemma FilledBatches(items: seq<OrderItem>, products: map<ProductId, Product>, codes: seq<ProductCode>)
    requires ItemsKnown(items, products) && FirstShortfall(items, products, codes).None?
    ensures forall b :: b in Batches(items, products, codes) ==> |b.positions| == b.item.quantity
  {
    var bs := Batches(items, products, codes);
    BatchesShape(items, products, codes);
    forall b | b in bs
      ensures |b.positions| == b.item.quantity
    {
      var k :| 0 <= k < |bs| && bs[k] == b;
      var j :| 0 <= j < |items| && items[j] == b.item;
      assert !Short(items[j], products, codes);
    }
  }

  function PosSet(s: seq<nat>): set<nat>
  {
    set m | 0 <= m < |s| :: s[m]
  }

  /** Every code position some batch hands out. */
  function Picked(bs: seq<Batch>): set<nat>
  {
    if |bs| == 0 then {} else Picked(bs[..|bs| - 1]) + PosSet(bs[|bs| - 1].positions)
  }

  /** The codes after marking those at the positions in `s` redeemed. */
  function RedeemSet(codes: seq<ProductCode>, s: set<nat>): seq<ProductCode>
  {
    seq(|codes|, i requires 0 <= i < |codes| => if i in s then codes[i].(redeemed := true) else codes[i])
  }

  function CodeStrings(codes: seq<ProductCode>, positions: seq<nat>): seq<string>
    requires forall m :: 0 <= m < |positions| ==> positions[m] < |codes|
  {
    seq(|positions|, m requires 0 <= m < |positions| => codes[positions[m]].code)
  }

  predicate PositionsIn(bs: seq<Batch>, n: nat)
  {
    forall k, m :: 0 <= k < |bs| && 0 <= m < |bs[k].positions| ==> bs[k].positions[m] < n
  }

  /** Every batch points at codes that exist. */
  lemma BatchesIn(items: seq<OrderItem>, products: map<ProductId, Product>, codes: seq<ProductCode>)
    requires ItemsKnown(items, products)
    ensures PositionsIn(Batches(items, products, codes), |codes|)
  {
    var bs := Batches(items, products, codes);
    BatchesShape(items, products, codes);
    forall k, m | 0 <= k < |bs| && 0 <= m < |bs[k].positions|
      ensures bs[k].positions[m] < |codes|
    {
      var sel := SelectCodes(codes, bs[k].item.product, bs[k].item.quantity);
      assert bs[k].positions == sel;
    }
  }

  function CodeMail(buyer: string, b: Batch, codes: seq<ProductCode>): Mail
    requires forall m :: 0 <= m < |b.positions| ==> b.positions[m] < |codes|
  {
    CodesMail(buyer, b.name, CodeStrings(codes, b.positions))
  }

  /** One e-mail to the buyer per batch, in batch order. */
  function CodeMails(buyer: string, bs: seq<Batch>, codes: seq<ProductCode>): seq<Mail>
    requires PositionsIn(bs, |codes|)
  {
    seq(|bs|, k requires 0 <= k < |bs| => CodeMail(buyer, bs[k], codes))
  }

  // ---- the wording of the e-mails ----

  const StockoutSubject: string := "Order could not be satisfied due to lack of stock."
  const StockoutText: string :=
    "Your order could not be satisfied due to lack of stock. A refund has been issued to your original payment method."

  /** The e-mail `sendMail` is given for a recorded message. */
  function Render(m: Mail): (r: Email)
    ensures r.to == m.to
  {
    match m
    case ShipRequest(to, name, quantity, buyer) =>
      Email(to, "Order received for " + name + " x " + Decimal(quantity), "Please ship order to " + buyer)
    case CodesMail(to, name, strs) => Email(to, "Your codes for " + name, CodesMessage(name, strs))
    case StockoutNotice(to) => Email(to, StockoutSubject, StockoutText)
  }

  // ---- what redemption does to the stock ----

  /** Redeeming the positions in `s` removes from a product's stock exactly its codes that
      were still available there. */
  lemma RedeemSetCount(codes: seq<ProductCode>, s: set<nat>, p: ProductId)
    ensures CountUnredeemed(RedeemSet(codes, s), p) == CountUnredeemed(codes, p) - |s * AvailablePositions(codes, p)|
  {
    var a := AvailablePositions(codes, p);
    CountIsPositionCount(codes, p);
    CountIsPositionCount(RedeemSet(codes, s), p);
    assert AvailablePositions(RedeemSet(codes, s), p) == a - s;
    assert a == (a - s) + (s * a);
    assert (a - s) * (s * a) == {};
  }

  /** Automatically delivered lines name pairwise different products. */
  predicate DistinctAutomatic(items: seq<OrderItem>, products: map<ProductId, Product>)
    requires ItemsKnown(items, products)
  {
    forall j, k ::
      (0 <= j < k < |items| && KindOf(items[j], products) == AutomaticallyDelivered
       && KindOf(items[k], products) == AutomaticallyDelivered) ==> items[j].product != items[k].product
  }

  /** The automatic line for product `p`, if there is one. */
  function LineFor(items: seq<OrderItem>, products: map<ProductId, Product>, p: ProductId): (r: Option<OrderItem>)
    requires ItemsKnown(items, products)
    ensures r.Some? ==> r.value in items && r.value.product == p && KindOf(r.value, products) == AutomaticallyDelivered
    ensures r.None? ==> forall k :: 0 <= k < |items| && KindOf(items[k], products) == AutomaticallyDelivered ==> items[k].product != p
  {
    if |items| == 0 then None
    else
      var it := items[|items| - 1];
      if KindOf(it, products) == AutomaticallyDelivered && it.product == p then Some(it)
      else
        var prev := LineFor(items[..|items| - 1], products, p);
        assert forall x :: x in items[..|items| - 1] ==> x in items;
        prev
  }

  /** A selection for product `q` meets the available codes of `p` only when `q` is `p`. */
  lemma SelectionMeetsProduct(codes: seq<ProductCode>, q: ProductId, n: nat, p: ProductId)
    ensures PosSet(SelectCodes(codes, q, n)) * AvailablePositions(codes, p) ==
      if q == p then PosSet(SelectCodes(codes, q, n)) else {}
  {
    var sel := SelectCodes(codes, q, n);
    forall i | i in PosSet(sel)
      ensures i in AvailablePositions(codes, p) <==> q == p
    {
      var m :| 0 <= m < |sel| && sel[m] == i;
    }
  }

  lemma PickedBatchesSnoc(items: seq<OrderItem>, products: map<ProductId, Product>, codes: seq<ProductCode>)
    requires ItemsKnown(items, products) && |items| > 0
    ensures var it := items[|items| - 1];
      Picked(Batches(items, products, codes)) == Picked(Batches(items[..|items| - 1], products, codes))
        + (if KindOf(it, products) == AutomaticallyDelivered then PosSet(SelectCodes(codes, it.product, it.quantity)) else {})
  {
    var it := items[|items| - 1];
    if KindOf(it, products) == AutomaticallyDelivered {
      var bs := Batches(items, products, codes);
      assert bs[..|bs| - 1] == Batches(items[..|items| - 1], products, codes);
    }
  }

  /** The picked positions that hold available codes of `p` are exactly the selection of
      `p`'s own line: the other lines pick codes of other products. */
  lemma {:induction false} PickedForProduct(items: seq<OrderItem>, products: map<ProductId, Product>,
                                            codes: seq<ProductCode>, p: ProductId)
    requires ItemsKnown(items, products) && DistinctAutomatic(items, products)
    ensures var line := LineFor(items, products, p);
      Picked(Batches(items, products, codes)) * AvailablePositions(codes, p) ==
        if line.Some? then PosSet(SelectCodes(codes, p, line.value.quantity)) else {}
    decreases |items|
  {
    if |items| > 0 {
      var n := |items|;
      var pre := items[..n - 1];
      var it := items[n - 1];
      assert DistinctAutomatic(pre, products);
      PickedForProduct(pre, products, codes, p);
      PickedBatchesSnoc(items, products, codes);
      var a := AvailablePositions(codes, p);
      var before := Picked(Batches(pre, products, codes));
      if KindOf(it, products) == AutomaticallyDelivered {
        var sel := PosSet(SelectCodes(codes, it.product, it.quantity));
        SelectionMeetsProduct(codes, it.product, it.quantity, p);
        assert (before + sel) * a == before * a + sel * a;
        if it.product == p {
          assert LineFor(items, products, p) == Some(it);
          assert LineFor(pre, products, p).None?;
        }
      }
    }
  }

  /** When no line falls short and the automatic lines name different products, delivery
      lowers each such product's stock by exactly its line's quantity, and leaves the stock
      of every other product as it was. */
  lemma DeliveryRedeemsQuantity(items: seq<OrderItem>, products: map<ProductId, Product>,
                                codes: seq<ProductCode>, p: ProductId)
    requires ItemsKnown(items, products) && DistinctAutomatic(items, products)
    requires FirstShortfall(items, products, codes).None?
    ensures var line := LineFor(items, products, p);
      CountUnredeemed(RedeemSet(codes, Picked(Batches(items, products, codes))), p) ==
        CountUnredeemed(codes, p) - (if line.Some? then line.value.quantity else 0)
  {
    var line := LineFor(items, products, p);
    RedeemSetCount(codes, Picked(Batches(items, products, codes)), p);
    PickedForProduct(items, products, codes, p);
    if line.Some? {
      var sel := SelectCodes(codes, p, line.value.quantity);
      IncreasingSetSize(sel);
      var j :| 0 <= j < |items| && items[j] == line.value;
      assert !Short(items[j], products, codes);
    }
  }

  /** Every stored order meets the conditions of `DeliveryRedeemsQuantity`: its lines
      name known and pairwise different products. */
  lemma StoredOrderDistinct(orders: seq<Order>, users: seq<User>, products: map<ProductId, Product>, k: nat)
    requires OrdersValid(orders, users, products) && k < |orders|
    ensures ItemsKnown(orders[k].items, products) && DistinctAutomatic(orders[k].items, products)
  {
    assert ItemsValid(orders[k].items, products) && DistinctProducts(orders[k].items);
  }

  /** Delivering a stored order that no line falls short for lowers each of its
      automatically delivered products' stock by that line's quantity, and no other stock. */
  lemma StoredOrderRedeemsQuantity(orders: seq<Order>, users: seq<User>, products: map<ProductId, Product>,
                                   codes: seq<ProductCode>, k: nat, p: ProductId)
    requires OrdersValid(orders, users, products) && k < |orders|
    requires ItemsKnown(orders[k].items, products)
    requires FirstShortfall(orders[k].items, products, codes).None?
    ensures var items := orders[k].items;
      var line := LineFor(items, products, p);
      CountUnredeemed(RedeemSet(codes, Picked(Batches(items, products, codes))), p) ==
        CountUnredeemed(codes, p) - (if line.Some? then line.value.quantity else 0)
  {
    StoredOrderDistinct(orders, users, products, k);
    DeliveryRedeemsQuantity(orders[k].items, products, codes, p);
  }

  /** `StoredOrderRedeemsQuantity` for every product at once. */
  lemma StoredOrderStock(orders: seq<Order>, users: seq<User>, products: map<ProductId, Product>,
                         codes: seq<ProductCode>, k: nat)
    requires OrdersValid(orders, users, products) && k < |orders|
    requires ItemsKnown(orders[k].items, products)
    ensures var items := orders[k].items;
      FirstShortfall(items, products, codes).None? ==>
        forall p :: CountUnredeemed(RedeemSet(codes, Picked(Batches(items, products, codes))), p) ==
          CountUnredeemed(codes, p) - (if LineFor(items, products, p).Some? then LineFor(items, products, p).value.quantity else 0)
  {
    if FirstShortfall(orders[k].items, products, codes).None? {
      forall p | true
        ensures var items := orders[k].items;
          CountUnredeemed(RedeemSet(codes, Picked(Batches(items, products, codes))), p) ==
            CountUnredeemed(codes, p) - (if LineFor(items, products, p).Some? then LineFor(items, products, p).value.quantity else 0)
      {
        StoredOrderRedeemsQuantity(orders, users, products, codes, k, p);
      }
    }
  }

  // ---- handleDelivery ----

  function BuyerEmail(users: seq<User>, creator: UserId): string
    requires creator in UserIds(users)
  {
    users[FindUser(users, creator).value].email
  }

  lemma RedeemOne(codes: seq<ProductCode>, s: set<nat>, pos: nat)
    requires pos < |codes|
    ensures RedeemSet(codes, s)[pos := RedeemSet(codes, s)[pos].(redeemed := true)] == RedeemSet(codes, s + {pos})
  {
  }

  lemma PickedSnoc(bs: seq<Batch>, b: Batch)
    ensures Picked(bs + [b]) == Picked(bs) + PosSet(b.positions)
  {
    assert (bs + [b])[..|bs|] == bs;
  }

  /** The codes e-mail body, built line by line as `handleDelivery` builds it. */
  method ComposeCodesMessage(name: string, strs: seq<string>) returns (message: string)
    ensures message == CodesMessage(name, strs)
  {
    message := CodesHeader(name) + "\n" + DividerLine;
    var m := 0;
    while m < |strs|
      invariant 0 <= m <= |strs|
      invariant message == CodesHeader(name) + "\n" + DividerLine + Lines(strs[..m])
    {
      assert strs[..m + 1] == strs[..m] + [strs[m]];
      LinesSnoc(strs[..m], strs[m]);
      message := message + strs[m] + "\n";
      m := m + 1;
    }
    assert strs[..m] == strs;
    message := message + DividerLine;
  }

  /** Marking redeemed in two rounds is marking the union at once. */
  lemma RedeemSetUnion(codes: seq<ProductCode>, s: set<nat>, t: set<nat>)
    ensures RedeemSet(RedeemSet(codes, s), t) == RedeemSet(codes, s + t)
  {
  }

  /** `code.redeemed = true` for every code of one batch. */
  method RedeemBatch(l: Ledger, positions: seq<nat>)
    requires forall m :: 0 <= m < |positions| ==> positions[m] < |l.codes|
    modifies l`codes
    ensures l.codes == RedeemSet(old(l.codes), PosSet(positions))
  {
    var m := 0;
    while m < |positions|
      invariant 0 <= m <= |positions|
      invariant l.codes == RedeemSet(old(l.codes), PosSet(positions[..m]))
    {
      var pos := positions[m];
      RedeemOne(old(l.codes), PosSet(positions[..m]), pos);
      assert PosSet(positions[..m + 1]) == PosSet(positions[..m]) + {pos} by {
        assert positions[..m + 1] == positions[..m] + [pos];
      }
      l.codes := l.codes[pos := l.codes[pos].(redeemed := true)];
      m := m + 1;
    }
    assert positions[..m] == positions;
  }

  /** The second pass of `handleDelivery`: per batch, one e-mail to the buyer with its
      codes, then the codes are redeemed. */
  method SendCodes(l: Ledger, batches: seq<Batch>, buyer: string)
    requires PositionsIn(batches, |l.codes|)
    modifies l`codes, l`outbox
    ensures l.outbox == old(l.outbox) + CodeMails(buyer, batches, old(l.codes))
    ensures l.codes == RedeemSet(old(l.codes), Picked(batches))
  {
    var codes0 := l.codes;
    var j := 0;
    while j < |batches|
      invariant 0 <= j <= |batches|
      invariant codes0 == old(l.codes)
      invariant |l.codes| == |old(l.codes)|
      invariant l.outbox == old(l.outbox) + CodeMails(buyer, batches[..j], old(l.codes))
      invariant l.codes == RedeemSet(old(l.codes), Picked(batches[..j]))
    {
      var b := batches[j];
      assert CodeMails(buyer, batches[..j + 1], old(l.codes)) ==
        CodeMails(buyer, batches[..j], old(l.codes)) + [CodeMail(buyer, b, old(l.codes))];
      l.outbox := l.outbox + [CodesMail(buyer, b.name, CodeStrings(codes0, b.positions))];
      RedeemBatch(l, b.positions);
      RedeemSetUnion(old(l.codes), Picked(batches[..j]), PosSet(b.positions));
      assert batches[..j + 1] == batches[..j] + [b];
      PickedSnoc(batches[..j], b);
      j := j + 1;
    }
    assert batches[..j] == batches;
  }

  /** The first pass of `handleDelivery` over the order lines: a manual line notifies the
      operator, an automatic line selects its codes, and the first automatic line that falls
      short ends the pass. It reports that line, or the batches when there is none. */
  /** One more line extends the notices and the batches by that line's own part. */
  lemma PassStep(items: seq<OrderItem>, products: map<ProductId, Product>, codes: seq<ProductCode>,
                 operator: Option<User>, buyer: string, i: nat)
    requires ItemsKnown(items, products) && i < |items|
    ensures ItemsKnown(items[..i], products) && ItemsKnown(items[..i + 1], products)
    ensures ManualNotices(items[..i + 1], products, operator, buyer) ==
      ManualNotices(items[..i], products, operator, buyer)
      + (if KindOf(items[i], products) == ManuallyDelivered && operator.Some?
         then [ManualNotice(items[i], products, operator.value, buyer)] else [])
    ensures Batches(items[..i + 1], products, codes) ==
      Batches(items[..i], products, codes)
      + (if KindOf(items[i], products) == AutomaticallyDelivered
         then [Batch(items[i], products[items[i].product].name, SelectCodes(codes, items[i].product, items[i].quantity))]
         else [])
  {
    assert items[..i + 1][..i] == items[..i];
    assert items[..i + 1][i] == items[i];
  }

  method FirstPass(l: Ledger, items: seq<OrderItem>, buyer: string) returns (short: Option<nat>, batches: seq<Batch>)
    requires ItemsKnown(items, l.products)
    modifies l`outbox
    ensures short == FirstShortfall(items, l.products, l.codes)
    ensures short.Some? ==>
      l.outbox == old(l.outbox) + ManualNotices(items[..short.value], l.products, LatestOperator(l.users), buyer)
    ensures short.None? ==>
      && l.outbox == old(l.outbox) + ManualNotices(items, l.products, LatestOperator(l.users), buyer)
      && batches == Batches(items, l.products, l.codes)
      && PositionsIn(batches, |l.codes|)
  {
    batches := [];
    var i := 0;
    while i < |items|
      invariant 0 <= i <= |items|
      invariant forall j :: 0 <= j < i ==> !Short(items[j], l.products, l.codes)
      invariant l.outbox == old(l.outbox) + ManualNotices(items[..i], l.products, LatestOperator(l.users), buyer)
      invariant batches == Batches(items[..i], l.products, l.codes)
    {
      var it := items[i];
      var p := l.products[it.product];
      PassStep(items, l.products, l.codes, LatestOperator(l.users), buyer, i);
      if p.kind == ManuallyDelivered {
        var admin := LatestOperator(l.users);
        if admin.Some? {
          l.outbox := l.outbox + [ManualNotice(it, l.products, admin.value, buyer)];
        }
      } else if p.kind == AutomaticallyDelivered {
        var selected := SelectCodes(l.codes, it.product, it.quantity);
        if |selected| != it.quantity {
          FirstShortfallAt(items, l.products, l.codes, i);
          return Some(i), batches;
        }
        batches := batches + [Batch(it, p.name, selected)];
      }
      i := i + 1;
    }
    assert items[..i] == items;
    BatchesIn(items, l.products, l.codes);
    short := None;
  }

  /** What `handleDelivery` does with the lines of an order whose buyer is `buyer` and
      whose payment is `paymentId`. The first line that falls short refunds the payment,
      tells the buyer and stops with no code redeemed; otherwise every batch is e-mailed to
      the buyer and its codes redeemed. */
  method Deliver(l: Ledger, items: seq<OrderItem>, paymentId: string, buyer: string)
    requires ItemsKnown(items, l.products)
    modifies l`codes, l`gatewayLog, l`outbox
    ensures var short := FirstShortfall(items, l.products, old(l.codes));
      short.Some? ==>
        && l.gatewayLog == old(l.gatewayLog) + [Refund(paymentId)]
        && l.outbox == old(l.outbox) + ManualNotices(items[..short.value], l.products, LatestOperator(l.users), buyer)
                       + [StockoutNotice(buyer)]
        && l.codes == old(l.codes)
    ensures var bs := Batches(items, l.products, old(l.codes));
      FirstShortfall(items, l.products, old(l.codes)).None? ==>
        && PositionsIn(bs, |old(l.codes)|)
        && l.gatewayLog == old(l.gatewayLog)
        && l.outbox == old(l.outbox) + ManualNotices(items, l.products, LatestOperator(l.users), buyer)
                       + CodeMails(buyer, bs, old(l.codes))
        && l.codes == RedeemSet(old(l.codes), Picked(bs))
  {
    var short, batches := FirstPass(l, items, buyer);
    if short.Some? {
      l.gatewayLog := l.gatewayLog + [Refund(paymentId)];
      l.outbox := l.outbox + [StockoutNotice(buyer)];
    } else {
      SendCodes(l, batches, buyer);
    }
  }

  /** The closing `order.status = 'DELIVERED'`, which also retires the delivery job. */
  method MarkDelivered(l: Ledger, orderId: OrderId, k: nat)
    requires l.Valid() && orderId in l.deliveryJobs && FindOrder(l.orders, orderId) == Some(k)
    modifies l`orders, l`deliveryJobs
    ensures l.Valid()
    ensures l.orders == old(l.orders)[k := old(l.orders)[k].(status := Delivered)]
    ensures l.deliveryJobs == old(l.deliveryJobs) - {orderId}
  {
    var o := l.orders[k];
    OrderUpdateKeepsValid(l.orders, l.users, l.products, l.deliveryJobs, k, o.(status := Delivered));
    OrderIdsAfterUpdate(l.orders, k, o.(status := Delivered));
    l.orders := l.orders[k := o.(status := Delivered)];
    l.deliveryJobs := l.deliveryJobs - {orderId};
  }

  /** `handleDelivery` for a queued order: `Deliver` on its lines, buyer and payment;
      either way the order ends DELIVERED with nothing else about it changed, and its
      delivery job is done. */
  method HandleDelivery(l: Ledger, orderId: OrderId)
    requires l.Valid() && orderId in l.deliveryJobs
    modifies l`orders, l`codes, l`deliveryJobs, l`gatewayLog, l`outbox
    ensures l.Valid()
    ensures var k := FindOrder(old(l.orders), orderId).value;
      var o := old(l.orders)[k];
      && l.orders == old(l.orders)[k := o.(status := Delivered)]
      && l.deliveryJobs == old(l.deliveryJobs) - {orderId}
    ensures var o := old(l.orders)[FindOrder(old(l.orders), orderId).value];
      var buyer := BuyerEmail(l.users, o.creator);
      var short := FirstShortfall(o.items, l.products, old(l.codes));
      short.Some? ==>
        && l.gatewayLog == old(l.gatewayLog) + [Refund(o.paymentAttempt.value.paymentId)]
        && l.outbox == old(l.outbox) + ManualNotices(o.items[..short.value], l.products, LatestOperator(l.users), buyer)
                       + [StockoutNotice(buyer)]
        && l.codes == old(l.codes)
    ensures var o := old(l.orders)[FindOrder(old(l.orders), orderId).value];
      var buyer := BuyerEmail(l.users, o.creator);
      var bs := Batches(o.items, l.products, old(l.codes));
      FirstShortfall(o.items, l.products, old(l.codes)).None? ==>
        && PositionsIn(bs, |old(l.codes)|)
        && l.gatewayLog == old(l.gatewayLog)
        && l.outbox == old(l.outbox) + ManualNotices(o.items, l.products, LatestOperator(l.users), buyer)
                       + CodeMails(buyer, bs, old(l.codes))
        && l.codes == RedeemSet(old(l.codes), Picked(bs))
    ensures var o := old(l.orders)[FindOrder(old(l.orders), orderId).value];
      FirstShortfall(o.items, l.products, old(l.codes)).None? ==>
        forall p :: CountUnredeemed(l.codes, p) ==
          CountUnredeemed(old(l.codes), p) - (if LineFor(o.items, l.products, p).Some? then LineFor(o.items, l.products, p).value.quantity else 0)
  {
    assert HasPaymentAttempt(l.orders, orderId);
    var k := FindOrder(l.orders, orderId).value;
    var o := l.orders[k];
    assert ItemsValid(o.items, l.products) && o.creator in UserIds(l.users);
    StoredOrderStock(l.orders, l.users, l.products, l.codes, k);
    var buyer := BuyerEmail(l.users, o.creator);
    Deliver(l, o.items, o.paymentAttempt.value.paymentId, buyer);
    MarkDelivered(l, orderId, k);
  }

  // ---- the pending-transaction reconciliation ----

  /** The order after a reconciliation that read `gatewayStatus`: the attempt takes the
      status; a confirmed payment marks the order paid, any other status leaves it. */
  function Reconcile(o: Order, gatewayStatus: string): (r: Order)
    requires o.paymentAttempt.Some?
    ensures r.paymentAttempt == Some(o.paymentAttempt.value.(status := gatewayStatus))
    ensures r.status == if Confirmed(gatewayStatus) then PaidAwaitingShipment else o.status
    ensures r.(paymentAttempt := o.paymentAttempt, status := o.status) == o
  {
    o.(paymentAttempt := Some(o.paymentAttempt.value.(status := gatewayStatus)),
       status := if Confirmed(gatewayStatus) then PaidAwaitingShipment else o.status)
  }

  /** Reconciling twice with the same gateway answer is reconciling once. */
  lemma ReconcileIdempotent(o: Order, gatewayStatus: string)
    requires o.paymentAttempt.Some?
    ensures Reconcile(Reconcile(o, gatewayStatus), gatewayStatus) == Reconcile(o, gatewayStatus)
  {
  }

  /** A payment that was not yet confirmed at checkout and is confirmed by a later check
      leaves the order exactly as an immediate confirmation would have. */
  lemma LateConfirmationMatchesImmediate(o: Order, paymentId: string, first: string, later: string)
    requires !Confirmed(first) && Confirmed(later)
    ensures Reconcile(AttachPayment(o, paymentId, first), later) == AttachPayment(o, paymentId, later)
  {
  }

  /** The check stays scheduled after delivery, so a later poll that still reads a
      confirmed payment takes a delivered order back to awaiting shipment (and
      `CheckPendingTx` queues its delivery again). */
  lemma RepollUndoesDelivery(o: Order, gatewayStatus: string)
    requires o.paymentAttempt.Some? && o.status == Delivered && Confirmed(gatewayStatus)
    ensures Reconcile(o, gatewayStatus).status == PaidAwaitingShipment
    ensures Reconcile(o, gatewayStatus).items == o.items
  {
  }

  predicate Terminal(status: string)
  {
    status == "refunded" || status == "failed"
  }

  /** The `CHECK_PENDING_TX` worker for a scheduled order; `gatewayStatus` is what the
      gateway reports for its payment id. The job fails and nothing changes when the order
      has no attempt (reading its payment id throws) or when the status is empty (the save
      rejects it, as the attempt's status is required). Otherwise a confirmed payment queues
      delivery and keeps the check scheduled; a refunded or failed one unschedules the
      check; any other status changes nothing but the recorded status. */
  method CheckPendingTx(l: Ledger, orderId: OrderId, gatewayStatus: string) returns (saved: bool)
    requires l.Valid() && orderId in l.checkJobs
    modifies l`orders, l`deliveryJobs, l`checkJobs
    ensures l.Valid()
    ensures saved <==>
      old(l.orders)[FindOrder(old(l.orders), orderId).value].paymentAttempt.Some? && gatewayStatus != ""
    ensures !saved ==>
      l.orders == old(l.orders) && l.deliveryJobs == old(l.deliveryJobs) && l.checkJobs == old(l.checkJobs)
    ensures saved ==>
      var k := FindOrder(old(l.orders), orderId).value;
      l.orders == old(l.orders)[k := Reconcile(old(l.orders)[k], gatewayStatus)]
    ensures saved && Confirmed(gatewayStatus) ==>
      l.deliveryJobs == old(l.deliveryJobs) + {orderId} && l.checkJobs == old(l.checkJobs)
    ensures saved && Terminal(gatewayStatus) ==>
      l.checkJobs == old(l.checkJobs) - {orderId} && l.deliveryJobs == old(l.deliveryJobs)
    ensures !Confirmed(gatewayStatus) && !Terminal(gatewayStatus) ==>
      l.checkJobs == old(l.checkJobs) && l.deliveryJobs == old(l.deliveryJobs)
  {
    var k := FindOrder(l.orders, orderId).value;
    if l.orders[k].paymentAttempt.None? || gatewayStatus == "" {
      return false;
    }
    var o := Reconcile(l.orders[k], gatewayStatus);
    OrderUpdateKeepsValid(l.orders, l.users, l.products, l.deliveryJobs, k, o);
    OrderIdsAfterUpdate(l.orders, k, o);
    if Confirmed(gatewayStatus) {
      l.deliveryJobs := l.deliveryJobs + {orderId};
    } else if Terminal(gatewayStatus) {
      l.checkJobs := l.checkJobs - {orderId};
    }
    l.orders := l.orders[k := o];
    assert HasPaymentAttempt(l.orders, orderId);
    return true;
  }
}
