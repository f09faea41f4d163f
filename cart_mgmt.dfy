/** The shopping cart (warehouse/routes/cart-mgmt.js): one row per (user, product) pair,
    each with a positive quantity. */
module CartMgmt {
  import opened Common
  import opened Json
  import opened Models
  import opened Responses
  import opened Store
  import opened PublicDisplay

  // ---- what a cart holds ----

  /** What one row contributes to the quantity of the pair (u, p). */
  function Contribution(row: CartRow, u: UserId, p: ProductId): nat
  {
    if row.user == u && row.product == p then row.quantity else 0
  }

  /** The quantity of product `p` in the cart of user `u`, summed over all rows. */
  function PairQuantity(cart: seq<CartRow>, u: UserId, p: ProductId): nat
  {
    if |cart| == 0 then 0
    else PairQuantity(cart[..|cart| - 1], u, p) + Contribution(cart[|cart| - 1], u, p)
  }

  lemma {:induction false} PairQuantityAppend(a: seq<CartRow>, b: seq<CartRow>, u: UserId, p: ProductId)
    ensures PairQuantity(a + b, u, p) == PairQuantity(a, u, p) + PairQuantity(b, u, p)
    decreases |b|
  {
    if |b| == 0 {
      assert a + b == a;
    } else {
      assert (a + b)[..|a + b| - 1] == a + b[..|b| - 1];
      PairQuantityAppend(a, b[..|b| - 1], u, p);
    }
  }

  /** A cart with no row for the pair holds none of it. */
  lemma {:induction false} NoRowNoQuantity(cart: seq<CartRow>, u: UserId, p: ProductId)
    requires forall i :: 0 <= i < |cart| ==> cart[i].user != u || cart[i].product != p
    ensures PairQuantity(cart, u, p) == 0
    decreases |cart|
  {
    if |cart| > 0 {
      NoRowNoQuantity(cart[..|cart| - 1], u, p);
    }
  }

  /** With one row per pair, the quantity of a row's pair is that row's quantity. */
  lemma RowIsPairQuantity(cart: seq<CartRow>, k: nat)
    requires OneRowPerPair(cart) && k < |cart|
    ensures PairQuantity(cart, cart[k].user, cart[k].product) == cart[k].quantity
  {
    var u, p := cart[k].user, cart[k].product;
    assert cart == cart[..k] + [cart[k]] + cart[k + 1..];
    PairQuantityAppend(cart[..k] + [cart[k]], cart[k + 1..], u, p);
    PairQuantityAppend(cart[..k], [cart[k]], u, p);
    assert [cart[k]][..0] == [];
    NoRowNoQuantity(cart[..k], u, p);
    NoRowNoQuantity(cart[k + 1..], u, p);
  }

  /** The contribution of the rest of the cart is untouched by replacing row `k`. */
  lemma PairQuantityAfterUpdate(cart: seq<CartRow>, k: nat, row: CartRow, u: UserId, p: ProductId)
    requires k < |cart|
    ensures PairQuantity(cart[k := row], u, p) ==
      PairQuantity(cart, u, p) - Contribution(cart[k], u, p) + Contribution(row, u, p)
  {
    assert cart == cart[..k] + [cart[k]] + cart[k + 1..];
    assert cart[k := row] == cart[..k] + [row] + cart[k + 1..];
    PairQuantityAppend(cart[..k] + [cart[k]], cart[k + 1..], u, p);
    PairQuantityAppend(cart[..k], [cart[k]], u, p);
    PairQuantityAppend(cart[..k] + [row], cart[k + 1..], u, p);
    PairQuantityAppend(cart[..k], [row], u, p);
    assert [cart[k]][..0] == [] && [row][..0] == [];
  }

  lemma PairQuantityAfterRemove(cart: seq<CartRow>, k: nat, u: UserId, p: ProductId)
    requires k < |cart|
    ensures PairQuantity(cart[..k] + cart[k + 1..], u, p) == PairQuantity(cart, u, p) - Contribution(cart[k], u, p)
  {
    assert cart == cart[..k] + [cart[k]] + cart[k + 1..];
    PairQuantityAppend(cart[..k] + [cart[k]], cart[k + 1..], u, p);
    PairQuantityAppend(cart[..k], [cart[k]], u, p);
    PairQuantityAppend(cart[..k], cart[k + 1..], u, p);
    assert [cart[k]][..0] == [];
  }

  /** The (user, product) pair of every row. */
  function Pairs(cart: seq<CartRow>): seq<(UserId, ProductId)>
  {
    seq(|cart|, i requires 0 <= i < |cart| => (cart[i].user, cart[i].product))
  }

  /** `CartProduct.findOne({user, product})`: the first row of the pair. */
  function FindPairRow(cart: seq<CartRow>, u: UserId, p: ProductId): (r: Option<nat>)
    ensures r.Some? <==> exists i :: 0 <= i < |cart| && cart[i].user == u && cart[i].product == p
    ensures r.Some? ==> r.value < |cart| && cart[r.value].user == u && cart[r.value].product == p
  {
    var r := IndexOf(Pairs(cart), (u, p));
    if r.None? then
      PairAbsent(cart, u, p);
      r
    else r
  }

  lemma PairAbsent(cart: seq<CartRow>, u: UserId, p: ProductId)
    requires (u, p) !in Pairs(cart)
    ensures forall i :: 0 <= i < |cart| ==> cart[i].user != u || cart[i].product != p
  {
    forall i | 0 <= i < |cart|
      ensures cart[i].user != u || cart[i].product != p
    {
      assert Pairs(cart)[i] == (cart[i].user, cart[i].product);
    }
  }

  // ---- addProductToCart ----

  datatype Added = Added(cart: seq<CartRow>, rowId: CartRowId)

  /** The cart after adding `q` of `p` for `u`: the pair's row has its quantity raised,
      or a new row is appended under `newRowId` when the pair had none. */
  function CartAdd(cart: seq<CartRow>, u: UserId, p: ProductId, q: nat, newRowId: CartRowId): (r: Added)
    ensures exists k :: 0 <= k < |r.cart| && r.cart[k].id == r.rowId && r.cart[k].user == u && r.cart[k].product == p
    ensures |r.cart| == |cart| <==> exists i :: 0 <= i < |cart| && cart[i].user == u && cart[i].product == p
    ensures |r.cart| != |cart| ==> r.cart == cart + [CartRow(newRowId, u, p, q)] && r.rowId == newRowId
    ensures FindPairRow(cart, u, p).Some? ==>
      var k := FindPairRow(cart, u, p).value;
      r.rowId == cart[k].id && r.cart == cart[k := cart[k].(quantity := cart[k].quantity + q)]
  {
    var k := FindPairRow(cart, u, p);
    if k.Some? then
      var raised := cart[k.value := cart[k.value].(quantity := cart[k.value].quantity + q)];
      assert raised[k.value].id == cart[k.value].id;
      Added(raised, cart[k.value].id)
    else
      var grown := cart + [CartRow(newRowId, u, p, q)];
      assert grown[|cart|] == CartRow(newRowId, u, p, q);
      Added(grown, newRowId)
  }

  /** Adding raises the quantity of exactly the added pair by exactly the added amount. */
  lemma CartAddQuantity(cart: seq<CartRow>, u: UserId, p: ProductId, q: nat, newRowId: CartRowId,
                        u': UserId, p': ProductId)
    ensures PairQuantity(CartAdd(cart, u, p, q, newRowId).cart, u', p') ==
      PairQuantity(cart, u', p') + (if u' == u && p' == p then q else 0)
  {
    var k := FindPairRow(cart, u, p);
    if k.Some? {
      PairQuantityAfterUpdate(cart, k.value, cart[k.value].(quantity := cart[k.value].quantity + q), u', p');
    } else {
      PairQuantityAppend(cart, [CartRow(newRowId, u, p, q)], u', p');
      assert [CartRow(newRowId, u, p, q)][..0] == [];
    }
  }

  /** Adding a positive quantity of an existing product under a fresh row id keeps the
      cart consistent; the row reported is the pair's row. */
  lemma CartAddKeepsValid(cart: seq<CartRow>, products: map<ProductId, Product>, u: UserId, p: ProductId,
                          q: nat, newRowId: CartRowId)
    requires CartValid(cart, products) && p in products && q >= 1 && newRowId !in RowIds(cart)
    ensures var a := CartAdd(cart, u, p, q, newRowId);
      && CartValid(a.cart, products)
      && a.rowId in RowIds(a.cart)
      && (exists i :: 0 <= i < |a.cart| && a.cart[i].id == a.rowId && a.cart[i].user == u && a.cart[i].product == p)
  {
    var k := FindPairRow(cart, u, p);
    var a := CartAdd(cart, u, p, q, newRowId);
    if k.Some? {
      RowIdsAfterUpdate(cart, k.value, a.cart[k.value]);
      assert a.cart[k.value].id == a.rowId;
      assert RowIds(a.cart)[k.value] == a.rowId;
    } else {
      assert RowIds(a.cart) == RowIds(cart) + [newRowId];
      assert a.cart[|cart|].id == a.rowId;
      assert RowIds(a.cart)[|cart|] == a.rowId;
    }
  }

  /** `addProductToCart`: an unknown product changes nothing; otherwise the cart becomes
      `CartAdd` of the old cart and the handler answers with the row's id. */
  method AddProductToCart(l: Ledger, user: UserId, productId: ProductId, quantity: nat, newRowId: CartRowId)
    returns (r: Result<CartRowId, ErrorCode>)
    requires l.Valid()
    requires quantity >= 1                    // the schema demands a positive quantity
    requires newRowId !in RowIds(l.cart)      // the store hands out a fresh id
    modifies l`cart
    ensures l.Valid()
    ensures productId !in l.products ==> r == Err(NoProductFound) && l.cart == old(l.cart)
    ensures productId in l.products ==>
      var a := CartAdd(old(l.cart), user, productId, quantity, newRowId);
      l.cart == a.cart && r == Ok(a.rowId)
    ensures productId in l.products && FindPairRow(old(l.cart), user, productId).Some? ==>
      var k := FindPairRow(old(l.cart), user, productId).value;
      r == Ok(old(l.cart)[k].id)
      && l.cart == old(l.cart)[k := old(l.cart)[k].(quantity := old(l.cart)[k].quantity + quantity)]
    ensures productId in l.products && FindPairRow(old(l.cart), user, productId).None? ==>
      r == Ok(newRowId) && l.cart == old(l.cart) + [CartRow(newRowId, user, productId, quantity)]
  {
    if productId !in l.products {
      return Err(NoProductFound);
    }
    CartAddKeepsValid(l.cart, l.products, user, productId, quantity, newRowId);
    var k := FindPairRow(l.cart, user, productId);
    if k.Some? {
      var row := l.cart[k.value];
      l.cart := l.cart[k.value := row.(quantity := row.quantity + quantity)];
      return Ok(row.id);
    } else {
      l.cart := l.cart + [CartRow(newRowId, user, productId, quantity)];
      return Ok(newRowId);
    }
  }

  // ---- updateQuantity / deleteCartProduct ----

  /** The cart after the owner `u` sets row `id` to quantity `q`: the missing row makes
      the handler throw, a row of another user is refused, and otherwise only that row's
      quantity changes. */
  function CartUpdate(cart: seq<CartRow>, u: UserId, id: CartRowId, q: nat): (r: Result<seq<CartRow>, ErrorCode>)
    ensures id !in RowIds(cart) <==> r == Err(HandlerThrew)
    ensures r == Err(YouAreUnauthorized) <==>
      id in RowIds(cart) && cart[FindCartRow(cart, id).value].user != u
    ensures r.Ok? ==>
      var k := FindCartRow(cart, id).value;
      && cart[k].user == u
      && r.value == cart[k := cart[k].(quantity := q)]
    ensures id in RowIds(cart) && cart[FindCartRow(cart, id).value].user == u ==> r.Ok?
  {
    var k := FindCartRow(cart, id);
    if k.None? then Err(HandlerThrew)
    else if cart[k.value].user != u then Err(YouAreUnauthorized)
    else Ok(cart[k.value := cart[k.value].(quantity := q)])
  }

  /** The cart after the owner `u` deletes row `id`, with the same refusals. */
  function CartDelete(cart: seq<CartRow>, u: UserId, id: CartRowId): (r: Result<seq<CartRow>, ErrorCode>)
    ensures id !in RowIds(cart) <==> r == Err(HandlerThrew)
    ensures r == Err(YouAreUnauthorized) <==>
      id in RowIds(cart) && cart[FindCartRow(cart, id).value].user != u
    ensures r.Ok? ==>
      var k := FindCartRow(cart, id).value;
      && cart[k].user == u
      && r.value == cart[..k] + cart[k + 1..]
    ensures id in RowIds(cart) && cart[FindCartRow(cart, id).value].user == u ==> r.Ok?
  {
    var k := FindCartRow(cart, id);
    if k.None? then Err(HandlerThrew)
    else if cart[k.value].user != u then Err(YouAreUnauthorized)
    else Ok(cart[..k.value] + cart[k.value + 1..])
  }

  /** Setting a quantity makes it the pair's quantity and leaves every other pair's
      quantity as it was. */
  lemma CartUpdateQuantity(cart: seq<CartRow>, u: UserId, id: CartRowId, q: nat, u': UserId, p': ProductId)
    requires OneRowPerPair(cart)
    requires CartUpdate(cart, u, id, q).Ok?
    ensures var k := FindCartRow(cart, id).value;
      PairQuantity(CartUpdate(cart, u, id, q).value, u', p') ==
        if u' == u && p' == cart[k].product then q else PairQuantity(cart, u', p')
  {
    var k := FindCartRow(cart, id).value;
    PairQuantityAfterUpdate(cart, k, cart[k].(quantity := q), u', p');
    if u' == u && p' == cart[k].product {
      RowIsPairQuantity(cart, k);
    }
  }

  /** Deleting a row empties its pair and leaves every other pair's quantity as it was. */
  lemma CartDeleteQuantity(cart: seq<CartRow>, u: UserId, id: CartRowId, u': UserId, p': ProductId)
    requires OneRowPerPair(cart)
    requires CartDelete(cart, u, id).Ok?
    ensures var k := FindCartRow(cart, id).value;
      PairQuantity(CartDelete(cart, u, id).value, u', p') ==
        if u' == u && p' == cart[k].product then 0 else PairQuantity(cart, u', p')
  {
    var k := FindCartRow(cart, id).value;
    PairQuantityAfterRemove(cart, k, u', p');
    if u' == u && p' == cart[k].product {
      RowIsPairQuantity(cart, k);
    }
  }

  lemma RemoveKeepsCartValid(cart: seq<CartRow>, products: map<ProductId, Product>, k: nat)
    requires CartValid(cart, products) && k < |cart|
    ensures CartValid(cart[..k] + cart[k + 1..], products)
    ensures RowIds(cart[..k] + cart[k + 1..]) == RowIds(cart)[..k] + RowIds(cart)[k + 1..]
  {
    var c := cart[..k] + cart[k + 1..];
    assert forall i :: 0 <= i < |c| ==> c[i] == cart[if i < k then i else i + 1];
    assert RowIds(c) == RowIds(cart)[..k] + RowIds(cart)[k + 1..];
    forall i, j | 0 <= i < j < |c|
      ensures RowIds(c)[i] != RowIds(c)[j]
      ensures c[i].user != c[j].user || c[i].product != c[j].product
    {
      var i', j' := if i < k then i else i + 1, if j < k then j else j + 1;
      assert c[i] == cart[i'] && c[j] == cart[j'] && i' < j';
      assert RowIds(c)[i] == RowIds(cart)[i'] && RowIds(c)[j] == RowIds(cart)[j'];
    }
  }

  /** `updateQuantity`. */
  method UpdateQuantity(l: Ledger, user: UserId, rowId: CartRowId, quantity: nat) returns (r: Result<CartRowId, ErrorCode>)
    requires l.Valid()
    requires quantity >= 1  // the schema demands a positive quantity
    modifies l`cart
    ensures l.Valid()
    ensures CartUpdate(old(l.cart), user, rowId, quantity).Err? ==>
      r == Err(CartUpdate(old(l.cart), user, rowId, quantity).error) && l.cart == old(l.cart)
    ensures CartUpdate(old(l.cart), user, rowId, quantity).Ok? ==>
      r == Ok(rowId) && l.cart == CartUpdate(old(l.cart), user, rowId, quantity).value
  {
    var k := FindCartRow(l.cart, rowId);
    if k.None? {
      return Err(HandlerThrew);
    }
    var row := l.cart[k.value];
    if row.user != user {
      return Err(YouAreUnauthorized);
    }
    RowIdsAfterUpdate(l.cart, k.value, row.(quantity := quantity));
    l.cart := l.cart[k.value := row.(quantity := quantity)];
    return Ok(row.id);
  }

  /** `deleteCartProduct`. */
  method DeleteCartProduct(l: Ledger, user: UserId, rowId: CartRowId) returns (r: Result<bool, ErrorCode>)
    requires l.Valid()
    modifies l`cart
    ensures l.Valid()
    ensures CartDelete(old(l.cart), user, rowId).Err? ==>
      r == Err(CartDelete(old(l.cart), user, rowId).error) && l.cart == old(l.cart)
    ensures CartDelete(old(l.cart), user, rowId).Ok? ==>
      r == Ok(true) && l.cart == CartDelete(old(l.cart), user, rowId).value
  {
    var k := FindCartRow(l.cart, rowId);
    if k.None? {
      return Err(HandlerThrew);
    }
    if l.cart[k.value].user != user {
      return Err(YouAreUnauthorized);
    }
    RemoveKeepsCartValid(l.cart, l.products, k.value);
    l.cart := l.cart[..k.value] + l.cart[k.value + 1..];
    return Ok(true);
  }

  // ---- getProductsInCart ----

  /** `CartProduct.find({user})`: the user's rows, in cart order. */
  function CartOf(cart: seq<CartRow>, u: UserId): (r: seq<CartRow>)
    ensures forall i :: 0 <= i < |r| ==> r[i].user == u
    ensures forall row :: row in r <==> row in cart && row.user == u
    ensures |r| <= |cart|
  {
    if |cart| == 0 then []
    else
      var prev := CartOf(cart[..|cart| - 1], u);
      assert forall row :: row in cart <==> row in cart[..|cart| - 1] || row == cart[|cart| - 1];
      if cart[|cart| - 1].user == u then prev + [cart[|cart| - 1]] else prev
  }

  /** The user's rows keep their cart order: taking them from two pieces of a cart one
      after the other gives the rows of the whole. */
  lemma {:induction false} CartOfAppend(a: seq<CartRow>, b: seq<CartRow>, u: UserId)
    ensures CartOf(a + b, u) == CartOf(a, u) + CartOf(b, u)
    decreases |b|
  {
    if |b| == 0 {
      assert a + b == a;
    } else {
      var n := |b|;
      assert (a + b)[..|a + b| - 1] == a + b[..n - 1];
      CartOfAppend(a, b[..n - 1], u);
    }
  }

  /** Each row appears in the user's rows as often as in the cart when it is the user's,
      and not at all otherwise. */
  lemma {:induction false} CartOfCounts(cart: seq<CartRow>, u: UserId)
    ensures forall row :: multiset(CartOf(cart, u))[row] == if row.user == u then multiset(cart)[row] else 0
    decreases |cart|
  {
    if |cart| > 0 {
      var n := |cart|;
      CartOfCounts(cart[..n - 1], u);
      assert cart == cart[..n - 1] + [cart[n - 1]];
    }
  }

  /** In a cart with one row per pair, the user's rows name pairwise different products. */
  lemma {:induction false} CartOfDistinctProducts(cart: seq<CartRow>, u: UserId)
    requires OneRowPerPair(cart)
    ensures forall j, k :: 0 <= j < k < |CartOf(cart, u)| ==> CartOf(cart, u)[j].product != CartOf(cart, u)[k].product
    decreases |cart|
  {
    if |cart| > 0 {
      var n := |cart|;
      var pre := cart[..n - 1];
      assert OneRowPerPair(pre) by {
        forall i, j | 0 <= i < j < |pre| ensures pre[i].user != pre[j].user || pre[i].product != pre[j].product {
          assert pre[i] == cart[i] && pre[j] == cart[j];
        }
      }
      CartOfDistinctProducts(pre, u);
      var prev := CartOf(pre, u);
      if cart[n - 1].user == u {
        var r := CartOf(cart, u);
        assert r == prev + [cart[n - 1]];
        forall j, k | 0 <= j < k < |r| ensures r[j].product != r[k].product {
          if k == |prev| {
            assert r[k] == cart[n - 1] && r[j] == prev[j] && prev[j].user == u;
            assert prev[j] in pre;
            var i :| 0 <= i < |pre| && pre[i] == prev[j];
            assert cart[i] == prev[j] && i < n - 1;
            assert cart[i].user != cart[n - 1].user || cart[i].product != cart[n - 1].product;
          } else {
            assert r[j] == prev[j] && r[k] == prev[k];
            assert prev[j].product != prev[k].product;
          }
        }
      } else {
        assert CartOf(cart, u) == prev;
      }
    }
  }

  /** The price of every row, reading the product list: Σ price × quantity. */
  function CartTotal(rows: seq<CartRow>, products: map<ProductId, Product>): int
    requires forall i :: 0 <= i < |rows| ==> rows[i].product in products
  {
    if |rows| == 0 then 0
    else CartTotal(rows[..|rows| - 1], products) + products[rows[|rows| - 1].product].price * rows[|rows| - 1].quantity
  }

  /** The number under `key`, or 0 where the field is missing or not a number. */
  function NumField(o: Object, key: string): int
  {
    if key in o && o[key].JNum? then o[key].n else 0
  }

  /** One entry of the answer: the row id, the quantity (twice) and the masked product. */
  function CartEntry(row: CartRow, products: map<ProductId, Product>): (r: Object)
    requires row.product in products
    ensures "id" in r && r["id"] == JNum(row.id)
    ensures "quantity" in r && r["quantity"] == JNum(row.quantity)
    ensures "product" in r && NumField(Fields(r["product"]), "price") == products[row.product].price
  {
    var p := products[row.product];
    MaskedProductPrice(row.product, p);
    map[
      "id" := JNum(row.id),
      "syncedQuantity" := JNum(row.quantity),
      "quantity" := JNum(row.quantity),
      "product" := JObj(MaskProduct(ProductDoc(row.product, p, CategorySlot(p, map[], false))))]
  }

  /** `_.sumBy(entries, e => e.product.price * e.quantity)`. */
  function EntriesTotal(entries: seq<Object>): int
  {
    if |entries| == 0 then 0
    else
      var e := entries[|entries| - 1];
      EntriesTotal(entries[..|entries| - 1])
        + NumField(if "product" in e then Fields(e["product"]) else map[], "price") * NumField(e, "quantity")
  }

  datatype CartView = CartView(entries: seq<Object>, totalPrice: int)

  /** `getProductsInCart`: one entry per row of the user, in cart order, and the total
      computed from the entries as sent. */
  function GetProductsInCart(cart: seq<CartRow>, products: map<ProductId, Product>, u: UserId): (r: CartView)
    requires CartValid(cart, products)
    ensures |r.entries| == |CartOf(cart, u)|
    ensures forall i :: 0 <= i < |r.entries| ==>
      && "id" in r.entries[i] && r.entries[i]["id"] == JNum(CartOf(cart, u)[i].id)
      && "quantity" in r.entries[i] && r.entries[i]["quantity"] == JNum(CartOf(cart, u)[i].quantity)
    ensures r.totalPrice == CartTotal(CartOf(cart, u), products)
  {
    var rows := CartOf(cart, u);
    var entries := seq(|rows|, i requires 0 <= i < |rows| => CartEntry(rows[i], products));
    EntriesTotalIsCartTotal(rows, products, entries);
    CartView(entries, EntriesTotal(entries))
  }

  /** Entries that carry each row's quantity and its product's price sum to the cart's
      total: summing over the masked entries prices the rows as the product list does. */
  lemma {:induction false} EntriesTotalIsCartTotal(rows: seq<CartRow>, products: map<ProductId, Product>,
                                                   entries: seq<Object>)
    requires forall i :: 0 <= i < |rows| ==> rows[i].product in products
    requires |entries| == |rows|
    requires forall i :: 0 <= i < |rows| ==>
      && "product" in entries[i] && NumField(Fields(entries[i]["product"]), "price") == products[rows[i].product].price
      && NumField(entries[i], "quantity") == rows[i].quantity
    ensures EntriesTotal(entries) == CartTotal(rows, products)
    decreases |rows|
  {
    if |rows| > 0 {
      var n := |rows|;
      EntriesTotalIsCartTotal(rows[..n - 1], products, entries[..n - 1]);
    }
  }

  lemma MaskedProductPrice(id: ProductId, p: Product)
    ensures var m := MaskProduct(ProductDoc(id, p, CategorySlot(p, map[], false)));
      "price" in m && m["price"] == JNum(p.price)
  {
    ProductDocFields(id, p, CategorySlot(p, map[], false));
    assert "price" in ProductKeys;
  }

  /** A product whose category is not populated still has a truthy category, the
      ObjectID, so the mask picks from it: of the category keys only its `id` is there. */
  lemma UnpopulatedCategoryMasked(id: ProductId, p: Product)
    ensures var m := MaskProduct(ProductDoc(id, p, CategorySlot(p, map[], false)));
      "category" in m && m["category"] == JObj(map["id" := JNum(p.category)])
  {
    var d := ProductDoc(id, p, CategorySlot(p, map[], false));
    assert d["category"] == ObjectIdValue(p.category);
    assert "id" in CategoryKeys && "categoryName" in CategoryKeys && "parentCategory" in CategoryKeys;
    assert MaskCategory(ObjectIdValue(p.category)) == map["id" := JNum(p.category)];
  }
}
