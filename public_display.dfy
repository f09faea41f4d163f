/** The projections applied before a record leaves the server
    (warehouse/db/public-display-utils.js). */
module PublicDisplay {
  import opened Json
  import opened Models

  const ProductKeys: set<string> :=
    {"id", "name", "upperTagline", "lowerDescription", "additionalInformation", "price", "productPhoto"}
  const CategoryKeys: set<string> := {"id", "categoryName", "parentCategory"}
  const UserKeys: set<string> := {"id", "fullName", "email", "email_verified", "publicKey", "privilegeLevel"}
  /** The order whitelist names `paymentAttempts`; the stored field is `paymentAttempt`. */
  const OrderKeys: set<string> :=
    {"_id", "orderCreator", "total", "paymentOrderID", "paymentAttempts", "status", "shipments", "createdAt"}

  /** `maskCategoryForPublicDisplay`. */
  function MaskCategory(cat: Value): (r: Object)
    ensures r.Keys <= CategoryKeys
    ensures forall k :: k in CategoryKeys ==> (k in r <==> k in Fields(cat))
    ensures forall k :: k in r ==> r[k] == Fields(cat)[k]
  {
    Pick(Fields(cat), CategoryKeys)
  }

  /** `maskProductForPublicDisplay`: the whitelisted fields, and the category masked when
      it is truthy and passed through as it is otherwise. A missing category serialises
      to no key at all. */
  function MaskProduct(pro: Object): (r: Object)
    ensures r.Keys <= ProductKeys + {"category"}
    ensures forall k :: k in ProductKeys ==> (k in r <==> k in pro)
    ensures forall k :: k in ProductKeys && k in r ==> r[k] == pro[k]
    ensures "category" in r <==> "category" in pro
    ensures "category" in pro && Truthy(pro["category"]) ==> r["category"] == JObj(MaskCategory(pro["category"]))
    ensures "category" in pro && !Truthy(pro["category"]) ==> r["category"] == pro["category"]
  {
    var picked := Pick(pro, ProductKeys);
    if "category" !in pro then picked
    else
      picked["category" := if Truthy(pro["category"]) then JObj(MaskCategory(pro["category"])) else pro["category"]]
  }

  /** `maskUserForPublicDisplay` on `user.toJSON()`. */
  function MaskUser(user: Object): (r: Object)
    ensures r.Keys <= UserKeys
    ensures "emailVerificationToken" !in r && "lastEmailVerificationSent" !in r && "lastRequestPasswordRequest" !in r
    ensures forall k :: k in UserKeys && k in user ==> k in r && r[k] == user[k]
  {
    Pick(user, UserKeys)
  }

  /** One order line: its own fields with `product` replaced by the masked product. */
  function MaskItem(item: Object): (r: Object)
    ensures r.Keys == item.Keys + {"product"}
    ensures r["product"] == JObj(MaskProduct(if "product" in item then Fields(item["product"]) else map[]))
    ensures forall k :: k in item && k != "product" ==> r[k] == item[k]
  {
    (item - {"product"})["product" := JObj(MaskProduct(if "product" in item then Fields(item["product"]) else map[]))]
  }

  /** `maskOrderForPublicDisplay`: the whitelisted fields of `order.toJSON()` and its
      lines, each with its (populated) product masked, in the same order. */
  function MaskOrder(order: Object, items: seq<Object>): (r: Object)
    ensures r.Keys <= OrderKeys + {"items"}
    ensures "paymentAttempt" !in r
    ensures forall k :: k in OrderKeys ==> (k in r <==> k in order)
    ensures "items" in r && r["items"].JArr? && |r["items"].elems| == |items|
    ensures forall i :: 0 <= i < |items| ==> r["items"].elems[i] == JObj(MaskItem(items[i]))
  {
    Pick(order, OrderKeys)["items" := JArr(seq(|items|, i requires 0 <= i < |items| => JObj(MaskItem(items[i]))))]
  }

  /** A masked product document shows exactly its public fields: never its type, SKU
      number or sales counters. */
  lemma MaskedProductDocKeys(id: ProductId, p: Product, category: Value)
    ensures MaskProduct(ProductDoc(id, p, category)).Keys ==
      {"id", "name", "upperTagline", "lowerDescription", "price", "productPhoto", "category"}
      + (if p.additionalInformation.Some? then {"additionalInformation"} else {})
  {
    var d := ProductDoc(id, p, category);
    ProductDocKeys(id, p, category);
    var r := MaskProduct(d);
    assert r.Keys == (d.Keys * ProductKeys) + {"category"};
  }

  /** A masked user is its name, address, verification flag, key and level: `toJSON()`
      carries `_id`, so even the `id` on the whitelist is absent. */
  lemma MaskedUserDocKeys(u: User)
    ensures MaskUser(UserDoc(u)).Keys == {"fullName", "email", "email_verified", "publicKey", "privilegeLevel"}
  {
    var d := UserDoc(u);
    assert "id" !in d;
    assert d.Keys * UserKeys == {"fullName", "email", "email_verified", "publicKey", "privilegeLevel"};
  }

  /** Because of the name mismatch, a masked order shows no payment attempt under either
      name, whether or not one is attached. */
  lemma MaskedOrderHidesPayment(o: Order, items: seq<Object>)
    ensures "paymentAttempt" !in MaskOrder(OrderDoc(o), items)
    ensures "paymentAttempts" !in MaskOrder(OrderDoc(o), items)
  {
    assert "paymentAttempts" !in OrderDoc(o);
  }
}
