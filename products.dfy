/** Catalogue handlers: listing filters, product lookup, code upload and product creation
    (warehouse/routes/products.js). */
module Products {
  import opened Common
  import opened Json
  import opened Models
  import opened Responses
  import opened Text
  import opened Store
  import opened ProductUtils
  import opened PublicDisplay

  // ---- translateQueryToFilter ----

  predicate IsPair(v: Value)
  {
    v.JArr? && |v.elems| == 2
  }

  predicate IsCategoryId(v: Value)
  {
    v.JStr? && Utf16Length(v.s) == 24
  }

  /** The store filter for a listing query: a price range only for a two-element
      `priceRange` array, a category only for a 24-character string, nothing else. */
  function TranslateQueryToFilter(query: Object): (r: Object)
    ensures r.Keys <= {"price", "category"}
    ensures "price" in r <==> "priceRange" in query && IsPair(query["priceRange"])
    ensures "price" in r ==>
      r["price"] == JObj(map["$gte" := query["priceRange"].elems[0], "$lte" := query["priceRange"].elems[1]])
    ensures "category" in r <==> "category" in query && IsCategoryId(query["category"])
    ensures "category" in r ==> r["category"] == query["category"]
  {
    var withPrice: Object :=
      if "priceRange" in query && IsPair(query["priceRange"]) then
        map["price" := JObj(map["$gte" := query["priceRange"].elems[0], "$lte" := query["priceRange"].elems[1]])]
      else map[];
    if "category" in query && IsCategoryId(query["category"]) then withPrice["category" := query["category"]]
    else withPrice
  }

  // ---- getProductById ----

  /** The masked product document: its public keys, and its id, price and name as stored. */
  lemma MaskedProductDocFields(id: ProductId, p: Product, category: Value)
    ensures var m := MaskProduct(ProductDoc(id, p, category));
      && m.Keys == {"id", "name", "upperTagline", "lowerDescription", "price", "productPhoto", "category"}
                   + (if p.additionalInformation.Some? then {"additionalInformation"} else {})
      && m["id"] == JNum(id) && m["price"] == JNum(p.price) && m["name"] == JStr(p.name)
  {
    MaskedProductDocKeys(id, p, category);
    ProductDocFields(id, p, category);
    assert "id" in ProductKeys && "price" in ProductKeys && "name" in ProductKeys;
  }

  /** Setting a key adds exactly that key. */
  lemma KeysAfterSet(m: Object, keys: set<string>, k: string, v: Value)
    requires m.Keys == keys
    ensures m[k := v].Keys == keys + {k}
  {
  }

  /** The masked product document with the given category slot and availability added. */
  function ProductView(id: ProductId, p: Product, category: Value, available: int): (v: Object)
    ensures v.Keys == {"id", "name", "upperTagline", "lowerDescription", "price", "productPhoto", "category",
                       "availableQuantity"} + (if p.additionalInformation.Some? then {"additionalInformation"} else {})
    ensures v["availableQuantity"] == JNum(available)
    ensures v["id"] == JNum(id) && v["price"] == JNum(p.price) && v["name"] == JStr(p.name)
  {
    var m := MaskProduct(ProductDoc(id, p, category));
    MaskedProductDocFields(id, p, category);
    KeysAfterSet(m, {"id", "name", "upperTagline", "lowerDescription", "price", "productPhoto", "category"}
                    + (if p.additionalInformation.Some? then {"additionalInformation"} else {}),
                 "availableQuantity", JNum(available));
    m["availableQuantity" := JNum(available)]
  }

  /** `getProductById`: the masked product with its category populated and its
      availability added, or the error for a missing id or a missing product. */
  function GetProductById(products: map<ProductId, Product>, categories: map<CategoryId, Category>,
                          codes: seq<ProductCode>, id: Option<ProductId>): (r: Result<Object, ErrorCode>)
    ensures id.None? <==> r == Err(NoIdSupplied)
    ensures id.Some? && id.value !in products <==> r == Err(NoObjectFound)
    ensures r.Ok? ==> id.Some? && id.value in products
    ensures id.Some? && id.value in products ==> r.Ok?
    ensures r.Ok? ==>
      var p := products[id.value];
      && r.value.Keys == {"id", "name", "upperTagline", "lowerDescription", "price", "productPhoto", "category",
                          "availableQuantity"} + (if p.additionalInformation.Some? then {"additionalInformation"} else {})
      && r.value["availableQuantity"] == JNum(QuantityAvailable(id.value, p, codes))
      && r.value["id"] == JNum(id.value) && r.value["price"] == JNum(p.price) && r.value["name"] == JStr(p.name)
  {
    if id.None? then Err(NoIdSupplied)
    else if id.value !in products then Err(NoObjectFound)
    else Ok(ProductView(id.value, products[id.value], CategorySlot(products[id.value], categories, true),
                          QuantityAvailable(id.value, products[id.value], codes)))
  }

  // ---- addCodesToProduct ----

  /** How many of the segments are non-empty. */
  function NonEmptyCount(segments: seq<string>): nat
  {
    if |segments| == 0 then 0
    else NonEmptyCount(segments[..|segments| - 1]) + (if segments[|segments| - 1] != "" then 1 else 0)
  }

  /** Some segment is empty: the text is empty, starts or ends with a newline, or holds
      two newlines in a row. */
  predicate HasEmptySegment(segments: seq<string>)
  {
    exists k :: 0 <= k < |segments| && segments[k] == ""
  }

  /** The codes the store accepts for an upload: one unredeemed code of the product per
      non-empty segment, in segment order (the schema's `required` refuses an empty code). */
  function NewCodes(p: ProductId, segments: seq<string>): (r: seq<ProductCode>)
    ensures |r| == NonEmptyCount(segments) <= |segments|
  {
    if |segments| == 0 then []
    else NewCodes(p, segments[..|segments| - 1])
         + (if segments[|segments| - 1] != "" then [ProductCode(p, segments[|segments| - 1], false)] else [])
  }

  /** Without empty segments every segment is counted. */
  lemma {:induction false} NonEmptyCountAll(segments: seq<string>)
    ensures !HasEmptySegment(segments) ==> NonEmptyCount(segments) == |segments|
    decreases |segments|
  {
    if |segments| > 0 {
      var n := |segments|;
      NonEmptyCountAll(segments[..n - 1]);
      UploadStep(0, segments, n - 1);
      assert segments[..n] == segments;
    }
  }

  /** Every accepted code belongs to the product, is unredeemed and is one of the
      non-empty segments. */
  lemma {:induction false} NewCodesMembers(p: ProductId, segments: seq<string>)
    ensures forall c :: c in NewCodes(p, segments) ==> c.product == p && !c.redeemed && c.code != "" && c.code in segments
    decreases |segments|
  {
    if |segments| > 0 {
      var n := |segments|;
      var init := segments[..n - 1];
      NewCodesMembers(p, init);
      forall c | c in NewCodes(p, segments)
        ensures c.product == p && !c.redeemed && c.code != "" && c.code in segments
      {
        if c in NewCodes(p, init) {
          var j :| 0 <= j < |init| && init[j] == c.code;
          assert segments[j] == c.code;
        } else {
          assert c == ProductCode(p, segments[n - 1], false);
        }
      }
    }
  }

  /** Without empty segments the codes are the segments themselves, in order. */
  lemma {:induction false} NewCodesInOrder(p: ProductId, segments: seq<string>)
    requires !HasEmptySegment(segments)
    ensures |NewCodes(p, segments)| == |segments|
    ensures forall k :: 0 <= k < |segments| ==> NewCodes(p, segments)[k].code == segments[k]
    decreases |segments|
  {
    NonEmptyCountAll(segments);
    if |segments| > 0 {
      var n := |segments|;
      var init := segments[..n - 1];
      UploadStep(p, segments, n - 1);
      assert segments[..n] == segments;
      NewCodesInOrder(p, init);
      assert NewCodes(p, segments) == NewCodes(p, init) + [ProductCode(p, segments[n - 1], false)];
    }
  }

  /** Uploading adds one unit of availability per accepted code to that product and none
      to any other. */
  lemma {:induction false} NewCodesCount(p: ProductId, segments: seq<string>, q: ProductId)
    ensures CountUnredeemed(NewCodes(p, segments), q) == if q == p then NonEmptyCount(segments) else 0
    decreases |segments|
  {
    if |segments| > 0 {
      var n := |segments|;
      var init := segments[..n - 1];
      NewCodesCount(p, init, q);
      if segments[n - 1] != "" {
        CountAppend(NewCodes(p, init), [ProductCode(p, segments[n - 1], false)], q);
        assert [ProductCode(p, segments[n - 1], false)][..0] == [];
      } else {
        assert NewCodes(p, segments) == NewCodes(p, init);
      }
    }
  }

  /** After an upload of `text` for product `p`, its availability has grown by the number
      of non-empty lines of `text` and every other product's is as it was; when no line is
      empty that is one more than the number of newlines. */
  lemma UploadRaisesAvailability(codes: seq<ProductCode>, p: ProductId, text: string, q: ProductId)
    ensures CountUnredeemed(codes + NewCodes(p, Split(text, '\n')), q) ==
      CountUnredeemed(codes, q) + (if q == p then NonEmptyCount(Split(text, '\n')) else 0)
    ensures !HasEmptySegment(Split(text, '\n')) ==> NonEmptyCount(Split(text, '\n')) == Occurrences(text, '\n') + 1
  {
    SplitSegments(text, '\n');
    NonEmptyCountAll(Split(text, '\n'));
    CountAppend(codes, NewCodes(p, Split(text, '\n')), q);
    NewCodesCount(p, Split(text, '\n'), q);
  }

  /** One more segment: its code, when it is non-empty, comes after the earlier ones,
      and it is empty or an earlier one was exactly when the longer prefix has an empty one. */
  lemma UploadStep(p: ProductId, segments: seq<string>, i: nat)
    requires i < |segments|
    ensures NewCodes(p, segments[..i + 1]) ==
      NewCodes(p, segments[..i]) + (if segments[i] != "" then [ProductCode(p, segments[i], false)] else [])
    ensures HasEmptySegment(segments[..i + 1]) <==> HasEmptySegment(segments[..i]) || segments[i] == ""
  {
    var longer := segments[..i + 1];
    assert longer[..i] == segments[..i];
    assert longer[i] == segments[i];
    if HasEmptySegment(segments[..i]) {
      var k :| 0 <= k < i && segments[..i][k] == "";
      assert longer[k] == "";
    }
    if HasEmptySegment(longer) {
      var k :| 0 <= k < i + 1 && longer[k] == "";
      if k < i {
        assert segments[..i][k] == "";
      }
    }
  }

  /** `addCodesToProduct`: an unknown product creates nothing; otherwise every non-empty
      '\n'-separated segment of the text becomes one unredeemed code of that product,
      after every existing code, which stays as it was. The request is answered only when
      no segment is empty: an empty one makes its `create` reject, the handler throw and
      no answer be sent, although the other segments' codes are stored all the same. */
  method AddCodesToProduct(l: Ledger, productId: ProductId, text: string) returns (r: Result<bool, ErrorCode>)
    requires l.Valid()
    requires |text| >= 1  // the schema requires a non-empty string
    modifies l`codes
    ensures l.Valid()
    ensures productId !in l.products ==> r == Err(InvalidProduct) && l.codes == old(l.codes)
    ensures productId in l.products ==>
      && l.codes == old(l.codes) + NewCodes(productId, Split(text, '\n'))
      && (r == Ok(true) <==> !HasEmptySegment(Split(text, '\n')))
      && (r == Err(HandlerThrew) <==> HasEmptySegment(Split(text, '\n')))
  {
    if productId !in l.products {
      return Err(InvalidProduct);
    }
    var segments := Split(text, '\n');
    var rejected := false;
    var i := 0;
    while i < |segments|
      invariant 0 <= i <= |segments|
      invariant l.codes == old(l.codes) + NewCodes(productId, segments[..i])
      invariant rejected <==> HasEmptySegment(segments[..i])
    {
      UploadStep(productId, segments, i);
      if segments[i] == "" {
        rejected := true;
      } else {
        l.codes := l.codes + [ProductCode(productId, segments[i], false)];
      }
      i := i + 1;
    }
    assert segments[..i] == segments;
    if rejected {
      return Err(HandlerThrew);
    }
    return Ok(true);
  }

  // ---- createNewProduct ----

  /** The body of a product-creation request. */
  datatype NewProductRequest = NewProductRequest(
    name: string,
    typeTag: string,
    productPhoto: string,
    price: int,
    skuNo: string,
    upperTagline: string,
    lowerDescription: string,
    category: CategoryId)

  /** What the request schema demands of the body. */
  predicate SchemaAccepts(req: NewProductRequest)
  {
    && 1 <= Utf16Length(req.name) <= 128
    && |req.typeTag| >= 1
    && |req.productPhoto| >= 1
    && |req.skuNo| >= 1
    && |req.upperTagline| >= 1
    && |req.lowerDescription| >= 1
  }

  /** The product the body describes, with the schema's defaults. */
  function ProductFrom(req: NewProductRequest): Product
  {
    Product(ParseProductType(req.typeTag), req.name, req.skuNo, req.upperTagline, req.lowerDescription,
            None, req.productPhoto, req.price, req.category, 0, 0, 0)
  }

  /** `createNewProduct`: an unknown category creates nothing; otherwise exactly the new
      product is added under its fresh id. */
  method CreateNewProduct(l: Ledger, req: NewProductRequest, newId: ProductId) returns (r: Result<ProductId, ErrorCode>)
    requires l.Valid() && SchemaAccepts(req)
    requires newId !in l.products  // the store hands out a fresh id
    modifies l`products
    ensures l.Valid()
    ensures req.category !in l.categories ==> r == Err(InvalidCategory) && l.products == old(l.products)
    ensures req.category in l.categories ==>
      r == Ok(newId) && l.products == old(l.products)[newId := ProductFrom(req)]
  {
    if req.category !in l.categories {
      return Err(InvalidCategory);
    }
    l.products := l.products[newId := ProductFrom(req)];
    return Ok(newId);
  }
}
