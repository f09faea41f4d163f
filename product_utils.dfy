/** How many units of a product can still be sold (warehouse/db/product-utils.js). */
module ProductUtils {
  import opened Models

  /** The code can still be handed out for product `p`. */
  predicate Available(c: ProductCode, p: ProductId)
  {
    c.product == p && !c.redeemed
  }

  /** `ProductCodes.countDocuments({product: p, redeemed: false})`. */
  function CountUnredeemed(codes: seq<ProductCode>, p: ProductId): nat
  {
    if |codes| == 0 then 0
    else CountUnredeemed(codes[..|codes| - 1], p) + (if Available(codes[|codes| - 1], p) then 1 else 0)
  }

  /** `getQuantityAvailable(product)`: -1 ("unlimited") for a manually delivered product,
      otherwise the number of its unredeemed codes, whatever the type string says. */
  function QuantityAvailable(id: ProductId, product: Product, codes: seq<ProductCode>): (r: int)
    ensures r >= -1
    ensures r == -1 <==> product.kind == ManuallyDelivered
    ensures product.kind != ManuallyDelivered ==> r == |AvailablePositions(codes, id)|
  {
    CountIsPositionCount(codes, id);
    if product.kind == ManuallyDelivered then -1 else CountUnredeemed(codes, id)
  }

  /** The positions of the product's unredeemed codes, in natural order: what
      `find({product, redeemed: false})` walks through. */
  function UnredeemedIndices(codes: seq<ProductCode>, p: ProductId): (r: seq<nat>)
    ensures |r| == CountUnredeemed(codes, p)
    ensures forall k :: 0 <= k < |r| ==> r[k] < |codes| && Available(codes[r[k]], p)
    ensures forall k, m :: 0 <= k < m < |r| ==> r[k] < r[m]
    ensures forall i :: 0 <= i < |codes| && Available(codes[i], p) ==> i in r
  {
    if |codes| == 0 then []
    else
      var prev := UnredeemedIndices(codes[..|codes| - 1], p);
      if Available(codes[|codes| - 1], p) then prev + [|codes| - 1] else prev
  }

  /** The set of positions holding an unredeemed code of `p` (a reference definition). */
  function AvailablePositions(codes: seq<ProductCode>, p: ProductId): set<nat>
  {
    set i: nat | i < |codes| && Available(codes[i], p)
  }

  lemma {:induction false} IncreasingSetSize(s: seq<nat>)
    requires forall k, m :: 0 <= k < m < |s| ==> s[k] < s[m]
    ensures |set k | 0 <= k < |s| :: s[k]| == |s|
  {
    if |s| > 0 {
      var init := s[..|s| - 1];
      IncreasingSetSize(init);
      var a := set k | 0 <= k < |init| :: init[k];
      var b := set k | 0 <= k < |s| :: s[k];
      assert b == a + {s[|s| - 1]};
      assert s[|s| - 1] !in a;
    }
  }

  /** The recursive count agrees with the size of the set of available positions. */
  lemma CountIsPositionCount(codes: seq<ProductCode>, p: ProductId)
    ensures CountUnredeemed(codes, p) == |AvailablePositions(codes, p)|
  {
    var r := UnredeemedIndices(codes, p);
    IncreasingSetSize(r);
    assert (set k | 0 <= k < |r| :: r[k]) == AvailablePositions(codes, p);
  }

  /** Replacing one code changes the count only by what that code contributed. */
  lemma {:induction false} CountAfterUpdate(codes: seq<ProductCode>, i: nat, c: ProductCode, p: ProductId)
    requires i < |codes|
    ensures CountUnredeemed(codes[i := c], p) ==
      CountUnredeemed(codes, p) - (if Available(codes[i], p) then 1 else 0) + (if Available(c, p) then 1 else 0)
  {
    var n := |codes|;
    var u := codes[i := c];
    if i == n - 1 {
      assert u[..n - 1] == codes[..n - 1];
    } else {
      assert u[..n - 1] == codes[..n - 1][i := c];
      CountAfterUpdate(codes[..n - 1], i, c, p);
    }
  }

  /** Marking one unredeemed code of the product redeemed lowers its availability by one;
      no other product's availability moves. */
  lemma RedeemLowersByOne(codes: seq<ProductCode>, i: nat, p: ProductId)
    requires i < |codes| && Available(codes[i], p)
    ensures CountUnredeemed(codes[i := codes[i].(redeemed := true)], p) == CountUnredeemed(codes, p) - 1
    ensures forall q :: q != p ==>
      CountUnredeemed(codes[i := codes[i].(redeemed := true)], q) == CountUnredeemed(codes, q)
  {
    CountAfterUpdate(codes, i, codes[i].(redeemed := true), p);
    forall q | q != p
      ensures CountUnredeemed(codes[i := codes[i].(redeemed := true)], q) == CountUnredeemed(codes, q)
    {
      CountAfterUpdate(codes, i, codes[i].(redeemed := true), q);
    }
  }

  /** Appending codes adds their own count. */
  lemma {:induction false} CountAppend(codes: seq<ProductCode>, more: seq<ProductCode>, p: ProductId)
    ensures CountUnredeemed(codes + more, p) == CountUnredeemed(codes, p) + CountUnredeemed(more, p)
    decreases |more|
  {
    if |more| == 0 {
      assert codes + more == codes;
    } else {
      var m := |more|;
      assert (codes + more)[..|codes + more| - 1] == codes + more[..m - 1];
      CountAppend(codes, more[..m - 1], p);
    }
  }

  /** Adding one new unredeemed code of the product raises its availability by one. */
  lemma AddCodeRaisesByOne(codes: seq<ProductCode>, p: ProductId, code: string)
    ensures CountUnredeemed(codes + [ProductCode(p, code, false)], p) == CountUnredeemed(codes, p) + 1
  {
    CountAppend(codes, [ProductCode(p, code, false)], p);
    assert [ProductCode(p, code, false)][..0] == [];
  }
}
