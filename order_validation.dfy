/** The checks an order submission makes before it writes anything: the request's own
    shape (`validateOrderRequest`) and the existence of every requested product
    (`validateRequestProducts`). */
module OrderValidation {
  import opened Builtins
  import opened Wrappers
  import opened AppErrors
  import opened Entities
  import opened Store

  /** `OrderItemRequest`: one line of an order. */
  datatype OrderItemRequest = OrderItemRequest(
    productId: int64,
    priceUsed: int64,
    quantity: int64,
    productName: string,
    productImageUrl: string)

  const MaxLines: int := 100
  const MaxLineQuantity: int := 1000
  const MaxTotalQuantity: int := 10000

  /** Go's `string(rune(i))`: the character with code point i (U+FFFD when i is not a
      scalar value). The index is rendered as that character, not as decimal digits. */
  function RuneString(i: nat): (s: string)
    ensures |s| == 1
    ensures i < 0xD800 ==> s[0] as int == i
  {
    if i < 0xD800 || (0xE000 <= i < 0x11_0000) then [i as char] else ['�']
  }

  /** The first of the four per-line checks that line `i` fails, if any. */
  function LineError(item: OrderItemRequest, i: nat): (r: Option<Error>)
    ensures r.None? <==> item.productId != 0 && 0 < item.quantity <= MaxLineQuantity && item.priceUsed > 0
    ensures r.Some? ==> r.value.App? && r.value.kind == Validation
  {
    if item.productId == 0 then Some(Fail("invalid product ID at index " + RuneString(i), Validation))
    else if item.quantity <= 0 then Some(Fail("invalid quantity at index " + RuneString(i), Validation))
    else if item.priceUsed <= 0 then Some(Fail("invalid price at index " + RuneString(i), Validation))
    else if item.quantity > MaxLineQuantity then Some(Fail("quantity too large at index " + RuneString(i), Validation))
    else None
  }

  /** The error of the first line from `i` on that fails its checks. */
  function FirstLineError(lines: seq<OrderItemRequest>, i: nat): (r: Option<Error>)
    requires i <= |lines|
    ensures r.None? <==> forall k :: i <= k < |lines| ==> LineError(lines[k], k).None?
    ensures r.Some? ==> r.value.App? && r.value.kind == Validation
    decreases |lines| - i
  {
    if i == |lines| then None
    else if LineError(lines[i], i).Some? then LineError(lines[i], i)
    else FirstLineError(lines, i + 1)
  }

  /** The summed quantity of the first n lines. */
  function QuantitySum(lines: seq<OrderItemRequest>, n: nat): int
    requires n <= |lines|
  {
    if n == 0 then 0 else QuantitySum(lines, n - 1) + lines[n - 1].quantity
  }

  /** What `validateOrderRequest` returns. */
  function OrderRequestError(lines: seq<OrderItemRequest>): Option<Error> {
    if |lines| < 1 then Some(Fail("empty order items", Validation))
    else if |lines| > MaxLines then Some(Fail("too many order items", Validation))
    else if FirstLineError(lines, 0).Some? then FirstLineError(lines, 0)
    else if QuantitySum(lines, |lines|) > MaxTotalQuantity then Some(Fail("grand total quantity too large", Validation))
    else None
  }

  /** The business rules of an acceptable request, stated directly. */
  predicate WellFormedRequest(lines: seq<OrderItemRequest>) {
    1 <= |lines| <= MaxLines &&
    (forall k :: 0 <= k < |lines| ==>
       lines[k].productId != 0 && 0 < lines[k].quantity <= MaxLineQuantity && lines[k].priceUsed > 0) &&
    QuantitySum(lines, |lines|) <= MaxTotalQuantity
  }

  /** The pre-validation accepts exactly the well-formed requests, and every rejection is a
      Validation error. */
  lemma OrderRequestErrorExact(lines: seq<OrderItemRequest>)
    ensures OrderRequestError(lines).None? <==> WellFormedRequest(lines)
    ensures OrderRequestError(lines).Some? ==> Is(OrderRequestError(lines).value, Validation)
  {
    var r := OrderRequestError(lines);
    if r.Some? {
      IsAppError(r.value.generic, r.value.kind, Validation);
    }
    if FirstLineError(lines, 0).None? {
      forall k | 0 <= k < |lines|
        ensures lines[k].productId != 0 && 0 < lines[k].quantity <= MaxLineQuantity && lines[k].priceUsed > 0
      {
        assert LineError(lines[k], k).None?;
      }
    }
  }

  lemma {:induction false} QuantitySumBounds(lines: seq<OrderItemRequest>, n: nat)
    requires n <= |lines|
    requires forall k :: 0 <= k < n ==> 0 < lines[k].quantity <= MaxLineQuantity
    ensures n <= QuantitySum(lines, n) <= MaxLineQuantity * n
  {
    if n > 0 {
      QuantitySumBounds(lines, n - 1);
    }
  }

  /** `validateOrderRequest`: the length checks, then the per-line checks while summing
      the quantities in an int64, then the total quantity. */
  method ValidateOrderRequest(lines: seq<OrderItemRequest>) returns (err: Option<Error>)
    ensures err == OrderRequestError(lines)
  {
    if |lines| < 1 {
      return Some(Fail("empty order items", Validation));
    }
    if |lines| > MaxLines {
      return Some(Fail("too many order items", Validation));
    }
    var totalQuantity: int64 := 0;
    var i := 0;
    while i < |lines|
      invariant 0 <= i <= |lines|
      invariant FirstLineError(lines, 0) == FirstLineError(lines, i)
      invariant forall k :: 0 <= k < i ==> 0 < lines[k].quantity <= MaxLineQuantity
      invariant totalQuantity == QuantitySum(lines, i)
    {
      var item := lines[i];
      if item.productId == 0 {
        return Some(Fail("invalid product ID at index " + RuneString(i), Validation));
      }
      if item.quantity <= 0 {
        return Some(Fail("invalid quantity at index " + RuneString(i), Validation));
      }
      if item.priceUsed <= 0 {
        return Some(Fail("invalid price at index " + RuneString(i), Validation));
      }
      if item.quantity > MaxLineQuantity {
        return Some(Fail("quantity too large at index " + RuneString(i), Validation));
      }
      QuantitySumBounds(lines, i + 1);
      totalQuantity := totalQuantity + item.quantity;
      i := i + 1;
    }
    if totalQuantity > MaxTotalQuantity {
      return Some(Fail("grand total quantity too large", Validation));
    }
    err := None;
  }

  /** The error for the first line from `i` on whose product is not in the store. */
  function FirstMissingProduct(products: map<int64, Product>, lines: seq<OrderItemRequest>, i: nat): (r: Option<Error>)
    requires i <= |lines|
    ensures r.None? <==> forall k :: i <= k < |lines| ==> lines[k].productId in products
    ensures r.Some? ==> r.value.App? && r.value.kind == Validation
    decreases |lines| - i
  {
    if i == |lines| then None
    else if lines[i].productId !in products then
      Some(Fail("product not found: " + Decimal(lines[i].productId), Validation))
    else FirstMissingProduct(products, lines, i + 1)
  }

  function ProductIds(lines: seq<OrderItemRequest>): (ids: seq<int64>)
    ensures |ids| == |lines|
    ensures forall k :: 0 <= k < |lines| ==> ids[k] == lines[k].productId
  {
    if lines == [] then [] else [lines[0].productId] + ProductIds(lines[1..])
  }

  lemma {:induction false} DistinctBound(ids: seq<int64>)
    ensures |set k | 0 <= k < |ids| :: ids[k]| <= |ids|
  {
    if ids != [] {
      var init := ids[..|ids| - 1];
      DistinctBound(init);
      assert (set k | 0 <= k < |ids| :: ids[k]) == (set k | 0 <= k < |init| :: init[k]) + {ids[|ids| - 1]};
    }
  }

  lemma {:induction false} SubsetCard(a: set<int64>, b: set<int64>)
    requires a <= b
    ensures |a| <= |b|
  {
    assert b == a + (b - a);
  }

  /** If the batch lookup returned as many rows as ids were asked for, none is missing. */
  lemma AllFoundWhenCountsMatch(products: map<int64, Product>, ids: seq<int64>)
    requires |FindMultipleByIds(products, ids)| == |ids|
    ensures forall k :: 0 <= k < |ids| ==> ids[k] in products
  {
    var found := FindMultipleByIds(products, ids);
    var asked := set k | 0 <= k < |ids| :: ids[k];
    DistinctBound(ids);
    forall k | 0 <= k < |ids|
      ensures ids[k] in products
    {
      if ids[k] !in products {
        assert ids[k] in asked;
        assert found.Keys <= asked - {ids[k]};
        SubsetCard(found.Keys, asked - {ids[k]});
      }
    }
  }

  /** `validateRequestProducts`: one batch lookup of all requested ids; when fewer rows
      come back than ids were asked for, the first requested id without a row is reported. */
  method ValidateRequestProducts(products: map<int64, Product>, lines: seq<OrderItemRequest>) returns (err: Option<Error>)
    ensures err == FirstMissingProduct(products, lines, 0)
  {
    var productIds := ProductIds(lines);
    var found := FindMultipleByIds(products, productIds);
    if |found| != |productIds| {
      var foundIds := found.Keys;
      var j := 0;
      while j < |productIds|
        invariant 0 <= j <= |productIds|
        invariant FirstMissingProduct(products, lines, 0) == FirstMissingProduct(products, lines, j)
      {
        var requiredId := productIds[j];
        if requiredId !in foundIds {
          return Some(Fail("product not found: " + Decimal(requiredId), Validation));
        }
        j := j + 1;
      }
    } else {
      AllFoundWhenCountsMatch(products, productIds);
    }
    err := None;
  }
}
