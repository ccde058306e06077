/** What order submission and cancellation do to the store, as functions of the store
    before the call. The methods of `OrderService` are proved to act exactly like these. */
module OrderSpec {
  import opened Builtins
  import opened Wrappers
  import opened AppErrors
  import opened Constants
  import opened Entities
  import opened Store
  import opened Formula
  import opened OrderValidation

  /** The clock (`time.Now().UnixMilli()`) and `rand.Read` outcome seen by the k-th call of
      the reference generator within one operation: 0 is the order reference, 1..n the
      order items, n + 1 the payment. */
  datatype Entropy = Entropy(millis: nat -> int64, random: nat -> RandomRead)

  datatype SubmitOrderRequest = SubmitOrderRequest(
    accountUsername: string,
    deliveryAddress: string,
    orderItems: seq<OrderItemRequest>)

  /** `SubmitOrderResponseData` without the order date. */
  datatype SubmitOrderData = SubmitOrderData(orderReference: string, orderStatus: string, total: int64)

  /** Store and generator after a submission. */
  datatype SubmitOutcome = SubmitOutcome(result: Result<SubmitOrderData, Error>, db: Db, counter: uint64)

  const MaxOrderTotal: int := 10_000_000_000

  /** `priceUsed * quantity` as Go's int64 computes it. */
  function ItemTotal(item: OrderItemRequest): int64 {
    Wrap64(item.priceUsed * item.quantity)
  }

  /** The overflow guard of `createOrderItem`. */
  predicate ItemTotalRejected(item: OrderItemRequest) {
    var total := ItemTotal(item);
    total < 0 || total < item.priceUsed || total < item.quantity
  }

  /** `createOrderItem` once the generator has produced `itemId`. */
  function OrderItemFor(item: OrderItemRequest, orderReference: string, username: string, itemId: Result<string, Error>): (r: Result<OrderItem, Error>)
    ensures r.Success? <==> itemId.Success? && !ItemTotalRejected(item)
    ensures itemId.Failure? ==> r == Failure(itemId.error)
    ensures itemId.Success? && ItemTotalRejected(item) ==>
              r == Failure(Fail("price calculation overflow for product: " + Decimal(item.productId), Validation)) &&
              Is(r.error, Validation)
    ensures r.Success? ==> r.value.total == ItemTotal(item) && r.value.total >= 0
    ensures r.Success? ==> r.value.orderItemReference == itemId.value && r.value.orderReference == orderReference
    ensures r.Success? ==> r.value.productId == item.productId && r.value.quantity == item.quantity &&
                           r.value.priceSnapshot == item.priceUsed &&
                           r.value.productNameSnapshot == item.productName &&
                           r.value.productImageUrlSnapshot == item.productImageUrl
  {
    if itemId.Failure? then Failure(itemId.error)
    else if ItemTotalRejected(item) then
      IsAppError(Some(Plain("price calculation overflow for product: " + Decimal(item.productId))), Validation, Validation);
      Failure(Fail("price calculation overflow for product: " + Decimal(item.productId), Validation))
    else
      Success(OrderItem(itemId.value, orderReference, item.productId, item.priceUsed, item.quantity,
                        ItemTotal(item), item.productName, item.productImageUrl, username, username))
  }

  /** `createPayment` once the generator has produced `paymentId`: a PENDING payment for
      the order's total. */
  function PaymentFor(order: Order, username: string, paymentId: Result<string, Error>): (r: Result<Payment, Error>)
    ensures r.Success? <==> paymentId.Success?
    ensures r.Success? ==> r.value.status == PaymentStatusPending && r.value.total == order.total &&
                           r.value.orderReference == order.orderReference && r.value.paymentReference == paymentId.value
  {
    if paymentId.Failure? then Failure(paymentId.error)
    else Success(Payment(paymentId.value, order.orderReference, order.total, "", [], PaymentStatusPending, username, username))
  }

  /** The variables of `SubmitOrder`'s per-line loop, plus the generator's counter and the
      error that ended the loop early, if any. */
  datatype LoopState = LoopState(
    grandTotal: int64,
    orderItems: seq<OrderItem>,
    usedProducts: seq<Product>,
    counter: uint64,
    failure: Option<Error>)

  /** A product's row after line `item` reserved its stock. */
  function Reserved(product: Product, item: OrderItemRequest): Product {
    product.(stock := Wrap64(product.stock - item.quantity), updatedBy := System)
  }

  /** One iteration for line `i`: re-read the product, check it is active and has the
      quantity in stock, reserve it, create the item (generator call i + 1), add to the
      running total, and check the total. */
  function LineStep(products: map<int64, Product>, item: OrderItemRequest, i: nat, st: LoopState,
                    orderReference: string, username: string, e: Entropy): LoopState
  {
    match FindProduct(products, item.productId)
    case Failure(err) => st.(failure := Some(err))
    case Success(product) =>
      if !product.isActive then
        st.(failure := Some(Fail("product is not active: " + Decimal(item.productId), Validation)))
      else if product.stock < item.quantity then
        st.(failure := Some(Fail("insufficient stock for product: " + Decimal(product.id) + " , requested : " +
                                 Decimal(item.quantity) + " , available: " + Decimal(product.stock) + " ", Validation)))
      else
        var used := st.usedProducts + [Reserved(product, item)];
        var c := NextCounter(st.counter);
        var created := OrderItemFor(item, orderReference, username, IdResult("OI", e.millis(i + 1), c, e.random(i + 1)));
        if created.Failure? then st.(usedProducts := used, counter := c, failure := Some(created.error))
        else
          var newGrandTotal := Wrap64(st.grandTotal + created.value.total);
          if newGrandTotal < st.grandTotal then
            st.(usedProducts := used, counter := c, failure := Some(Fail("grand total overflow", Conflict)))
          else if newGrandTotal > MaxOrderTotal then
            st.(usedProducts := used, counter := c,
                failure := Some(Fail("order total exceeds maximum limit: " + Decimal(newGrandTotal), Validation)))
          else
            LoopState(newGrandTotal, st.orderItems + [created.value], used, c, None)
  }

  /** The sum of the item totals. */
  function SumTotals(items: seq<OrderItem>): int
    decreases |items|
  {
    if items == [] then 0 else SumTotals(items[..|items| - 1]) + items[|items| - 1].total
  }

  /** A line that passes appends one item, adds its total to the running total exactly
      (the overflow checks leave no wrap-around) and makes one generator call. */
  lemma LineStepAppends(products: map<int64, Product>, line: OrderItemRequest, i: nat, st: LoopState,
                        orderReference: string, username: string, e: Entropy)
    requires 0 <= st.grandTotal
    ensures var next := LineStep(products, line, i, st, orderReference, username, e);
            next.failure.None? ==>
              |next.orderItems| == |st.orderItems| + 1 && next.orderItems[..|st.orderItems|] == st.orderItems &&
              next.grandTotal == st.grandTotal + next.orderItems[|st.orderItems|].total &&
              next.counter == NextCounter(st.counter)
  {
    var next := LineStep(products, line, i, st, orderReference, username, e);
    if next.failure.None? {
      var created := OrderItemFor(line, orderReference, username,
                                  IdResult("OI", e.millis(i + 1), NextCounter(st.counter), e.random(i + 1)));
      assert next.orderItems == st.orderItems + [created.value];
      Wrap64Unsigned(st.grandTotal + created.value.total);
    }
  }

  /** The loop state after the first n lines (an error ends the loop). A loop that got
      through them holds one item and one reserved row per line, the exact sum of the item
      totals, and has made one generator call per line. */
  function Lines(products: map<int64, Product>, lines: seq<OrderItemRequest>, n: nat, counter: uint64,
                 orderReference: string, username: string, e: Entropy): (st: LoopState)
    requires n <= |lines|
    ensures st.failure.None? ==> |st.orderItems| == n && |st.usedProducts| == n
    ensures st.failure.None? ==> 0 <= st.grandTotal <= MaxOrderTotal
    ensures st.failure.None? ==> st.grandTotal == SumTotals(st.orderItems)
    ensures st.failure.None? ==> st.counter == CounterAfter(counter, n)
    decreases n
  {
    if n == 0 then LoopState(0, [], [], counter, None)
    else
      var prev := Lines(products, lines, n - 1, counter, orderReference, username, e);
      if prev.failure.Some? then prev
      else
        LineStepAppends(products, lines[n - 1], n - 1, prev, orderReference, username, e);
        LineStep(products, lines[n - 1], n - 1, prev, orderReference, username, e)
  }

  /** Once a line fails, the loop state is final. */
  lemma {:induction false} FailureEndsLoop(products: map<int64, Product>, lines: seq<OrderItemRequest>, n: nat,
                                           counter: uint64, orderReference: string, username: string, e: Entropy)
    requires n <= |lines|
    requires Lines(products, lines, n, counter, orderReference, username, e).failure.Some?
    ensures Lines(products, lines, |lines|, counter, orderReference, username, e) ==
            Lines(products, lines, n, counter, orderReference, username, e)
    decreases |lines| - n
  {
    if n < |lines| {
      FailureEndsLoop(products, lines, n + 1, counter, orderReference, username, e);
    }
  }

  /** `SubmitOrder`: pre-validation, then (inside the transaction) the order reference, the
      account, the product batch check, the per-line loop, and the writes of the order, its
      items, the reserved stock and the PENDING payment. Any error rolls the store back; the
      generator's counter keeps every step it made. */
  function SubmitOrderSpec(db: Db, counter: uint64, request: SubmitOrderRequest, e: Entropy): SubmitOutcome {
    var lines := request.orderItems;
    if OrderRequestError(lines).Some? then SubmitOutcome(Failure(OrderRequestError(lines).value), db, counter)
    else
      var c1 := NextCounter(counter);
      var orderId := IdResult("ORDER", e.millis(0), c1, e.random(0));
      if orderId.Failure? then SubmitOutcome(Failure(orderId.error), db, c1)
      else
        var found := FindAccount(db.accounts, request.accountUsername);
        if found.Failure? then SubmitOutcome(Failure(found.error), db, c1)
        else if !found.value.isActive then SubmitOutcome(Failure(Fail("account inactive", AccessDenied)), db, c1)
        else if FirstMissingProduct(db.products, lines, 0).Some? then
          SubmitOutcome(Failure(FirstMissingProduct(db.products, lines, 0).value), db, c1)
        else
          var username := found.value.username;
          var st := Lines(db.products, lines, |lines|, c1, orderId.value, username, e);
          if st.failure.Some? then SubmitOutcome(Failure(st.failure.value), db, st.counter)
          else
            var order := Order(orderId.value, username, request.deliveryAddress, OrderStatusPendingPayment,
                               st.grandTotal, username, username);
            CommitOrderSpec(db, order, st, |lines| + 1, e)
  }

  /** The writes of a submission whose checks all passed: the order, its items, the reserved
      stock, then the payment (generator call `payCall`). A failure rolls all of them back. */
  function CommitOrderSpec(db: Db, order: Order, st: LoopState, payCall: nat, e: Entropy): (out: SubmitOutcome)
    ensures out.result.Failure? ==> out.db == db
  {
    if order.orderReference in db.orders then
      SubmitOutcome(Failure(Fail(DuplicateKey, DBOperation)), db, st.counter)
    else
      var existing := if order.orderReference in db.items then db.items[order.orderReference] else [];
      var db1 := db.(orders := db.orders[order.orderReference := order],
                     items := db.items[order.orderReference := existing + st.orderItems]);
      var upsert := BatchUpsertResult(db1.products, st.usedProducts);
      if upsert.Failure? then SubmitOutcome(Failure(upsert.error), db, st.counter)
      else
        var c2 := NextCounter(st.counter);
        var payment := PaymentFor(order, order.createdBy, IdResult("PAY", e.millis(payCall), c2, e.random(payCall)));
        if payment.Failure? then SubmitOutcome(Failure(payment.error), db, c2)
        else
          var db2 := db1.(products := upsert.value,
                          payments := db1.payments[order.orderReference := payment.value]);
          SubmitOutcome(Success(SubmitOrderData(order.orderReference, order.status, order.total)), db2, c2)
  }

  datatype CancelOrderRequest = CancelOrderRequest(orderReference: string, accountUsername: string)

  /** `CancelOrderResponseData` without the order date. */
  datatype CancelOrderData = CancelOrderData(orderReference: string, orderStatus: string, paymentStatus: string)

  datatype CancelOutcome = CancelOutcome(result: Result<CancelOrderData, Error>, db: Db)

  /** The payment status a cancellation leaves, by the order status it found. */
  function CancelledPaymentStatus(orderStatus: string, paymentStatus: string): (r: string)
    ensures orderStatus == OrderStatusPendingPayment ==> r == PaymentStatusCancelled
    ensures orderStatus == OrderStatusPaymentReceived ==> r == PaymentStatusRefunded
    ensures orderStatus != OrderStatusPendingPayment && orderStatus != OrderStatusPaymentReceived ==> r == paymentStatus
  {
    if orderStatus == OrderStatusPendingPayment then PaymentStatusCancelled
    else if orderStatus == OrderStatusPaymentReceived then PaymentStatusRefunded
    else paymentStatus
  }

  function ItemProductIds(items: seq<OrderItem>): (ids: seq<int64>)
    ensures |ids| == |items|
    ensures forall k :: 0 <= k < |items| ==> ids[k] == items[k].productId
  {
    if items == [] then [] else [items[0].productId] + ItemProductIds(items[1..])
  }

  /** A product's row after item `item` returned its quantity. */
  function Restocked(product: Product, item: OrderItem): Product {
    product.(stock := Wrap64(product.stock + item.quantity), updatedBy := System)
  }

  /** `productsToUpdate` after the first items: one entry per item whose product was
      fetched, built from the fetched copy in `productMap`. */
  function RestockEntries(productMap: map<int64, Product>, items: seq<OrderItem>): (entries: seq<Product>)
    ensures |entries| <= |items|
    ensures |entries| == 0 <==> forall k :: 0 <= k < |items| ==> items[k].productId !in productMap
    decreases |items|
  {
    if items == [] then []
    else
      var last := items[|items| - 1];
      var prev := RestockEntries(productMap, items[..|items| - 1]);
      if last.productId in productMap then prev + [Restocked(productMap[last.productId], last)] else prev
  }

  /** The stock return of a cancellation, on top of the order and payment updates in `db`. */
  function RestockSpec(db: Db, items: seq<OrderItem>): (r: Result<Db, Error>) {
    var productMap := FindMultipleByIds(db.products, ItemProductIds(items));
    var entries := RestockEntries(productMap, items);
    if |entries| == 0 then Success(db)
    else
      match BatchUpsertResult(db.products, entries)
      case Failure(err) => Failure(err)
      case Success(products) => Success(db.(products := products))
  }

  /** `CancelOrder`: the lookups of order (with items), account and payment, the PROCESSED
      check, then the order and payment updates and the stock return in one transaction. */
  function CancelOrderSpec(db: Db, request: CancelOrderRequest): CancelOutcome {
    if request.orderReference !in db.orders then
      CancelOutcome(Failure(Fail(RecordNotFound, ResourceNotFound)), db)
    else
      var order := db.orders[request.orderReference];
      var items := if request.orderReference in db.items then db.items[request.orderReference] else [];
      var found := FindAccount(db.accounts, request.accountUsername);
      if found.Failure? then CancelOutcome(Failure(found.error), db)
      else if order.status == OrderStatusProcessed then
        CancelOutcome(Failure(Fail("order status already final", Conflict)), db)
      else if request.orderReference !in db.payments then
        CancelOutcome(Failure(Fail(RecordNotFound, ResourceNotFound)), db)
      else
        var payment := db.payments[request.orderReference];
        var username := found.value.username;
        var newOrder := order.(status := OrderStatusCancelled, updatedBy := username);
        var newPayment := payment.(status := CancelledPaymentStatus(order.status, payment.status), updatedBy := username);
        var db1 := db.(orders := db.orders[newOrder.orderReference := newOrder],
                       payments := db.payments[newPayment.orderReference := newPayment]);
        match RestockSpec(db1, items)
        case Failure(err) => CancelOutcome(Failure(err), db)
        case Success(db2) =>
          CancelOutcome(Success(CancelOrderData(newOrder.orderReference, newOrder.status, newPayment.status)), db2)
  }
}
