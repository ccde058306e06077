/** What a submission guarantees: which requests it refuses and why, and what a successful
    one writes (the order, its items, the reserved stock and the pending payment). */
module SubmitProperties {
  import opened Builtins
  import opened Wrappers
  import opened AppErrors
  import opened Constants
  import opened Entities
  import opened Store
  import opened Formula
  import opened OrderValidation
  import opened OrderSpec

  /** In a list of non-negative totals, every single total is at most the sum. */
  lemma {:induction false} SumTotalsBound(items: seq<OrderItem>, k: nat)
    requires k < |items|
    requires forall j :: 0 <= j < |items| ==> items[j].total >= 0
    ensures 0 <= items[k].total <= SumTotals(items)
    decreases |items|
  {
    var init := items[..|items| - 1];
    if k < |items| - 1 {
      SumTotalsBound(init, k);
    } else if init != [] {
      SumTotalsBound(init, 0);
    }
  }

  /** Line `line` was accepted: its product exists, is active and has the quantity in stock,
      the reserved row is that product with the quantity taken off, and the created item is
      a snapshot of the line. */
  predicate LineAccepted(products: map<int64, Product>, line: OrderItemRequest, item: OrderItem, used: Product,
                         orderReference: string, username: string)
  {
    line.productId in products &&
    products[line.productId].isActive && products[line.productId].stock >= line.quantity &&
    used == Reserved(products[line.productId], line) &&
    !ItemTotalRejected(line) &&
    item.orderReference == orderReference && item.productId == line.productId &&
    item.priceSnapshot == line.priceUsed && item.quantity == line.quantity &&
    item.productNameSnapshot == line.productName && item.productImageUrlSnapshot == line.productImageUrl &&
    item.total == ItemTotal(line) && item.total >= 0 &&
    item.createdBy == username && item.updatedBy == username
  }

  /** One line that passes appends an accepted item and reserved row, adds the item's
      total to the running total exactly, and makes one generator call. */
  lemma LineStepSuccess(products: map<int64, Product>, line: OrderItemRequest, i: nat, st: LoopState,
                        orderReference: string, username: string, e: Entropy)
    requires 0 <= st.grandTotal
    requires LineStep(products, line, i, st, orderReference, username, e).failure.None?
    ensures var next := LineStep(products, line, i, st, orderReference, username, e);
            |next.orderItems| == |st.orderItems| + 1 && |next.usedProducts| == |st.usedProducts| + 1 &&
            next.orderItems[..|st.orderItems|] == st.orderItems &&
            next.usedProducts[..|st.usedProducts|] == st.usedProducts &&
            LineAccepted(products, line, next.orderItems[|st.orderItems|], next.usedProducts[|st.usedProducts|],
                         orderReference, username) &&
            next.grandTotal == st.grandTotal + next.orderItems[|st.orderItems|].total &&
            next.counter == NextCounter(st.counter)
  {
    var next := LineStep(products, line, i, st, orderReference, username, e);
    var c := NextCounter(st.counter);
    var created := OrderItemFor(line, orderReference, username, IdResult("OI", e.millis(i + 1), c, e.random(i + 1)));
    assert created.Success?;
    assert next.orderItems == st.orderItems + [created.value];
    assert next.usedProducts == st.usedProducts + [Reserved(products[line.productId], line)];
    Wrap64Unsigned(st.grandTotal + created.value.total);
  }

  /** Line k of a loop that got through n > k lines was accepted. */
  lemma {:induction false} LineKAccepted(products: map<int64, Product>, lines: seq<OrderItemRequest>, n: nat, k: nat,
                                         counter: uint64, orderReference: string, username: string, e: Entropy)
    requires k < n <= |lines|
    requires Lines(products, lines, n, counter, orderReference, username, e).failure.None?
    ensures var st := Lines(products, lines, n, counter, orderReference, username, e);
            LineAccepted(products, lines[k], st.orderItems[k], st.usedProducts[k], orderReference, username)
    decreases n
  {
    var st := Lines(products, lines, n, counter, orderReference, username, e);
    var prev := Lines(products, lines, n - 1, counter, orderReference, username, e);
    assert prev.failure.None?;
    LineStepSuccess(products, lines[n - 1], n - 1, prev, orderReference, username, e);
    if k < n - 1 {
      LineKAccepted(products, lines, n - 1, k, counter, orderReference, username, e);
      assert st.orderItems[..n - 1][k] == st.orderItems[k];
      assert st.usedProducts[..n - 1][k] == st.usedProducts[k];
    }
  }

  /** Each line a loop got through was accepted. */
  lemma LinesAccepted(products: map<int64, Product>, lines: seq<OrderItemRequest>, n: nat,
                      counter: uint64, orderReference: string, username: string, e: Entropy)
    requires n <= |lines|
    requires Lines(products, lines, n, counter, orderReference, username, e).failure.None?
    ensures var st := Lines(products, lines, n, counter, orderReference, username, e);
            forall k :: 0 <= k < n ==>
              LineAccepted(products, lines[k], st.orderItems[k], st.usedProducts[k], orderReference, username)
  {
    forall k | 0 <= k < n
      ensures var st := Lines(products, lines, n, counter, orderReference, username, e);
              LineAccepted(products, lines[k], st.orderItems[k], st.usedProducts[k], orderReference, username)
    {
      LineKAccepted(products, lines, n, k, counter, orderReference, username, e);
    }
  }

  /** The item recorded for `line` copies the line and carries its exact total. */
  predicate ItemSnapshot(line: OrderItemRequest, item: OrderItem, orderReference: string) {
    item.orderReference == orderReference && item.productId == line.productId &&
    item.quantity == line.quantity && item.priceSnapshot == line.priceUsed &&
    item.productNameSnapshot == line.productName &&
    item.productImageUrlSnapshot == line.productImageUrl &&
    item.total == line.priceUsed * line.quantity
  }

  /** With the pre-validation passed, every item a completed loop created is a snapshot of
      its line with the exact total price * quantity, and the loop's total is their sum. */
  lemma LinesItemsExact(products: map<int64, Product>, lines: seq<OrderItemRequest>,
                        counter: uint64, orderReference: string, username: string, e: Entropy)
    requires WellFormedRequest(lines)
    requires Lines(products, lines, |lines|, counter, orderReference, username, e).failure.None?
    ensures var st := Lines(products, lines, |lines|, counter, orderReference, username, e);
            st.grandTotal == SumTotals(st.orderItems) &&
            forall k :: 0 <= k < |lines| ==> ItemSnapshot(lines[k], st.orderItems[k], orderReference)
  {
    var st := Lines(products, lines, |lines|, counter, orderReference, username, e);
    LinesAccepted(products, lines, |lines|, counter, orderReference, username, e);
    forall k | 0 <= k < |lines|
      ensures ItemSnapshot(lines[k], st.orderItems[k], orderReference)
    {
      assert LineAccepted(products, lines[k], st.orderItems[k], st.usedProducts[k], orderReference, username);
      SumTotalsBound(st.orderItems, k);
      ItemTotalExact(lines[k]);
    }
  }

  /** `counter` advanced once and then n more times. */
  lemma {:induction false} CounterAfterNext(counter: uint64, n: nat)
    ensures CounterAfter(NextCounter(counter), n) == CounterAfter(counter, n + 1)
  {
    if n > 0 {
      CounterAfterNext(counter, n - 1);
    }
  }

  /** Under the pre-validation and the order total cap, an accepted item's total is the exact
      product of price and quantity: no overflow slips through. */
  lemma ItemTotalExact(line: OrderItemRequest)
    requires 0 < line.priceUsed && 0 < line.quantity <= MaxLineQuantity
    requires !ItemTotalRejected(line) && ItemTotal(line) <= MaxOrderTotal
    ensures ItemTotal(line) == line.priceUsed * line.quantity
  {
    MulBound(line.priceUsed, line.quantity, MaxOrderTotal, MaxLineQuantity);
  }

  lemma MulBound(a: int, b: int, bigA: int, bigB: int)
    requires 0 <= a <= bigA && 0 <= b <= bigB
    ensures a * b <= bigA * bigB
  {
    assert a * b <= bigA * b;
    assert bigA * b <= bigA * bigB;
  }

  /** The overflow guard of `createOrderItem` on its own misses some overflows: a price of
      2^62 + 1 times 5 wraps to 2^62 + 5, which is positive and above both factors. The
      order total cap rejects such an item afterwards. */
  lemma ItemGuardMissesOverflow(line: OrderItemRequest)
    requires line.priceUsed == 0x4000_0000_0000_0001 && line.quantity == 5
    ensures !ItemTotalRejected(line)
    ensures ItemTotal(line) != line.priceUsed * line.quantity
    ensures ItemTotal(line) > MaxOrderTotal
  {
    assert line.priceUsed * line.quantity == TwoTo64 + 0x4000_0000_0000_0005;
    assert (line.priceUsed * line.quantity) % TwoTo64 == 0x4000_0000_0000_0005;
  }

  /** A malformed request is refused with a Validation error before the store or the
      generator is touched. */
  lemma SubmitRejectsMalformed(db: Db, counter: uint64, request: SubmitOrderRequest, e: Entropy)
    requires !WellFormedRequest(request.orderItems)
    ensures var out := SubmitOrderSpec(db, counter, request, e);
            out.result.Failure? && Is(out.result.error, Validation) && out.db == db && out.counter == counter
  {
    OrderRequestErrorExact(request.orderItems);
  }

  /** Every failed submission leaves the store as it was. */
  lemma SubmitFailureKeepsStore(db: Db, counter: uint64, request: SubmitOrderRequest, e: Entropy)
    ensures var out := SubmitOrderSpec(db, counter, request, e);
            out.result.Failure? ==> out.db == db
  {
  }

  /** The checks before the loop: the order reference needs random bytes (Conflict
      otherwise), the account must exist (ResourceNotFound) and be active (AccessDenied), and
      every product must exist (Validation). Each refusal leaves the store as it was. */
  lemma SubmitChecksBeforeLines(db: Db, counter: uint64, request: SubmitOrderRequest, e: Entropy)
    requires WellFormedRequest(request.orderItems)
    ensures var out := SubmitOrderSpec(db, counter, request, e);
            e.random(0).RandomFailure? ==>
              out.result.Failure? && Is(out.result.error, Conflict) && out.db == db && out.counter == NextCounter(counter)
    ensures var out := SubmitOrderSpec(db, counter, request, e);
            e.random(0).RandomBytes? && request.accountUsername !in db.accounts ==>
              out.result.Failure? && Is(out.result.error, ResourceNotFound) && out.db == db
    ensures var out := SubmitOrderSpec(db, counter, request, e);
            e.random(0).RandomBytes? && request.accountUsername in db.accounts &&
            !db.accounts[request.accountUsername].isActive ==>
              out.result == Failure(Fail("account inactive", AccessDenied)) && out.db == db
    ensures var out := SubmitOrderSpec(db, counter, request, e);
            e.random(0).RandomBytes? && request.accountUsername in db.accounts &&
            db.accounts[request.accountUsername].isActive &&
            (exists k :: 0 <= k < |request.orderItems| && request.orderItems[k].productId !in db.products) ==>
              out.result.Failure? && Is(out.result.error, Validation) && out.db == db
  {
    OrderRequestErrorExact(request.orderItems);
    var miss := FirstMissingProduct(db.products, request.orderItems, 0);
    if miss.Some? {
      IsAppError(miss.value.generic, miss.value.kind, Validation);
    }
  }

  /** A line whose product is inactive or short of stock is refused with a Validation error. */
  lemma LineStepRejects(products: map<int64, Product>, line: OrderItemRequest, i: nat, st: LoopState,
                        orderReference: string, username: string, e: Entropy)
    requires line.productId in products
    requires !products[line.productId].isActive || products[line.productId].stock < line.quantity
    ensures var next := LineStep(products, line, i, st, orderReference, username, e);
            next.failure.Some? && Is(next.failure.value, Validation)
  {
    var next := LineStep(products, line, i, st, orderReference, username, e);
    assert next.failure.Some? && next.failure.value.App? && next.failure.value.kind == Validation;
    IsAppError(next.failure.value.generic, Validation, Validation);
  }

  /** A line whose product is active and in stock can still fail on its totals, each with
      its own kind: the item guard with Validation, a running total that wrapped below the
      previous one with Conflict, and a running total above 10^10 with Validation. */
  lemma LineStepOverflowErrors(products: map<int64, Product>, line: OrderItemRequest, i: nat, st: LoopState,
                               orderReference: string, username: string, e: Entropy)
    requires line.productId in products
    requires products[line.productId].isActive && products[line.productId].stock >= line.quantity
    requires e.random(i + 1).RandomBytes?
    ensures var next := LineStep(products, line, i, st, orderReference, username, e);
            ItemTotalRejected(line) ==>
              next.failure == Some(Fail("price calculation overflow for product: " + Decimal(line.productId), Validation)) &&
              Is(next.failure.value, Validation)
    ensures var next := LineStep(products, line, i, st, orderReference, username, e);
            var sum := Wrap64(st.grandTotal + ItemTotal(line));
            !ItemTotalRejected(line) && sum < st.grandTotal ==>
              next.failure == Some(Fail("grand total overflow", Conflict)) && Is(next.failure.value, Conflict)
    ensures var next := LineStep(products, line, i, st, orderReference, username, e);
            var sum := Wrap64(st.grandTotal + ItemTotal(line));
            !ItemTotalRejected(line) && st.grandTotal <= sum && sum > MaxOrderTotal ==>
              next.failure == Some(Fail("order total exceeds maximum limit: " + Decimal(sum), Validation)) &&
              Is(next.failure.value, Validation)
  {
    var sum := Wrap64(st.grandTotal + ItemTotal(line));
    IsAppError(Some(Plain("grand total overflow")), Conflict, Conflict);
    IsAppError(Some(Plain("order total exceeds maximum limit: " + Decimal(sum))), Validation, Validation);
  }

  /** The loop after line n, from the loop before it. */
  lemma LinesNext(products: map<int64, Product>, lines: seq<OrderItemRequest>, n: nat,
                  counter: uint64, orderReference: string, username: string, e: Entropy)
    requires n < |lines|
    requires Lines(products, lines, n, counter, orderReference, username, e).failure.None?
    ensures Lines(products, lines, n + 1, counter, orderReference, username, e) ==
            LineStep(products, lines[n], n, Lines(products, lines, n, counter, orderReference, username, e),
                     orderReference, username, e)
  {
  }

  /** Such a line ends the whole loop with that error once the lines before it were accepted. */
  lemma LineRejected(products: map<int64, Product>, lines: seq<OrderItemRequest>, k: nat,
                     counter: uint64, orderReference: string, username: string, e: Entropy)
    requires k < |lines|
    requires Lines(products, lines, k, counter, orderReference, username, e).failure.None?
    requires lines[k].productId in products
    requires !products[lines[k].productId].isActive || products[lines[k].productId].stock < lines[k].quantity
    ensures var st := Lines(products, lines, |lines|, counter, orderReference, username, e);
            st.failure.Some? && Is(st.failure.value, Validation)
  {
    var prev := Lines(products, lines, k, counter, orderReference, username, e);
    LinesNext(products, lines, k, counter, orderReference, username, e);
    LineStepRejects(products, lines[k], k, prev, orderReference, username, e);
    FailureEndsLoop(products, lines, k + 1, counter, orderReference, username, e);
  }

  /** The writes of a successful commit: the order under a key that was free, the items
      appended to the order's list, the stock batch (which had no repeated product), and a
      PENDING payment for the order's total. */
  lemma CommitSucceeded(db: Db, order: Order, st: LoopState, payCall: nat, e: Entropy)
    requires CommitOrderSpec(db, order, st, payCall, e).result.Success?
    ensures order.orderReference !in db.orders && !HasDuplicateIds(st.usedProducts)
    ensures var out := CommitOrderSpec(db, order, st, payCall, e);
            out.result.value == SubmitOrderData(order.orderReference, order.status, order.total)
    ensures var out := CommitOrderSpec(db, order, st, payCall, e);
            out.db.products == UpsertAll(db.products, st.usedProducts) && out.db.accounts == db.accounts &&
            out.db.orders == db.orders[order.orderReference := order]
    ensures var out := CommitOrderSpec(db, order, st, payCall, e);
            var ref := order.orderReference;
            out.db.items == db.items[ref := (if ref in db.items then db.items[ref] else []) + st.orderItems]
    ensures var out := CommitOrderSpec(db, order, st, payCall, e);
            var ref := order.orderReference;
            ref in out.db.payments && out.db.payments == db.payments[ref := out.db.payments[ref]] &&
            out.db.payments[ref].orderReference == ref && out.db.payments[ref].status == PaymentStatusPending &&
            out.db.payments[ref].total == order.total
    ensures CommitOrderSpec(db, order, st, payCall, e).counter == NextCounter(st.counter)
  {
  }

  /** The state a successful submission went through. */
  lemma SubmitSuccessPath(db: Db, counter: uint64, request: SubmitOrderRequest, e: Entropy)
    requires SubmitOrderSpec(db, counter, request, e).result.Success?
    ensures WellFormedRequest(request.orderItems)
    ensures var orderId := IdResult("ORDER", e.millis(0), NextCounter(counter), e.random(0));
            orderId.Success? && request.accountUsername in db.accounts &&
            db.accounts[request.accountUsername].isActive &&
            var st := Lines(db.products, request.orderItems, |request.orderItems|, NextCounter(counter), orderId.value,
                            db.accounts[request.accountUsername].username, e);
            st.failure.None? &&
            SubmitOrderSpec(db, counter, request, e) ==
              CommitOrderSpec(db, Order(orderId.value, db.accounts[request.accountUsername].username,
                                        request.deliveryAddress, OrderStatusPendingPayment, st.grandTotal,
                                        db.accounts[request.accountUsername].username,
                                        db.accounts[request.accountUsername].username),
                              st, |request.orderItems| + 1, e)
  {
    OrderRequestErrorExact(request.orderItems);
  }

  /** The order reference and final loop state of a successful submission, by name. */
  lemma SubmitSuccessParts(db: Db, counter: uint64, request: SubmitOrderRequest, e: Entropy)
    returns (orderId: string, st: LoopState)
    requires WellKeyed(db)
    requires SubmitOrderSpec(db, counter, request, e).result.Success?
    ensures WellFormedRequest(request.orderItems)
    ensures request.accountUsername in db.accounts && db.accounts[request.accountUsername].isActive
    ensures st == Lines(db.products, request.orderItems, |request.orderItems|, NextCounter(counter), orderId,
                        request.accountUsername, e)
    ensures st.failure.None?
    ensures SubmitOrderSpec(db, counter, request, e) ==
              CommitOrderSpec(db, Order(orderId, request.accountUsername, request.deliveryAddress,
                                        OrderStatusPendingPayment, st.grandTotal,
                                        request.accountUsername, request.accountUsername),
                              st, |request.orderItems| + 1, e)
  {
    SubmitSuccessPath(db, counter, request, e);
    orderId := IdResult("ORDER", e.millis(0), NextCounter(counter), e.random(0)).value;
    st := Lines(db.products, request.orderItems, |request.orderItems|, NextCounter(counter), orderId,
                request.accountUsername, e);
  }

  /** The checks a successful submission passed and its result, by the order reference and
      final loop state. */
  lemma SubmitCommitted(db: Db, counter: uint64, request: SubmitOrderRequest, e: Entropy)
    returns (orderId: string, st: LoopState)
    requires WellKeyed(db)
    requires SubmitOrderSpec(db, counter, request, e).result.Success?
    ensures WellFormedRequest(request.orderItems)
    ensures request.accountUsername in db.accounts && db.accounts[request.accountUsername].isActive
    ensures st == Lines(db.products, request.orderItems, |request.orderItems|, NextCounter(counter), orderId,
                        request.accountUsername, e)
    ensures st.failure.None? && orderId !in db.orders && !HasDuplicateIds(st.usedProducts)
    ensures SubmitOrderSpec(db, counter, request, e).result.value ==
              SubmitOrderData(orderId, OrderStatusPendingPayment, st.grandTotal)
    ensures SubmitOrderSpec(db, counter, request, e).counter == NextCounter(st.counter)
  {
    orderId, st := SubmitSuccessParts(db, counter, request, e);
    var user := request.accountUsername;
    CommitSucceeded(db, Order(orderId, user, request.deliveryAddress, OrderStatusPendingPayment, st.grandTotal, user, user),
                    st, |request.orderItems| + 1, e);
  }

  /** Every write of a successful submission, by the order reference and final loop state. */
  lemma SubmitWrites(db: Db, counter: uint64, request: SubmitOrderRequest, e: Entropy)
    returns (orderId: string, st: LoopState)
    requires WellKeyed(db)
    requires SubmitOrderSpec(db, counter, request, e).result.Success?
    ensures st == Lines(db.products, request.orderItems, |request.orderItems|, NextCounter(counter), orderId,
                        request.accountUsername, e)
    ensures SubmitOrderSpec(db, counter, request, e).result.value ==
              SubmitOrderData(orderId, OrderStatusPendingPayment, st.grandTotal)
    ensures orderId !in db.items
    ensures var out := SubmitOrderSpec(db, counter, request, e);
            var user := request.accountUsername;
            out.db.products == UpsertAll(db.products, st.usedProducts) && out.db.accounts == db.accounts &&
            out.db.orders == db.orders[orderId := Order(orderId, user, request.deliveryAddress, OrderStatusPendingPayment,
                                                        st.grandTotal, user, user)]
    ensures SubmitOrderSpec(db, counter, request, e).db.items == db.items[orderId := st.orderItems]
  {
    orderId, st := SubmitSuccessParts(db, counter, request, e);
    var user := request.accountUsername;
    CommitSucceeded(db, Order(orderId, user, request.deliveryAddress, OrderStatusPendingPayment, st.grandTotal, user, user),
                    st, |request.orderItems| + 1, e);
    assert [] + st.orderItems == st.orderItems;
  }

  /** The payment row of a successful submission, by the order reference and final loop state. */
  lemma SubmitPaymentWrite(db: Db, counter: uint64, request: SubmitOrderRequest, e: Entropy)
    returns (orderId: string, st: LoopState)
    requires WellKeyed(db)
    requires SubmitOrderSpec(db, counter, request, e).result.Success?
    ensures SubmitOrderSpec(db, counter, request, e).result.value ==
              SubmitOrderData(orderId, OrderStatusPendingPayment, st.grandTotal)
    ensures var out := SubmitOrderSpec(db, counter, request, e);
            orderId in out.db.payments && out.db.payments == db.payments[orderId := out.db.payments[orderId]] &&
            out.db.payments[orderId].orderReference == orderId &&
            out.db.payments[orderId].status == PaymentStatusPending &&
            out.db.payments[orderId].total == st.grandTotal
  {
    orderId, st := SubmitSuccessParts(db, counter, request, e);
    var user := request.accountUsername;
    CommitSucceeded(db, Order(orderId, user, request.deliveryAddress, OrderStatusPendingPayment, st.grandTotal, user, user),
                    st, |request.orderItems| + 1, e);
  }

  /** A successful submission created a PENDING PAYMENT order under a reference that was
      free, for the requesting (active) account, with a total within the cap, and touched no
      other order and no account. */
  lemma SubmitOrderRecordsOrder(db: Db, counter: uint64, request: SubmitOrderRequest, e: Entropy)
    requires WellKeyed(db)
    requires SubmitOrderSpec(db, counter, request, e).result.Success?
    ensures var out := SubmitOrderSpec(db, counter, request, e);
            var user := request.accountUsername;
            var data := out.result.value;
            var ref := data.orderReference;
            WellFormedRequest(request.orderItems) &&
            user in db.accounts && db.accounts[user].isActive &&
            ref !in db.orders &&
            data.orderStatus == OrderStatusPendingPayment && 0 <= data.total <= MaxOrderTotal &&
            out.db.orders == db.orders[ref := Order(ref, user, request.deliveryAddress, OrderStatusPendingPayment,
                                                    data.total, user, user)] &&
            out.db.accounts == db.accounts
  {
    var orderId, st := SubmitCommitted(db, counter, request, e);
    var orderId', st' := SubmitWrites(db, counter, request, e);
  }

  /** A successful submission recorded one item per line, each a snapshot of its line with
      the exact total price * quantity, and an order total equal to their sum; no other
      order's item list changed. */
  lemma SubmitOrderRecordsItems(db: Db, counter: uint64, request: SubmitOrderRequest, e: Entropy)
    requires WellKeyed(db)
    requires SubmitOrderSpec(db, counter, request, e).result.Success?
    ensures var out := SubmitOrderSpec(db, counter, request, e);
            var lines := request.orderItems;
            var data := out.result.value;
            var ref := data.orderReference;
            ref in out.db.items && out.db.items == db.items[ref := out.db.items[ref]] &&
            |out.db.items[ref]| == |lines| && data.total == SumTotals(out.db.items[ref]) &&
            forall k :: 0 <= k < |lines| ==> ItemSnapshot(lines[k], out.db.items[ref][k], ref)
  {
    var orderId, st := SubmitCommitted(db, counter, request, e);
    var orderId', st' := SubmitWrites(db, counter, request, e);
    LinesItemsExact(db.products, request.orderItems, NextCounter(counter), orderId, request.accountUsername, e);
  }

  /** A successful submission recorded a PENDING payment for the order's total and touched
      no other payment. */
  lemma SubmitOrderRecordsPayment(db: Db, counter: uint64, request: SubmitOrderRequest, e: Entropy)
    requires WellKeyed(db)
    requires SubmitOrderSpec(db, counter, request, e).result.Success?
    ensures var out := SubmitOrderSpec(db, counter, request, e);
            var data := out.result.value;
            var ref := data.orderReference;
            ref in out.db.payments && out.db.payments == db.payments[ref := out.db.payments[ref]] &&
            out.db.payments[ref].orderReference == ref &&
            out.db.payments[ref].status == PaymentStatusPending && out.db.payments[ref].total == data.total
  {
    var orderId, st := SubmitPaymentWrite(db, counter, request, e);
  }

  /** A successful submission made |lines| + 2 generator calls. */
  lemma SubmitOrderAdvancesCounter(db: Db, counter: uint64, request: SubmitOrderRequest, e: Entropy)
    requires WellKeyed(db)
    requires SubmitOrderSpec(db, counter, request, e).result.Success?
    ensures SubmitOrderSpec(db, counter, request, e).counter == CounterAfter(counter, |request.orderItems| + 2)
  {
    var orderId, st := SubmitCommitted(db, counter, request, e);
    SubmitCounterSteps(counter, |request.orderItems|);
  }

  /** The order reference, n item references and the payment reference advance the counter
      n + 2 times. */
  lemma SubmitCounterSteps(counter: uint64, n: nat)
    ensures NextCounter(CounterAfter(NextCounter(counter), n)) == CounterAfter(counter, n + 2)
  {
    CounterAfterNext(counter, n);
  }

  /** The stock batch of a successful submission: one reserved row per line (each line
      accepted), without repeated products, upserted into the product table. */
  lemma SubmitStockParts(db: Db, counter: uint64, request: SubmitOrderRequest, e: Entropy)
    returns (orderId: string, st: LoopState)
    requires WellKeyed(db)
    requires SubmitOrderSpec(db, counter, request, e).result.Success?
    ensures |st.orderItems| == |request.orderItems| && |st.usedProducts| == |request.orderItems|
    ensures SubmitOrderSpec(db, counter, request, e).db.products == UpsertAll(db.products, st.usedProducts)
    ensures !HasDuplicateIds(st.usedProducts)
    ensures forall k :: 0 <= k < |request.orderItems| ==>
              LineAccepted(db.products, request.orderItems[k], st.orderItems[k], st.usedProducts[k],
                           orderId, request.accountUsername)
  {
    var orderId', st' := SubmitCommitted(db, counter, request, e);
    orderId, st := SubmitWrites(db, counter, request, e);
    var lines := request.orderItems;
    LinesAccepted(db.products, lines, |lines|, NextCounter(counter), orderId, request.accountUsername, e);
  }

  /** A successful submission took each line's quantity off its product's stock (the
      product was active and had enough) and set updated_by to the system user. */
  lemma SubmitOrderReservesStock(db: Db, counter: uint64, request: SubmitOrderRequest, e: Entropy, k: nat)
    requires WellKeyed(db)
    requires SubmitOrderSpec(db, counter, request, e).result.Success?
    requires k < |request.orderItems|
    ensures var out := SubmitOrderSpec(db, counter, request, e);
            var line := request.orderItems[k];
            line.productId in db.products && db.products[line.productId].isActive &&
            0 < line.quantity <= db.products[line.productId].stock &&
            line.productId in out.db.products &&
            out.db.products[line.productId] ==
              db.products[line.productId].(stock := db.products[line.productId].stock - line.quantity,
                                           updatedBy := System) &&
            out.db.products[line.productId].stock >= 0
  {
    var orderId, st := SubmitStockParts(db, counter, request, e);
    SubmitSuccessPath(db, counter, request, e);
    UpsertAllEntry(db.products, st.usedProducts, k);
  }

  /** Products no line names are left as they were by a successful submission. */
  lemma SubmitOrderKeepsOtherProducts(db: Db, counter: uint64, request: SubmitOrderRequest, e: Entropy, id: int64)
    requires WellKeyed(db)
    requires SubmitOrderSpec(db, counter, request, e).result.Success?
    requires forall k :: 0 <= k < |request.orderItems| ==> request.orderItems[k].productId != id
    ensures var out := SubmitOrderSpec(db, counter, request, e);
            (id in out.db.products <==> id in db.products) &&
            (id in db.products ==> out.db.products[id] == db.products[id])
  {
    var orderId, st := SubmitStockParts(db, counter, request, e);
    UpsertAllFrame(db.products, st.usedProducts, id);
  }

  /** A successful submission names each product in at most one line. */
  lemma SubmitDistinctProducts(db: Db, counter: uint64, request: SubmitOrderRequest, e: Entropy, j: nat, k: nat)
    requires WellKeyed(db)
    requires j < k < |request.orderItems|
    ensures SubmitOrderSpec(db, counter, request, e).result.Success? ==>
              request.orderItems[j].productId != request.orderItems[k].productId
  {
    if SubmitOrderSpec(db, counter, request, e).result.Success? {
      var orderId, st := SubmitStockParts(db, counter, request, e);
      assert st.usedProducts[j].id != st.usedProducts[k].id;
    }
  }

  /** Two lines for the same product make the stock batch touch one row twice, which the
      database refuses: the submission fails and the store is unchanged. */
  lemma SubmitRepeatedProductFails(db: Db, counter: uint64, request: SubmitOrderRequest, e: Entropy, j: nat, k: nat)
    requires WellKeyed(db)
    requires j < k < |request.orderItems|
    requires request.orderItems[j].productId == request.orderItems[k].productId
    ensures var out := SubmitOrderSpec(db, counter, request, e);
            out.result.Failure? && out.db == db
  {
    SubmitDistinctProducts(db, counter, request, e, j, k);
    SubmitFailureKeepsStore(db, counter, request, e);
  }

  /** Adding an order with its own items and payment, and re-keyed product rows, keeps the
      store well keyed. */
  lemma WellKeyedAfterNewOrder(db: Db, products: map<int64, Product>, order: Order, items: seq<OrderItem>, payment: Payment)
    requires WellKeyed(db)
    requires forall id :: id in products ==> products[id].id == id
    requires payment.orderReference == order.orderReference
    requires forall j :: 0 <= j < |items| ==> items[j].orderReference == order.orderReference
    ensures var ref := order.orderReference;
            WellKeyed(Db(products, db.accounts, db.orders[ref := order], db.items[ref := items], db.payments[ref := payment]))
  {
  }

  /** A submission keeps every row under its own key and every item and payment attached to
      an existing order. */
  lemma SubmitKeepsWellKeyed(db: Db, counter: uint64, request: SubmitOrderRequest, e: Entropy)
    requires WellKeyed(db)
    ensures WellKeyed(SubmitOrderSpec(db, counter, request, e).db)
  {
    var out := SubmitOrderSpec(db, counter, request, e);
    if out.result.Success? {
      var orderId', st' := SubmitCommitted(db, counter, request, e);
      var orderId, st := SubmitWrites(db, counter, request, e);
      var orderId'', st'' := SubmitPaymentWrite(db, counter, request, e);
      var lines := request.orderItems;
      var user := request.accountUsername;
      var order := Order(orderId, user, request.deliveryAddress, OrderStatusPendingPayment, st.grandTotal, user, user);
      LinesItemsExact(db.products, lines, NextCounter(counter), orderId, user, e);
      UpsertAllKeyed(db.products, st.usedProducts);
      WellKeyedAfterNewOrder(db, UpsertAll(db.products, st.usedProducts), order, st.orderItems, out.db.payments[orderId]);
    }
  }
}
