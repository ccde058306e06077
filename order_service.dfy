/** `OrderService`: order submission and cancellation over the store, with the shared
    reference generator. Each method is proved to act as its specification function in
    `OrderSpec` says. */
module OrderService {
  import opened Builtins
  import opened Wrappers
  import opened AppErrors
  import opened Constants
  import opened Entities
  import opened Store
  import opened Formula
  import opened Params
  import opened OrderValidation
  import opened OrderSpec

  /** `OrderDTO` without the order date. */
  datatype OrderDto = OrderDto(orderReference: string, status: string, total: int64)

  function OrderToDto(o: Order): (d: OrderDto)
    ensures d.orderReference == o.orderReference && d.status == o.status && d.total == o.total
  {
    OrderDto(o.orderReference, o.status, o.total)
  }

  /** The rows and the total count `FindWithAccountAndFilters` answers with. */
  datatype OrdersPage = OrdersPage(orders: seq<Order>, totalData: int64)

  datatype GetAccountOrdersRequest = GetAccountOrdersRequest(
    accountUsername: string,
    orderReference: string,
    page: int64,
    perPage: int64,
    isPaginate: bool)

  datatype AccountOrdersData = AccountOrdersData(orders: seq<OrderDto>, metadata: Metadata)

  /** The query the listing delegates to: account, reference filter, paginate?, page, page size. */
  type OrdersQuery = (string, string, bool, int64, int64) -> Result<OrdersPage, Error>

  class OrderService {
    const store: Store
    const idGenerator: IdGenerator

    constructor (store: Store, idGenerator: IdGenerator)
      ensures this.store == store && this.idGenerator == idGenerator
    {
      this.store := store;
      this.idGenerator := idGenerator;
    }

    /** `createOrderItem`: draws the item reference (generator call `call`), then checks the
        item total for overflow. */
    method CreateOrderItem(item: OrderItemRequest, order: Order, account: Account, e: Entropy, call: nat)
      returns (r: Result<OrderItem, Error>)
      modifies idGenerator
      ensures idGenerator.counter == NextCounter(old(idGenerator.counter))
      ensures r == OrderItemFor(item, order.orderReference, account.username,
                                IdResult("OI", e.millis(call), idGenerator.counter, e.random(call)))
    {
      var itemId := idGenerator.GenerateCommonID("OI", e.millis(call), e.random(call));
      if itemId.Failure? {
        return Failure(itemId.error);
      }
      var total := Wrap64(item.priceUsed * item.quantity);
      if total < 0 || total < item.priceUsed || total < item.quantity {
        return Failure(Fail("price calculation overflow for product: " + Decimal(item.productId), Validation));
      }
      r := Success(OrderItem(itemId.value, order.orderReference, item.productId, item.priceUsed, item.quantity,
                             total, item.productName, item.productImageUrl, account.username, account.username));
    }

    /** `createPayment`: draws the payment reference (generator call `call`). */
    method CreatePayment(order: Order, account: Account, e: Entropy, call: nat) returns (r: Result<Payment, Error>)
      modifies idGenerator
      ensures idGenerator.counter == NextCounter(old(idGenerator.counter))
      ensures r == PaymentFor(order, account.username, IdResult("PAY", e.millis(call), idGenerator.counter, e.random(call)))
    {
      var paymentId := idGenerator.GenerateCommonID("PAY", e.millis(call), e.random(call));
      if paymentId.Failure? {
        return Failure(paymentId.error);
      }
      r := Success(Payment(paymentId.value, order.orderReference, order.total, "", [], PaymentStatusPending,
                           account.username, account.username));
    }

    /** `SubmitOrder`. The per-line loop only reads the store; the writes come after it and
        are undone (`Restore`) when a later one fails. */
    method SubmitOrder(request: SubmitOrderRequest, e: Entropy) returns (r: Result<SubmitOrderData, Error>)
      modifies store, idGenerator
      ensures SubmitOutcome(r, store.Snapshot(), idGenerator.counter) ==
              SubmitOrderSpec(old(store.Snapshot()), old(idGenerator.counter), request, e)
    {
      var lines := request.orderItems;
      var err := ValidateOrderRequest(lines);
      if err.Some? {
        return Failure(err.value);
      }
      var orderId := idGenerator.GenerateCommonID("ORDER", e.millis(0), e.random(0));
      if orderId.Failure? {
        return Failure(orderId.error);
      }
      var found := FindAccount(store.accounts, request.accountUsername);
      if found.Failure? {
        return Failure(found.error);
      }
      var account := found.value;
      if !account.isActive {
        return Failure(Fail("account inactive", AccessDenied));
      }
      var order := Order(orderId.value, account.username, request.deliveryAddress, OrderStatusPendingPayment,
                         0, account.username, account.username);
      err := ValidateRequestProducts(store.products, lines);
      if err.Some? {
        return Failure(err.value);
      }
      var st := ProcessLines(lines, order, account, e);
      if st.failure.Some? {
        return Failure(st.failure.value);
      }
      order := order.(total := st.grandTotal);
      r := Commit(order, account, st, |lines| + 1, e);
    }

    /** The per-line loop of `SubmitOrder` (internal/service/order_service.go:103-160). Returns the loop's
        variables, or the error that ended it. */
    method ProcessLines(lines: seq<OrderItemRequest>, order: Order, account: Account, e: Entropy) returns (st: LoopState)
      modifies idGenerator
      ensures st == Lines(store.products, lines, |lines|, old(idGenerator.counter), order.orderReference, account.username, e)
      ensures idGenerator.counter == st.counter
    {
      ghost var c1 := idGenerator.counter;
      st := LoopState(0, [], [], idGenerator.counter, None);
      var i := 0;
      while i < |lines|
        invariant 0 <= i <= |lines|
        invariant st == Lines(store.products, lines, i, c1, order.orderReference, account.username, e)
        invariant st.failure.None? && idGenerator.counter == st.counter
      {
        st := ProcessLine(lines[i], i, st, order, account, e);
        if st.failure.Some? {
          FailureEndsLoop(store.products, lines, i + 1, c1, order.orderReference, account.username, e);
          return;
        }
        i := i + 1;
      }
    }

    /** One iteration: re-read the product, check it is active and has the quantity in stock,
        reserve the stock in the copy, create the item and add its total. */
    method ProcessLine(item: OrderItemRequest, i: nat, st: LoopState, order: Order, account: Account, e: Entropy)
      returns (next: LoopState)
      requires idGenerator.counter == st.counter
      modifies idGenerator
      ensures next == LineStep(store.products, item, i, st, order.orderReference, account.username, e)
      ensures idGenerator.counter == next.counter
    {
      var fetched := FindProduct(store.products, item.productId);
      if fetched.Failure? {
        return st.(failure := Some(fetched.error));
      }
      var product := fetched.value;
      if !product.isActive {
        return st.(failure := Some(Fail("product is not active: " + Decimal(item.productId), Validation)));
      }
      if product.stock < item.quantity {
        return st.(failure := Some(Fail("insufficient stock for product: " + Decimal(product.id) + " , requested : " +
                                        Decimal(item.quantity) + " , available: " + Decimal(product.stock) + " ", Validation)));
      }
      product := product.(stock := Wrap64(product.stock - item.quantity), updatedBy := System);
      var usedProducts := st.usedProducts + [product];
      var created := CreateOrderItem(item, order, account, e, i + 1);
      if created.Failure? {
        return st.(usedProducts := usedProducts, counter := idGenerator.counter, failure := Some(created.error));
      }
      var orderItems := st.orderItems + [created.value];
      var newGrandTotal := Wrap64(st.grandTotal + created.value.total);
      if newGrandTotal < st.grandTotal {
        return st.(usedProducts := usedProducts, counter := idGenerator.counter,
                   failure := Some(Fail("grand total overflow", Conflict)));
      }
      var grandTotal := newGrandTotal;
      if grandTotal > MaxOrderTotal {
        return st.(usedProducts := usedProducts, counter := idGenerator.counter,
                   failure := Some(Fail("order total exceeds maximum limit: " + Decimal(grandTotal), Validation)));
      }
      next := LoopState(grandTotal, orderItems, usedProducts, idGenerator.counter, None);
    }

    /** The writes of `SubmitOrder` (internal/service/order_service.go:163-197) inside the transaction. */
    method Commit(order: Order, account: Account, st: LoopState, payCall: nat, e: Entropy) returns (r: Result<SubmitOrderData, Error>)
      requires order.createdBy == account.username && idGenerator.counter == st.counter
      requires |st.usedProducts| > 0
      modifies store, idGenerator
      ensures SubmitOutcome(r, store.Snapshot(), idGenerator.counter) ==
              CommitOrderSpec(old(store.Snapshot()), order, st, payCall, e)
    {
      var saved := store.Snapshot();
      var err := store.CreateOrder(order);
      if err.Some? {
        return Failure(err.value);
      }
      store.CreateItems(order.orderReference, st.orderItems);
      err := store.BatchUpsert(st.usedProducts);
      if err.Some? {
        store.Restore(saved);
        return Failure(err.value);
      }
      var payment := CreatePayment(order, account, e, payCall);
      if payment.Failure? {
        store.Restore(saved);
        return Failure(payment.error);
      }
      store.CreatePayment(payment.value);
      r := Success(SubmitOrderData(order.orderReference, order.status, order.total));
    }

    /** The stock-return part of `CancelOrder` (internal/service/order_service.go:451-495): fetch the
        items' products, build one updated copy per item whose product was found, and upsert
        them when there is at least one. */
    method ReturnStock(orderItems: seq<OrderItem>) returns (err: Option<Error>)
      modifies store
      ensures var r := RestockSpec(old(store.Snapshot()), orderItems);
              (r.Failure? ==> err == Some(r.error) && store.Snapshot() == old(store.Snapshot())) &&
              (r.Success? ==> err.None? && store.Snapshot() == r.value)
    {
      var productIds := CollectProductIds(orderItems);
      var productMap := FindMultipleByIds(store.products, productIds);
      var productsToUpdate := BuildRestockEntries(productMap, orderItems);
      if |productsToUpdate| > 0 {
        err := store.BatchUpsert(productsToUpdate);
      } else {
        err := None;
      }
    }

    /** `CancelOrder`. */
    method CancelOrder(request: CancelOrderRequest) returns (r: Result<CancelOrderData, Error>)
      modifies store
      ensures CancelOutcome(r, store.Snapshot()) == CancelOrderSpec(old(store.Snapshot()), request)
    {
      if request.orderReference !in store.orders {
        return Failure(Fail(RecordNotFound, ResourceNotFound));
      }
      var order := store.orders[request.orderReference];
      var orderItems := if request.orderReference in store.items then store.items[request.orderReference] else [];
      var found := FindAccount(store.accounts, request.accountUsername);
      if found.Failure? {
        return Failure(found.error);
      }
      var account := found.value;
      if order.status == OrderStatusProcessed {
        return Failure(Fail("order status already final", Conflict));
      }
      if request.orderReference !in store.payments {
        return Failure(Fail(RecordNotFound, ResourceNotFound));
      }
      var payment := store.payments[request.orderReference];

      var saved := store.Snapshot();
      if order.status == OrderStatusPendingPayment {
        payment := payment.(status := PaymentStatusCancelled);
      }
      if order.status == OrderStatusPaymentReceived {
        payment := payment.(status := PaymentStatusRefunded);
      }
      var foundStatus := order.status;
      order := order.(status := OrderStatusCancelled, updatedBy := account.username);
      payment := payment.(updatedBy := account.username);
      store.UpdateOrder(order);
      store.UpdatePayment(payment);
      var err := ReturnStock(orderItems);
      if err.Some? {
        store.Restore(saved);
        return Failure(err.value);
      }
      r := Success(CancelOrderData(order.orderReference, order.status, payment.status));
    }

    /** `GetAccountOrders`: the pagination check, then the query, then one DTO per row in
        order and the metadata. */
    method GetAccountOrders(request: GetAccountOrdersRequest, query: OrdersQuery) returns (r: Result<AccountOrdersData, Error>)
      ensures PaginationError(request.isPaginate, request.page, request.perPage).Some? ==>
                r == Failure(PaginationError(request.isPaginate, request.page, request.perPage).value)
      ensures PaginationError(request.isPaginate, request.page, request.perPage).None? ==>
                var q := query(request.accountUsername, request.orderReference, request.isPaginate, request.page, request.perPage);
                (q.Failure? ==> r == Failure(q.error)) &&
                (q.Success? ==>
                   r.Success? &&
                   |r.value.orders| == |q.value.orders| &&
                   (forall k :: 0 <= k < |q.value.orders| ==> r.value.orders[k] == OrderToDto(q.value.orders[k])) &&
                   r.value.metadata == Metadata(request.page, request.perPage, q.value.totalData,
                                                TotalPage(request.isPaginate, request.perPage, q.value.totalData)))
    {
      var bounds := PaginationError(request.isPaginate, request.page, request.perPage);
      if bounds.Some? {
        return Failure(bounds.value);
      }
      var q := query(request.accountUsername, request.orderReference, request.isPaginate, request.page, request.perPage);
      if q.Failure? {
        return Failure(q.error);
      }
      var orders := q.value.orders;
      var dtos := new OrderDto[|orders|];
      for k := 0 to |orders|
        invariant forall m :: 0 <= m < k ==> dtos[m] == OrderToDto(orders[m])
      {
        dtos[k] := OrderDto(orders[k].orderReference, orders[k].status, orders[k].total);
      }
      var totalPage := TotalPage(request.isPaginate, request.perPage, q.value.totalData);
      r := Success(AccountOrdersData(dtos[..], Metadata(request.page, request.perPage, q.value.totalData, totalPage)));
    }
  }

  method CollectProductIds(orderItems: seq<OrderItem>) returns (productIds: seq<int64>)
    ensures productIds == ItemProductIds(orderItems)
  {
    productIds := [];
    var i := 0;
    while i < |orderItems|
      invariant 0 <= i <= |orderItems|
      invariant productIds == ItemProductIds(orderItems)[..i]
    {
      productIds := productIds + [orderItems[i].productId];
      i := i + 1;
    }
  }

  /** The loop filling `productsToUpdate`: each entry is the copy from `productMap` with the
      item's quantity added; `productMap` itself is never updated. */
  method BuildRestockEntries(productMap: map<int64, Product>, orderItems: seq<OrderItem>) returns (productsToUpdate: seq<Product>)
    ensures productsToUpdate == RestockEntries(productMap, orderItems)
  {
    productsToUpdate := [];
    var j := 0;
    while j < |orderItems|
      invariant 0 <= j <= |orderItems|
      invariant productsToUpdate == RestockEntries(productMap, orderItems[..j])
    {
      assert orderItems[..j + 1][..j] == orderItems[..j];
      var orderItem := orderItems[j];
      if orderItem.productId in productMap {
        var product := productMap[orderItem.productId];
        product := product.(stock := Wrap64(product.stock + orderItem.quantity), updatedBy := System);
        productsToUpdate := productsToUpdate + [product];
      }
      j := j + 1;
    }
    assert orderItems[..|orderItems|] == orderItems;
  }
}
