/** What a cancellation guarantees: the lookups and the PROCESSED check it refuses on, the
    order and payment statuses it leaves, and the stock it returns. */
module CancelProperties {
  import opened Builtins
  import opened Wrappers
  import opened AppErrors
  import opened Constants
  import opened Entities
  import opened Store
  import opened OrderSpec

  /** The items preloaded with the order `ref` (none when the order has no item rows). */
  function ItemsOf(db: Db, ref: string): (items: seq<OrderItem>)
    ensures ref in db.items ==> items == db.items[ref]
    ensures ref !in db.items ==> items == []
  {
    if ref in db.items then db.items[ref] else []
  }

  /** No two items name the same product. */
  predicate DistinctProducts(items: seq<OrderItem>) {
    forall i, j :: 0 <= i < j < |items| ==> items[i].productId != items[j].productId
  }

  /** Every fetched row sits under its own id. */
  predicate KeyedProducts(productMap: map<int64, Product>) {
    forall id :: id in productMap ==> productMap[id].id == id
  }

  /** No entry is built for a product that no fetched item names. */
  lemma {:induction false} RestockEntriesAvoid(productMap: map<int64, Product>, items: seq<OrderItem>, id: int64)
    requires KeyedProducts(productMap)
    requires forall k :: 0 <= k < |items| ==> items[k].productId != id || items[k].productId !in productMap
    ensures forall j :: 0 <= j < |RestockEntries(productMap, items)| ==> RestockEntries(productMap, items)[j].id != id
    decreases |items|
  {
    if items != [] {
      var init := items[..|items| - 1];
      forall k | 0 <= k < |init|
        ensures init[k].productId != id || init[k].productId !in productMap
      {
        assert init[k] == items[k];
      }
      RestockEntriesAvoid(productMap, init, id);
      var last := items[|items| - 1];
      if last.productId in productMap {
        assert Restocked(productMap[last.productId], last).id == last.productId;
      }
    }
  }

  /** A fetched item's product has an entry. */
  lemma {:induction false} RestockEntryPresent(productMap: map<int64, Product>, items: seq<OrderItem>, k: nat)
    requires KeyedProducts(productMap)
    requires k < |items| && items[k].productId in productMap
    ensures exists j :: 0 <= j < |RestockEntries(productMap, items)| && RestockEntries(productMap, items)[j].id == items[k].productId
    decreases |items|
  {
    var entries := RestockEntries(productMap, items);
    var init := items[..|items| - 1];
    if k < |items| - 1 {
      assert init[k] == items[k];
      RestockEntryPresent(productMap, init, k);
      var prev := RestockEntries(productMap, init);
      var j :| 0 <= j < |prev| && prev[j].id == items[k].productId;
      var last := items[|items| - 1];
      if last.productId in productMap {
        assert entries == prev + [Restocked(productMap[last.productId], last)];
      } else {
        assert entries == prev;
      }
      assert entries[j].id == items[k].productId;
    } else {
      assert entries[|entries| - 1].id == items[k].productId;
    }
  }

  /** Items with distinct products give entries with distinct ids. */
  lemma {:induction false} RestockEntriesDistinct(productMap: map<int64, Product>, items: seq<OrderItem>)
    requires KeyedProducts(productMap) && DistinctProducts(items)
    ensures !HasDuplicateIds(RestockEntries(productMap, items))
    decreases |items|
  {
    if items != [] {
      var init := items[..|items| - 1];
      var last := items[|items| - 1];
      assert DistinctProducts(init);
      RestockEntriesDistinct(productMap, init);
      if last.productId in productMap {
        RestockEntriesAvoid(productMap, init, last.productId);
      }
    }
  }

  /** Two fetched items for the same product give two entries for one row. */
  lemma {:induction false} RestockEntriesDuplicate(productMap: map<int64, Product>, items: seq<OrderItem>, i: nat, k: nat)
    requires KeyedProducts(productMap)
    requires i < k < |items| && items[i].productId == items[k].productId && items[k].productId in productMap
    ensures HasDuplicateIds(RestockEntries(productMap, items))
    decreases |items|
  {
    var entries := RestockEntries(productMap, items);
    var init := items[..|items| - 1];
    var prev := RestockEntries(productMap, init);
    assert init[i] == items[i];
    if k < |items| - 1 {
      assert init[k] == items[k];
      RestockEntriesDuplicate(productMap, init, i, k);
      var a, b :| 0 <= a < b < |prev| && prev[a].id == prev[b].id;
      assert entries[a] == prev[a] && entries[b] == prev[b];
    } else {
      RestockEntryPresent(productMap, init, i);
      var a :| 0 <= a < |prev| && prev[a].id == items[i].productId;
      assert entries[a] == prev[a];
      assert entries[|prev|].id == items[k].productId;
    }
  }

  /** The batch built from items with distinct products returns each fetched item's quantity
      to its product's row. */
  lemma {:induction false} RestockRow(products: map<int64, Product>, productMap: map<int64, Product>,
                                      items: seq<OrderItem>, k: nat)
    requires KeyedProducts(productMap) && DistinctProducts(items)
    requires k < |items| && items[k].productId in productMap
    ensures var id := items[k].productId;
            var after := UpsertAll(products, RestockEntries(productMap, items));
            var row := Restocked(productMap[id], items[k]);
            id in after &&
            after[id] == (if id in products then products[id].(stock := row.stock, updatedBy := row.updatedBy) else row)
    decreases |items|
  {
    var id := items[k].productId;
    var init := items[..|items| - 1];
    var last := items[|items| - 1];
    var prev := RestockEntries(productMap, init);
    assert DistinctProducts(init);
    if k == |items| - 1 {
      forall j | 0 <= j < |init|
        ensures init[j].productId != id
      {
        assert init[j] == items[j];
      }
      RestockEntriesAvoid(productMap, init, id);
      UpsertAllFrame(products, prev, id);
      assert RestockEntries(productMap, items) == prev + [Restocked(productMap[id], last)];
    } else {
      assert init[k] == items[k];
      RestockRow(products, productMap, init, k);
      if last.productId in productMap {
        assert RestockEntries(productMap, items) == prev + [Restocked(productMap[last.productId], last)];
        assert (prev + [Restocked(productMap[last.productId], last)])[..|prev|] == prev;
      }
    }
  }

  /** The order's lookups and status check, each refusal leaving the store as it was: a
      missing order, account or payment is ResourceNotFound; a PROCESSED order is a Conflict. */
  lemma CancelRefusals(db: Db, request: CancelOrderRequest)
    ensures var out := CancelOrderSpec(db, request);
            request.orderReference !in db.orders ==>
              out.result == Failure(Fail(RecordNotFound, ResourceNotFound)) && out.db == db
    ensures var out := CancelOrderSpec(db, request);
            request.orderReference in db.orders && request.accountUsername !in db.accounts ==>
              out.result.Failure? && Is(out.result.error, ResourceNotFound) && out.db == db
    ensures var out := CancelOrderSpec(db, request);
            request.orderReference in db.orders && request.accountUsername in db.accounts &&
            db.orders[request.orderReference].status == OrderStatusProcessed ==>
              out.result == Failure(Fail("order status already final", Conflict)) && out.db == db
    ensures var out := CancelOrderSpec(db, request);
            request.orderReference in db.orders && request.accountUsername in db.accounts &&
            db.orders[request.orderReference].status != OrderStatusProcessed &&
            request.orderReference !in db.payments ==>
              out.result == Failure(Fail(RecordNotFound, ResourceNotFound)) && out.db == db
  {
  }

  /** Every failed cancellation leaves the store as it was. */
  lemma CancelFailureKeepsStore(db: Db, request: CancelOrderRequest)
    ensures var out := CancelOrderSpec(db, request);
            out.result.Failure? ==> out.db == db
  {
  }

  /** The store after a cancellation that passed its checks: order and payment updated, the
      restock result `products` (or the batch's error). */
  lemma CancelShape(db: Db, request: CancelOrderRequest)
    requires request.orderReference in db.orders && request.accountUsername in db.accounts
    requires db.orders[request.orderReference].status != OrderStatusProcessed
    requires request.orderReference in db.payments
    requires WellKeyed(db)
    ensures var ref := request.orderReference;
            var user := request.accountUsername;
            var order := db.orders[ref];
            var payment := db.payments[ref];
            var newOrder := order.(status := OrderStatusCancelled, updatedBy := user);
            var newPayment := payment.(status := CancelledPaymentStatus(order.status, payment.status), updatedBy := user);
            var db1 := db.(orders := db.orders[ref := newOrder], payments := db.payments[ref := newPayment]);
            var out := CancelOrderSpec(db, request);
            (RestockSpec(db1, ItemsOf(db, ref)).Success? ==>
               out.result == Success(CancelOrderData(ref, OrderStatusCancelled, newPayment.status)) &&
               out.db == RestockSpec(db1, ItemsOf(db, ref)).value) &&
            (RestockSpec(db1, ItemsOf(db, ref)).Failure? ==>
               out.result == Failure(RestockSpec(db1, ItemsOf(db, ref)).error) && out.db == db)
  {
  }

  /** A successful cancellation marks the order CANCELLED and sets its payment's status by
      the order status it found (PENDING PAYMENT -> CANCELLED, PAYMENT RECEIVED -> REFUNDED,
      otherwise unchanged), both updated by the requesting user; accounts and items stay. */
  lemma CancelOrderSucceeded(db: Db, request: CancelOrderRequest)
    requires WellKeyed(db)
    requires CancelOrderSpec(db, request).result.Success?
    ensures var out := CancelOrderSpec(db, request);
            var ref := request.orderReference;
            var user := request.accountUsername;
            ref in db.orders && user in db.accounts && ref in db.payments &&
            var order := db.orders[ref];
            var payment := db.payments[ref];
            var paymentStatus := CancelledPaymentStatus(order.status, payment.status);
            order.status != OrderStatusProcessed &&
            out.result.value == CancelOrderData(ref, OrderStatusCancelled, paymentStatus) &&
            out.db.orders == db.orders[ref := order.(status := OrderStatusCancelled, updatedBy := user)] &&
            out.db.payments == db.payments[ref := payment.(status := paymentStatus, updatedBy := user)] &&
            out.db.accounts == db.accounts && out.db.items == db.items
  {
    var ref := request.orderReference;
    CancelShape(db, request);
  }

  /** The fetched rows for a cancellation are the store's own rows. */
  lemma FetchedRows(db: Db, items: seq<OrderItem>)
    requires WellKeyed(db)
    ensures var productMap := FindMultipleByIds(db.products, ItemProductIds(items));
            KeyedProducts(productMap) &&
            forall k :: 0 <= k < |items| ==>
              (items[k].productId in productMap <==> items[k].productId in db.products)
  {
    var ids := ItemProductIds(items);
    forall k | 0 <= k < |items|
      ensures items[k].productId in ids
    {
      assert ids[k] == items[k].productId;
    }
  }

  /** A successful cancellation of an order whose items name distinct products returns each
      item's quantity to its product's stock (with Go's int64 wrap-around) and sets updated_by
      to the system user. */
  lemma CancelRestocks(db: Db, request: CancelOrderRequest, k: nat)
    requires WellKeyed(db)
    requires CancelOrderSpec(db, request).result.Success?
    requires DistinctProducts(ItemsOf(db, request.orderReference))
    requires k < |ItemsOf(db, request.orderReference)|
    requires ItemsOf(db, request.orderReference)[k].productId in db.products
    ensures var out := CancelOrderSpec(db, request);
            var item := ItemsOf(db, request.orderReference)[k];
            var p := db.products[item.productId];
            item.productId in out.db.products &&
            out.db.products[item.productId] == p.(stock := Wrap64(p.stock + item.quantity), updatedBy := System)
  {
    var productMap := CancelFetched(db, request);
    RestockedRow(db.products, productMap, ItemsOf(db, request.orderReference), k);
  }

  /** The rows a successful cancellation fetched for its items, and its product table as
      the restock batch built from them applied to the old one. */
  lemma CancelFetched(db: Db, request: CancelOrderRequest) returns (productMap: map<int64, Product>)
    requires WellKeyed(db)
    requires CancelOrderSpec(db, request).result.Success?
    ensures var items := ItemsOf(db, request.orderReference);
            CancelOrderSpec(db, request).db.products == UpsertAll(db.products, RestockEntries(productMap, items))
    ensures KeyedProducts(productMap)
    ensures forall id :: id in productMap ==> id in db.products && productMap[id] == db.products[id]
    ensures var items := ItemsOf(db, request.orderReference);
            forall j :: 0 <= j < |items| ==> (items[j].productId in productMap <==> items[j].productId in db.products)
  {
    var items := ItemsOf(db, request.orderReference);
    productMap := FindMultipleByIds(db.products, ItemProductIds(items));
    CancelProducts(db, request);
    FetchedRows(db, items);
  }

  /** The restock batch built from items with distinct products returns item k's quantity
      to the stored row of its product, when the fetched copy is that row. */
  lemma RestockedRow(products: map<int64, Product>, productMap: map<int64, Product>, items: seq<OrderItem>, k: nat)
    requires KeyedProducts(productMap) && DistinctProducts(items)
    requires k < |items| && items[k].productId in productMap && items[k].productId in products
    requires productMap[items[k].productId] == products[items[k].productId]
    ensures var after := UpsertAll(products, RestockEntries(productMap, items));
            var p := products[items[k].productId];
            items[k].productId in after &&
            after[items[k].productId] == p.(stock := Wrap64(p.stock + items[k].quantity), updatedBy := System)
  {
    RestockRow(products, productMap, items, k);
  }

  /** A successful cancellation's product table is the restock batch applied to the old one. */
  lemma CancelProducts(db: Db, request: CancelOrderRequest)
    requires WellKeyed(db)
    requires CancelOrderSpec(db, request).result.Success?
    ensures var items := ItemsOf(db, request.orderReference);
            CancelOrderSpec(db, request).db.products ==
            UpsertAll(db.products, RestockEntries(FindMultipleByIds(db.products, ItemProductIds(items)), items))
  {
    CancelShape(db, request);
  }

  /** Products that no fetched item names keep their rows through a cancellation. */
  lemma CancelKeepsOtherProducts(db: Db, request: CancelOrderRequest, id: int64)
    requires WellKeyed(db)
    requires CancelOrderSpec(db, request).result.Success?
    requires forall k :: 0 <= k < |ItemsOf(db, request.orderReference)| ==>
               ItemsOf(db, request.orderReference)[k].productId != id
    ensures var out := CancelOrderSpec(db, request);
            (id in out.db.products <==> id in db.products) &&
            (id in db.products ==> out.db.products[id] == db.products[id])
  {
    var ref := request.orderReference;
    var items := ItemsOf(db, ref);
    var productMap := FindMultipleByIds(db.products, ItemProductIds(items));
    CancelShape(db, request);
    FetchedRows(db, items);
    RestockEntriesAvoid(productMap, items, id);
    UpsertAllFrame(db.products, RestockEntries(productMap, items), id);
  }

  /** When none of the order's products exists any more, no batch is sent and the product
      table is untouched. */
  lemma CancelWithoutProducts(db: Db, request: CancelOrderRequest)
    requires WellKeyed(db)
    requires CancelOrderSpec(db, request).result.Success?
    requires forall k :: 0 <= k < |ItemsOf(db, request.orderReference)| ==>
               ItemsOf(db, request.orderReference)[k].productId !in db.products
    ensures CancelOrderSpec(db, request).db.products == db.products
  {
    var ref := request.orderReference;
    var items := ItemsOf(db, ref);
    CancelShape(db, request);
    FetchedRows(db, items);
  }

  /** Two items of the order for the same existing product make the stock batch touch one
      row twice: the database refuses it, and the cancellation fails with the store unchanged. */
  lemma CancelRepeatedProductFails(db: Db, request: CancelOrderRequest, i: nat, k: nat)
    requires WellKeyed(db)
    requires request.orderReference in db.orders && request.accountUsername in db.accounts
    requires db.orders[request.orderReference].status != OrderStatusProcessed
    requires request.orderReference in db.payments
    requires i < k < |ItemsOf(db, request.orderReference)|
    requires ItemsOf(db, request.orderReference)[i].productId == ItemsOf(db, request.orderReference)[k].productId
    requires ItemsOf(db, request.orderReference)[k].productId in db.products
    ensures var out := CancelOrderSpec(db, request);
            out.result.Failure? && Is(out.result.error, DBOperation) && out.db == db
  {
    var ref := request.orderReference;
    var items := ItemsOf(db, ref);
    var productMap := FindMultipleByIds(db.products, ItemProductIds(items));
    CancelShape(db, request);
    FetchedRows(db, items);
    RestockEntriesDuplicate(productMap, items, i, k);
  }

  /** As written, cancelling does not look at who owns the order: any existing account
      gets the same outcome, apart from the updated_by it leaves behind. */
  lemma CancelIgnoresOwner(db: Db, ref: string, user1: string, user2: string)
    requires WellKeyed(db)
    requires user1 in db.accounts && user2 in db.accounts
    ensures var out1 := CancelOrderSpec(db, CancelOrderRequest(ref, user1));
            var out2 := CancelOrderSpec(db, CancelOrderRequest(ref, user2));
            out1.result == out2.result && out1.db.products == out2.db.products
  {
    if ref in db.orders && db.orders[ref].status != OrderStatusProcessed && ref in db.payments {
      CancelShape(db, CancelOrderRequest(ref, user1));
      CancelShape(db, CancelOrderRequest(ref, user2));
    }
  }

  /** As written, an order that is already CANCELLED (or FINISHED) is accepted again: it
      stays CANCELLED, its payment status is kept, and its items' stock is returned a second
      time. */
  lemma CancelAcceptsFinalOrder(db: Db, request: CancelOrderRequest)
    requires WellKeyed(db)
    requires request.orderReference in db.orders && request.accountUsername in db.accounts
    requires request.orderReference in db.payments
    requires db.orders[request.orderReference].status in {OrderStatusCancelled, OrderStatusFinished}
    requires DistinctProducts(ItemsOf(db, request.orderReference))
    ensures var out := CancelOrderSpec(db, request);
            out.result == Success(CancelOrderData(request.orderReference, OrderStatusCancelled,
                                                  db.payments[request.orderReference].status))
  {
    var ref := request.orderReference;
    var items := ItemsOf(db, ref);
    var productMap := FindMultipleByIds(db.products, ItemProductIds(items));
    CancelShape(db, request);
    FetchedRows(db, items);
    RestockEntriesDistinct(productMap, items);
  }

  /** A cancellation keeps every row under its own key. */
  lemma CancelKeepsWellKeyed(db: Db, request: CancelOrderRequest)
    requires WellKeyed(db)
    ensures WellKeyed(CancelOrderSpec(db, request).db)
  {
    CancelFailureKeepsStore(db, request);
    if CancelOrderSpec(db, request).result.Success? {
      var productMap := CancelFetched(db, request);
      CancelOrderSucceeded(db, request);
      UpsertAllKeyed(db.products, RestockEntries(productMap, ItemsOf(db, request.orderReference)));
    }
  }
}
