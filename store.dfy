/** The database as the services see it, and the repository operations they use on it.
    Each repository write is a method of `Store` specified by a function on the `Db` value. */
module Store {
  import opened Builtins
  import opened Wrappers
  import opened AppErrors
  import opened Entities

  /** A snapshot of the tables: products by id, accounts by username, orders by reference,
      each order's items (as preloaded) by order reference, payments by order reference. */
  datatype Db = Db(
    products: map<int64, Product>,
    accounts: map<string, Account>,
    orders: map<string, Order>,
    items: map<string, seq<OrderItem>>,
    payments: map<string, Payment>)

  /** Every row sits under its own key, and items and payments belong to existing orders. */
  predicate WellKeyed(db: Db) {
    (forall id :: id in db.products ==> db.products[id].id == id) &&
    (forall u :: u in db.accounts ==> db.accounts[u].username == u) &&
    (forall r :: r in db.orders ==> db.orders[r].orderReference == r) &&
    (forall r :: r in db.payments ==> db.payments[r].orderReference == r && r in db.orders) &&
    (forall r :: r in db.items ==>
       r in db.orders && (forall j :: 0 <= j < |db.items[r]| ==> db.items[r][j].orderReference == r))
  }

  /** What GORM's `First` reports when no row matches. */
  const RecordNotFound: string := "record not found"

  /** `ProductRepository.FindByID`. */
  function FindProduct(products: map<int64, Product>, id: int64): (r: Result<Product, Error>)
    ensures r.Success? <==> id in products
    ensures r.Success? ==> r.value == products[id]
    ensures r.Failure? ==> r.error == Fail(RecordNotFound, ResourceNotFound)
  {
    if id in products then Success(products[id]) else Failure(Fail(RecordNotFound, ResourceNotFound))
  }

  /** `AccountRepository.FindByUsername`. */
  function FindAccount(accounts: map<string, Account>, username: string): (r: Result<Account, Error>)
    ensures r.Success? <==> username in accounts
    ensures r.Success? ==> r.value == accounts[username]
    ensures r.Failure? ==> Is(r.error, ResourceNotFound)
  {
    IsAppError(Some(Plain(RecordNotFound)), ResourceNotFound, ResourceNotFound);
    if username in accounts then Success(accounts[username]) else Failure(Fail(RecordNotFound, ResourceNotFound))
  }

  /** `ProductRepository.FindMultipleByIDs`: the rows whose id is requested; missing ids are
      omitted silently and a repeated id yields its row once. */
  function FindMultipleByIds(products: map<int64, Product>, ids: seq<int64>): (found: map<int64, Product>)
    ensures forall id :: id in found <==> id in ids && id in products
    ensures forall id :: id in found ==> found[id] == products[id]
  {
    map id | id in ids && id in products :: products[id]
  }

  /** Two entries of one upsert batch for the same product. */
  predicate HasDuplicateIds(ps: seq<Product>) {
    exists i, j :: 0 <= i < j < |ps| && ps[i].id == ps[j].id
  }

  /** One row of `BatchUpsert`: an existing row gets the new stock and updated_by and keeps
      every other column; a new id is inserted whole. */
  function Upsert(products: map<int64, Product>, p: Product): (r: map<int64, Product>)
    ensures r.Keys == products.Keys + {p.id}
    ensures p.id in products ==> r[p.id] == products[p.id].(stock := p.stock, updatedBy := p.updatedBy)
    ensures p.id !in products ==> r[p.id] == p
    ensures forall id :: id in products && id != p.id ==> r[id] == products[id]
  {
    products[p.id := if p.id in products then products[p.id].(stock := p.stock, updatedBy := p.updatedBy) else p]
  }

  /** The rows of a batch applied one after the other. */
  function UpsertAll(products: map<int64, Product>, ps: seq<Product>): map<int64, Product>
    decreases |ps|
  {
    if ps == [] then products else Upsert(UpsertAll(products, ps[..|ps| - 1]), ps[|ps| - 1])
  }

  const DuplicateRowInBatch: string := "ON CONFLICT DO UPDATE command cannot affect row a second time"
  const DuplicateKey: string := "duplicate key value violates unique constraint"

  /** `BatchUpsert(products)`: one `INSERT ... ON CONFLICT (id) DO UPDATE` statement, which
      PostgreSQL refuses when it would touch one row twice. */
  function BatchUpsertResult(products: map<int64, Product>, ps: seq<Product>): (r: Result<map<int64, Product>, Error>)
    ensures r.Failure? <==> HasDuplicateIds(ps)
    ensures r.Failure? ==> Is(r.error, DBOperation)
    ensures r.Success? ==> r.value == UpsertAll(products, ps)
  {
    IsAppError(Some(Plain(DuplicateRowInBatch)), DBOperation, DBOperation);
    if HasDuplicateIds(ps) then Failure(Fail(DuplicateRowInBatch, DBOperation)) else Success(UpsertAll(products, ps))
  }

  /** A batch touches exactly the rows it names and leaves every other row as it was. */
  lemma {:induction false} UpsertAllFrame(products: map<int64, Product>, ps: seq<Product>, id: int64)
    requires forall j :: 0 <= j < |ps| ==> ps[j].id != id
    ensures id in UpsertAll(products, ps) <==> id in products
    ensures id in products ==> UpsertAll(products, ps)[id] == products[id]
    decreases |ps|
  {
    if ps != [] {
      UpsertAllFrame(products, ps[..|ps| - 1], id);
    }
  }

  /** In a batch without repeated ids, each named row ends with that entry's stock and
      updated_by, and keeps its other columns. */
  lemma {:induction false} UpsertAllEntry(products: map<int64, Product>, ps: seq<Product>, j: nat)
    requires j < |ps| && !HasDuplicateIds(ps)
    ensures ps[j].id in UpsertAll(products, ps)
    ensures ps[j].id in products ==>
              UpsertAll(products, ps)[ps[j].id] == products[ps[j].id].(stock := ps[j].stock, updatedBy := ps[j].updatedBy)
    ensures ps[j].id !in products ==> UpsertAll(products, ps)[ps[j].id] == ps[j]
    decreases |ps|
  {
    var init := ps[..|ps| - 1];
    if j == |ps| - 1 {
      UpsertAllFrame(products, init, ps[j].id);
    } else {
      assert !HasDuplicateIds(init);
      assert init[j] == ps[j];
      UpsertAllEntry(products, init, j);
      assert ps[|ps| - 1].id != ps[j].id;
    }
  }

  /** A batch keeps every row under its own id. */
  lemma {:induction false} UpsertAllKeyed(products: map<int64, Product>, ps: seq<Product>)
    requires forall id :: id in products ==> products[id].id == id
    ensures forall id :: id in UpsertAll(products, ps) ==> UpsertAll(products, ps)[id].id == id
    decreases |ps|
  {
    if ps != [] {
      UpsertAllKeyed(products, ps[..|ps| - 1]);
    }
  }

  class Store {
    var products: map<int64, Product>
    var accounts: map<string, Account>
    var orders: map<string, Order>
    var items: map<string, seq<OrderItem>>
    var payments: map<string, Payment>

    function Snapshot(): Db
      reads this
    {
      Db(products, accounts, orders, items, payments)
    }

    constructor (db: Db)
      ensures Snapshot() == db
    {
      products := db.products;
      accounts := db.accounts;
      orders := db.orders;
      items := db.items;
      payments := db.payments;
    }

    /** Transaction rollback: the tables return to the snapshot `db`. */
    method Restore(db: Db)
      modifies this
      ensures Snapshot() == db
    {
      products := db.products;
      accounts := db.accounts;
      orders := db.orders;
      items := db.items;
      payments := db.payments;
    }

    /** `OrderRepository.Create`: refused when the primary key is taken. */
    method CreateOrder(order: Order) returns (err: Option<Error>)
      modifies this
      ensures err.Some? <==> order.orderReference in old(orders)
      ensures err.Some? ==> err.value == Fail(DuplicateKey, DBOperation) && Snapshot() == old(Snapshot())
      ensures err.None? ==> Snapshot() == old(Snapshot()).(orders := old(orders)[order.orderReference := order])
    {
      if order.orderReference in orders {
        return Some(Fail(DuplicateKey, DBOperation));
      }
      orders := orders[order.orderReference := order];
      err := None;
    }

    /** `OrderItemRepository.CreateBatch`: the items join the order's item list. */
    method CreateItems(orderReference: string, newItems: seq<OrderItem>)
      modifies this
      ensures Snapshot() == old(Snapshot()).(items := old(items)[orderReference :=
                (if orderReference in old(items) then old(items)[orderReference] else []) + newItems])
    {
      var existing := if orderReference in items then items[orderReference] else [];
      items := items[orderReference := existing + newItems];
    }

    /** `ProductRepository.BatchUpsert`, row by row once PostgreSQL has accepted the batch. */
    method BatchUpsert(ps: seq<Product>) returns (err: Option<Error>)
      requires |ps| > 0
      modifies this
      ensures var r := BatchUpsertResult(old(products), ps);
              (r.Failure? ==> err == Some(r.error) && Snapshot() == old(Snapshot())) &&
              (r.Success? ==> err.None? && Snapshot() == old(Snapshot()).(products := r.value))
    {
      if HasDuplicateIds(ps) {
        return Some(Fail(DuplicateRowInBatch, DBOperation));
      }
      var i := 0;
      while i < |ps|
        invariant 0 <= i <= |ps|
        invariant products == UpsertAll(old(products), ps[..i])
        invariant Snapshot() == old(Snapshot()).(products := products)
      {
        assert ps[..i + 1][..i] == ps[..i];
        products := Upsert(products, ps[i]);
        i := i + 1;
      }
      assert ps[..|ps|] == ps;
      err := None;
    }

    /** `PaymentRepository.Create`. */
    method CreatePayment(payment: Payment)
      modifies this
      ensures Snapshot() == old(Snapshot()).(payments := old(payments)[payment.orderReference := payment])
    {
      payments := payments[payment.orderReference := payment];
    }

    /** `OrderRepository.Update` (GORM `Save`: the row is replaced by the record). */
    method UpdateOrder(order: Order)
      modifies this
      ensures Snapshot() == old(Snapshot()).(orders := old(orders)[order.orderReference := order])
    {
      orders := orders[order.orderReference := order];
    }

    /** `PaymentRepository.Update`. */
    method UpdatePayment(payment: Payment)
      modifies this
      ensures Snapshot() == old(Snapshot()).(payments := old(payments)[payment.orderReference := payment])
    {
      payments := payments[payment.orderReference := payment];
    }

    /** `AccountRepository.Create` and `AccountRepository.Update`. */
    method SaveAccount(account: Account)
      modifies this
      ensures Snapshot() == old(Snapshot()).(accounts := old(accounts)[account.username := account])
    {
      accounts := accounts[account.username := account];
    }
  }
}
