/** Properties of the sale ledger of module Ledger: what each sale operation does to stock
    and balances, the add/delete round trip, and how the incremental balance bookkeeping
    relates to the recomputation of resetAllBalances. */
module LedgerFacts {
  import opened Wrappers
  import opened Ledger

  // ---------------------------------------------------------------------------
  // Balances against the unpaid sales

  /** No sale refers to an id the counter has not issued yet, so such a customer owes
      nothing. */
  lemma {:induction false} UnpaidTotalFresh(db: Db, c: Id)
    requires Valid(db) && c >= db.nextId
    ensures UnpaidTotal(db.sales, c) == 0
  {
    forall k | k in db.sales ensures db.sales[k].customerId != c {
      assert SaleIssued(db.sales, db.nextId, k);
    }
    UnpaidTotalUnreferenced(db.sales, c);
  }

  /** getOrCreateCustomer keeps every balance equal to the unpaid total: a created
      customer starts at 0 and no sale refers to it. */
  lemma {:induction false} GetOrCreateCustomerKeepsConsistent(db: Db, name: string)
    requires Valid(db) && Consistent(db)
    ensures Consistent(GetOrCreateCustomer(db, name).0)
  {
    var (db1, id) := GetOrCreateCustomer(db, name);
    if !CustomerNameTaken(db, name) {
      UnpaidTotalFresh(db, id);
    }
  }

  /** The writes of a successful addSale charge the customer exactly what the new sale
      owes. */
  lemma {:induction false} RecordedKeepsConsistent(db: Db, customerId: Id, productId: Id, sale: NewSale, today: string)
    requires Valid(db) && Consistent(db) && customerId in db.customers && productId in db.products
    ensures Consistent(Recorded(db, customerId, productId, sale, today))
  {
    var after := Recorded(db, customerId, productId, sale, today);
    assert SaleIssued(db.sales, db.nextId, db.nextId);
    var s := after.sales[db.nextId];
    forall c | c in after.customers
      ensures after.customers[c].balance == UnpaidTotal(after.sales, c)
    {
      UnpaidTotalPut(db.sales, db.nextId, s, c);
    }
  }

  /** addSale keeps every balance equal to the unpaid total, on success and on the
      insufficient-stock rejection alike. */
  lemma {:induction false} AddSaleKeepsConsistent(db: Db, sale: NewSale, today: string)
    requires Valid(db) && Consistent(db)
    ensures Consistent(AddSale(db, sale, today).db)
  {
    GetOrCreateCustomerKeepsConsistent(db, sale.customerName);
    var (db1, customerId) := GetOrCreateCustomer(db, sale.customerName);
    var (granted, productId) := ResolveSoldProduct(db1, sale);
    var db2 := granted.value;
    assert Consistent(db2);
    if db2.products[productId].stock >= sale.quantity {
      RecordedKeepsConsistent(db2, customerId, productId, sale, today);
    }
  }

  /** deleteSale keeps every balance equal to the unpaid total: the refund is exactly
      what the deleted sale owed. */
  lemma {:induction false} DeleteSaleKeepsConsistent(db: Db, id: Id)
    requires Valid(db) && Consistent(db)
    ensures Consistent(DeleteSale(db, id).db)
  {
    if id in db.sales && db.sales[id].productId in db.products {
      var r := DeleteSale(db, id).db;
      forall c | c in r.customers
        ensures r.customers[c].balance == UnpaidTotal(r.sales, c)
      {
        UnpaidTotalDelete(db.sales, id, c);
      }
    }
  }

  /** A store whose balances agree with its sales is left as it is by a successful
      resetAllBalances. */
  lemma {:induction false} ReconcileConsistent(db: Db)
    requires Valid(db) && Consistent(db)
    ensures Reconciled(db) == db
  {
    var r := Reconciled(db);
    assert r.customers == db.customers;
  }

  /** After a successful resetAllBalances every balance is the unpaid total of its
      customer, so running it again succeeds exactly when the first run did and changes
      nothing. */
  lemma {:induction false} ReconcileIdempotent(db: Db)
    requires Valid(db)
    ensures Consistent(Reconciled(db))
    ensures Debtors(Reconciled(db).sales) <= Reconciled(db).customers.Keys <==> Debtors(db.sales) <= db.customers.Keys
    ensures Reconciled(Reconciled(db)) == Reconciled(db)
  {
    ReconcileConsistent(Reconciled(db));
  }

  // ---------------------------------------------------------------------------
  // addSale

  /** The store addSale checks the stock against, with the ids of the sale's customer and
      product: both resolved by name, a product created here already holding quantity +
      NEW_PRODUCT_STOCK_GRANT. */
  ghost function BeforeSale(db: Db, sale: NewSale): (r: (Db, Id, Id))
    requires Valid(db)
    ensures Valid(r.0) && r.1 in r.0.customers && r.2 in r.0.products
    ensures r.0.customers[r.1].name == sale.customerName && r.0.products[r.2].name == sale.productName
  {
    var (db1, customerId) := GetOrCreateCustomer(db, sale.customerName);
    var (granted, productId) := ResolveSoldProduct(db1, sale);
    (granted.value, customerId, productId)
  }

  /** addSale rejects exactly when the resolved product holds less than the quantity;
      the rejection writes no sale and moves no stock or balance, but the customer it
      created is kept. */
  lemma {:induction false} AddSaleChecksStock(db: Db, sale: NewSale, today: string)
    requires Valid(db)
    ensures var (db2, customerId, productId) := BeforeSale(db, sale);
            var r := AddSale(db, sale, today);
            && (r.result.Err? <==> db2.products[productId].stock < sale.quantity)
            && (r.result.Err? ==> r.result.error == InsufficientStock(db2.products[productId].stock) && r.db == db2)
  {
  }

  /** For a product already in the store, the stock checked is its stored stock, and a
      rejection leaves the store as getOrCreateCustomer left it. */
  lemma {:induction false} AddSaleRejectsShortStock(db: Db, sale: NewSale, today: string)
    requires Valid(db) && ProductNameTaken(db, sale.productName)
    requires db.products[ProductNamed(db, sale.productName).value].stock < sale.quantity
    ensures var available := db.products[ProductNamed(db, sale.productName).value].stock;
            AddSale(db, sale, today) == Step(GetOrCreateCustomer(db, sale.customerName).0, Err(InsufficientStock(available)))
  {
    var (db1, customerId) := GetOrCreateCustomer(db, sale.customerName);
    assert ProductNamed(db1, sale.productName) == ProductNamed(db, sale.productName);
  }

  /** A product name not yet in the store always passes the stock check: it is created
      with the defaults, granted quantity + NEW_PRODUCT_STOCK_GRANT, and left holding
      exactly the grant, above its safety stock, so no warning is attached. */
  lemma {:induction false} AddSaleNewProductPasses(db: Db, sale: NewSale, today: string)
    requires Valid(db) && !ProductNameTaken(db, sale.productName)
    ensures var r := AddSale(db, sale, today);
            && r.result.Ok? && r.result.value.warning.None?
            && ProductNamed(r.db, sale.productName).Some?
            && r.db.products[ProductNamed(r.db, sale.productName).value]
               == NewProduct(sale.productName, sale.unitPrice).(stock := NEW_PRODUCT_STOCK_GRANT)
  {
    var (db2, customerId, productId) := BeforeSale(db, sale);
    var r := AddSale(db, sale, today);
    assert r == RecordSale(db2, customerId, productId, sale, today);
    ProductLookup(r.db, sale.productName);
  }

  /** What the writes of a successful addSale are: a sale under the next id whose total
      is quantity times unit price, the quantity taken from the product's stock, and the
      total charged to the customer exactly when the status is UNPAID; every other record
      is as before. */
  lemma {:induction false} RecordedWrites(db: Db, customerId: Id, productId: Id, sale: NewSale, today: string)
    requires Valid(db) && customerId in db.customers && productId in db.products
    ensures var r := Recorded(db, customerId, productId, sale, today);
            var id := db.nextId;
            var total := sale.quantity * sale.unitPrice;
            && id !in db.sales && r.sales.Keys == db.sales.Keys + {id}
            && r.sales[id] == Sale(today, customerId, db.customers[customerId].name, productId, db.products[productId].name,
                                   sale.quantity, sale.unitPrice, total, sale.status, StoredNotes(sale.notes))
            && (forall k :: k in db.sales ==> r.sales[k] == db.sales[k])
            && r.products.Keys == db.products.Keys
            && (forall p :: p in db.products ==>
                  r.products[p].stock == db.products[p].stock - (if p == productId then sale.quantity else 0)
                  && r.products[p] == db.products[p].(stock := r.products[p].stock))
            && r.customers.Keys == db.customers.Keys
            && (forall c :: c in db.customers ==>
                  r.customers[c].balance
                    == db.customers[c].balance + (if c == customerId && sale.status == UNPAID then total else 0)
                  && r.customers[c] == db.customers[c].(balance := r.customers[c].balance))
  {
    assert SaleIssued(db.sales, db.nextId, db.nextId);
  }

  /** What a successful addSale writes (RecordedWrites, on the store BeforeSale resolves
      the names in) and returns: the id of the new sale, and a warning exactly when the
      product is left at or below its safety stock. */
  lemma {:induction false} AddSaleRecords(db: Db, sale: NewSale, today: string)
    requires Valid(db) && AddSale(db, sale, today).result.Ok?
    ensures var (db2, customerId, productId) := BeforeSale(db, sale);
            var r := AddSale(db, sale, today);
            && db2.products[productId].stock >= sale.quantity
            && r.db == Recorded(db2, customerId, productId, sale, today)
            && r.result.value.id == db2.nextId
            && (r.result.value.warning.Some? <==> r.db.products[productId].stock <= r.db.products[productId].safetyStock)
  {
    var (db2, customerId, productId) := BeforeSale(db, sale);
    var r := AddSale(db, sale, today);
    assert r == RecordSale(db2, customerId, productId, sale, today);
    ProductLookup(r.db, sale.productName);
  }

  /** Deleting the record Recorded just wrote undoes its writes, except the id it used. */
  lemma {:induction false} RecordedThenDelete(db: Db, customerId: Id, productId: Id, sale: NewSale, today: string)
    requires Valid(db) && customerId in db.customers && productId in db.products
    ensures DeleteSale(Recorded(db, customerId, productId, sale, today), db.nextId)
            == Step(db.(nextId := db.nextId + 1), Ok(()))
  {
    var id := db.nextId;
    var after := Recorded(db, customerId, productId, sale, today);
    assert SaleIssued(db.sales, db.nextId, id);
    assert after.sales[id].productId == productId && after.sales[id].customerId == customerId;
    var db3 := UpdateProductStock(after, productId, sale.quantity).value;
    assert db3.products == db.products;
    var db4 := if sale.status == UNPAID then AdjustBalance(db3, customerId, -(sale.quantity * sale.unitPrice)).value else db3;
    assert db4.customers == db.customers;
    assert db4.sales - {id} == db.sales;
    assert db4.(sales := db4.sales - {id}) == db.(nextId := db.nextId + 1);
  }

  /** deleteSale of the sale addSale just wrote gives the product its quantity back and
      takes the charged total off the customer: the store is the one addSale checked the
      stock against, with one id used up. When the customer and the product were already
      stored, that is the store before addSale. */
  lemma {:induction false} AddThenDelete(db: Db, sale: NewSale, today: string)
    requires Valid(db) && AddSale(db, sale, today).result.Ok?
    ensures var r := AddSale(db, sale, today);
            var db2 := BeforeSale(db, sale).0;
            DeleteSale(r.db, r.result.value.id) == Step(db2.(nextId := db2.nextId + 1), Ok(()))
    ensures CustomerNameTaken(db, sale.customerName) && ProductNameTaken(db, sale.productName) ==>
              BeforeSale(db, sale).0 == db
  {
    var (db2, customerId, productId) := BeforeSale(db, sale);
    assert AddSale(db, sale, today) == RecordSale(db2, customerId, productId, sale, today);
    RecordedThenDelete(db2, customerId, productId, sale, today);
  }

  // ---------------------------------------------------------------------------
  // deleteSale

  /** deleteSale rejects an unknown id, and a sale whose product is gone, without writing;
      otherwise it removes the sale, gives its quantity back to the product and takes what
      it owed off its customer. A customer that is gone is skipped. */
  lemma {:induction false} DeleteSaleOutcome(db: Db, id: Id)
    requires Valid(db)
    ensures var r := DeleteSale(db, id);
            && (id !in db.sales ==> r == Step(db, Err(SaleNotFound)))
            && (id in db.sales && db.sales[id].productId !in db.products ==> r == Step(db, Err(ProductNotFound)))
            && (id in db.sales && db.sales[id].productId in db.products ==>
                  var s := db.sales[id];
                  && r.result.Ok? && r.db.sales == db.sales - {id} && r.db.nextId == db.nextId
                  && r.db.products.Keys == db.products.Keys
                  && (forall p :: p in db.products ==>
                        r.db.products[p] == db.products[p].(stock := db.products[p].stock + (if p == s.productId then s.quantity else 0)))
                  && r.db.customers.Keys == db.customers.Keys
                  && (forall c :: c in db.customers ==>
                        r.db.customers[c] == db.customers[c].(balance := db.customers[c].balance - Owed(s, c))))
  {
  }

  // ---------------------------------------------------------------------------
  // updateSale

  /** The store updateSale moves stock and balances in, with the ids of the edited sale's
      customer and product: a changed name is resolved (and created when missing), an
      unchanged one keeps the stored id. Everything already stored is kept. */
  ghost function BeforeEdit(db: Db, id: Id, patch: SalePatch): (r: (Db, Id, Id))
    requires Valid(db) && id in db.sales
    ensures Valid(r.0) && r.0.sales == db.sales && r.0.nextId >= db.nextId
    ensures db.customers.Keys <= r.0.customers.Keys && db.products.Keys <= r.0.products.Keys
    ensures forall c :: c in db.customers ==> r.0.customers[c] == db.customers[c]
    ensures forall p :: p in db.products ==> r.0.products[p] == db.products[p]
    ensures ChangesOf(db.sales[id], patch).customer ==>
              r.1 in r.0.customers && r.0.customers[r.1].name == patch.customerName.value
    ensures !ChangesOf(db.sales[id], patch).customer ==> r.1 == db.sales[id].customerId && r.0.customers == db.customers
    ensures ChangesOf(db.sales[id], patch).product ==>
              r.2 in r.0.products && r.0.products[r.2].name == patch.productName.value
    ensures !ChangesOf(db.sales[id], patch).product ==> r.2 == db.sales[id].productId && r.0.products == db.products
  {
    var was := db.sales[id];
    var (db1, newCustomer) := ResolveEditedCustomer(db, was, patch);
    var (db2, newProduct) := ResolveEditedProduct(db1, was, patch);
    (db2, if newCustomer.Some? then newCustomer.value.0 else was.customerId,
          if newProduct.Some? then newProduct.value.0 else was.productId)
  }

  /** How updateSale moves the stock of product `p` when the edited sale's product is
      `target`: a changed product gets the old quantity back and `target` gives up
      `updates.quantity || old.quantity`; an unchanged product with a changed quantity
      moves by the difference; otherwise nothing moves. */
  function EditStockMove(was: Sale, patch: SalePatch, target: Id, p: Id): int {
    var changes := ChangesOf(was, patch);
    if changes.product then
      (if p == was.productId then was.quantity else 0) - (if p == target then NumberOr(patch.quantity, was.quantity) else 0)
    else if changes.quantity then
      (if p == was.productId then was.quantity - patch.quantity.value else 0)
    else 0
  }

  /** How updateSale moves the balance of customer `c` when the edited sale's customer is
      `target`: when the customer, status, price or quantity changed, what the old sale
      owed is taken back and, if `updates.status || old.status` is UNPAID, `target` is
      charged `(updates.quantity || old.quantity) * (updates.unit_price || old.unit_price)`. */
  function EditBalanceMove(was: Sale, patch: SalePatch, target: Id, c: Id): int {
    var changes := ChangesOf(was, patch);
    if changes.customer || changes.status || changes.price || changes.quantity then
      var newTotal := NumberOr(patch.quantity, was.quantity) * NumberOr(patch.unitPrice, was.unitPrice);
      - Owed(was, c) + (if c == target && StringOr(patch.status, was.status) == UNPAID then newTotal else 0)
    else 0
  }

  /** The stock steps of updateSale move every product as EditStockMove says, and fail
      only when a move needs the old product and it is gone. */
  lemma {:induction false} RestoreStockMoves(db: Db, was: Sale, patch: SalePatch, newProduct: Option<(Id, string)>)
    requires Valid(db)
    requires newProduct.Some? <==> ChangesOf(was, patch).product
    requires newProduct.Some? ==> newProduct.value.0 in db.products
    ensures var changes := ChangesOf(was, patch);
            var r := RestoreStock(db, was, patch, newProduct);
            var target := if newProduct.Some? then newProduct.value.0 else was.productId;
            && (r.Ok? <==> (changes.product || changes.quantity ==> was.productId in db.products))
            && (r.Err? ==> r.error == ProductNotFound)
            && (r.Ok? ==>
                  && r.value.customers == db.customers && r.value.sales == db.sales
                  && r.value.products.Keys == db.products.Keys
                  && forall p :: p in db.products ==>
                       r.value.products[p] == db.products[p].(stock := db.products[p].stock + EditStockMove(was, patch, target, p)))
  {
  }

  /** The balance steps of updateSale, skipped when none of the fields they read changed. */
  function EditRebalanced(db: Db, was: Sale, patch: SalePatch, target: Id): (r: Db)
    requires Valid(db)
    ensures Valid(r) && r.sales == db.sales && r.products == db.products && r.nextId == db.nextId
    ensures r.customers.Keys == db.customers.Keys
    ensures forall c :: c in db.customers ==>
              r.customers[c] == db.customers[c].(balance := db.customers[c].balance + EditBalanceMove(was, patch, target, c))
  {
    var changes := ChangesOf(was, patch);
    if changes.customer || changes.status || changes.price || changes.quantity then
      Rebalance(db, was, target, StringOr(patch.status, was.status),
                NumberOr(patch.quantity, was.quantity) * NumberOr(patch.unitPrice, was.unitPrice)).value
    else db
  }

  /** updateSale as its stages: resolve the names, move the stock (the only step that can
      reject), move the balances, put the edited record. */
  lemma {:induction false} UpdateSaleShape(db: Db, id: Id, patch: SalePatch)
    requires Valid(db) && id in db.sales
    ensures var was := db.sales[id];
            var (db1, newCustomer) := ResolveEditedCustomer(db, was, patch);
            var (db2, newProduct) := ResolveEditedProduct(db1, was, patch);
            var restored := RestoreStock(db2, was, patch, newProduct);
            var customerId := if newCustomer.Some? then newCustomer.value.0 else was.customerId;
            && BeforeEdit(db, id, patch) == (db2, customerId, if newProduct.Some? then newProduct.value.0 else was.productId)
            && (restored.Err? ==> UpdateSale(db, id, patch) == Step(db2, Err(restored.error)))
            && (restored.Ok? ==>
                  && UpdateSale(db, id, patch).result.Ok?
                  && UpdateSale(db, id, patch).db
                     == EditRebalanced(restored.value, was, patch, customerId).(sales := db.sales[id := EditedSale(was, patch, newCustomer, newProduct)]))
  {
    assert SaleIssued(db.sales, db.nextId, id);
  }

  /** updateSale rejects an unknown id without writing, and a stock move on a product that
      is gone after resolving the names (which stay written); otherwise every product's
      stock moves as EditStockMove says, with no check that enough is left. */
  lemma {:induction false} UpdateSaleMovesStock(db: Db, id: Id, patch: SalePatch)
    requires Valid(db)
    ensures id !in db.sales ==> UpdateSale(db, id, patch) == Step(db, Err(SaleNotFound))
    ensures id in db.sales ==>
              var was := db.sales[id];
              var changes := ChangesOf(was, patch);
              var (db2, customerId, productId) := BeforeEdit(db, id, patch);
              var r := UpdateSale(db, id, patch);
              && (r.result.Ok? <==> (changes.product || changes.quantity ==> was.productId in db.products))
              && (r.result.Err? ==> r == Step(db2, Err(ProductNotFound)))
              && (r.result.Ok? ==>
                    && r.db.products.Keys == db2.products.Keys
                    && forall p :: p in db2.products ==>
                         r.db.products[p] == db2.products[p].(stock := db2.products[p].stock + EditStockMove(was, patch, productId, p)))
  {
    if id in db.sales {
      var was := db.sales[id];
      UpdateSaleShape(db, id, patch);
      var (db1, newCustomer) := ResolveEditedCustomer(db, was, patch);
      var (db2, newProduct) := ResolveEditedProduct(db1, was, patch);
      assert SaleIssued(db.sales, db.nextId, id);
      assert was.productId in db2.products <==> was.productId in db.products;
      RestoreStockMoves(db2, was, patch, newProduct);
    }
  }

  /** On success updateSale moves every balance as EditBalanceMove says. */
  lemma {:induction false} UpdateSaleMovesBalances(db: Db, id: Id, patch: SalePatch)
    requires Valid(db) && id in db.sales && UpdateSale(db, id, patch).result.Ok?
    ensures var (db2, customerId, productId) := BeforeEdit(db, id, patch);
            var r := UpdateSale(db, id, patch);
            && r.db.customers.Keys == db2.customers.Keys
            && forall c :: c in db2.customers ==>
                 r.db.customers[c] == db2.customers[c].(balance := db2.customers[c].balance + EditBalanceMove(db.sales[id], patch, customerId, c))
  {
    var was := db.sales[id];
    UpdateSaleShape(db, id, patch);
    var (db1, newCustomer) := ResolveEditedCustomer(db, was, patch);
    var (db2, newProduct) := ResolveEditedProduct(db1, was, patch);
    RestoreStockMoves(db2, was, patch, newProduct);
  }

  /** On success updateSale stores the edited sale under the same id: the resolved
      customer and product, the patched quantity, price, status and notes, and a total
      recomputed from the stored quantity and price. No other sale changes. */
  lemma {:induction false} UpdateSaleStoresEdit(db: Db, id: Id, patch: SalePatch)
    requires Valid(db) && id in db.sales && UpdateSale(db, id, patch).result.Ok?
    ensures var was := db.sales[id];
            var (db2, customerId, productId) := BeforeEdit(db, id, patch);
            var r := UpdateSale(db, id, patch);
            var s := r.db.sales[id];
            && r.db.sales.Keys == db.sales.Keys
            && (forall k :: k in db.sales && k != id ==> r.db.sales[k] == db.sales[k])
            && s.date == was.date && s.customerId == customerId && s.productId == productId
            && s.customerName == (if ChangesOf(was, patch).customer then patch.customerName.value else was.customerName)
            && s.productName == (if ChangesOf(was, patch).product then patch.productName.value else was.productName)
            && s.quantity == patch.quantity.GetOr(was.quantity) && s.unitPrice == patch.unitPrice.GetOr(was.unitPrice)
            && s.totalAmount == s.quantity * s.unitPrice
            && s.status == patch.status.GetOr(was.status)
            && s.notes == (if patch.notes.Some? then patch.notes else was.notes)
  {
    var was := db.sales[id];
    UpdateSaleShape(db, id, patch);
    var (db1, newCustomer) := ResolveEditedCustomer(db, was, patch);
    var (db2, newProduct) := ResolveEditedProduct(db1, was, patch);
    RestoreStockMoves(db2, was, patch, newProduct);
  }

  /** An edit that changes none of the customer, product, quantity, status or price the
      source compares (the notes may change) moves no stock and no balance, and stores
      the sale with only its notes patched. */
  lemma {:induction false} UpdateSaleOnlyNotes(db: Db, id: Id, patch: SalePatch)
    requires Valid(db) && id in db.sales
    requires var changes := ChangesOf(db.sales[id], patch);
             !changes.customer && !changes.product && !changes.quantity && !changes.status && !changes.price
    ensures var r := UpdateSale(db, id, patch);
            var was := db.sales[id];
            && r.result.Ok? && r.db.customers == db.customers && r.db.products == db.products
            && r.db.sales == db.sales[id := was.(notes := if patch.notes.Some? then patch.notes else was.notes)]
  {
    assert SaleIssued(db.sales, db.nextId, id);
    UpdateSaleShape(db, id, patch);
  }

  /** The patch values the balance step reads through `||` are the values stored: no
      quantity or price patched to 0 and no status patched to the empty string. */
  predicate TruthyEdit(patch: SalePatch) {
    patch.quantity != Some(0) && patch.unitPrice != Some(0) && patch.status != Some("")
  }

  /** With a truthy patch, what the balance step moves for customer `c` is exactly the
      difference between what the stored record owes and what the old one owed. */
  lemma {:induction false} EditOwed(was: Sale, patch: SalePatch, s: Sale, target: Id, c: Id)
    requires TruthyEdit(patch) && was.totalAmount == was.quantity * was.unitPrice
    requires s.customerId == target && (!ChangesOf(was, patch).customer ==> target == was.customerId)
    requires s.quantity == patch.quantity.GetOr(was.quantity) && s.unitPrice == patch.unitPrice.GetOr(was.unitPrice)
    requires s.totalAmount == s.quantity * s.unitPrice && s.status == patch.status.GetOr(was.status)
    ensures Owed(s, c) == Owed(was, c) + EditBalanceMove(was, patch, target, c)
  {
  }

  /** Balances that agree with `sales` and move as EditBalanceMove says agree with the
      sales after the edited record `s` replaces sale `id`. */
  lemma {:induction false} EditedBalancesAgree(customers: map<Id, Customer>, customers': map<Id, Customer>, sales: map<Id, Sale>,
                            id: Id, patch: SalePatch, s: Sale, target: Id)
    requires id in sales && sales[id].totalAmount == sales[id].quantity * sales[id].unitPrice && TruthyEdit(patch)
    requires forall c :: c in customers ==> customers[c].balance == UnpaidTotal(sales, c)
    requires customers'.Keys == customers.Keys
    requires forall c :: c in customers ==>
               customers'[c].balance == customers[c].balance + EditBalanceMove(sales[id], patch, target, c)
    requires s.customerId == target && (!ChangesOf(sales[id], patch).customer ==> target == sales[id].customerId)
    requires s.quantity == patch.quantity.GetOr(sales[id].quantity) && s.unitPrice == patch.unitPrice.GetOr(sales[id].unitPrice)
    requires s.totalAmount == s.quantity * s.unitPrice && s.status == patch.status.GetOr(sales[id].status)
    ensures forall c :: c in customers' ==> customers'[c].balance == UnpaidTotal(sales[id := s], c)
  {
    forall c | c in customers'
      ensures customers'[c].balance == UnpaidTotal(sales[id := s], c)
    {
      UnpaidTotalPut(sales, id, s, c);
      EditOwed(sales[id], patch, s, target, c);
    }
  }

  /** A successful edit keeps balances that agree with the sales after name resolution
      in agreement. */
  lemma {:induction false} EditKeepsConsistent(db: Db, id: Id, patch: SalePatch)
    requires Valid(db) && id in db.sales && TruthyEdit(patch)
    requires Consistent(BeforeEdit(db, id, patch).0) && UpdateSale(db, id, patch).result.Ok?
    ensures Consistent(UpdateSale(db, id, patch).db)
  {
    var (db2, customerId, productId) := BeforeEdit(db, id, patch);
    var r := UpdateSale(db, id, patch);
    UpdateSaleMovesBalances(db, id, patch);
    UpdateSaleStoresEdit(db, id, patch);
    assert SaleIssued(db.sales, db.nextId, id);
    var s := r.db.sales[id];
    assert r.db.sales == db.sales[id := s];
    EditedBalancesAgree(db2.customers, r.db.customers, db.sales, id, patch, s, customerId);
  }

  /** With a truthy patch, updateSale keeps every balance equal to the unpaid total: what
      it takes back is what the old record owed, and what it charges is what the stored
      record owes. */
  lemma {:induction false} UpdateSaleKeepsConsistent(db: Db, id: Id, patch: SalePatch)
    requires Valid(db) && Consistent(db) && TruthyEdit(patch)
    ensures Consistent(UpdateSale(db, id, patch).db)
  {
    if id in db.sales {
      var was := db.sales[id];
      var (db2, customerId, productId) := BeforeEdit(db, id, patch);
      if ChangesOf(was, patch).customer {
        GetOrCreateCustomerKeepsConsistent(db, patch.customerName.value);
        assert db2.customers == GetOrCreateCustomer(db, patch.customerName.value).0.customers;
      }
      assert Consistent(db2);
      UpdateSaleMovesStock(db, id, patch);
      if UpdateSale(db, id, patch).result.Ok? {
        EditKeepsConsistent(db, id, patch);
      }
    }
  }

  /** A small store: customer 0 owes 2000 for sale 2, two units at 1000. */
  function DriftStore(): (db: Db)
    ensures Valid(db) && Consistent(db)
  {
    var db := Db(map[0 := Customer("A", "", "", 2000)], map["A" := 0],
                 map[1 := Product("P", DEFAULT_CATEGORY, 8, 1000, 850, DEFAULT_SAFETY_STOCK)], map["P" := 1],
                 map[2 := Sale("d", 0, "A", 1, "P", 2, 1000, 2000, UNPAID, None)], 3);
    assert CustomersIndexed(db.customers, db.customerIndex) by {
      forall n ensures CustomerEntry(db.customers, db.customerIndex, n) { }
      forall id ensures CustomerListed(db.customers, db.customerIndex, id) { }
    }
    assert ProductsIndexed(db.products, db.productIndex) by {
      forall n ensures ProductEntry(db.products, db.productIndex, n) { }
      forall id ensures ProductListed(db.products, db.productIndex, id) { }
    }
    assert SalesIssued(db.sales, db.nextId) by {
      forall id ensures SaleIssued(db.sales, db.nextId, id) { }
    }
    assert db.sales.Keys == {2};
    UnpaidOverPick(db.sales, {2}, 2, 0);
    assert {2} - {2} == {};
    db
  }

  /** The patch of the drift lemmas: a unit price of 0 and nothing else. */
  function ZeroPricePatch(): SalePatch {
    SalePatch(None, None, None, Some(0), None, None)
  }

  /** The zero-price patch names no customer, product or quantity, so it edits the sale
      in place, and on a priced sale it changes the price. */
  lemma {:induction false} ZeroPriceChanges(db: Db, id: Id)
    requires Valid(db) && id in db.sales && db.sales[id].unitPrice != 0
    ensures var c := ChangesOf(db.sales[id], ZeroPricePatch());
            !c.customer && !c.product && !c.quantity && c.price
    ensures BeforeEdit(db, id, ZeroPricePatch()) == (db, db.sales[id].customerId, db.sales[id].productId)
  {
    var (db2, customerId, productId) := BeforeEdit(db, id, ZeroPricePatch());
    assert db2 == db;
  }

  /** Patching the unit price of a sale to 0 needs no stock move, so it succeeds. */
  lemma {:induction false} ZeroPriceEditSucceeds(db: Db, id: Id)
    requires Valid(db) && id in db.sales && db.sales[id].unitPrice != 0
    ensures UpdateSale(db, id, ZeroPricePatch()).result.Ok?
  {
    ZeroPriceChanges(db, id);
    UpdateSaleMovesStock(db, id, ZeroPricePatch());
  }

  /** On an unpaid sale the balance step of the zero-price edit takes back the old total
      and charges `quantity * (0 || old price)`, the same amount: no customer record
      changes. */
  lemma {:induction false} ZeroPriceEditKeepsBalances(db: Db, id: Id)
    requires Valid(db) && id in db.sales && db.sales[id].status == UNPAID && db.sales[id].unitPrice != 0
    ensures UpdateSale(db, id, ZeroPricePatch()).db.customers == db.customers
  {
    var was := db.sales[id];
    assert SaleIssued(db.sales, db.nextId, id);
    ZeroPriceChanges(db, id);
    ZeroPriceEditSucceeds(db, id);
    UpdateSaleMovesBalances(db, id, ZeroPricePatch());
    var r := UpdateSale(db, id, ZeroPricePatch());
    forall c | c in db.customers
      ensures r.db.customers[c] == db.customers[c]
    {
      assert EditBalanceMove(was, ZeroPricePatch(), was.customerId, c) == 0;
    }
  }

  /** The zero-price edit stores the sale under the same id with price and total 0 and
      leaves the other sales alone. */
  lemma {:induction false} ZeroPriceEditStores(db: Db, id: Id)
    requires Valid(db) && id in db.sales && db.sales[id].unitPrice != 0
    ensures var r := UpdateSale(db, id, ZeroPricePatch());
            && r.db.sales == db.sales[id := r.db.sales[id]]
            && r.db.sales[id] == db.sales[id].(unitPrice := 0, totalAmount := 0)
  {
    ZeroPriceChanges(db, id);
    ZeroPriceEditSucceeds(db, id);
    UpdateSaleStoresEdit(db, id, ZeroPricePatch());
    var r := UpdateSale(db, id, ZeroPricePatch());
    assert r.db.sales == db.sales[id := r.db.sales[id]];
  }

  /** Without a truthy patch the balances drift from the sales: after the zero-price edit
      of ZeroPriceEditStores the customer's balance stays where it was while its unpaid
      total drops by the old total. */
  lemma {:induction false} ZeroPriceEditKeepsCharge(db: Db, id: Id)
    requires Valid(db) && id in db.sales && db.sales[id].status == UNPAID && db.sales[id].unitPrice != 0
    ensures var was := db.sales[id];
            var r := UpdateSale(db, id, ZeroPricePatch());
            && r.result.Ok? && r.db.customers == db.customers
            && UnpaidTotal(r.db.sales, was.customerId) == UnpaidTotal(db.sales, was.customerId) - was.totalAmount
  {
    var was := db.sales[id];
    var r := UpdateSale(db, id, ZeroPricePatch());
    ZeroPriceEditSucceeds(db, id);
    ZeroPriceEditKeepsBalances(db, id);
    ZeroPriceEditStores(db, id);
    UnpaidTotalPut(db.sales, id, r.db.sales[id], was.customerId);
  }

  /** ZeroPriceEditKeepsCharge on DriftStore: after the edit customer 0 still owes 2000
      while its sales add up to 0. */
  lemma {:induction false} ZeroPriceEditDrifts()
    ensures var r := UpdateSale(DriftStore(), 2, ZeroPricePatch());
            && r.result.Ok? && r.db.customers[0].balance == 2000
            && UnpaidTotal(r.db.sales, 0) == 0 && !Consistent(r.db)
  {
    ZeroPriceEditKeepsCharge(DriftStore(), 2);
  }
}
