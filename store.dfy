/** The store of services/database.ts as an object: the three object stores and their
    name indexes are fields that each operation updates step by step, as the source's
    transactions do. Most methods are specified by the function of module Ledger with the
    same name: the state they leave and the result they return are that function's.
    GetProductByName, WriteSale, EditRecord and TallyUnpaid are specified by ProductNamed,
    Recorded, EditedSale and Tally. ResetAllBalances and its two loops have no such
    function: a successful run leaves Reconciled, and a failed one is only bounded. */
module Database {
  import opened Wrappers
  import opened Ledger

  class Store {
    var customers: map<Id, Customer>
    var customerIndex: map<string, Id>
    var products: map<Id, Product>
    var productIndex: map<string, Id>
    var sales: map<Id, Sale>
    var nextId: nat

    /** The store as a value. */
    function State(): Db
      reads this
    {
      Db(customers, customerIndex, products, productIndex, sales, nextId)
    }

    ghost predicate Valid()
      reads this
    {
      Ledger.Valid(State())
    }

    /** An empty store: no customers, no products, no sales. */
    constructor ()
      ensures Valid() && Consistent(State())
      ensures customers == map[] && products == map[] && sales == map[] && nextId == 0
    {
      customers := map[];
      customerIndex := map[];
      products := map[];
      productIndex := map[];
      sales := map[];
      nextId := 0;
    }

    /** getProductByName. */
    method GetProductByName(name: string) returns (r: Option<Id>)
      requires Valid()
      ensures r == ProductNamed(State(), name)
    {
      r := if name in productIndex then Some(productIndex[name]) else None;
    }

    method GetOrCreateCustomer(name: string) returns (id: Id)
      requires Valid()
      modifies this
      ensures Valid()
      ensures (State(), id) == Ledger.GetOrCreateCustomer(old(State()), name)
    {
      if name in customerIndex {
        id := customerIndex[name];
      } else {
        id := nextId;
        customers := customers[id := NewCustomer(name)];
        customerIndex := customerIndex[name := id];
        nextId := nextId + 1;
      }
      assert (State(), id) == Ledger.GetOrCreateCustomer(old(State()), name);
    }

    method GetOrCreateProduct(name: string, unitPrice: int) returns (id: Id)
      requires Valid()
      modifies this
      ensures Valid()
      ensures (State(), id) == Ledger.GetOrCreateProduct(old(State()), name, unitPrice)
    {
      if name in productIndex {
        id := productIndex[name];
      } else {
        id := nextId;
        products := products[id := NewProduct(name, unitPrice)];
        productIndex := productIndex[name := id];
        nextId := nextId + 1;
      }
      assert (State(), id) == Ledger.GetOrCreateProduct(old(State()), name, unitPrice);
    }

    method UpdateCustomer(id: Id, patch: CustomerPatch) returns (r: Outcome<()>)
      requires Valid()
      modifies this
      ensures Valid()
      ensures Step(State(), r) == Committed(old(State()), Ledger.UpdateCustomer(old(State()), id, patch))
    {
      if id !in customers {
        return Err(CustomerNotFound);
      }
      var was := customers[id];
      var c := PatchCustomer(was, patch);
      if c.name in customerIndex && customerIndex[c.name] != id {
        return Err(NameTaken);
      }
      customers := customers[id := c];
      customerIndex := Renamed(customerIndex, was.name, c.name, id);
      assert State() == Ledger.UpdateCustomer(old(State()), id, patch).value;
      r := Ok(());
    }

    method UpdateProduct(id: Id, patch: ProductPatch) returns (r: Outcome<()>)
      requires Valid()
      modifies this
      ensures Valid()
      ensures Step(State(), r) == Committed(old(State()), Ledger.UpdateProduct(old(State()), id, patch))
    {
      if id !in products {
        return Err(ProductNotFound);
      }
      var was := products[id];
      var p := PatchProduct(was, patch);
      if p.name in productIndex && productIndex[p.name] != id {
        return Err(NameTaken);
      }
      products := products[id := p];
      productIndex := Renamed(productIndex, was.name, p.name, id);
      assert State() == Ledger.UpdateProduct(old(State()), id, patch).value;
      r := Ok(());
    }

    method UpdateProductStock(id: Id, change: int) returns (r: Outcome<()>)
      requires Valid()
      modifies this
      ensures Valid()
      ensures Step(State(), r) == Committed(old(State()), Ledger.UpdateProductStock(old(State()), id, change))
    {
      if id !in products {
        return Err(ProductNotFound);
      }
      var product := products[id];
      products := products[id := product.(stock := product.stock + change)];
      assert State() == Ledger.UpdateProductStock(old(State()), id, change).value;
      r := Ok(());
    }

    /** The balance step of updateSale and deleteSale: find the customer among all
        customers and, when found, store its balance plus `amount`. */
    method AdjustBalance(id: Id, amount: int) returns (r: Outcome<()>)
      requires Valid()
      modifies this
      ensures Valid()
      ensures Step(State(), r) == Committed(old(State()), Ledger.AdjustBalance(old(State()), id, amount))
    {
      r := Ok(());
      if id in customers {
        r := UpdateCustomer(id, BalancePatch(customers[id].balance + amount));
        assert Ledger.AdjustBalance(old(State()), id, amount) == Ledger.UpdateCustomer(old(State()), id, BalancePatch(old(customers[id].balance) + amount));
      }
    }

    method AddSale(sale: NewSale, today: string) returns (r: Outcome<Added>)
      requires Valid()
      modifies this
      ensures Valid()
      ensures Step(State(), r) == Ledger.AddSale(old(State()), sale, today)
    {
      var customerId := GetOrCreateCustomer(sale.customerName);
      ghost var db1 := State();
      var existing := GetProductByName(sale.productName);
      var productId := GetOrCreateProduct(sale.productName, sale.unitPrice);
      if existing.None? {
        var granted := UpdateProduct(productId, StockPatch(sale.quantity + NEW_PRODUCT_STOCK_GRANT));
        match granted { case Err(e) => assert false; return Err(e); case Ok(_) => }
      }
      assert ResolveSoldProduct(db1, sale) == (Ok(State()), productId);
      ghost var db2 := State();
      assert Ledger.AddSale(old(State()), sale, today) ==
        if db2.products[productId].stock < sale.quantity then Step(db2, Err(InsufficientStock(db2.products[productId].stock)))
        else Ledger.RecordSale(db2, customerId, productId, sale, today);
      var available := products[productId].stock;
      if available < sale.quantity {
        return Err(InsufficientStock(available));
      }
      r := RecordSale(customerId, productId, sale, today);
    }

    /** addSale once the stock check has passed. */
    method RecordSale(customerId: Id, productId: Id, sale: NewSale, today: string) returns (r: Outcome<Added>)
      requires Valid() && customerId in customers && productId in products
      modifies this
      ensures Valid()
      ensures Step(State(), r) == Ledger.RecordSale(old(State()), customerId, productId, sale, today)
    {
      var product := products[productId];
      var id := WriteSale(customerId, productId, sale, today);
      var updated := GetProductByName(sale.productName);
      var warning := None;
      if updated.Some? {
        var now := products[updated.value];
        if now.stock <= now.safetyStock {
          warning := Some(LowStock(product.name, product.safetyStock, now.stock));
        }
      }
      r := Ok(Added(id, warning));
    }

    /** The writes of addSale: `add` of the record, the stock taken and, when unpaid, the
        balance charged. */
    method WriteSale(customerId: Id, productId: Id, sale: NewSale, today: string) returns (id: Id)
      requires Valid() && customerId in customers && productId in products
      modifies this
      ensures Valid() && id == old(nextId)
      ensures State() == Recorded(old(State()), customerId, productId, sale, today)
    {
      var customer := customers[customerId];
      var product := products[productId];
      id := nextId;
      var total := sale.quantity * sale.unitPrice;
      sales := sales[id := Sale(today, customerId, customer.name, productId, product.name,
                                sale.quantity, sale.unitPrice, total, sale.status, StoredNotes(sale.notes))];
      nextId := nextId + 1;
      products := products[productId := product.(stock := product.stock - sale.quantity)];
      if sale.status == UNPAID {
        customers := customers[customerId := customer.(balance := customer.balance + total)];
      }
      assert State() == Recorded(old(State()), customerId, productId, sale, today);
    }

    /** updateSale: a field patch of the stored sale, with the stock and balance
        compensation of the source run step by step. */
    method UpdateSale(id: Id, patch: SalePatch) returns (r: Outcome<()>)
      requires Valid()
      modifies this
      ensures Valid()
      ensures Step(State(), r) == Ledger.UpdateSale(old(State()), id, patch)
    {
      if id !in sales {
        return Err(SaleNotFound);
      }
      var was := sales[id];
      assert SaleIssued(sales, nextId, id);
      var changes := ChangesOf(was, patch);
      var newCustomer := ResolveEditedCustomer(was, patch);
      var newProduct := ResolveEditedProduct(was, patch);
      ghost var db2 := State();
      r := RestoreStock(was, patch, newProduct);
      if r.Err? {
        return;
      }
      ghost var db3 := State();
      if changes.customer || changes.status || changes.price || changes.quantity {
        Rebalance(was, if newCustomer.Some? then newCustomer.value.0 else was.customerId,
                  StringOr(patch.status, was.status),
                  NumberOr(patch.quantity, was.quantity) * NumberOr(patch.unitPrice, was.unitPrice));
      }
      var edited := EditRecord(was, patch, newCustomer, newProduct);
      sales := sales[id := edited];
      r := Ok(());
      assert Step(State(), r) == Ledger.UpdateSale(old(State()), id, patch);
    }

    /** The customer step of updateSale: getOrCreateCustomer of a changed name. */
    method ResolveEditedCustomer(was: Sale, patch: SalePatch) returns (newCustomer: Option<(Id, string)>)
      requires Valid()
      modifies this
      ensures Valid()
      ensures (State(), newCustomer) == Ledger.ResolveEditedCustomer(old(State()), was, patch)
    {
      newCustomer := None;
      if ChangesOf(was, patch).customer {
        var customerId := GetOrCreateCustomer(patch.customerName.value);
        newCustomer := Some((customerId, customers[customerId].name));
      }
    }

    /** The product step of updateSale: getOrCreateProduct of a changed name. */
    method ResolveEditedProduct(was: Sale, patch: SalePatch) returns (newProduct: Option<(Id, string)>)
      requires Valid()
      modifies this
      ensures Valid()
      ensures (State(), newProduct) == Ledger.ResolveEditedProduct(old(State()), was, patch)
    {
      newProduct := None;
      if ChangesOf(was, patch).product {
        var productId := GetOrCreateProduct(patch.productName.value, NumberOr(patch.unitPrice, was.unitPrice));
        newProduct := Some((productId, products[productId].name));
      }
    }

    /** The balance step of updateSale. */
    method Rebalance(was: Sale, newCustomerId: Id, newStatus: string, newTotal: int)
      requires Valid()
      modifies this
      ensures Valid()
      ensures State() == Ledger.Rebalance(old(State()), was, newCustomerId, newStatus, newTotal).value
    {
      var r: Outcome<()>;
      if was.status == UNPAID {
        r := AdjustBalance(was.customerId, -was.totalAmount);
      }
      ghost var refunded := State();
      assert refunded == if was.status == UNPAID then Ledger.AdjustBalance(old(State()), was.customerId, -was.totalAmount).value
                         else old(State());
      if newStatus == UNPAID {
        r := AdjustBalance(newCustomerId, newTotal);
      }
    }

    /** The fields of the stored sale that updateSale overwrites, one by one. */
    method EditRecord(was: Sale, patch: SalePatch, newCustomer: Option<(Id, string)>,
                      newProduct: Option<(Id, string)>) returns (edited: Sale)
      ensures edited == EditedSale(was, patch, newCustomer, newProduct)
    {
      var changes := ChangesOf(was, patch);
      var customerId, customerName := was.customerId, was.customerName;
      if changes.customer && newCustomer.Some? {
        customerId, customerName := newCustomer.value.0, newCustomer.value.1;
      }
      var productId, productName := was.productId, was.productName;
      if changes.product && newProduct.Some? {
        productId, productName := newProduct.value.0, newProduct.value.1;
      }
      var quantity, unitPrice, status, notes := was.quantity, was.unitPrice, was.status, was.notes;
      if patch.quantity.Some? { quantity := patch.quantity.value; }
      if patch.unitPrice.Some? { unitPrice := patch.unitPrice.value; }
      if patch.status.Some? { status := patch.status.value; }
      if patch.notes.Some? { notes := patch.notes; }
      assert quantity == patch.quantity.GetOr(was.quantity) && unitPrice == patch.unitPrice.GetOr(was.unitPrice);
      edited := Sale(was.date, customerId, customerName, productId, productName, quantity, unitPrice,
                     quantity * unitPrice, status, notes);
    }

    /** The stock steps of updateSale. */
    method RestoreStock(was: Sale, patch: SalePatch, newProduct: Option<(Id, string)>) returns (r: Outcome<()>)
      requires Valid()
      requires newProduct.Some? ==> newProduct.value.0 in products
      modifies this
      ensures Valid()
      ensures Step(State(), r) == Committed(old(State()), Ledger.RestoreStock(old(State()), was, patch, newProduct))
    {
      var changes := ChangesOf(was, patch);
      r := Ok(());
      if changes.product {
        r := UpdateProductStock(was.productId, was.quantity);
      } else if changes.quantity {
        r := UpdateProductStock(was.productId, was.quantity - patch.quantity.value);
      }
      if r.Err? {
        return;
      }
      if changes.product && newProduct.Some? {
        r := UpdateProductStock(newProduct.value.0, -NumberOr(patch.quantity, was.quantity));
      }
    }

    /** deleteSale: give the quantity back to the product, take an unpaid total back from
        the customer, and remove the record. */
    method DeleteSale(id: Id) returns (r: Outcome<()>)
      requires Valid()
      modifies this
      ensures Valid()
      ensures Step(State(), r) == Ledger.DeleteSale(old(State()), id)
    {
      if id !in sales {
        return Err(SaleNotFound);
      }
      var sale := sales[id];
      r := UpdateProductStock(sale.productId, sale.quantity);
      if r.Err? {
        return;
      }
      ghost var db1 := State();
      if sale.status == UNPAID {
        r := AdjustBalance(sale.customerId, -sale.totalAmount);
      }
      ghost var db2 := State();
      assert db2 == (if sale.status == UNPAID then Ledger.AdjustBalance(db1, sale.customerId, -sale.totalAmount).value else db1);
      sales := sales - {id};
      r := Ok(());
      assert Step(State(), r) == Step(db2.(sales := db2.sales - {id}), Ok(()));
      assert Step(State(), r) == Ledger.DeleteSale(old(State()), id);
    }

    /** resetAllBalances: every balance set to 0, the totals of the unpaid sales summed per
        customer into a balance map, then each sum written to its customer with
        updateCustomer. A sum whose customer is missing rejects with CustomerNotFound,
        leaving the sums not yet written at 0. */
    method ResetAllBalances() returns (r: Outcome<()>)
      requires Valid()
      modifies this
      ensures Valid()
      ensures OnlyCustomersChange(old(State()), State()) && customerIndex == old(customerIndex) && nextId == old(nextId)
      ensures customers.Keys == old(customers).Keys
      ensures r.Ok? <==> Debtors(sales) <= customers.Keys
      ensures r.Ok? ==> State() == Reconciled(old(State()))
      ensures r.Err? ==> r.error == CustomerNotFound
      ensures forall c :: c in customers ==> customers[c] == old(customers)[c].(balance := customers[c].balance)
      ensures forall c :: c in customers ==> customers[c].balance == 0 || customers[c].balance == UnpaidTotal(sales, c)
    {
      ZeroBalances();
      ghost var zeroed := customers;
      var balances := TallyUnpaid(sales);
      assert balances.Keys == Debtors(sales);
      assert forall c :: c in balances ==> balances[c] == UnpaidTotal(sales, c);
      r := WriteBalances(balances);
      forall c | c in customers
        ensures customers[c] == old(customers)[c].(balance := customers[c].balance)
        ensures customers[c].balance == 0 || customers[c].balance == UnpaidTotal(sales, c)
      {
        assert zeroed[c] == old(customers)[c].(balance := 0);
      }
      if r.Ok? {
        ReconciledByTally(old(State()));
        assert customers == Reconciled(old(State())).customers;
      }
    }

    /** The first loop of resetAllBalances: updateCustomer(id, { balance: 0 }) for every
        customer. */
    method ZeroBalances()
      requires Valid()
      modifies this
      ensures Valid()
      ensures customers.Keys == old(customers).Keys
      ensures forall c :: c in customers ==> customers[c] == old(customers)[c].(balance := 0)
      ensures customerIndex == old(customerIndex) && products == old(products) && productIndex == old(productIndex)
      ensures sales == old(sales) && nextId == old(nextId)
    {
      var todo := customers.Keys;
      while todo != {}
        invariant Valid() && todo <= customers.Keys && customers.Keys == old(customers).Keys
        invariant forall c :: c in customers ==>
                    customers[c] == old(customers)[c].(balance := if c in todo then old(customers)[c].balance else 0)
        invariant customerIndex == old(customerIndex) && products == old(products) && productIndex == old(productIndex)
        invariant sales == old(sales) && nextId == old(nextId)
        decreases todo
      {
        var c :| c in todo;
        var zeroed := UpdateCustomer(c, BalancePatch(0));
        todo := todo - {c};
      }
    }

    /** The last loop of resetAllBalances: updateCustomer(id, { balance }) for every entry of
        the balance map, in no particular order, up to the first entry with no customer. */
    method WriteBalances(balances: map<Id, int>) returns (r: Outcome<()>)
      requires Valid()
      modifies this
      ensures Valid()
      ensures customerIndex == old(customerIndex) && products == old(products) && productIndex == old(productIndex)
      ensures sales == old(sales) && nextId == old(nextId) && customers.Keys == old(customers).Keys
      ensures r.Ok? <==> balances.Keys <= customers.Keys
      ensures r.Err? ==> r.error == CustomerNotFound
      ensures forall c :: c in customers ==>
                customers[c] == old(customers)[c] || (c in balances && customers[c] == old(customers)[c].(balance := balances[c]))
      ensures r.Ok? ==> forall c :: c in customers && c in balances ==> customers[c] == old(customers)[c].(balance := balances[c])
    {
      var todo := balances.Keys;
      while todo != {}
        invariant Valid() && todo <= balances.Keys && customers.Keys == old(customers).Keys
        invariant balances.Keys - todo <= customers.Keys
        invariant forall c :: c in customers ==>
                    customers[c] == if c in balances && c !in todo then old(customers)[c].(balance := balances[c]) else old(customers)[c]
        invariant customerIndex == old(customerIndex) && products == old(products) && productIndex == old(productIndex)
        invariant sales == old(sales) && nextId == old(nextId)
        decreases todo
      {
        var c :| c in todo;
        r := UpdateCustomer(c, BalancePatch(balances[c]));
        if r.Err? {
          return;
        }
        todo := todo - {c};
      }
      r := Ok(());
    }
  }

  /** The middle loop of resetAllBalances: the balance map, summing the total of every
      unpaid sale into the entry of its customer. */
  method TallyUnpaid(sales: map<Id, Sale>) returns (balances: map<Id, int>)
    ensures balances == Tally(sales, sales.Keys)
  {
    balances := map[];
    var pending := sales.Keys;
    while pending != {}
      invariant pending <= sales.Keys
      invariant balances == Tally(sales, sales.Keys - pending)
      decreases pending
    {
      var k :| k in pending;
      TallyAdd(sales, sales.Keys - pending, k);
      var sale := sales[k];
      if sale.status == UNPAID {
        var current := if sale.customerId in balances then balances[sale.customerId] else 0;
        balances := balances[sale.customerId := current + sale.totalAmount];
      }
      assert sales.Keys - (pending - {k}) == (sales.Keys - pending) + {k};
      pending := pending - {k};
    }
    assert sales.Keys - pending == sales.Keys;
  }
}
