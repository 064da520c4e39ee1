/** The sale ledger of services/database.ts, as values.

    The three object stores (customers, products, sales) are maps keyed by id; the two
    unique `name` indexes of the customer and product stores are maps from name to id;
    fresh ids come from one counter. Every operation modelled here is a function
    from the store before it to the store after it together with what the operation
    resolves or rejects with. The source runs every step of an operation in a
    transaction of its own, so an operation that rejects half-way leaves the steps before
    the rejection in place: the functions below return that partial store. */
module Ledger {
  import opened Wrappers

  type Id = nat

  /** The one order status that moves a customer's balance ('미결제', unpaid). */
  const UNPAID: string := "미결제"
  /** Stock granted to a product that a sale creates, on top of the quantity sold. */
  const NEW_PRODUCT_STOCK_GRANT: int := 50
  /** Defaults of a product created by name alone. */
  const DEFAULT_UNIT_PRICE: int := 45000
  const DEFAULT_COST_PRICE: int := 39000
  const DEFAULT_SAFETY_STOCK: int := 10
  const DEFAULT_CATEGORY: string := "백미"

  datatype Customer = Customer(name: string, contact: string, address: string, balance: int)

  datatype Product = Product(name: string, category: string, stock: int, unitPrice: int,
                             costPrice: int, safetyStock: int)

  /** A single-item sale; `customerName` and `productName` are snapshots taken when the
      sale was written. */
  datatype Sale = Sale(date: string, customerId: Id, customerName: string,
                       productId: Id, productName: string, quantity: int, unitPrice: int,
                       totalAmount: int, status: string, notes: Option<string>)

  datatype Error =
    | CustomerNotFound
    | ProductNotFound
    | SaleNotFound
    | InsufficientStock(available: int)
    /** The unique name index refused a record: another record already has that name. */
    | NameTaken

  type Outcome<T> = Result<T, Error>

  datatype Db = Db(customers: map<Id, Customer>, customerIndex: map<string, Id>,
                   products: map<Id, Product>, productIndex: map<string, Id>,
                   sales: map<Id, Sale>, nextId: nat)

  /** The store after an operation and what the operation resolved or rejected with. */
  datatype Step<T> = Step(db: Db, result: Outcome<T>)

  /** Partial updates: `None` is a key absent from the update object. */
  datatype CustomerPatch = CustomerPatch(name: Option<string>, contact: Option<string>,
                                         address: Option<string>, balance: Option<int>)
  datatype ProductPatch = ProductPatch(name: Option<string>, category: Option<string>,
                                       stock: Option<int>, unitPrice: Option<int>,
                                       costPrice: Option<int>, safetyStock: Option<int>)
  datatype SalePatch = SalePatch(customerName: Option<string>, productName: Option<string>,
                                 quantity: Option<int>, unitPrice: Option<int>,
                                 status: Option<string>, notes: Option<string>)

  /** The request of addSale. */
  datatype NewSale = NewSale(customerName: string, productName: string, quantity: int,
                             unitPrice: int, status: string, notes: Option<string>)

  /** The low-stock warning addSale attaches to its result. */
  datatype LowStock = LowStock(productName: string, safetyStock: int, stock: int)
  datatype Added = Added(id: Id, warning: Option<LowStock>)

  // ---------------------------------------------------------------------------
  // Store invariant

  /** The entry for name `n` of the customer index, if there is one, refers to a stored
      customer called `n`. */
  ghost predicate CustomerEntry(customers: map<Id, Customer>, index: map<string, Id>, n: string) {
    n in index ==> index[n] in customers && customers[index[n]].name == n
  }

  /** Customer `id`, if stored, is the entry of the customer index under its name. */
  ghost predicate CustomerListed(customers: map<Id, Customer>, index: map<string, Id>, id: Id) {
    id in customers ==> customers[id].name in index && index[customers[id].name] == id
  }

  /** The unique `name` index of the customer store maps exactly the names of its records. */
  ghost predicate CustomersIndexed(customers: map<Id, Customer>, index: map<string, Id>) {
    (forall n :: CustomerEntry(customers, index, n)) && (forall id :: CustomerListed(customers, index, id))
  }

  ghost predicate ProductEntry(products: map<Id, Product>, index: map<string, Id>, n: string) {
    n in index ==> index[n] in products && products[index[n]].name == n
  }

  ghost predicate ProductListed(products: map<Id, Product>, index: map<string, Id>, id: Id) {
    id in products ==> products[id].name in index && index[products[id].name] == id
  }

  /** The unique `name` index of the product store maps exactly the names of its records. */
  ghost predicate ProductsIndexed(products: map<Id, Product>, index: map<string, Id>) {
    (forall n :: ProductEntry(products, index, n)) && (forall id :: ProductListed(products, index, id))
  }

  /** Sale `id`, if stored, and the records it refers to have ids the counter issued, and
      its total is its quantity times its unit price. */
  ghost predicate SaleIssued(sales: map<Id, Sale>, nextId: nat, id: Id) {
    id in sales ==>
      && id < nextId && sales[id].customerId < nextId && sales[id].productId < nextId
      && sales[id].totalAmount == sales[id].quantity * sales[id].unitPrice
  }

  ghost predicate SalesIssued(sales: map<Id, Sale>, nextId: nat) {
    forall id :: SaleIssued(sales, nextId, id)
  }

  /** Every key was issued by the counter, so a fresh id is new. */
  ghost predicate KeysIssued(ids: set<Id>, nextId: nat) {
    forall id :: id in ids ==> id < nextId
  }

  /** The store invariant. A sale may still refer to a customer or product that has since
      been deleted, since the source deletes those records without looking at sales. */
  ghost predicate Valid(db: Db) {
    && CustomersIndexed(db.customers, db.customerIndex)
    && ProductsIndexed(db.products, db.productIndex)
    && KeysIssued(db.customers.Keys, db.nextId) && KeysIssued(db.products.Keys, db.nextId)
    && SalesIssued(db.sales, db.nextId)
  }

  /** Records whose names did not change keep the customer index exact. */
  lemma {:induction false} CustomersRenamedNone(customers: map<Id, Customer>, customers': map<Id, Customer>, index: map<string, Id>)
    requires CustomersIndexed(customers, index) && customers'.Keys == customers.Keys
    requires forall id :: id in customers ==> customers'[id].name == customers[id].name
    ensures CustomersIndexed(customers', index)
  {
    forall n ensures CustomerEntry(customers', index, n) {
      assert CustomerEntry(customers, index, n);
    }
    forall id ensures CustomerListed(customers', index, id) {
      assert CustomerListed(customers, index, id);
    }
  }

  /** Storing `c` under `id`, when its name is free or already `id`'s, keeps the customer
      index exact once the index is moved from the old name to the new one. */
  lemma {:induction false} CustomerStored(customers: map<Id, Customer>, index: map<string, Id>, id: Id, c: Customer)
    requires CustomersIndexed(customers, index)
    requires c.name !in index || index[c.name] == id
    requires id !in customers ==> c.name !in index
    ensures CustomersIndexed(customers[id := c],
                             if id in customers then Renamed(index, customers[id].name, c.name, id) else index[c.name := id])
  {
    var customers' := customers[id := c];
    var index' := if id in customers then Renamed(index, customers[id].name, c.name, id) else index[c.name := id];
    forall n ensures CustomerEntry(customers', index', n) {
      assert CustomerEntry(customers, index, n);
    }
    forall k ensures CustomerListed(customers', index', k) {
      assert CustomerListed(customers, index, k);
      if k != id && k in customers {
        assert CustomerEntry(customers, index, c.name);
        assert CustomerListed(customers, index, id);
      }
    }
  }

  lemma {:induction false} ProductsRenamedNone(products: map<Id, Product>, products': map<Id, Product>, index: map<string, Id>)
    requires ProductsIndexed(products, index) && products'.Keys == products.Keys
    requires forall id :: id in products ==> products'[id].name == products[id].name
    ensures ProductsIndexed(products', index)
  {
    forall n ensures ProductEntry(products', index, n) {
      assert ProductEntry(products, index, n);
    }
    forall id ensures ProductListed(products', index, id) {
      assert ProductListed(products, index, id);
    }
  }

  lemma {:induction false} ProductStored(products: map<Id, Product>, index: map<string, Id>, id: Id, p: Product)
    requires ProductsIndexed(products, index)
    requires p.name !in index || index[p.name] == id
    requires id !in products ==> p.name !in index
    ensures ProductsIndexed(products[id := p],
                            if id in products then Renamed(index, products[id].name, p.name, id) else index[p.name := id])
  {
    var products' := products[id := p];
    var index' := if id in products then Renamed(index, products[id].name, p.name, id) else index[p.name := id];
    forall n ensures ProductEntry(products', index', n) {
      assert ProductEntry(products, index, n);
    }
    forall k ensures ProductListed(products', index', k) {
      assert ProductListed(products, index, k);
      if k != id && k in products {
        assert ProductEntry(products, index, p.name);
        assert ProductListed(products, index, id);
      }
    }
  }

  /** Writing a well-formed sale under an issued id, issuing more ids, or deleting a sale
      keeps every sale issued. */
  lemma {:induction false} SalesIssuedPut(sales: map<Id, Sale>, nextId: nat, nextId': nat, id: Id, s: Sale)
    requires SalesIssued(sales, nextId) && nextId <= nextId'
    requires id < nextId' && s.customerId < nextId' && s.productId < nextId'
    requires s.totalAmount == s.quantity * s.unitPrice
    ensures SalesIssued(sales[id := s], nextId')
  {
    var sales' := sales[id := s];
    forall k ensures SaleIssued(sales', nextId', k) {
      assert SaleIssued(sales, nextId, k);
    }
  }

  lemma {:induction false} SalesIssuedGrow(sales: map<Id, Sale>, nextId: nat, nextId': nat)
    requires SalesIssued(sales, nextId) && nextId <= nextId'
    ensures SalesIssued(sales, nextId')
  {
    forall k ensures SaleIssued(sales, nextId', k) {
      assert SaleIssued(sales, nextId, k);
    }
  }

  lemma {:induction false} SalesIssuedRemove(sales: map<Id, Sale>, nextId: nat, id: Id)
    requires SalesIssued(sales, nextId)
    ensures SalesIssued(sales - {id}, nextId)
  {
    forall k ensures SaleIssued(sales - {id}, nextId, k) {
      assert SaleIssued(sales, nextId, k);
    }
  }

  ghost predicate CustomerNameTaken(db: Db, name: string) {
    exists id :: id in db.customers && db.customers[id].name == name
  }

  ghost predicate ProductNameTaken(db: Db, name: string) {
    exists id :: id in db.products && db.products[id].name == name
  }

  /** Only the customer store (and its index and the id counter) may differ. */
  ghost predicate OnlyCustomersChange(db: Db, db': Db) {
    db'.products == db.products && db'.productIndex == db.productIndex && db'.sales == db.sales
  }

  /** Only the product store (and its index and the id counter) may differ. */
  ghost predicate OnlyProductsChange(db: Db, db': Db) {
    db'.customers == db.customers && db'.customerIndex == db.customerIndex && db'.sales == db.sales
  }

  // ---------------------------------------------------------------------------
  // JavaScript truthiness

  /** `x || d` for a number `x` that may be undefined: 0 falls back too. */
  function NumberOr(x: Option<int>, d: int): int
  {
    if x.Some? && x.value != 0 then x.value else d
  }

  /** `x || d` for a string `x` that may be undefined: the empty string falls back too. */
  function StringOr(x: Option<string>, d: string): string
  {
    if x.Some? && x.value != "" then x.value else d
  }

  /** `notes || null`: an empty note is not stored. */
  function StoredNotes(notes: Option<string>): Option<string>
  {
    if notes.Some? && notes.value != "" then notes else None
  }

  // ---------------------------------------------------------------------------
  // Lookups by name (the unique `name` indexes)

  /** The customer index holds a name exactly when some customer has it. */
  lemma {:induction false} CustomerLookup(db: Db, name: string)
    requires CustomersIndexed(db.customers, db.customerIndex)
    ensures name in db.customerIndex <==> CustomerNameTaken(db, name)
    ensures name in db.customerIndex ==>
              db.customerIndex[name] in db.customers && db.customers[db.customerIndex[name]].name == name
  {
    assert CustomerEntry(db.customers, db.customerIndex, name);
    if CustomerNameTaken(db, name) {
      var id :| id in db.customers && db.customers[id].name == name;
      assert CustomerListed(db.customers, db.customerIndex, id);
    }
  }

  /** The product index holds a name exactly when some product has it. */
  lemma {:induction false} ProductLookup(db: Db, name: string)
    requires ProductsIndexed(db.products, db.productIndex)
    ensures name in db.productIndex <==> ProductNameTaken(db, name)
    ensures name in db.productIndex ==>
              db.productIndex[name] in db.products && db.products[db.productIndex[name]].name == name
    ensures forall id :: id in db.products && db.products[id].name == name ==>
              name in db.productIndex && db.productIndex[name] == id
  {
    forall id | id in db.products && db.products[id].name == name
      ensures name in db.productIndex && db.productIndex[name] == id
    {
      assert ProductListed(db.products, db.productIndex, id);
    }
    assert ProductEntry(db.products, db.productIndex, name);
    if ProductNameTaken(db, name) {
      var id :| id in db.products && db.products[id].name == name;
      assert ProductListed(db.products, db.productIndex, id);
    }
  }

  function CustomerNamed(db: Db, name: string): (r: Option<Id>)
    requires Valid(db)
    ensures r.Some? <==> CustomerNameTaken(db, name)
    ensures r.Some? ==> r.value in db.customers && db.customers[r.value].name == name
  {
    CustomerLookup(db, name);
    if name in db.customerIndex then Some(db.customerIndex[name]) else None
  }

  /** getProductByName. */
  function ProductNamed(db: Db, name: string): (r: Option<Id>)
    requires Valid(db)
    ensures r.Some? <==> ProductNameTaken(db, name)
    ensures r.Some? ==> r.value in db.products && db.products[r.value].name == name
  {
    ProductLookup(db, name);
    if name in db.productIndex then Some(db.productIndex[name]) else None
  }

  // ---------------------------------------------------------------------------
  // Lookup-or-create

  function NewCustomer(name: string): Customer {
    Customer(name, "", "", 0)
  }

  /** `Math.floor(unitPrice * 0.85)`, computed exactly on integers (see README). */
  function EstimatedCost(unitPrice: int): int {
    (unitPrice * 85) / 100
  }

  /** The record getOrCreateProduct adds for an unknown name; a unit price of 0 stands
      for an absent one. */
  function NewProduct(name: string, unitPrice: int): (p: Product)
    ensures p.name == name && p.category == DEFAULT_CATEGORY && p.stock == 0
    ensures p.safetyStock == DEFAULT_SAFETY_STOCK
    ensures p.unitPrice == (if unitPrice == 0 then DEFAULT_UNIT_PRICE else unitPrice)
    ensures p.costPrice == (if unitPrice == 0 then DEFAULT_COST_PRICE else EstimatedCost(unitPrice))
  {
    Product(name, DEFAULT_CATEGORY, 0, NumberOr(Some(unitPrice), DEFAULT_UNIT_PRICE),
            if unitPrice != 0 then EstimatedCost(unitPrice) else DEFAULT_COST_PRICE,
            DEFAULT_SAFETY_STOCK)
  }

  /** getOrCreateCustomer: the customer with that name, created with zero balance and
      empty contact and address when there is none. */
  function GetOrCreateCustomer(db: Db, name: string): (r: (Db, Id))
    requires Valid(db)
    ensures Valid(r.0) && OnlyCustomersChange(db, r.0)
    ensures r.1 in r.0.customers && r.0.customers[r.1].name == name
    ensures CustomerNameTaken(db, name) ==> r.0 == db
    ensures !CustomerNameTaken(db, name) ==>
              && r.1 !in db.customers
              && r.0.customers == db.customers[r.1 := NewCustomer(name)]
              && r.0.nextId == db.nextId + 1
  {
    match CustomerNamed(db, name)
    case Some(id) => (db, id)
    case None =>
      var id := db.nextId;
      CustomerLookup(db, name);
      CustomerStored(db.customers, db.customerIndex, id, NewCustomer(name));
      SalesIssuedGrow(db.sales, id, id + 1);
      (db.(customers := db.customers[id := NewCustomer(name)],
           customerIndex := db.customerIndex[name := id],
           nextId := id + 1), id)
  }

  /** getOrCreateProduct: the product with that name, created with the defaults of
      NewProduct when there is none. */
  function GetOrCreateProduct(db: Db, name: string, unitPrice: int): (r: (Db, Id))
    requires Valid(db)
    ensures Valid(r.0) && OnlyProductsChange(db, r.0)
    ensures r.1 in r.0.products && r.0.products[r.1].name == name
    ensures ProductNameTaken(db, name) ==> r.0 == db
    ensures !ProductNameTaken(db, name) ==>
              && r.1 !in db.products
              && r.0.products == db.products[r.1 := NewProduct(name, unitPrice)]
              && r.0.nextId == db.nextId + 1
  {
    match ProductNamed(db, name)
    case Some(id) => (db, id)
    case None =>
      var id := db.nextId;
      ProductLookup(db, name);
      ProductStored(db.products, db.productIndex, id, NewProduct(name, unitPrice));
      SalesIssuedGrow(db.sales, id, id + 1);
      (db.(products := db.products[id := NewProduct(name, unitPrice)],
           productIndex := db.productIndex[name := id],
           nextId := id + 1), id)
  }

  // ---------------------------------------------------------------------------
  // Direct updates

  function PatchCustomer(c: Customer, patch: CustomerPatch): Customer {
    Customer(patch.name.GetOr(c.name), patch.contact.GetOr(c.contact),
             patch.address.GetOr(c.address), patch.balance.GetOr(c.balance))
  }

  function PatchProduct(p: Product, patch: ProductPatch): Product {
    Product(patch.name.GetOr(p.name), patch.category.GetOr(p.category),
            patch.stock.GetOr(p.stock), patch.unitPrice.GetOr(p.unitPrice),
            patch.costPrice.GetOr(p.costPrice), patch.safetyStock.GetOr(p.safetyStock))
  }

  function BalancePatch(balance: int): CustomerPatch {
    CustomerPatch(None, None, None, Some(balance))
  }

  function StockPatch(stock: int): ProductPatch {
    ProductPatch(None, None, Some(stock), None, None, None)
  }

  /** The index after record `id` is renamed from `was` to `now`. */
  function Renamed(index: map<string, Id>, was: string, now: string, id: Id): map<string, Id> {
    (index - {was})[now := id]
  }

  /** updateCustomer: Object.assign of the patch onto the stored record. */
  function UpdateCustomer(db: Db, id: Id, patch: CustomerPatch): (r: Outcome<Db>)
    requires Valid(db)
    ensures id !in db.customers ==> r == Err(CustomerNotFound)
    ensures id in db.customers ==>
              var c := PatchCustomer(db.customers[id], patch);
              if CustomerNameTaken(db, c.name) && db.customers[id].name != c.name then r == Err(NameTaken)
              else r.Ok? && r.value.customers == db.customers[id := c]
    ensures r.Ok? ==> Valid(r.value) && OnlyCustomersChange(db, r.value) && r.value.nextId == db.nextId
    ensures r.Ok? && patch.name.None? ==> r.value.customerIndex == db.customerIndex
  {
    if id !in db.customers then Err(CustomerNotFound)
    else
      var was := db.customers[id];
      var c := PatchCustomer(was, patch);
      CustomerLookup(db, c.name);
      assert CustomerListed(db.customers, db.customerIndex, id);
      if c.name in db.customerIndex && db.customerIndex[c.name] != id then Err(NameTaken)
      else
        CustomerStored(db.customers, db.customerIndex, id, c);
        assert patch.name.None? ==> Renamed(db.customerIndex, was.name, c.name, id) == db.customerIndex;
        Ok(db.(customers := db.customers[id := c],
               customerIndex := Renamed(db.customerIndex, was.name, c.name, id)))
  }

  /** updateProduct: Object.assign of the patch onto the stored record. */
  function UpdateProduct(db: Db, id: Id, patch: ProductPatch): (r: Outcome<Db>)
    requires Valid(db)
    ensures id !in db.products ==> r == Err(ProductNotFound)
    ensures id in db.products ==>
              var p := PatchProduct(db.products[id], patch);
              if ProductNameTaken(db, p.name) && db.products[id].name != p.name then r == Err(NameTaken)
              else r.Ok? && r.value.products == db.products[id := p]
    ensures r.Ok? ==> Valid(r.value) && OnlyProductsChange(db, r.value) && r.value.nextId == db.nextId
  {
    if id !in db.products then Err(ProductNotFound)
    else
      var was := db.products[id];
      var p := PatchProduct(was, patch);
      ProductLookup(db, p.name);
      assert ProductListed(db.products, db.productIndex, id);
      if p.name in db.productIndex && db.productIndex[p.name] != id then Err(NameTaken)
      else
        ProductStored(db.products, db.productIndex, id, p);
        Ok(db.(products := db.products[id := p],
                  productIndex := Renamed(db.productIndex, was.name, p.name, id)))
  }

  /** updateProductStock: stock += change, with no lower bound. */
  function UpdateProductStock(db: Db, id: Id, change: int): (r: Outcome<Db>)
    requires Valid(db)
    ensures r.Ok? <==> id in db.products
    ensures r.Err? ==> r.error == ProductNotFound
    ensures r.Ok? ==>
              && Valid(r.value) && OnlyProductsChange(db, r.value)
              && r.value.productIndex == db.productIndex && r.value.nextId == db.nextId
              && r.value.products.Keys == db.products.Keys
              && r.value.products[id] == db.products[id].(stock := db.products[id].stock + change)
              && (forall other :: other in db.products && other != id ==> r.value.products[other] == db.products[other])
  {
    if id !in db.products then Err(ProductNotFound)
    else
      var p := db.products[id];
      ProductsRenamedNone(db.products, db.products[id := p.(stock := p.stock + change)], db.productIndex);
      Ok(db.(products := db.products[id := p.(stock := p.stock + change)]))
  }

  /** A step that resolves with the store it wrote, or rejects and writes nothing. */
  function Committed(db: Db, o: Outcome<Db>): (r: Step<()>)
    ensures r.result.Ok? <==> o.Ok?
    ensures o.Ok? ==> r.db == o.value
    ensures o.Err? ==> r.db == db && r.result.error == o.error
  {
    match o
    case Ok(db') => Step(db', Ok(()))
    case Err(e) => Step(db, Err(e))
  }

  /** The balance step of updateSale and deleteSale: look the customer up among all
      customers and, when found, store its balance plus `amount`; a missing customer is
      skipped. */
  function AdjustBalance(db: Db, id: Id, amount: int): (r: Outcome<Db>)
    requires Valid(db)
    ensures r.Ok? && Valid(r.value) && OnlyCustomersChange(db, r.value) && r.value.nextId == db.nextId
    ensures r.value.customers.Keys == db.customers.Keys
    ensures id in db.customers ==>
              r.value.customers[id] == db.customers[id].(balance := db.customers[id].balance + amount)
    ensures forall other :: other in db.customers && other != id ==> r.value.customers[other] == db.customers[other]
  {
    if id in db.customers then
      UpdateCustomer(db, id, BalancePatch(db.customers[id].balance + amount))
    else Ok(db)
  }

  // ---------------------------------------------------------------------------
  // addSale

  /** The warning addSale attaches when the product, read back by name after the sale,
      is at or below its safety stock; `sold` is the product as resolved before the sale. */
  function LowStockWarning(db: Db, name: string, sold: Product): (r: Option<LowStock>)
    requires Valid(db)
    ensures r.Some? <==> exists id :: id in db.products && db.products[id].name == name
                                      && db.products[id].stock <= db.products[id].safetyStock
    ensures r.Some? ==> ProductNamed(db, name).Some? && r.value.stock == db.products[ProductNamed(db, name).value].stock
  {
    ProductLookup(db, name);
    match ProductNamed(db, name)
    case None => None
    case Some(id) =>
      var p := db.products[id];
      if p.stock <= p.safetyStock then Some(LowStock(sold.name, sold.safetyStock, p.stock)) else None
  }

  /** The store after getOrCreateProduct in addSale, with a newly created product's stock
      set to quantity + NEW_PRODUCT_STOCK_GRANT by updateProduct. */
  function ResolveSoldProduct(db: Db, sale: NewSale): (r: (Outcome<Db>, Id))
    requires Valid(db)
    ensures r.0.Ok? && Valid(r.0.value) && OnlyProductsChange(db, r.0.value)
    ensures r.1 in r.0.value.products && r.0.value.products[r.1].name == sale.productName
    ensures ProductNameTaken(db, sale.productName) ==> r.0.value == db
    ensures !ProductNameTaken(db, sale.productName) ==>
              && r.1 !in db.products && r.0.value.nextId == db.nextId + 1
              && r.0.value.products ==
                   db.products[r.1 := NewProduct(sale.productName, sale.unitPrice).(stock := sale.quantity + NEW_PRODUCT_STOCK_GRANT)]
  {
    var existing := ProductNamed(db, sale.productName);
    var (db1, id) := GetOrCreateProduct(db, sale.productName, sale.unitPrice);
    if existing.None? then
      (UpdateProduct(db1, id, StockPatch(sale.quantity + NEW_PRODUCT_STOCK_GRANT)), id)
    else (Ok(db1), id)
  }

  /** The writes of addSale once the stock check has passed: the record is added under
      the next id, its quantity is taken from the product (updateProductStock) and, when
      unpaid, its total is charged to the customer (updateCustomer of the balance).
      Neither follow-up step can reject here: both records exist and neither is renamed. */
  function Recorded(db: Db, customerId: Id, productId: Id, sale: NewSale, today: string): (r: Db)
    requires Valid(db) && customerId in db.customers && productId in db.products
    ensures Valid(r)
  {
    var customer := db.customers[customerId];
    var product := db.products[productId];
    var total := sale.quantity * sale.unitPrice;
    var customers := if sale.status == UNPAID then db.customers[customerId := customer.(balance := customer.balance + total)]
                     else db.customers;
    var products := db.products[productId := product.(stock := product.stock - sale.quantity)];
    var s := Sale(today, customerId, customer.name, productId, product.name,
                  sale.quantity, sale.unitPrice, total, sale.status, StoredNotes(sale.notes));
    CustomersRenamedNone(db.customers, customers, db.customerIndex);
    ProductsRenamedNone(db.products, products, db.productIndex);
    SalesIssuedPut(db.sales, db.nextId, db.nextId + 1, db.nextId, s);
    db.(customers := customers, products := products, sales := db.sales[db.nextId := s], nextId := db.nextId + 1)
  }

  /** The second half of addSale: the writes of Recorded, then the product read back by
      name for the low-stock warning. */
  function RecordSale(db: Db, customerId: Id, productId: Id, sale: NewSale, today: string): (r: Step<Added>)
    requires Valid(db) && customerId in db.customers && productId in db.products
    ensures Valid(r.db)
  {
    var after := Recorded(db, customerId, productId, sale, today);
    Step(after, Ok(Added(db.nextId, LowStockWarning(after, sale.productName, db.products[productId]))))
  }

  function AddSale(db: Db, sale: NewSale, today: string): (r: Step<Added>)
    requires Valid(db)
    ensures Valid(r.db)
  {
    var (db1, customerId) := GetOrCreateCustomer(db, sale.customerName);
    var (granted, productId) := ResolveSoldProduct(db1, sale);
    match granted
    case Err(e) => Step(db1, Err(e))
    case Ok(db2) =>
      var available := db2.products[productId].stock;
      if available < sale.quantity then Step(db2, Err(InsufficientStock(available)))
      else RecordSale(db2, customerId, productId, sale, today)
  }

  // ---------------------------------------------------------------------------
  // updateSale

  /** The stored sale after updateSale's field patch: customer and product move only when
      their names changed, the other fields whenever present, and the total is recomputed. */
  function EditedSale(was: Sale, patch: SalePatch, customer: Option<(Id, string)>,
                      product: Option<(Id, string)>): (s: Sale)
    ensures s.date == was.date
    ensures s.totalAmount == s.quantity * s.unitPrice
    ensures s.quantity == patch.quantity.GetOr(was.quantity) && s.unitPrice == patch.unitPrice.GetOr(was.unitPrice)
    ensures s.status == patch.status.GetOr(was.status) && s.notes == (if patch.notes.Some? then patch.notes else was.notes)
    ensures customer.None? ==> s.customerId == was.customerId && s.customerName == was.customerName
    ensures product.None? ==> s.productId == was.productId && s.productName == was.productName
    ensures s.customerId == was.customerId || (customer.Some? && s.customerId == customer.value.0)
    ensures s.productId == was.productId || (product.Some? && s.productId == product.value.0)
    ensures ChangesOf(was, patch).customer && customer.Some? ==> (s.customerId, s.customerName) == customer.value
    ensures ChangesOf(was, patch).product && product.Some? ==> (s.productId, s.productName) == product.value
    ensures !ChangesOf(was, patch).customer ==> s.customerId == was.customerId && s.customerName == was.customerName
    ensures !ChangesOf(was, patch).product ==> s.productId == was.productId && s.productName == was.productName
  {
    var changes := ChangesOf(was, patch);
    var (customerId, customerName) := if changes.customer && customer.Some? then customer.value else (was.customerId, was.customerName);
    var (productId, productName) := if changes.product && product.Some? then product.value else (was.productId, was.productName);
    var quantity := patch.quantity.GetOr(was.quantity);
    var unitPrice := patch.unitPrice.GetOr(was.unitPrice);
    Sale(was.date, customerId, customerName, productId, productName, quantity, unitPrice,
         quantity * unitPrice, patch.status.GetOr(was.status),
         if patch.notes.Some? then patch.notes else was.notes)
  }

  /** The balance step of updateSale: take the old total back from the old customer when
      the old status was unpaid, then charge `newTotal` to the new customer when the new
      status is unpaid. */
  function Rebalance(db: Db, was: Sale, newCustomerId: Id, newStatus: string, newTotal: int): (r: Outcome<Db>)
    requires Valid(db)
    ensures r.Ok? && Valid(r.value) && OnlyCustomersChange(db, r.value) && r.value.nextId == db.nextId
    ensures r.value.customers.Keys == db.customers.Keys
    ensures forall c :: c in db.customers ==>
              r.value.customers[c] == db.customers[c].(balance := db.customers[c].balance
                - (if c == was.customerId && was.status == UNPAID then was.totalAmount else 0)
                + (if c == newCustomerId && newStatus == UNPAID then newTotal else 0))
  {
    var refunded := if was.status == UNPAID then AdjustBalance(db, was.customerId, -was.totalAmount) else Ok(db);
    match refunded
    case Err(e) => Err(e)
    case Ok(db1) => if newStatus == UNPAID then AdjustBalance(db1, newCustomerId, newTotal) else Ok(db1)
  }

  /** Which of the fields updateSale compares against the stored sale were changed. */
  datatype Changes = Changes(customer: bool, product: bool, quantity: bool, status: bool, price: bool)

  function ChangesOf(was: Sale, patch: SalePatch): Changes
  {
    Changes(patch.customerName.Some? && patch.customerName.value != was.customerName,
            patch.productName.Some? && patch.productName.value != was.productName,
            patch.quantity.Some? && patch.quantity.value != was.quantity,
            patch.status.Some? && patch.status.value != was.status,
            patch.unitPrice.Some? && patch.unitPrice.value != was.unitPrice)
  }

  /** Customer of the edited sale: getOrCreateCustomer of the new name when it changed. */
  function ResolveEditedCustomer(db: Db, was: Sale, patch: SalePatch): (r: (Db, Option<(Id, string)>))
    requires Valid(db)
    ensures Valid(r.0) && OnlyCustomersChange(db, r.0) && db.customers.Keys <= r.0.customers.Keys
    ensures forall c :: c in db.customers ==> r.0.customers[c] == db.customers[c]
    ensures r.1.Some? <==> ChangesOf(was, patch).customer
    ensures r.1.Some? ==> r.1.value.0 in r.0.customers && r.0.customers[r.1.value.0].name == r.1.value.1
                          && r.1.value.1 == patch.customerName.value
    ensures r.1.None? ==> r.0 == db
    ensures r.0.nextId >= db.nextId
  {
    if ChangesOf(was, patch).customer then
      var (db1, id) := GetOrCreateCustomer(db, patch.customerName.value);
      (db1, Some((id, db1.customers[id].name)))
    else (db, None)
  }

  /** Product of the edited sale: getOrCreateProduct of the new name when it changed,
      priced `updates.unit_price || old.unit_price` if it is created. */
  function ResolveEditedProduct(db: Db, was: Sale, patch: SalePatch): (r: (Db, Option<(Id, string)>))
    requires Valid(db)
    ensures Valid(r.0) && OnlyProductsChange(db, r.0) && db.products.Keys <= r.0.products.Keys
    ensures forall p :: p in db.products ==> r.0.products[p] == db.products[p]
    ensures r.1.Some? <==> ChangesOf(was, patch).product
    ensures r.1.Some? ==> r.1.value.0 in r.0.products && r.0.products[r.1.value.0].name == r.1.value.1
                          && r.1.value.1 == patch.productName.value
    ensures r.1.Some? && !ProductNameTaken(db, r.1.value.1) ==>
              r.1.value.0 !in db.products
              && r.0.products[r.1.value.0] == NewProduct(r.1.value.1, NumberOr(patch.unitPrice, was.unitPrice))
    ensures r.1.None? ==> r.0 == db
    ensures r.0.nextId >= db.nextId
  {
    if ChangesOf(was, patch).product then
      var (db1, id) := GetOrCreateProduct(db, patch.productName.value, NumberOr(patch.unitPrice, was.unitPrice));
      (db1, Some((id, db1.products[id].name)))
    else (db, None)
  }

  /** The stock steps of updateSale: give the old quantity back to the old product and
      take `updates.quantity || old.quantity` from the new one when the product changed,
      or move the old product by old - new when only the quantity changed. */
  function RestoreStock(db: Db, was: Sale, patch: SalePatch, newProduct: Option<(Id, string)>): (r: Outcome<Db>)
    requires Valid(db)
    requires newProduct.Some? ==> newProduct.value.0 in db.products
    ensures r.Ok? ==> Valid(r.value) && OnlyProductsChange(db, r.value) && r.value.nextId == db.nextId
                      && r.value.productIndex == db.productIndex
  {
    var changes := ChangesOf(was, patch);
    var restored := if changes.product then UpdateProductStock(db, was.productId, was.quantity)
                    else if changes.quantity then UpdateProductStock(db, was.productId, was.quantity - patch.quantity.value)
                    else Ok(db);
    match restored
    case Err(e) => Err(e)
    case Ok(db1) =>
      if changes.product && newProduct.Some? then
        UpdateProductStock(db1, newProduct.value.0, -NumberOr(patch.quantity, was.quantity))
      else Ok(db1)
  }

  /** `put` of a sale record under an id the counter has issued. */
  function PutSale(db: Db, id: Id, s: Sale): (r: Db)
    requires Valid(db) && id < db.nextId && s.customerId < db.nextId && s.productId < db.nextId
    requires s.totalAmount == s.quantity * s.unitPrice
    ensures Valid(r) && r.sales == db.sales[id := s]
    ensures r.customers == db.customers && r.products == db.products && r.nextId == db.nextId
  {
    SalesIssuedPut(db.sales, db.nextId, db.nextId, id, s);
    db.(sales := db.sales[id := s])
  }

  function UpdateSale(db: Db, id: Id, patch: SalePatch): (r: Step<()>)
    requires Valid(db)
    ensures Valid(r.db)
  {
    if id !in db.sales then Step(db, Err(SaleNotFound))
    else
      var was := db.sales[id];
      assert SaleIssued(db.sales, db.nextId, id);
      var changes := ChangesOf(was, patch);
      var (db1, newCustomer) := ResolveEditedCustomer(db, was, patch);
      var (db2, newProduct) := ResolveEditedProduct(db1, was, patch);
      match RestoreStock(db2, was, patch, newProduct)
      case Err(e) => Step(db2, Err(e))
      case Ok(db3) =>
        var rebalanced :=
          if changes.customer || changes.status || changes.price || changes.quantity then
            Rebalance(db3, was,
                      if newCustomer.Some? then newCustomer.value.0 else was.customerId,
                      StringOr(patch.status, was.status),
                      NumberOr(patch.quantity, was.quantity) * NumberOr(patch.unitPrice, was.unitPrice))
          else Ok(db3);
        match rebalanced
        case Err(e) => Step(db3, Err(e))
        case Ok(db4) =>
          var edited := EditedSale(was, patch, newCustomer, newProduct);
          assert edited.customerId < db4.nextId && edited.productId < db4.nextId by {
            assert db4.nextId == db3.nextId == db2.nextId >= db1.nextId >= db.nextId;
            assert newCustomer.Some? ==> newCustomer.value.0 in db2.customers;
          }
          Step(PutSale(db4, id, edited), Ok(()))
  }

  // ---------------------------------------------------------------------------
  // deleteSale

  function DeleteSale(db: Db, id: Id): (r: Step<()>)
    requires Valid(db)
    ensures Valid(r.db)
  {
    if id !in db.sales then Step(db, Err(SaleNotFound))
    else
      var sale := db.sales[id];
      match UpdateProductStock(db, sale.productId, sale.quantity)
      case Err(e) => Step(db, Err(e))
      case Ok(db1) =>
        var refunded := if sale.status == UNPAID then AdjustBalance(db1, sale.customerId, -sale.totalAmount) else Ok(db1);
        match refunded
        case Err(e) => Step(db1, Err(e))
        case Ok(db2) =>
          SalesIssuedRemove(db2.sales, db2.nextId, id);
          Step(db2.(sales := db2.sales - {id}), Ok(()))
  }

  // ---------------------------------------------------------------------------
  // Balances as derived from sales (resetAllBalances)

  /** What sale `s` adds to the balance of customer `c`. */
  function Owed(s: Sale, c: Id): int {
    if s.customerId == c && s.status == UNPAID then s.totalAmount else 0
  }

  /** The sum of Owed over the sales with the given ids. */
  ghost function UnpaidOver(sales: map<Id, Sale>, ids: set<Id>, c: Id): int
    requires ids <= sales.Keys
    decreases ids
  {
    if ids == {} then 0
    else
      var k :| k in ids;
      Owed(sales[k], c) + UnpaidOver(sales, ids - {k}, c)
  }

  /** The sum of total_amount over the unpaid sales of customer `c`; 0 when it has none. */
  ghost function UnpaidTotal(sales: map<Id, Sale>, c: Id): int {
    UnpaidOver(sales, sales.Keys, c)
  }

  /** UnpaidOver does not depend on which id it picks first. */
  lemma {:induction false} UnpaidOverPick(sales: map<Id, Sale>, ids: set<Id>, k: Id, c: Id)
    requires ids <= sales.Keys && k in ids
    ensures UnpaidOver(sales, ids, c) == Owed(sales[k], c) + UnpaidOver(sales, ids - {k}, c)
    decreases ids
  {
    var j :| j in ids && UnpaidOver(sales, ids, c) == Owed(sales[j], c) + UnpaidOver(sales, ids - {j}, c);
    if j != k {
      UnpaidOverPick(sales, ids - {j}, k, c);
      UnpaidOverPick(sales, ids - {k}, j, c);
      assert ids - {j} - {k} == ids - {k} - {j};
    }
  }

  /** UnpaidOver only looks at what each sale owes `c`. */
  lemma {:induction false} UnpaidOverFrame(sales: map<Id, Sale>, sales': map<Id, Sale>, ids: set<Id>, c: Id)
    requires ids <= sales.Keys && ids <= sales'.Keys
    requires forall k :: k in ids ==> Owed(sales[k], c) == Owed(sales'[k], c)
    ensures UnpaidOver(sales, ids, c) == UnpaidOver(sales', ids, c)
    decreases ids
  {
    if ids != {} {
      var k :| k in ids;
      UnpaidOverPick(sales, ids, k, c);
      UnpaidOverPick(sales', ids, k, c);
      UnpaidOverFrame(sales, sales', ids - {k}, c);
    }
  }

  /** Sales that owe `c` nothing add up to nothing. */
  lemma {:induction false} UnpaidOverNothingOwed(sales: map<Id, Sale>, ids: set<Id>, c: Id)
    requires ids <= sales.Keys
    requires forall k :: k in ids ==> Owed(sales[k], c) == 0
    ensures UnpaidOver(sales, ids, c) == 0
    decreases ids
  {
    if ids != {} {
      var k :| k in ids;
      UnpaidOverPick(sales, ids, k, c);
      UnpaidOverNothingOwed(sales, ids - {k}, c);
    }
  }

  /** Writing sale `s` under id `k` moves the unpaid total of every customer by what the
      new record owes minus what the record it replaces owed. */
  lemma {:induction false} UnpaidTotalPut(sales: map<Id, Sale>, k: Id, s: Sale, c: Id)
    ensures UnpaidTotal(sales[k := s], c)
            == UnpaidTotal(sales, c) - (if k in sales then Owed(sales[k], c) else 0) + Owed(s, c)
  {
    var sales' := sales[k := s];
    var rest := sales.Keys - {k};
    UnpaidOverPick(sales', sales'.Keys, k, c);
    assert sales'.Keys - {k} == rest;
    UnpaidOverFrame(sales', sales, rest, c);
    if k in sales {
      UnpaidOverPick(sales, sales.Keys, k, c);
    } else {
      assert sales.Keys == rest;
    }
  }

  /** Deleting sale `k` takes what it owed off every customer's unpaid total. */
  lemma {:induction false} UnpaidTotalDelete(sales: map<Id, Sale>, k: Id, c: Id)
    requires k in sales
    ensures UnpaidTotal(sales - {k}, c) == UnpaidTotal(sales, c) - Owed(sales[k], c)
  {
    var rest := sales - {k};
    assert rest.Keys == sales.Keys - {k};
    UnpaidOverPick(sales, sales.Keys, k, c);
    UnpaidOverFrame(rest, sales, rest.Keys, c);
  }

  /** A customer that no unpaid sale refers to has an unpaid total of 0. */
  lemma {:induction false} UnpaidTotalUnreferenced(sales: map<Id, Sale>, c: Id)
    requires forall k :: k in sales ==> sales[k].customerId != c || sales[k].status != UNPAID
    ensures UnpaidTotal(sales, c) == 0
  {
    UnpaidOverNothingOwed(sales, sales.Keys, c);
  }

  /** Every customer's balance is what its unpaid sales add up to. */
  ghost predicate Consistent(db: Db) {
    forall c :: c in db.customers ==> db.customers[c].balance == UnpaidTotal(db.sales, c)
  }

  /** The customers that some unpaid sale among `ids` refers to: the keys of the balance
      map resetAllBalances builds. */
  ghost function DebtorsIn(sales: map<Id, Sale>, ids: set<Id>): set<Id> {
    set k | k in ids && k in sales && sales[k].status == UNPAID :: sales[k].customerId
  }

  ghost function Debtors(sales: map<Id, Sale>): set<Id> {
    DebtorsIn(sales, sales.Keys)
  }

  /** The balance map resetAllBalances builds from the sales with the given ids. */
  ghost function Tally(sales: map<Id, Sale>, ids: set<Id>): map<Id, int>
    requires ids <= sales.Keys
  {
    map c | c in DebtorsIn(sales, ids) :: UnpaidOver(sales, ids, c)
  }

  /** A customer no unpaid sale among `ids` refers to is owed nothing by them. */
  lemma {:induction false} UnpaidOverNotDebtor(sales: map<Id, Sale>, ids: set<Id>, c: Id)
    requires ids <= sales.Keys && c !in DebtorsIn(sales, ids)
    ensures UnpaidOver(sales, ids, c) == 0
  {
    forall k | k in ids ensures Owed(sales[k], c) == 0 {
      if sales[k].status == UNPAID {
        assert sales[k].customerId in DebtorsIn(sales, ids);
      }
    }
    UnpaidOverNothingOwed(sales, ids, c);
  }

  /** Adding sale `k` to the ids adds its customer to the debtors when it is unpaid. */
  lemma {:induction false} DebtorsInAdd(sales: map<Id, Sale>, ids: set<Id>, k: Id)
    requires k in sales
    ensures DebtorsIn(sales, ids + {k}) == DebtorsIn(sales, ids) + (if sales[k].status == UNPAID then {sales[k].customerId} else {})
  {
    var s := sales[k];
    if s.status == UNPAID {
      assert s.customerId in DebtorsIn(sales, ids + {k});
    }
  }

  /** The entry of customer `c` after folding in sale `k`: what `k` owes `c` on top of
      what the other ids owe. */
  lemma {:induction false} TallyAddEntry(sales: map<Id, Sale>, ids: set<Id>, k: Id, c: Id)
    requires ids <= sales.Keys && k in sales && k !in ids
    ensures UnpaidOver(sales, ids + {k}, c) ==
              Owed(sales[k], c) + (if c in DebtorsIn(sales, ids) then UnpaidOver(sales, ids, c) else 0)
  {
    assert (ids + {k}) - {k} == ids;
    UnpaidOverPick(sales, ids + {k}, k, c);
    if c !in DebtorsIn(sales, ids) {
      UnpaidOverNotDebtor(sales, ids, c);
    }
  }

  /** Folding sale `k` into the balance map: an unpaid sale adds its total to the entry of
      its customer (`balanceMap.get(id) || 0` when there is none yet); any other sale
      leaves the map as it was. */
  lemma {:induction false} TallyAdd(sales: map<Id, Sale>, ids: set<Id>, k: Id)
    requires ids <= sales.Keys && k in sales && k !in ids
    ensures var t := Tally(sales, ids);
            var c := sales[k].customerId;
            Tally(sales, ids + {k}) ==
              if sales[k].status == UNPAID then t[c := (if c in t then t[c] else 0) + sales[k].totalAmount] else t
  {
    var t := Tally(sales, ids);
    var ids' := ids + {k};
    var s := sales[k];
    var expected := if s.status == UNPAID then t[s.customerId := (if s.customerId in t then t[s.customerId] else 0) + s.totalAmount] else t;
    DebtorsInAdd(sales, ids, k);
    forall c | c in DebtorsIn(sales, ids')
      ensures Tally(sales, ids')[c] == expected[c]
    {
      TallyAddEntry(sales, ids, k, c);
    }
    assert Tally(sales, ids').Keys == expected.Keys;
  }

  /** A balance map entry per customer: the stored customers with each balance replaced by
      its entry in `balances`, or 0 when it has none. */
  ghost function WithBalances(customers: map<Id, Customer>, balances: map<Id, int>): (r: map<Id, Customer>)
    ensures r.Keys == customers.Keys
  {
    map c | c in customers :: customers[c].(balance := if c in balances then balances[c] else 0)
  }

  /** The store resetAllBalances produces when it succeeds. */
  ghost function Reconciled(db: Db): (r: Db)
    requires Valid(db)
    ensures Valid(r) && OnlyCustomersChange(db, r) && r.nextId == db.nextId
    ensures r.customers.Keys == db.customers.Keys
    ensures forall c :: c in db.customers ==> r.customers[c] == db.customers[c].(balance := UnpaidTotal(db.sales, c))
  {
    var customers := map c | c in db.customers :: db.customers[c].(balance := UnpaidTotal(db.sales, c));
    CustomersRenamedNone(db.customers, customers, db.customerIndex);
    db.(customers := customers)
  }

  /** The balances resetAllBalances writes are the unpaid totals. */
  lemma {:induction false} ReconciledByTally(db: Db)
    requires Valid(db)
    ensures Reconciled(db).customers == WithBalances(db.customers, Tally(db.sales, db.sales.Keys))
  {
    var t := Tally(db.sales, db.sales.Keys);
    forall c | c in db.customers
      ensures Reconciled(db).customers[c] == WithBalances(db.customers, t)[c]
    {
      if c !in t {
        UnpaidOverNotDebtor(db.sales, db.sales.Keys, c);
      }
    }
  }
}
