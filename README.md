# Rice sales ledger, modelled in Dafny

This project models the bookkeeping core of a small rice-shop sales application: the
IndexedDB store of `services/database.ts` with its customers, products and sales, the
page-number window of `components/Pagination.tsx`, and the two sale-entry forms,
`components/AddSaleModal.tsx` (one item, with "frequently used" name lists) and
`components/AddMultiItemSaleModal.tsx` (several line items).

- `wrappers.dfy` (`Wrappers`): `Option` and `Result`.
- `ledger.dfy` (`Ledger`): the store as a value `Db`. It holds three maps keyed by id,
  one per object store. It holds the two unique `name` indexes as maps from name to id.
  It holds one counter for fresh ids. `Valid` is the store invariant:
  - the indexes agree with the records;
  - every id was issued by the counter;
  - every sale's total is quantity times unit price.

  Every operation modelled here is a function from the store before to the
  store after, together with what the operation resolves or rejects with. The source runs
  each step in a transaction of its own, so a rejection half-way keeps the steps before
  it. The functions return that partial store.
- `store.dfy` (`Database`): the same store as a class `Store` whose fields the methods
  update step by step, as the source updates IndexedDB. Each method is proved to leave
  exactly the store its `Ledger` function describes. Most share that function's name.
  The exceptions are `GetProductByName` (`ProductNamed`), `WriteSale` (`Recorded`),
  `EditRecord` (`EditedSale`) and `TallyUnpaid` (`Tally`). `ResetAllBalances`,
  `ZeroBalances` and `WriteBalances` have no `Ledger` function: a successful reset
  leaves `Reconciled`, and a failed one is only bounded. The three loops of
  `resetAllBalances` are loops with invariants.
- `ledger_facts.dfy` (`LedgerFacts`): what each sale operation does to stock and
  balances, the add-then-delete round trip, and how balances kept incrementally relate to
  the recomputation of `resetAllBalances`. `Consistent` means every balance equals the sum
  of the totals of the customer's unpaid ('미결제') sales. `addSale` and `deleteSale`
  preserve it. `updateSale` preserves it when the patch sets no quantity or price to 0
  and no status to the empty string. Otherwise it need not: the balance step reads the
  patch through JavaScript `||`, while the stored record takes the patched value as is.
  The balance can drift only when the old status or the status the balance step reads
  is unpaid. A quantity of 0 on a sale that is paid before and after, for instance,
  charges and refunds nothing and stores a total that no unpaid sum counts.
  `ZeroPriceEditDrifts` exhibits a store where a price edit to 0 leaves the customer
  owing 2000 while its sales add up to 0. The sale edit form
  (`components/EditSaleModal.tsx`) reaches exactly that patch: it always sends
  `unit_price`, and clearing the price field makes it `parseInt('') || 0`, that is 0.
  The form refuses a quantity below 1, so only the price path is open from the form.
- `pagination.dfy` (`Pagination`): `getPageNumbers` behind the `totalPages <= 1` early
  exit.
- `text.dfy` (`JsText`): the JavaScript built-ins the forms use: `trim`, `parseInt` with
  no radix, and `replace(/[^0-9]/g, '')`.
- `sale_form.dfy` (`SaleForm`): the most-recently-used name lists (at most 10) kept in
  localStorage, and the checks `handleSubmit` makes before calling `addSale`.
- `multi_item_form.dfy` (`MultiItemForm`): `addItem`, `removeItem`, `updateItem`,
  `getTotalAmount`, and the validation loop of `handleSubmit`.

## Model

| member | source | states |
|---|---|---|
| Ledger.CustomerNamed | services/database.ts:116-121 | the name index finds a customer exactly when one has that name, and it is that customer |
| Ledger.ProductNamed | services/database.ts:192-203 | getProductByName finds a product exactly when one has that name, and it is that product |
| Ledger.NewProduct | services/database.ts:242-250 | a created product: category 백미, stock 0, safety stock 10, price `unitPrice \|\| 45000`, cost `floor(0.85 * price)` or 39000 |
| Ledger.GetOrCreateCustomer | services/database.ts:111-138 | an existing name returns its customer and writes nothing; a new name adds a customer with balance 0 under a fresh id; only the customer store changes |
| Ledger.GetOrCreateProduct | services/database.ts:230-258 | an existing name returns its product and writes nothing; a new name adds NewProduct under a fresh id; only the product store changes |
| Ledger.UpdateCustomer | services/database.ts:140-165 | an unknown id rejects with 'Customer not found'; a rename onto another customer's name is refused by the unique index; otherwise the patch is merged into the record and nothing else changes |
| Ledger.UpdateProduct | services/database.ts:282-309 | an unknown id rejects with 'Product not found'; a rename onto another product's name is refused; otherwise the patch is merged and nothing else changes |
| Ledger.UpdateProductStock | services/database.ts:260-280 | succeeds exactly when the product exists; adds the change to its stock with no lower bound and leaves every other product alone |
| Ledger.AdjustBalance | services/database.ts:491-495 | a customer found among all customers gets balance plus amount; a missing one is skipped; every other customer is unchanged |
| Ledger.LowStockWarning | services/database.ts:409-419 | a warning exactly when the product read back by name is at or below its safety stock, carrying that stock |
| Ledger.ResolveSoldProduct | services/database.ts:354-366 | an existing product is used as is; a new name is created and its stock set to quantity + 50 |
| Ledger.Recorded | services/database.ts:389-407 | the writes after the stock check keep the store invariant |
| Ledger.RecordSale | services/database.ts:389-419 | the writes after the stock check, then the low-stock warning, keep the store invariant |
| Ledger.AddSale | services/database.ts:341-424 | addSale keeps the store invariant on every path |
| Ledger.EditedSale | services/database.ts:508-522 | the stored record after an edit: customer and product, id and name, are the resolved ones exactly when their names changed and are kept otherwise; quantity, price, status and notes are taken when present; the total is recomputed |
| Ledger.ResolveEditedCustomer | services/database.ts:458-461 | getOrCreateCustomer runs exactly when the customer name changed; otherwise the store is untouched |
| Ledger.ResolveEditedProduct | services/database.ts:463-467 | getOrCreateProduct runs exactly when the product name changed, priced `updates.unit_price \|\| old.unit_price` if it is created |
| Ledger.RestoreStock | services/database.ts:469-480 | the stock steps of updateSale keep the invariant and change only product stock |
| Ledger.Rebalance | services/database.ts:483-506 | takes the old total back from the old customer when the old status was unpaid, and charges the new total to the new customer when the new status is unpaid |
| Ledger.PutSale | services/database.ts:524-531 | `put` replaces the sale under its id and changes nothing else |
| Ledger.UpdateSale | services/database.ts:426-535 | updateSale keeps the store invariant on every path |
| Ledger.DeleteSale | services/database.ts:537-578 | deleteSale keeps the store invariant on every path |
| Ledger.UnpaidTotalPut | services/database.ts:590-599 | replacing a sale moves a customer's unpaid total by what the new record owes minus what the old one owed |
| Ledger.UnpaidTotalDelete | services/database.ts:590-599 | deleting a sale takes what it owed off its customer's unpaid total |
| Ledger.TallyAdd | services/database.ts:594-599 | folding one sale into the balance map adds an unpaid total to its customer's entry (`get(id) \|\| 0` when absent) and leaves the map alone otherwise |
| Ledger.Reconciled | services/database.ts:581-607 | after resetAllBalances every customer keeps its fields except the balance, which is its unpaid total |
| Ledger.ReconciledByTally | services/database.ts:586-604 | zeroing all balances and then writing the balance map gives exactly the unpaid totals |
| Database.Store.constructor | services/database.ts:36-44 | a store with no customers, products or sales, valid and consistent |
| Database.Store.GetProductByName | services/database.ts:192-203 | reads the product index as ProductNamed does |
| Database.Store.GetOrCreateCustomer | services/database.ts:111-138 | the new state and id are those of Ledger.GetOrCreateCustomer |
| Database.Store.GetOrCreateProduct | services/database.ts:230-258 | the new state and id are those of Ledger.GetOrCreateProduct |
| Database.Store.UpdateCustomer | services/database.ts:140-165 | the new state and outcome are those of Ledger.UpdateCustomer; a rejection writes nothing |
| Database.Store.UpdateProduct | services/database.ts:282-309 | the new state and outcome are those of Ledger.UpdateProduct; a rejection writes nothing |
| Database.Store.UpdateProductStock | services/database.ts:260-280 | the new state and outcome are those of Ledger.UpdateProductStock |
| Database.Store.AdjustBalance | services/database.ts:491-495 | the new state is that of Ledger.AdjustBalance |
| Database.Store.AddSale | services/database.ts:341-424 | the new state and outcome are those of Ledger.AddSale, partial writes included |
| Database.Store.RecordSale | services/database.ts:389-419 | the new state and outcome are those of Ledger.RecordSale |
| Database.Store.WriteSale | services/database.ts:389-407 | the new state is Ledger.Recorded, and the id returned is the counter before the call |
| Database.Store.UpdateSale | services/database.ts:426-535 | the new state and outcome are those of Ledger.UpdateSale, partial writes included |
| Database.Store.ResolveEditedCustomer | services/database.ts:458-461 | the new state and customer are those of Ledger.ResolveEditedCustomer |
| Database.Store.ResolveEditedProduct | services/database.ts:463-467 | the new state and product are those of Ledger.ResolveEditedProduct |
| Database.Store.RestoreStock | services/database.ts:469-480 | the new state and outcome are those of Ledger.RestoreStock |
| Database.Store.Rebalance | services/database.ts:483-506 | the new state is that of Ledger.Rebalance |
| Database.Store.EditRecord | services/database.ts:508-522 | overwriting the fields one by one yields Ledger.EditedSale |
| Database.Store.DeleteSale | services/database.ts:537-578 | the new state and outcome are those of Ledger.DeleteSale |
| Database.Store.ResetAllBalances | services/database.ts:581-607 | only balances change; it succeeds exactly when every customer an unpaid sale names exists, and then the store is Ledger.Reconciled; on failure every balance is 0 or its unpaid total |
| Database.Store.ZeroBalances | services/database.ts:586-589 | every customer's balance is 0 and nothing else changes |
| Database.Store.WriteBalances | services/database.ts:601-604 | each customer in the map gets its entry as balance; it fails exactly when an entry names a missing customer; nothing else changes |
| Database.TallyUnpaid | services/database.ts:591-599 | the loop builds Ledger.Tally of all sales: per customer with an unpaid sale, the sum of their totals |
| LedgerFacts.GetOrCreateCustomerKeepsConsistent | services/database.ts:123-131 | a created customer starts at balance 0 and no sale refers to it, so balances still equal unpaid totals |
| LedgerFacts.RecordedKeepsConsistent | services/database.ts:401-407 | the writes of addSale charge the customer exactly what the new sale owes |
| LedgerFacts.AddSaleKeepsConsistent | services/database.ts:341-424 | addSale keeps every balance equal to its unpaid total, on success and on the insufficient-stock rejection |
| LedgerFacts.DeleteSaleKeepsConsistent | services/database.ts:554-571 | deleteSale keeps every balance equal to its unpaid total |
| LedgerFacts.ReconcileConsistent | services/database.ts:581-607 | on a consistent store a successful resetAllBalances changes nothing |
| LedgerFacts.ReconcileIdempotent | services/database.ts:581-607 | after a successful resetAllBalances the store is consistent, and a second run then succeeds and changes nothing |
| LedgerFacts.BeforeSale | services/database.ts:351-366 | the store addSale checks the stock against has the sale's customer and product under their names |
| LedgerFacts.AddSaleChecksStock | services/database.ts:368-372 | addSale rejects exactly when the resolved product holds less than the quantity; the rejection reports that stock and writes no sale |
| LedgerFacts.AddSaleRejectsShortStock | services/database.ts:352-372 | for a stored product with too little stock, the result is the store after getOrCreateCustomer and the insufficient-stock error |
| LedgerFacts.AddSaleNewProductPasses | services/database.ts:360-419 | a new product name always passes the stock check, is left holding exactly the grant of 50, and gets no warning |
| LedgerFacts.RecordedWrites | services/database.ts:374-407 | the new sale goes under a fresh id with total quantity × price, its product loses the quantity, and its customer is charged exactly when unpaid; every other record is unchanged |
| LedgerFacts.AddSaleRecords | services/database.ts:374-419 | a successful addSale returns the new id, writes RecordedWrites, and warns exactly when the product is at or below its safety stock |
| LedgerFacts.RecordedThenDelete | services/database.ts:537-578 | deleting the sale just recorded restores every store except the id counter |
| LedgerFacts.AddThenDelete | services/database.ts:537-578 | deleteSale after addSale gives back the store addSale checked, with one id used up; when both names existed, that is the original store |
| LedgerFacts.DeleteSaleOutcome | services/database.ts:537-578 | an unknown id or a sale whose product is gone rejects without writing; otherwise the sale goes, its product gets its quantity back, and its customer loses what the sale owed |
| LedgerFacts.BeforeEdit | services/database.ts:457-467 | the store updateSale moves stock and balances in: changed names resolved (and created), everything already stored kept |
| LedgerFacts.RestoreStockMoves | services/database.ts:469-480 | the stock steps move each product as EditStockMove says, and fail only when they need the old product and it is gone |
| LedgerFacts.EditRebalanced | services/database.ts:483-506 | the balance steps move each customer as EditBalanceMove says and touch nothing else |
| LedgerFacts.UpdateSaleShape | services/database.ts:426-535 | updateSale is the resolution of the names, then the stock steps (the only step that can reject), then the balance steps, then the put |
| LedgerFacts.UpdateSaleMovesStock | services/database.ts:446-480 | an unknown id rejects without writing; a needed product that is gone rejects after the names are resolved; otherwise stock moves as EditStockMove says, with no check that enough is left |
| LedgerFacts.UpdateSaleMovesBalances | services/database.ts:483-506 | on success every balance moves as EditBalanceMove says |
| LedgerFacts.UpdateSaleStoresEdit | services/database.ts:508-528 | on success the edited record is stored under the same id, with the resolved ids, the patched names when they changed (else the old ones), and the patched fields; the other sales are unchanged |
| LedgerFacts.UpdateSaleOnlyNotes | services/database.ts:483-522 | a patch that changes none of customer, product, quantity, status or price moves no stock or balance and stores only the notes |
| LedgerFacts.EditOwed | services/database.ts:487-522 | with a truthy patch, what the balance step moves for a customer is what the stored record owes minus what the old one owed |
| LedgerFacts.EditedBalancesAgree | services/database.ts:483-522 | balances that agreed with the sales still agree after the balance step and the put |
| LedgerFacts.EditKeepsConsistent | services/database.ts:483-528 | a successful truthy edit keeps balances equal to unpaid totals |
| LedgerFacts.UpdateSaleKeepsConsistent | services/database.ts:426-535 | updateSale with a truthy patch keeps every balance equal to its unpaid total |
| LedgerFacts.ZeroPriceChanges | services/database.ts:451-455 | the zero-price patch changes only the price, and resolves no name |
| LedgerFacts.ZeroPriceEditSucceeds | services/database.ts:469-480 | a zero-price edit needs no stock move and succeeds |
| LedgerFacts.ZeroPriceEditKeepsBalances | services/database.ts:483-506 | on an unpaid sale, the zero-price edit charges back `quantity * (0 \|\| old price)`, the old total, so no customer changes |
| LedgerFacts.ZeroPriceEditStores | services/database.ts:517-528 | the zero-price edit stores the sale with price and total 0 and leaves the other sales alone |
| LedgerFacts.ZeroPriceEditKeepsCharge | services/database.ts:483-522 | after a zero-price edit of an unpaid sale the balance is unchanged while the unpaid total drops by the old total |
| LedgerFacts.ZeroPriceEditDrifts | services/database.ts:483-522 | a concrete consistent store that the zero-price edit leaves inconsistent: balance 2000, unpaid total 0 |
| Pagination.Window | components/Pagination.tsx:20-28 | the window starts at page 1 or later and ends at the last page or earlier |
| Pagination.Pages | components/Pagination.tsx:16-35 | never more pages than exist, and every page shown is between 1 and the last page |
| Pagination.PageNumbers | components/Pagination.tsx:16-35 | the loop pushes exactly Pages: nothing for at most one page, else the window |
| Pagination.PagesInRange | components/Pagination.tsx:18-35 | every page shown exists, and the pages are consecutive and increasing |
| Pagination.PagesCount | components/Pagination.tsx:16-35 | with at least two pages and a positive window, exactly min(maxVisible, total) pages; none otherwise |
| Pagination.PagesShowCurrent | components/Pagination.tsx:20-28 | an existing current page is always among those shown |
| Pagination.PagesCentred | components/Pagination.tsx:20-23 | away from both ends the window starts floor(maxVisible / 2) pages before the current page |
| JsText.TrimStartDrops | components/AddSaleModal.tsx:132 | the leading part trim removes is white space; the rest is a suffix that does not start with white space |
| JsText.TrimEndDrops | components/AddSaleModal.tsx:132 | the trailing part trim removes is white space; the rest is a prefix that does not end with white space |
| JsText.BlankIffAllSpace | components/AddSaleModal.tsx:107 | `!s.trim()` holds exactly when s is all white space |
| JsText.TrimIsInnerSlice | components/AddSaleModal.tsx:132 | `s.trim()` is a slice of s that neither starts nor ends with white space |
| JsText.DecimalDigits | components/AddMultiItemSaleModal.tsx:60 | `String(n)` is a non-empty string of decimal digits |
| JsText.DecimalValue | components/AddMultiItemSaleModal.tsx:60 | reading the digits of `String(n)` gives n back |
| JsText.AllDigitsLead | components/AddMultiItemSaleModal.tsx:60 | a string of decimal digits is its own longest run of digits |
| JsText.ParseDigits | components/AddMultiItemSaleModal.tsx:60 | parseInt reads a string of decimal digits as its value |
| JsText.ParseNegatedDigits | components/AddMultiItemSaleModal.tsx:60 | parseInt reads '-' followed by digits as the negated value |
| JsText.ParseDecimal | components/AddMultiItemSaleModal.tsx:60 | `parseInt(String(n)) == n` |
| JsText.ParseNegatedDecimal | components/AddMultiItemSaleModal.tsx:60 | `parseInt('-' + String(n)) == -n` |
| JsText.DigitsOnlyAreDigits | components/AddMultiItemSaleModal.tsx:62 | only decimal digits survive the replacement, and the result is no longer than the input |
| JsText.DigitsOnlyKeepsDigits | components/AddMultiItemSaleModal.tsx:62 | the replacement leaves a string of digits unchanged, so it is idempotent |
| JsText.DigitsOnlyKeepsEveryDigit | components/AddMultiItemSaleModal.tsx:62 | a character survives exactly when it is a decimal digit of the input |
| SaleForm.Without | components/AddSaleModal.tsx:73 | the filter drops exactly the occurrences of the name and keeps every other name |
| SaleForm.WithoutAppend | components/AddSaleModal.tsx:73 | filtering distributes over concatenation, so order is kept |
| SaleForm.WithoutAbsent | components/AddSaleModal.tsx:73 | filtering a list without the name leaves it unchanged |
| SaleForm.WithoutDistinct | components/AddSaleModal.tsx:73 | filtering keeps a list free of repeats |
| SaleForm.Tracked | components/AddSaleModal.tsx:66-96 | a blank name leaves the list alone; otherwise the list is non-empty, holds at most 10 names, and starts with the name |
| SaleForm.TrackedFront | components/AddSaleModal.tsx:66-80 | a blank name leaves the list alone; otherwise the name is first and nowhere else, the length is min(10, 1 + the others), and the rest is the old order |
| SaleForm.TrackedDistinct | components/AddSaleModal.tsx:66-80 | tracking keeps the list free of repeats; re-tracking a name already present (under the limit) keeps the same set of names |
| SaleForm.FrequentList.constructor | components/AddSaleModal.tsx:69-70 | the list as read from localStorage, absent when nothing was stored |
| SaleForm.FrequentList.Track | components/AddSaleModal.tsx:66-96 | a blank name stores nothing; otherwise the stored list becomes Tracked of the old one |
| SaleForm.Validate | components/AddSaleModal.tsx:107-133 | accepts exactly when neither name is blank and the quantity is at least 1; an accepted sale has quantity ≥ 1 and never an empty note |
| SaleForm.ValidateAccepts | components/AddSaleModal.tsx:107-120 | the form submits exactly when both names have a non-space character and the quantity is at least 1; the first failed check names the error |
| SaleForm.ValidatePassesOn | components/AddSaleModal.tsx:126-133 | the sale handed on carries the fields as typed and the notes trimmed, present exactly when non-blank |
| SaleForm.Submit | components/AddSaleModal.tsx:98-135 | a refused form stores nothing; an accepted one tracks the product name, then the customer name, and hands on Validate's sale |
| MultiItemForm.AddItem | components/AddMultiItemSaleModal.tsx:39-41 | one more line: the old lines unchanged in front, the default line last |
| MultiItemForm.RemoveItem | components/AddMultiItemSaleModal.tsx:43-47 | never empties a list that has a line, and removes one line or none |
| MultiItemForm.TotalAmount | components/AddMultiItemSaleModal.tsx:71-73 | lines with no negative quantity or price never add up to a negative total |
| MultiItemForm.TotalAmountAppend | components/AddMultiItemSaleModal.tsx:71-73 | the total of two runs of lines is the sum of their totals |
| MultiItemForm.AddItemAppends | components/AddMultiItemSaleModal.tsx:39-41 | addItem keeps every line, appends the default line, adds 45000 to the total; removeItem of that line undoes it |
| MultiItemForm.RemoveItemKeepsOne | components/AddMultiItemSaleModal.tsx:43-47 | never empties a list that has a line; with two or more lines it drops exactly the line at the index, keeps the order, and lowers the total by that line's amount; otherwise nothing changes |
| MultiItemForm.TotalWithout | components/AddMultiItemSaleModal.tsx:71-73 | leaving out one line lowers the total by exactly that line's quantity times price |
| MultiItemForm.FindProduct | components/AddMultiItemSaleModal.tsx:55 | finds a product with the name exactly when one exists |
| MultiItemForm.FindFirst | components/AddMultiItemSaleModal.tsx:55 | `find` returns the first product with the name |
| MultiItemForm.Edited | components/AddMultiItemSaleModal.tsx:52-63 | an edit changes only its own field (a name edit may also change the price); an edited quantity is never 0 and an edited typed price never negative |
| MultiItemForm.UpdateItem | components/AddMultiItemSaleModal.tsx:49-69 | only the line at the index changes, and it becomes Edited of the old line |
| MultiItemForm.ProductNameEdit | components/AddMultiItemSaleModal.tsx:52-58 | a product name edit sets the name, copies the first matching product's price or keeps the price, and keeps quantity and unit |
| MultiItemForm.QuantityInput | components/AddMultiItemSaleModal.tsx:60 | the quantity read from the text is never 0 |
| MultiItemForm.PriceInput | components/AddMultiItemSaleModal.tsx:62-63 | the price read from the text is never negative |
| MultiItemForm.QuantityInputNeverZero | components/AddMultiItemSaleModal.tsx:60 | a quantity edit is never 0: unparsable text or 0 gives 1, any other parsed number is taken, negative ones included |
| MultiItemForm.QuantityInputReadsNumber | components/AddMultiItemSaleModal.tsx:60 | a typed n ≥ 1, or its negation, is read back as is |
| MultiItemForm.PriceInputIsDigitsValue | components/AddMultiItemSaleModal.tsx:62-63 | a price edit is the value of the text's digits, never negative, 0 when there is no digit |
| MultiItemForm.PriceInputReadsNumber | components/AddMultiItemSaleModal.tsx:62-63 | a typed price is read back as is |
| MultiItemForm.Submit | components/AddMultiItemSaleModal.tsx:75-104 | a blank customer name is refused first; otherwise it submits exactly when every line is ready, else reports the first bad line (1-based) and why; the sale carries the notes trimmed or absent |

## Left out

- IndexedDB plumbing is not modelled: opening the database, requests, callbacks and
  `async` scheduling. Each step is atomic and steps run in order. Concurrent calls do
  not interleave.
- `initDatabase` seed data is not modelled: the six products it adds on first open. The
  store's constructor builds an empty store.
- Ids (`cust_…`, `prod_…`, `sale_…` built from the clock and `Math.random`) are
  naturals from one counter. `created_at` timestamps are not stored. Today's date is a
  parameter of addSale.
- `Math.floor(unitPrice * 0.85)` is computed exactly on integers, with no floating-point
  rounding.
- Numbers are unbounded integers. Floating-point quantities and prices, and precision
  loss past 2^53, are not modelled. `parseInt` reads only whole digits.
- Strings are sequences of characters, not UTF-16 code units.
- resetAllBalances iterates in an arbitrary order, where the source uses the order of
  `getAll` and of the balance map. The result does not depend on the order when every
  update succeeds.
- LedgerFacts.ReconcileConsistent and LedgerFacts.ReconcileIdempotent: they speak only of
  a successful resetAllBalances. A store can hold an unpaid sale whose customer is gone.
  On such a store the run zeroes every balance, rejects at the missing customer, and can
  leave the other balances at 0, so the store is no longer consistent.
  `Database.Store.ResetAllBalances` bounds that outcome: each balance is 0 or its unpaid
  total.
- The other operations of `services/database.ts` are not part of this model: the
  profile, getAll* reads, deleteCustomer/deleteProduct, addProduct, addMultiItemSale,
  the inventory transactions, the backup, and the dashboard queries (getDashboardStats,
  getTopCustomers and the weekly and realtime data). Stores the model accepts still
  allow the dangling references a deleteCustomer or deleteProduct would leave.
- The forms' rendering, `alert` messages, `onClose`, and the product picker
  (`handleProductChange`) are not modelled. The localStorage JSON encoding is not
  modelled: a list is stored as a sequence.
- MultiItemForm.UpdateItem: `[...items]` copies only the array, and the source then
  mutates the shared line object. The model replaces the line by value, so it does not
  capture that the old `items` array sees the edit.
- MultiItemForm.UpdateItem: requires an index that is a line. The form only calls it
  with one; the source throws on any other.
- SaleForm.FrequentList.Track: does not model a corrupt localStorage value, where
  `JSON.parse` throws.
