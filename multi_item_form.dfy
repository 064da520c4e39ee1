/** The line items of the multi-item sale form, components/AddMultiItemSaleModal.tsx:
    adding, removing and editing lines, their running total, and the checks made
    before the sale is handed on. */
module MultiItemForm {
  import opened Wrappers
  import opened JsText
  import opened Ledger

  /** The default sales unit of a line (a sack). */
  const DEFAULT_UNIT: string := "포"

  datatype Item = Item(productName: string, quantity: int, unitPrice: int, unit: string)

  /** The line a new form starts with and addItem appends. */
  const DEFAULT_ITEM: Item := Item("", 1, DEFAULT_UNIT_PRICE, DEFAULT_UNIT)

  /** addItem: `[...items, DEFAULT_ITEM]`. */
  function AddItem(items: seq<Item>): (r: seq<Item>)
    ensures |r| == |items| + 1 && r[..|items|] == items && r[|items|] == DEFAULT_ITEM
  {
    items + [DEFAULT_ITEM]
  }

  /** removeItem: drop line `index` (`items.filter((_, i) => i !== index)`), but only
      while there is more than one line; an index that is no line drops nothing. */
  function RemoveItem(items: seq<Item>, index: int): (r: seq<Item>)
    ensures |items| >= 1 ==> |r| >= 1
    ensures |r| == |items| - 1 || r == items
  {
    if |items| > 1 && 0 <= index < |items| then items[..index] + items[index + 1..] else items
  }

  /** getTotalAmount: the sum of quantity * unit price over the lines, added up from the
      first line to the last as `reduce` does. */
  function TotalAmount(items: seq<Item>): (total: int)
    ensures (forall i :: 0 <= i < |items| ==> items[i].quantity >= 0 && items[i].unitPrice >= 0) ==> total >= 0
  {
    if items == [] then 0
    else TotalAmount(items[..|items| - 1]) + items[|items| - 1].quantity * items[|items| - 1].unitPrice
  }

  /** The total of two runs of lines is the sum of their totals. */
  lemma {:induction false} TotalAmountAppend(a: seq<Item>, b: seq<Item>)
    ensures TotalAmount(a + b) == TotalAmount(a) + TotalAmount(b)
    decreases |b|
  {
    if b == [] {
      assert a + b == a;
    } else {
      TotalAmountAppend(a, b[..|b| - 1]);
      assert (a + b)[..|a + b| - 1] == a + b[..|b| - 1];
    }
  }

  /** addItem keeps every line and appends one default line, adding its 1 * 45000 to the
      total; removeItem then takes it off again. */
  lemma {:induction false} AddItemAppends(items: seq<Item>)
    ensures var r := AddItem(items);
            && |r| == |items| + 1 && r[..|items|] == items && r[|items|] == DEFAULT_ITEM
            && TotalAmount(r) == TotalAmount(items) + DEFAULT_UNIT_PRICE
    ensures |items| >= 1 ==> RemoveItem(AddItem(items), |items|) == items
  {
    TotalAmountAppend(items, [DEFAULT_ITEM]);
    assert TotalAmount([DEFAULT_ITEM]) == DEFAULT_UNIT_PRICE by {
      assert [DEFAULT_ITEM][..0] == [];
    }
  }

  /** removeItem never empties a list that has a line. With more than one line and an
      index that is a line, exactly that line goes: the others stay in order and the
      total drops by that line's amount. Otherwise nothing changes. */
  lemma {:induction false} RemoveItemKeepsOne(items: seq<Item>, index: int)
    ensures |items| >= 1 ==> |RemoveItem(items, index)| >= 1
    ensures |items| > 1 && 0 <= index < |items| ==>
              var r := RemoveItem(items, index);
              && |r| == |items| - 1
              && (forall j :: 0 <= j < index ==> r[j] == items[j])
              && (forall j :: index <= j < |r| ==> r[j] == items[j + 1])
              && TotalAmount(r) == TotalAmount(items) - items[index].quantity * items[index].unitPrice
    ensures !(|items| > 1 && 0 <= index < |items|) ==> RemoveItem(items, index) == items
  {
    if |items| > 1 && 0 <= index < |items| {
      var r := RemoveItem(items, index);
      var before, after := items[..index], items[index + 1..];
      assert r == before + after;
      forall j | 0 <= j < index ensures r[j] == items[j] {
        assert r[j] == before[j];
      }
      forall j | index <= j < |r| ensures r[j] == items[j + 1] {
        assert r[j] == after[j - index];
      }
      TotalWithout(items, index);
    }
  }

  /** Leaving out line `index` lowers the total by that line's amount. */
  lemma {:induction false} TotalWithout(items: seq<Item>, index: int)
    requires 0 <= index < |items|
    ensures TotalAmount(items[..index] + items[index + 1..])
            == TotalAmount(items) - items[index].quantity * items[index].unitPrice
  {
    var before, line, after := items[..index], items[index], items[index + 1..];
    assert items == before + [line] + after;
    TotalAmountAppend(before + [line], after);
    TotalAmountAppend(before, [line]);
    TotalAmountAppend(before, after);
    assert TotalAmount([line]) == line.quantity * line.unitPrice by {
      assert [line][..0] == [];
    }
  }

  // ---------------------------------------------------------------------------
  // updateItem

  /** The edit made to one field of a line, with the text the input produced. */
  datatype ItemEdit = EditProductName(name: string) | EditQuantity(text: string)
                    | EditUnitPrice(text: string) | EditUnit(unit: string)

  /** `products.find(p => p.name === name)`: the first product with that name. */
  function FindProduct(products: seq<Product>, name: string): (r: Option<Product>)
    ensures r.Some? ==> r.value in products && r.value.name == name
    ensures r.None? ==> forall i :: 0 <= i < |products| ==> products[i].name != name
  {
    if products == [] then None
    else if products[0].name == name then Some(products[0])
    else FindProduct(products[1..], name)
  }

  /** `parseInt(text) || 1`: a quantity that does not parse, or parses to 0, is 1. */
  function QuantityInput(text: string): (q: int)
    ensures q != 0
  {
    NumberOr(ParseInt(text), 1)
  }

  /** `parseInt(text.replace(/[^0-9]/g, '')) || 0`. */
  function PriceInput(text: string): (p: int)
    ensures p >= 0
  {
    DigitsOnlyAreDigits(text);
    if DigitsOnly(text) != [] then ParseDigits(DigitsOnly(text)); NumberOr(ParseInt(DigitsOnly(text)), 0)
    else NumberOr(ParseInt(DigitsOnly(text)), 0)
  }

  /** A line after one edit of updateItem. */
  function Edited(item: Item, edit: ItemEdit, products: seq<Product>): (r: Item)
    ensures r.productName == item.productName || edit.EditProductName?
    ensures r.quantity == item.quantity || (edit.EditQuantity? && r.quantity != 0)
    ensures r.unitPrice == item.unitPrice || edit.EditProductName? || (edit.EditUnitPrice? && r.unitPrice >= 0)
    ensures r.unit == item.unit || edit.EditUnit?
  {
    match edit
    case EditProductName(name) =>
      var found := FindProduct(products, name);
      item.(productName := name, unitPrice := if found.Some? then found.value.unitPrice else item.unitPrice)
    case EditQuantity(text) => item.(quantity := QuantityInput(text))
    case EditUnitPrice(text) => item.(unitPrice := PriceInput(text))
    case EditUnit(unit) => item.(unit := unit)
  }

  /** updateItem: copy the list, then set the field of line `index` in the copy, and for
      a product name also copy the price of the product of that name, when there is one. */
  method UpdateItem(items: seq<Item>, index: nat, edit: ItemEdit, products: seq<Product>)
    returns (newItems: seq<Item>)
    requires index < |items|
    ensures |newItems| == |items| && newItems[index] == Edited(items[index], edit, products)
    ensures forall j :: 0 <= j < |items| && j != index ==> newItems[j] == items[j]
  {
    newItems := items;
    match edit {
      case EditProductName(name) =>
        newItems := newItems[index := newItems[index].(productName := name)];
        var found := FindProduct(products, name);
        if found.Some? {
          newItems := newItems[index := newItems[index].(unitPrice := found.value.unitPrice)];
        }
      case EditQuantity(text) =>
        newItems := newItems[index := newItems[index].(quantity := NumberOr(ParseInt(text), 1))];
      case EditUnitPrice(text) =>
        var digits := DigitsOnly(text);
        newItems := newItems[index := newItems[index].(unitPrice := NumberOr(ParseInt(digits), 0))];
      case EditUnit(unit) =>
        newItems := newItems[index := newItems[index].(unit := unit)];
    }
  }

  /** A quantity edit never leaves 0: text that does not parse, or parses to 0, gives 1,
      and any other parsed number, a negative one included, is taken as it is. */
  lemma {:induction false} QuantityInputNeverZero(text: string)
    ensures QuantityInput(text) != 0
    ensures ParseInt(text).None? || ParseInt(text) == Some(0) ==> QuantityInput(text) == 1
    ensures ParseInt(text).Some? && ParseInt(text).value != 0 ==> QuantityInput(text) == ParseInt(text).value
  {
  }

  /** A typed quantity `n >= 1`, or its negation, is read back as it is. */
  lemma {:induction false} QuantityInputReadsNumber(n: nat)
    requires n >= 1
    ensures QuantityInput(Decimal(n)) == n as int
    ensures QuantityInput("-" + Decimal(n)) == -(n as int)
  {
    ParseDecimal(n);
    ParseNegatedDecimal(n);
  }

  /** A price edit is the value of the digits in the text, whatever else it holds, so it
      is never negative and is 0 when the text has no digit. */
  lemma {:induction false} PriceInputIsDigitsValue(text: string)
    ensures PriceInput(text) == DigitsValue(DigitsOnly(text), 10) && PriceInput(text) >= 0
    ensures (forall i :: 0 <= i < |text| ==> !('0' <= text[i] <= '9')) ==> PriceInput(text) == 0
  {
    var ds := DigitsOnly(text);
    DigitsOnlyAreDigits(text);
    if ds != [] {
      ParseDigits(ds);
    }
    if forall i :: 0 <= i < |text| ==> !('0' <= text[i] <= '9') {
      if ds != [] {
        DigitsOnlyKeepsEveryDigit(text, ds[0]);
      }
    }
  }

  /** A typed price is read back as it is. */
  lemma {:induction false} PriceInputReadsNumber(n: nat)
    ensures PriceInput(Decimal(n)) == n as int
  {
    DecimalDigits(n);
    DigitsOnlyKeepsDigits(Decimal(n));
    ParseDecimal(n);
  }

  /** Choosing a product name sets the name and copies the price of the first product of
      that name, or keeps the line's price when no product has it; the quantity and unit
      stay. */
  lemma {:induction false} ProductNameEdit(item: Item, name: string, products: seq<Product>)
    ensures var r := Edited(item, EditProductName(name), products);
            && r.productName == name && r.quantity == item.quantity && r.unit == item.unit
            && (forall i :: (0 <= i < |products| && products[i].name == name
                  && forall j :: 0 <= j < i ==> products[j].name != name) ==> r.unitPrice == products[i].unitPrice)
            && ((forall i :: 0 <= i < |products| ==> products[i].name != name) ==> r.unitPrice == item.unitPrice)
  {
    FindFirst(products, name);
  }

  /** The product find returns is the first one with the name. */
  lemma {:induction false} FindFirst(products: seq<Product>, name: string)
    ensures forall i :: (0 <= i < |products| && products[i].name == name
              && forall j :: 0 <= j < i ==> products[j].name != name) ==> FindProduct(products, name) == Some(products[i])
  {
    if products != [] && products[0].name != name {
      FindFirst(products[1..], name);
      forall i | 0 <= i < |products| && products[i].name == name && (forall j :: 0 <= j < i ==> products[j].name != name)
        ensures FindProduct(products, name) == Some(products[i])
      {
        assert i > 0;
        assert products[1..][i - 1] == products[i];
        assert forall j :: 0 <= j < i - 1 ==> products[1..][j].name != name by {
          forall j | 0 <= j < i - 1 ensures products[1..][j].name != name {
            assert products[1..][j] == products[j + 1];
          }
        }
      }
    }
  }

  // ---------------------------------------------------------------------------
  // handleSubmit

  /** The fields of the form when it is submitted. */
  datatype MultiDraft = MultiDraft(customerName: string, items: seq<Item>, status: string,
                                   notes: string, date: string)

  /** What the form hands on: the lines as they are, the notes trimmed or absent. */
  datatype MultiSale = MultiSale(customerName: string, items: seq<Item>, status: string,
                                 notes: Option<string>, date: string)

  /** Why the form refuses to submit; `line` counts from 1 as the message does. */
  datatype ItemsError = MissingCustomer | MissingProductName(line: nat) | QuantityBelowOne(line: nat)

  /** A line the loop lets through. */
  predicate Ready(item: Item) {
    !IsBlank(item.productName) && item.quantity > 0
  }

  /** handleSubmit: refuse a blank customer name, then walk the lines and refuse at the
      first with a blank product name or a quantity below 1; otherwise hand the sale on. */
  method Submit(d: MultiDraft) returns (r: Result<MultiSale, ItemsError>)
    ensures IsBlank(d.customerName) ==> r == Err(MissingCustomer)
    ensures !IsBlank(d.customerName) ==> (r.Ok? <==> forall i :: 0 <= i < |d.items| ==> Ready(d.items[i]))
    ensures r.Ok? ==> r.value == MultiSale(d.customerName, d.items, d.status,
                                           if Trim(d.notes) == "" then None else Some(Trim(d.notes)), d.date)
    ensures r.Err? && r.error.MissingProductName? ==>
              var k := r.error.line - 1;
              && 0 <= k < |d.items| && IsBlank(d.items[k].productName)
              && forall j :: 0 <= j < k ==> Ready(d.items[j])
    ensures r.Err? && r.error.QuantityBelowOne? ==>
              var k := r.error.line - 1;
              && 0 <= k < |d.items| && !IsBlank(d.items[k].productName) && d.items[k].quantity <= 0
              && forall j :: 0 <= j < k ==> Ready(d.items[j])
  {
    if IsBlank(d.customerName) {
      return Err(MissingCustomer);
    }
    var i := 0;
    while i < |d.items|
      invariant 0 <= i <= |d.items|
      invariant forall j :: 0 <= j < i ==> Ready(d.items[j])
    {
      if IsBlank(d.items[i].productName) {
        return Err(MissingProductName(i + 1));
      }
      if d.items[i].quantity <= 0 {
        return Err(QuantityBelowOne(i + 1));
      }
      i := i + 1;
    }
    r := Ok(MultiSale(d.customerName, d.items, d.status,
                      if Trim(d.notes) == "" then None else Some(Trim(d.notes)), d.date));
  }
}
