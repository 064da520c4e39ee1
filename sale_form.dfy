/** The single-item sale form of components/AddSaleModal.tsx: the "frequently used"
    product and customer lists kept in localStorage (most recent first, at most ten
    names) and the checks the form makes before it hands a sale to addSale. */
module SaleForm {
  import opened Wrappers
  import opened JsText
  import Ledger

  /** How many names a frequent list keeps. */
  const MAX_FREQUENT: nat := 10

  /** `names.filter(n => n !== name)`. */
  function Without(names: seq<string>, name: string): (r: seq<string>)
    ensures |r| <= |names|
    ensures forall i :: 0 <= i < |r| ==> r[i] != name
    ensures forall x :: x != name ==> (x in r <==> x in names)
  {
    if names == [] then []
    else if names[0] == name then Without(names[1..], name)
    else [names[0]] + Without(names[1..], name)
  }

  /** Filtering a concatenation filters each part: the names that stay keep their order. */
  lemma {:induction false} WithoutAppend(a: seq<string>, b: seq<string>, name: string)
    ensures Without(a + b, name) == Without(a, name) + Without(b, name)
  {
    if a != [] {
      WithoutAppend(a[1..], b, name);
      assert (a + b)[1..] == a[1..] + b;
    } else {
      assert a + b == b;
    }
  }

  /** Filtering a list that does not hold the name leaves it as it is. */
  lemma {:induction false} WithoutAbsent(names: seq<string>, name: string)
    requires name !in names
    ensures Without(names, name) == names
  {
    if names != [] {
      WithoutAbsent(names[1..], name);
    }
  }

  /** No name occurs twice. */
  ghost predicate Distinct(names: seq<string>) {
    forall i, j :: 0 <= i < j < |names| ==> names[i] != names[j]
  }

  /** Filtering keeps a list free of repeats. */
  lemma {:induction false} WithoutDistinct(names: seq<string>, name: string)
    requires Distinct(names)
    ensures Distinct(Without(names, name))
  {
    if names != [] {
      WithoutDistinct(names[1..], name);
      var rest := Without(names[1..], name);
      assert names[0] !in names[1..];
    }
  }

  /** The list trackFrequentProduct/trackFrequentCustomer store: unchanged for a blank
      name, otherwise the name in front of the list without it, cut to MAX_FREQUENT. */
  function Tracked(names: seq<string>, name: string): (r: seq<string>)
    ensures IsBlank(name) ==> r == names
    ensures !IsBlank(name) ==> 1 <= |r| <= MAX_FREQUENT && r[0] == name
  {
    if IsBlank(name) then names
    else
      var list := [name] + Without(names, name);
      if |list| > MAX_FREQUENT then list[..MAX_FREQUENT] else list
  }

  /** A blank name leaves the list alone. Otherwise the name comes first and nowhere
      else, the list has at most MAX_FREQUENT names, and the rest is the old list without
      the name, in its old order, with only its tail past the limit dropped. */
  lemma {:induction false} TrackedFront(names: seq<string>, name: string)
    ensures IsBlank(name) ==> Tracked(names, name) == names
    ensures !IsBlank(name) ==>
              var r := Tracked(names, name);
              && |r| == (if |Without(names, name)| + 1 < MAX_FREQUENT then |Without(names, name)| + 1 else MAX_FREQUENT)
              && r[0] == name
              && (forall i :: 1 <= i < |r| ==> r[i] != name)
              && r[1..] == Without(names, name)[..|r| - 1]
  {
  }

  /** A list without repeats stays without repeats, and one name moved to the front of a
      list that already holds it (and is under the limit) keeps every other name. */
  lemma {:induction false} TrackedDistinct(names: seq<string>, name: string)
    requires Distinct(names)
    ensures Distinct(Tracked(names, name))
    ensures !IsBlank(name) && |names| <= MAX_FREQUENT && name in names ==>
              forall x :: x in names <==> x in Tracked(names, name)
  {
    if !IsBlank(name) {
      var rest := Without(names, name);
      WithoutDistinct(names, name);
      var list := [name] + rest;
      assert Distinct(list);
      if name in names {
        var k :| 0 <= k < |names| && names[k] == name;
        assert names == names[..k] + [name] + names[k + 1..];
        WithoutAppend(names[..k] + [name], names[k + 1..], name);
        WithoutAppend(names[..k], [name], name);
        assert Without([name], name) == [];
        assert |rest| == |names| - 1 by {
          assert name !in names[..k] && name !in names[k + 1..];
          WithoutAbsent(names[..k], name);
          WithoutAbsent(names[k + 1..], name);
        }
      }
    }
  }

  /** One frequent list as kept in localStorage under its key; None while nothing has
      been stored yet. */
  class FrequentList {
    var saved: Option<seq<string>>

    constructor(saved: Option<seq<string>>)
      ensures this.saved == saved
    {
      this.saved := saved;
    }

    /** The stored list, or the empty list when there is none. */
    function Names(): seq<string>
      reads this
    {
      if saved.Some? then saved.value else []
    }

    /** trackFrequentProduct / trackFrequentCustomer: a blank name stores nothing;
        otherwise the list is read, filtered, the name put in front, the list cut to
        MAX_FREQUENT and written back. */
    method Track(name: string)
      modifies this
      ensures IsBlank(name) ==> saved == old(saved)
      ensures !IsBlank(name) ==> saved == Some(Tracked(old(Names()), name))
    {
      if IsBlank(name) {
        return;
      }
      var list := Names();
      list := Without(list, name);
      list := [name] + list;
      if |list| > MAX_FREQUENT {
        list := list[..MAX_FREQUENT];
      }
      saved := Some(list);
    }
  }

  /** The fields of the form when it is submitted. */
  datatype SaleDraft = SaleDraft(customerName: string, productName: string, quantity: int,
                                 unitPrice: int, status: string, notes: string)

  /** Why the form refuses to submit, in the order it checks. */
  datatype FormError = MissingCustomer | MissingProduct | QuantityBelowOne

  /** The checks of handleSubmit and the sale it passes on: the names as typed, the
      notes trimmed, or absent when blank. */
  function Validate(d: SaleDraft): (r: Result<Ledger.NewSale, FormError>)
    ensures r.Ok? <==> !IsBlank(d.customerName) && !IsBlank(d.productName) && d.quantity >= 1
    ensures r.Ok? ==> r.value.quantity >= 1 && r.value.notes != Some("")
  {
    if IsBlank(d.customerName) then Err(MissingCustomer)
    else if IsBlank(d.productName) then Err(MissingProduct)
    else if d.quantity <= 0 then Err(QuantityBelowOne)
    else Ok(Ledger.NewSale(d.customerName, d.productName, d.quantity, d.unitPrice, d.status,
                           if Trim(d.notes) == "" then None else Some(Trim(d.notes))))
  }

  /** The form submits exactly when both names have a character that is not white space
      and the quantity is at least 1, and the first failed check names the error. */
  lemma {:induction false} ValidateAccepts(d: SaleDraft)
    ensures Validate(d).Ok? <==>
              (exists i :: 0 <= i < |d.customerName| && !IsSpace(d.customerName[i]))
              && (exists i :: 0 <= i < |d.productName| && !IsSpace(d.productName[i]))
              && d.quantity >= 1
    ensures Validate(d).Err? ==>
              Validate(d).error == (if IsBlank(d.customerName) then MissingCustomer
                                    else if IsBlank(d.productName) then MissingProduct
                                    else QuantityBelowOne)
  {
    BlankIffAllSpace(d.customerName);
    BlankIffAllSpace(d.productName);
  }

  /** A submitted sale carries the names, quantity, price and status as typed, and the
      notes trimmed: present exactly when they hold a character that is not white space,
      and then neither starting nor ending with white space. */
  lemma {:induction false} ValidatePassesOn(d: SaleDraft)
    requires Validate(d).Ok?
    ensures var s := Validate(d).value;
            && s.customerName == d.customerName && s.productName == d.productName
            && s.quantity == d.quantity && s.quantity >= 1 && s.unitPrice == d.unitPrice && s.status == d.status
            && (s.notes.Some? <==> exists i :: 0 <= i < |d.notes| && !IsSpace(d.notes[i]))
            && (s.notes.Some? ==> !IsSpace(s.notes.value[0]) && !IsSpace(s.notes.value[|s.notes.value| - 1]))
  {
    BlankIffAllSpace(d.notes);
    TrimIsInnerSlice(d.notes);
  }

  /** handleSubmit: a refused form stores nothing and adds nothing; an accepted one
      tracks the product name, then the customer name, and hands the sale on. */
  method Submit(d: SaleDraft, frequentProducts: FrequentList, frequentCustomers: FrequentList)
    returns (r: Result<Ledger.NewSale, FormError>)
    requires frequentProducts != frequentCustomers
    modifies frequentProducts, frequentCustomers
    ensures r == Validate(d)
    ensures r.Err? ==> frequentProducts.saved == old(frequentProducts.saved)
                       && frequentCustomers.saved == old(frequentCustomers.saved)
    ensures r.Ok? ==> frequentProducts.saved == Some(Tracked(old(frequentProducts.Names()), d.productName))
                      && frequentCustomers.saved == Some(Tracked(old(frequentCustomers.Names()), d.customerName))
  {
    r := Validate(d);
    if r.Err? {
      return;
    }
    frequentProducts.Track(d.productName);
    frequentCustomers.Track(d.customerName);
  }
}
