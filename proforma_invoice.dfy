/** The proforma invoice page (src/pages/ProformaInvoice.tsx): line
    totals, the invoice total, and adding, editing, removing and reordering
    lines. A line is an object: `handleItemChange` assigns the field on the
    line object itself, which the previous state shares. */
module ProformaInvoice {
  import opened Types
  import opened Lists

  class InvoiceItem {
    var name: string
    var description: string
    var quantity: real
    var unitPrice: real

    /** `{ name: '', description: '', quantity: 0, unitPrice: 0 }`. */
    constructor Blank()
      ensures name == "" && description == "" && quantity == 0.0 && unitPrice == 0.0
    {
      name := "";
      description := "";
      quantity := 0.0;
      unitPrice := 0.0;
    }
  }

  datatype InvoiceData = InvoiceData(
    invoiceNumber: string,
    date: string,
    customerName: string,
    customerAddress: string,
    items: seq<InvoiceItem>)

  predicate IsBlank(item: InvoiceItem)
    reads item
  {
    item.name == "" && item.description == "" && item.quantity == 0.0 && item.unitPrice == 0.0
  }

  /** No line object appears twice in the list. */
  predicate Distinct(items: seq<InvoiceItem>)
  {
    forall i, j :: 0 <= i < j < |items| ==> items[i] != items[j]
  }

  /** `calculateTotalPrice`. */
  function CalculateTotalPrice(item: InvoiceItem): real
    reads item
  {
    item.quantity * item.unitPrice
  }

  function LineTotals(items: seq<InvoiceItem>): (r: seq<real>)
    reads items
    ensures |r| == |items|
    ensures forall k :: 0 <= k < |items| ==> r[k] == CalculateTotalPrice(items[k])
  {
    seq(|items|, k requires 0 <= k < |items| reads items => CalculateTotalPrice(items[k]))
  }

  /** `calculateTotalInvoicePrice`: the line totals summed from 0. */
  function CalculateTotalInvoicePrice(items: seq<InvoiceItem>): (r: real)
    reads items
    ensures items == [] ==> r == 0.0
  {
    SumReal(LineTotals(items))
  }

  /** The page's initial state: empty header fields and one blank line. */
  method InitialInvoiceData() returns (inv: InvoiceData)
    ensures inv.invoiceNumber == "" && inv.date == "" && inv.customerName == "" && inv.customerAddress == ""
    ensures |inv.items| == 1 && fresh(inv.items[0]) && IsBlank(inv.items[0])
    ensures Distinct(inv.items)
    ensures CalculateTotalInvoicePrice(inv.items) == 0.0
  {
    var blank := new InvoiceItem.Blank();
    inv := InvoiceData("", "", "", "", [blank]);
    SumSingleton(0.0);
    assert LineTotals(inv.items) == [0.0];
  }

  /** `handleAddItem`: a new blank line at the end; the total is unchanged. */
  method HandleAddItem(inv: InvoiceData) returns (r: InvoiceData)
    ensures r == inv.(items := r.items)
    ensures |r.items| == |inv.items| + 1 && r.items[..|inv.items|] == inv.items
    ensures fresh(r.items[|inv.items|]) && IsBlank(r.items[|inv.items|])
    ensures Distinct(inv.items) ==> Distinct(r.items)
    ensures CalculateTotalInvoicePrice(r.items) == CalculateTotalInvoicePrice(inv.items)
  {
    var blank := new InvoiceItem.Blank();
    r := inv.(items := inv.items + [blank]);
    assert LineTotals(r.items) == LineTotals(inv.items) + [0.0];
    SumAppend(LineTotals(inv.items), 0.0);
  }

  /** The field `handleItemChange` sets, with its new value. */
  datatype ItemChange =
    | Name(name: string)
    | Description(description: string)
    | Quantity(quantity: real)
    | UnitPrice(unitPrice: real)

  /** `handleItemChange`: assigns the field on the line object in place.
      The new state holds the same list of the same objects, so the change
      is visible through the previous state as well. */
  method HandleItemChange(inv: InvoiceData, index: nat, change: ItemChange) returns (r: InvoiceData)
    requires index < |inv.items|
    modifies inv.items[index]
    ensures r == inv
    ensures var item := inv.items[index];
      match change
      case Name(v) =>
        (item.name == v && item.description == old(item.description)
         && item.quantity == old(item.quantity) && item.unitPrice == old(item.unitPrice))
      case Description(v) =>
        (item.description == v && item.name == old(item.name)
         && item.quantity == old(item.quantity) && item.unitPrice == old(item.unitPrice))
      case Quantity(v) =>
        (item.quantity == v && item.name == old(item.name)
         && item.description == old(item.description) && item.unitPrice == old(item.unitPrice))
      case UnitPrice(v) =>
        (item.unitPrice == v && item.name == old(item.name)
         && item.description == old(item.description) && item.quantity == old(item.quantity))
    ensures Distinct(inv.items) ==>
              CalculateTotalInvoicePrice(inv.items)
              == old(CalculateTotalInvoicePrice(inv.items)) - old(CalculateTotalPrice(inv.items[index]))
                 + CalculateTotalPrice(inv.items[index])
  {
    ghost var before := LineTotals(inv.items);
    var item := inv.items[index];
    match change {
      case Name(v) => item.name := v;
      case Description(v) => item.description := v;
      case Quantity(v) => item.quantity := v;
      case UnitPrice(v) => item.unitPrice := v;
    }
    r := inv;
    if Distinct(inv.items) {
      forall k | 0 <= k < |inv.items| && k != index
        ensures LineTotals(inv.items)[k] == before[k]
      {
        assert inv.items[k] != item;
      }
      assert LineTotals(inv.items) == before[index := CalculateTotalPrice(item)];
      SumUpdate(before, index, CalculateTotalPrice(item));
    }
  }

  /** Where `splice(index, 1)` starts on a list of `len` elements: a
      negative index counts from the end, a large one stops at the end. */
  function SpliceStart(len: nat, index: int): (s: nat)
    ensures s <= len
    ensures 0 <= index <= len ==> s == index
    ensures index < 0 && len + index >= 0 ==> s == len + index
  {
    if index < 0 then (if len + index < 0 then 0 else len + index)
    else if index > len then len
    else index
  }

  /** `removeItem`: `splice(index, 1)` on a copy of the lines. */
  function RemoveItem(inv: InvoiceData, index: int): (r: InvoiceData)
    reads inv.items
    ensures r == inv.(items := r.items)
    ensures 0 <= index < |inv.items| ==>
              |r.items| == |inv.items| - 1
              && (forall j :: 0 <= j < |r.items| ==>
                    r.items[j] == if j < index then inv.items[j] else inv.items[j + 1])
              && CalculateTotalInvoicePrice(r.items)
                 == CalculateTotalInvoicePrice(inv.items) - CalculateTotalPrice(inv.items[index])
    ensures index >= |inv.items| ==> r == inv
    ensures index < 0 && |inv.items| + index >= 0 ==> r.items == RemoveAt(inv.items, |inv.items| + index)
    ensures index < 0 && |inv.items| + index < 0 ==> r.items == RemoveAt(inv.items, 0)
    ensures Distinct(inv.items) ==> Distinct(r.items)
  {
    var start := SpliceStart(|inv.items|, index);
    if start < |inv.items| then
      RemoveLineTotal(inv.items, start);
      DistinctRemoveAt(inv.items, start);
      inv.(items := RemoveAt(inv.items, start))
    else inv
  }

  lemma RemoveLineTotal(items: seq<InvoiceItem>, k: nat)
    requires k < |items|
    ensures CalculateTotalInvoicePrice(RemoveAt(items, k))
            == CalculateTotalInvoicePrice(items) - CalculateTotalPrice(items[k])
  {
    assert LineTotals(RemoveAt(items, k)) == RemoveAt(LineTotals(items), k);
    SumRemoveAt(LineTotals(items), k);
  }

  /** Removing a line keeps the other line objects distinct. */
  lemma DistinctRemoveAt(items: seq<InvoiceItem>, k: nat)
    requires k < |items|
    ensures Distinct(items) ==> Distinct(RemoveAt(items, k))
  {
  }

  /** A reorder keeps distinct line objects distinct. */
  lemma DistinctMoved(items: seq<InvoiceItem>, from: nat, to: nat)
    requires from < |items| && to < |items|
    ensures Distinct(items) ==> Distinct(Moved(items, from, to))
  {
    if Distinct(items) {
      var m := Moved(items, from, to);
      forall i, j | 0 <= i < j < |m| ensures m[i] != m[j] {
        MovedAt(items, from, to, i);
        MovedAt(items, from, to, j);
      }
    }
  }

  lemma LineTotalsMoved(items: seq<InvoiceItem>, from: nat, to: nat)
    requires from < |items| && to < |items|
    ensures LineTotals(Moved(items, from, to)) == Moved(LineTotals(items), from, to)
  {
    forall j | 0 <= j < |items|
      ensures LineTotals(Moved(items, from, to))[j] == Moved(LineTotals(items), from, to)[j]
    {
      MovedAt(items, from, to, j);
      MovedAt(LineTotals(items), from, to, j);
    }
  }

  /** `handleOnDragEnd`: no drop target changes nothing; otherwise the
      dragged line is spliced out of a copy and back in at the target. */
  method HandleOnDragEnd(inv: InvoiceData, source: nat, destination: Option<nat>) returns (r: InvoiceData)
    requires source < |inv.items|
    requires destination.Some? ==> destination.value < |inv.items|
    ensures destination.None? ==> r == inv
    ensures destination.Some? ==> r == inv.(items := Moved(inv.items, source, destination.value))
    ensures multiset(r.items) == multiset(inv.items)
    ensures |r.items| == |inv.items|
    ensures destination.Some? ==> r.items[destination.value] == inv.items[source]
    ensures CalculateTotalInvoicePrice(r.items) == CalculateTotalInvoicePrice(inv.items)
    ensures Distinct(inv.items) ==> Distinct(r.items)
  {
    if destination.None? {
      return inv;
    }
    var n := |inv.items|;
    var items := new InvoiceItem[n](i requires 0 <= i < n => inv.items[i]);
    assert items[..] == inv.items;
    MoveInPlace(items, source, destination.value);
    r := inv.(items := items[..]);
    MovedPermutes(inv.items, source, destination.value);
    LineTotalsMoved(inv.items, source, destination.value);
    SumMoved(LineTotals(inv.items), source, destination.value);
    DistinctMoved(inv.items, source, destination.value);
  }
}
