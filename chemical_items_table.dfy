/** The chemical-items table (src/components/ChemicalItemsTable.tsx):
    adding and removing rows, the per-field edit reducer with its costing
    recompute, the whole-list recompute that runs whenever the items, the
    total water or the fabric weight change, and the footer total. */
module ChemicalItemsTable {
  import opened Types
  import opened Lists

  /** The marker a "Dyeing step" row shows in its text columns. */
  const Placeholder: string := "-------"

  /** The row that `addNewItem` appends; the calculator page starts and
      clears with the same row (`initialChemicalItem`). */
  const BlankItem: ChemicalItem :=
    ChemicalItem(Unset, "", "", None, None, NoQty, None, 0.0, "", false)

  /** Costing of a row: its quantity as kilograms times its unit price, a
      missing price counting as zero. */
  function Costing(q: Qty, unitPrice: Option<real>): real
  {
    QtyKg(q) * OrZero(unitPrice)
  }

  // ---------------------------------------------------------------------
  // Footer total, adding and removing rows
  // ---------------------------------------------------------------------

  function Costings(items: seq<ChemicalItem>): (r: seq<real>)
    ensures |r| == |items|
    ensures forall i :: 0 <= i < |items| ==> r[i] == items[i].costing
  {
    seq(|items|, i requires 0 <= i < |items| => items[i].costing)
  }

  /** The footer: the costings summed left to right from 0. */
  function TotalCosting(items: seq<ChemicalItem>): real
  {
    SumReal(Costings(items))
  }

  /** `addNewItem`: one blank row at the end; the footer total is unchanged. */
  function AddNewItem(items: seq<ChemicalItem>): (r: seq<ChemicalItem>)
    ensures |r| == |items| + 1 && r[..|items|] == items && r[|items|] == BlankItem
    ensures TotalCosting(r) == TotalCosting(items)
  {
    var r := items + [BlankItem];
    assert Costings(r) == Costings(items) + [0.0];
    SumAppend(Costings(items), 0.0);
    r
  }

  /** `removeItem`: the row at `index` goes, the others keep their order,
      and the footer loses exactly that row's costing. An index that names
      no row changes nothing. */
  function RemoveItem(items: seq<ChemicalItem>, index: int): (r: seq<ChemicalItem>)
    ensures 0 <= index < |items| ==> |r| == |items| - 1
    ensures 0 <= index < |items| ==>
              forall j :: 0 <= j < |r| ==> r[j] == if j < index then items[j] else items[j + 1]
    ensures 0 <= index < |items| ==> TotalCosting(r) == TotalCosting(items) - items[index].costing
    ensures !(0 <= index < |items|) ==> r == items
  {
    if 0 <= index < |items| then
      RemovedTotal(items, index);
      RemoveAt(items, index)
    else items
  }

  lemma RemovedTotal(items: seq<ChemicalItem>, index: nat)
    requires index < |items|
    ensures TotalCosting(RemoveAt(items, index)) == TotalCosting(items) - items[index].costing
  {
    CostingsRemoveAt(items, index);
    SumRemoveAt(Costings(items), index);
  }

  lemma CostingsRemoveAt(items: seq<ChemicalItem>, index: nat)
    requires index < |items|
    ensures Costings(RemoveAt(items, index)) == RemoveAt(Costings(items), index)
  {
  }

  // ---------------------------------------------------------------------
  // Editing one field of one row
  // ---------------------------------------------------------------------

  /** One change made in a row of the table. */
  datatype Edit =
    | SetItemType(t: ItemType)
    | SetItemName(name: string)
    | SetLotNo(lot: string)
    | SetRemarks(note: string)
    | SetHighlight(on: bool)
    | SetDosing(dosingInput: FieldInput)
    | SetShade(shadeInput: FieldInput)
    | SetUnitPrice(priceInput: FieldInput)

  /** What a dosing or shade box yields: '' clears it, numeric text sets
      it, anything else keeps the `current` value. */
  function ParseOrKeep(input: FieldInput, current: Option<real>): (r: Option<real>)
    ensures r.None? <==> input.Empty? || (input.NotNumeric? && current.None?)
    ensures input.Num? ==> r == Some(input.n)
    ensures input.NotNumeric? ==> r == current
  {
    match input
    case Empty => None
    case Num(n) => Some(n)
    case NotNumeric => current
  }

  /** What the unit-price box yields: numeric text sets it, anything else
      (the empty string included) clears it. */
  function ParsePrice(input: FieldInput): (r: Option<real>)
    ensures r.Some? <==> input.Num?
    ensures r.Some? ==> r.value == input.n
  {
    if input.Num? then Some(input.n) else None
  }

  /** Dosing and shade are never both set. */
  predicate Exclusive(item: ChemicalItem)
  {
    item.dosing.None? || item.shade.None?
  }

  /** The row `updateItem` writes back: the field assignments of the edit,
      then the costing recomputed from the row's quantity and price. */
  function EditedItem(item: ChemicalItem, edit: Edit, totalWater: Option<real>, fabricWeight: Option<real>): (r: ChemicalItem)
    ensures r.costing == Costing(r.qty, r.unitPrice)
    ensures Exclusive(item) ==> Exclusive(r)
    ensures edit == SetItemType(DyeingStep) ==>
              r.itemType == DyeingStep && r.highlight == item.highlight
              && r.itemName == Placeholder && r.lotNo == Placeholder && r.remarks == Placeholder
              && r.dosing.None? && r.shade.None? && r.unitPrice.None? && r.qty == NoQty && r.costing == 0.0
    ensures edit.SetItemType? && edit.t != DyeingStep && item.itemType == DyeingStep ==>
              r == BlankItem.(itemType := edit.t, highlight := item.highlight)
    ensures edit.SetItemType? && edit.t != DyeingStep && item.itemType != DyeingStep ==>
              r == item.(itemType := edit.t, costing := r.costing)
    ensures edit.SetDosing? ==>
              r == item.(dosing := r.dosing, shade := None, qty := r.qty, costing := r.costing)
              && r.dosing == ParseOrKeep(edit.dosingInput, item.dosing)
              && r.qty == ConvertToSubUnits(QtyFromDosing(r.dosing, totalWater))
    ensures edit.SetShade? ==>
              r == item.(shade := r.shade, dosing := None, qty := r.qty, costing := r.costing)
              && r.shade == ParseOrKeep(edit.shadeInput, item.shade)
              && r.qty == ConvertToSubUnits(QtyFromShade(r.shade, fabricWeight))
    ensures edit.SetUnitPrice? ==>
              r == item.(unitPrice := ParsePrice(edit.priceInput), costing := r.costing)
    ensures edit.SetItemName? ==> r == item.(itemName := edit.name, costing := r.costing)
    ensures edit.SetLotNo? ==> r == item.(lotNo := edit.lot, costing := r.costing)
    ensures edit.SetRemarks? ==> r == item.(remarks := edit.note, costing := r.costing)
    ensures edit.SetHighlight? ==> r == item.(highlight := edit.on, costing := r.costing)
  {
    var c :=
      match edit
      case SetItemType(t) =>
        if t == DyeingStep then
          item.(itemType := t, itemName := Placeholder, lotNo := Placeholder, dosing := None,
                shade := None, qty := NoQty, unitPrice := None, costing := 0.0, remarks := Placeholder)
        else if item.itemType == DyeingStep then
          item.(itemType := t, itemName := "", lotNo := "", dosing := None,
                shade := None, qty := NoQty, unitPrice := None, costing := 0.0, remarks := "")
        else item.(itemType := t)
      case SetHighlight(on) => item.(highlight := on)
      case SetDosing(input) =>
        var dosing := ParseOrKeep(input, item.dosing);
        item.(dosing := dosing, shade := None, qty := ConvertToSubUnits(QtyFromDosing(dosing, totalWater)))
      case SetShade(input) =>
        var shade := ParseOrKeep(input, item.shade);
        item.(shade := shade, dosing := None, qty := ConvertToSubUnits(QtyFromShade(shade, fabricWeight)))
      case SetUnitPrice(input) => item.(unitPrice := ParsePrice(input))
      case SetItemName(name) => item.(itemName := name)
      case SetLotNo(lot) => item.(lotNo := lot)
      case SetRemarks(note) => item.(remarks := note);
    c.(costing := Costing(c.qty, c.unitPrice))
  }

  /** `updateItem`: copy the list and the row, assign the edited fields
      branch by branch, recompute the costing, write the row back. */
  method UpdateItem(items: seq<ChemicalItem>, index: nat, edit: Edit, totalWater: Option<real>, fabricWeight: Option<real>)
    returns (newItems: seq<ChemicalItem>)
    requires index < |items|
    ensures newItems == items[index := EditedItem(items[index], edit, totalWater, fabricWeight)]
    ensures TotalCosting(newItems) == TotalCosting(items) - items[index].costing + newItems[index].costing
  {
    var current := items[index];
    match edit {
      case SetItemType(t) =>
        if t == DyeingStep {
          current := current.(itemType := t, itemName := Placeholder, lotNo := Placeholder);
          current := current.(dosing := None, shade := None, qty := NoQty, unitPrice := None);
          current := current.(costing := 0.0, remarks := Placeholder);
        } else if current.itemType == DyeingStep {
          current := current.(itemType := t, itemName := "", lotNo := "");
          current := current.(dosing := None, shade := None, qty := NoQty, unitPrice := None);
          current := current.(costing := 0.0, remarks := "");
        } else {
          current := current.(itemType := t);
        }
      case SetHighlight(on) =>
        current := current.(highlight := on);
      case SetDosing(input) =>
        var dosing := ParseOrKeep(input, current.dosing);
        current := current.(dosing := dosing, shade := None);
        current := current.(qty := ConvertToSubUnits(QtyFromDosing(dosing, totalWater)));
      case SetShade(input) =>
        var shade := ParseOrKeep(input, current.shade);
        current := current.(shade := shade, dosing := None);
        current := current.(qty := ConvertToSubUnits(QtyFromShade(shade, fabricWeight)));
      case SetUnitPrice(input) =>
        current := current.(unitPrice := ParsePrice(input));
      case SetItemName(name) =>
        current := current.(itemName := name);
      case SetLotNo(lot) =>
        current := current.(lotNo := lot);
      case SetRemarks(note) =>
        current := current.(remarks := note);
    }
    current := current.(costing := Costing(current.qty, current.unitPrice));
    newItems := items[index := current];
    assert Costings(newItems) == Costings(items)[index := current.costing];
    SumUpdate(Costings(items), index, current.costing);
  }

  /** Choosing "Dyeing step" and then any other type leaves a blank row
      (keeping only its highlight), not the placeholder row. */
  lemma StepAndBack(item: ChemicalItem, t: ItemType, tw: Option<real>, fw: Option<real>)
    requires t != DyeingStep
    ensures EditedItem(EditedItem(item, SetItemType(DyeingStep), tw, fw), SetItemType(t), tw, fw)
         == BlankItem.(itemType := t, highlight := item.highlight)
  {
  }

  // ---------------------------------------------------------------------
  // Whole-list recompute
  // ---------------------------------------------------------------------

  /** The kilogram quantity the recompute derives for a row: from dosing
      and total water when both are set, otherwise from shade and fabric
      weight when both are set, otherwise none. */
  function QtySource(item: ChemicalItem, totalWater: Option<real>, fabricWeight: Option<real>): Option<real>
  {
    if item.dosing.Some? && totalWater.Some? then QtyFromDosing(item.dosing, totalWater)
    else if item.shade.Some? && fabricWeight.Some? then QtyFromShade(item.shade, fabricWeight)
    else None
  }

  /** A row as the recompute leaves it. */
  function Recomputed(item: ChemicalItem, totalWater: Option<real>, fabricWeight: Option<real>): (r: ChemicalItem)
    ensures r == item.(qty := r.qty, costing := r.costing)
    ensures r.costing == Costing(r.qty, r.unitPrice)
    ensures item.dosing.Some? && totalWater.Some? ==>
              r.qty == ConvertToSubUnits(QtyFromDosing(item.dosing, totalWater))
    ensures !(item.dosing.Some? && totalWater.Some?) && item.shade.Some? && fabricWeight.Some? ==>
              r.qty == ConvertToSubUnits(QtyFromShade(item.shade, fabricWeight))
    ensures !(item.dosing.Some? && totalWater.Some?) && !(item.shade.Some? && fabricWeight.Some?) ==>
              r.qty == NoQty
  {
    var q := ConvertToSubUnits(QtySource(item, totalWater, fabricWeight));
    item.(qty := q, costing := Costing(q, item.unitPrice))
  }

  /** A row the recompute would leave as it is. */
  predicate Synced(item: ChemicalItem, totalWater: Option<real>, fabricWeight: Option<real>)
  {
    Recomputed(item, totalWater, fabricWeight) == item
  }

  predicate AllSynced(items: seq<ChemicalItem>, totalWater: Option<real>, fabricWeight: Option<real>)
  {
    forall i :: 0 <= i < |items| ==> Synced(items[i], totalWater, fabricWeight)
  }

  function RecomputeAll(items: seq<ChemicalItem>, totalWater: Option<real>, fabricWeight: Option<real>): (r: seq<ChemicalItem>)
    ensures |r| == |items|
    ensures forall i :: 0 <= i < |items| ==> r[i] == Recomputed(items[i], totalWater, fabricWeight)
  {
    seq(|items|, i requires 0 <= i < |items| => Recomputed(items[i], totalWater, fabricWeight))
  }

  /** The recompute's output needs no further recompute. */
  lemma RecomputeIdempotent(items: seq<ChemicalItem>, totalWater: Option<real>, fabricWeight: Option<real>)
    ensures AllSynced(RecomputeAll(items, totalWater, fabricWeight), totalWater, fabricWeight)
    ensures RecomputeAll(RecomputeAll(items, totalWater, fabricWeight), totalWater, fabricWeight)
         == RecomputeAll(items, totalWater, fabricWeight)
  {
  }

  /** A synced list is a fixed point of the recompute. */
  lemma SyncedFixedPoint(items: seq<ChemicalItem>, totalWater: Option<real>, fabricWeight: Option<real>)
    requires AllSynced(items, totalWater, fabricWeight)
    ensures RecomputeAll(items, totalWater, fabricWeight) == items
  {
  }

  /** Any edit keeps a synced row synced, and an edit of the type (to
      "Dyeing step" or away from it), of dosing or of shade leaves the row
      synced whatever it was before: the recompute after such an edit finds
      nothing to change in that row. */
  lemma EditKeepsSynced(item: ChemicalItem, edit: Edit, totalWater: Option<real>, fabricWeight: Option<real>)
    requires Synced(item, totalWater, fabricWeight)
             || edit.SetDosing? || edit.SetShade? || edit == SetItemType(DyeingStep)
             || (edit.SetItemType? && item.itemType == DyeingStep)
    ensures Synced(EditedItem(item, edit, totalWater, fabricWeight), totalWater, fabricWeight)
  {
    var r := EditedItem(item, edit, totalWater, fabricWeight);
    if edit.SetDosing? {
      assert QtySource(r, totalWater, fabricWeight) == QtyFromDosing(r.dosing, totalWater);
    } else if edit.SetShade? {
      assert QtySource(r, totalWater, fabricWeight) == QtyFromShade(r.shade, fabricWeight);
    } else if edit.SetItemType? && (edit.t == DyeingStep || item.itemType == DyeingStep) {
      assert QtySource(r, totalWater, fabricWeight) == None;
    } else {
      assert QtySource(r, totalWater, fabricWeight) == QtySource(item, totalWater, fabricWeight);
    }
  }

  /** A newly added row never needs a recompute. */
  lemma BlankItemSynced(totalWater: Option<real>, fabricWeight: Option<real>)
    ensures Synced(BlankItem, totalWater, fabricWeight)
  {
  }

  /** The recompute's change test: the quantity or the costing differs. */
  predicate Differs(a: ChemicalItem, b: ChemicalItem)
  {
    a.qty != b.qty || a.costing != b.costing
  }

  /** The body of the recompute effect: map every row to its recomputed
      form, raising `changed` when a quantity or a costing differs;
      `notify` is whether `onItemsChange` is called with the new list. */
  method RecomputeItems(items: seq<ChemicalItem>, totalWater: Option<real>, fabricWeight: Option<real>)
    returns (updated: seq<ChemicalItem>, notify: bool)
    ensures updated == RecomputeAll(items, totalWater, fabricWeight)
    ensures notify <==> exists i :: 0 <= i < |items| && Differs(updated[i], items[i])
    ensures notify <==> updated != items
  {
    var changed := false;
    updated := [];
    var i := 0;
    while i < |items|
      invariant 0 <= i <= |items|
      invariant updated == RecomputeAll(items[..i], totalWater, fabricWeight)
      invariant changed <==> exists j :: 0 <= j < i && Differs(updated[j], items[j])
    {
      var item := items[i];
      var newItem := item;
      var newQty := ConvertToSubUnits(QtySource(item, totalWater, fabricWeight));
      if newItem.qty != newQty {
        newItem := newItem.(qty := newQty);
        changed := true;
      }
      var newCosting := Costing(newItem.qty, newItem.unitPrice);
      if newItem.costing != newCosting {
        newItem := newItem.(costing := newCosting);
        changed := true;
      }
      assert newItem == Recomputed(item, totalWater, fabricWeight);
      RecomputeAllSnoc(items, i, totalWater, fabricWeight);
      updated := updated + [newItem];
      i := i + 1;
    }
    assert items[..i] == items;
    if !changed {
      assert forall j :: 0 <= j < |items| ==> updated[j] == items[j];
    }
    notify := changed && updated != items;
  }

  lemma RecomputeAllSnoc(items: seq<ChemicalItem>, i: nat, totalWater: Option<real>, fabricWeight: Option<real>)
    requires i < |items|
    ensures RecomputeAll(items[..i + 1], totalWater, fabricWeight)
         == RecomputeAll(items[..i], totalWater, fabricWeight) + [Recomputed(items[i], totalWater, fabricWeight)]
  {
    assert items[..i + 1] == items[..i] + [items[i]];
  }

  /** The effect re-runs on the list it produced and then reports nothing
      to change, so the cascade settles after one round. */
  method RecomputeSettles(items: seq<ChemicalItem>, totalWater: Option<real>, fabricWeight: Option<real>)
    returns (settled: seq<ChemicalItem>, notifyAgain: bool)
    ensures settled == RecomputeAll(items, totalWater, fabricWeight)
    ensures AllSynced(settled, totalWater, fabricWeight)
    ensures !notifyAgain
  {
    var first;
    settled, first := RecomputeItems(items, totalWater, fabricWeight);
    var again;
    again, notifyAgain := RecomputeItems(settled, totalWater, fabricWeight);
    RecomputeIdempotent(items, totalWater, fabricWeight);
  }
}
