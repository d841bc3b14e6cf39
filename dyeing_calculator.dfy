/** The requisition page (src/pages/DyeingCalculator.tsx): its initial
    state, the total-water effect, saving a recipe into the stored list,
    clearing the form, and reordering rows by drag and drop. Storage, the
    clock and the random request id are parameters. */
module DyeingCalculator {
  import opened Types
  import opened Lists
  import opened ChemicalItemsTable
  import opened DyeingForm

  /** `initialFormData`, with today's date (the clock) as a parameter. */
  function InitialFormData(today: string): (d: FormData)
    ensures d.Field(ReqDate) == today
    ensures forall f :: f != ReqDate ==> d.Field(f) == ""
    ensures d.productMode == Inhouse
    ensures d.fabricWeight.None? && d.liquorRatio.None? && d.totalWater.None?
    ensures WaterSynced(d)
  {
    FormData(map[ReqDate := today], Inhouse, None, None, None)
  }

  /** `{ ...initialFormData, reqId: generateReqId() }`, the generated id
      being a parameter. */
  function FreshFormData(reqId: string, today: string): (d: FormData)
    ensures d.Field(ReqId) == reqId
    ensures d == InitialFormData(today).(text := d.text)
    ensures forall f :: f != ReqId ==> d.Field(f) == InitialFormData(today).Field(f)
  {
    var init := InitialFormData(today);
    init.(text := init.text[ReqId := reqId])
  }

  /** The state `handleClear` sets (and the page starts with): a fresh
      form and exactly one blank row. */
  function HandleClear(reqId: string, today: string): (r: (FormData, seq<ChemicalItem>))
    ensures r.0 == FreshFormData(reqId, today)
    ensures r.1 == [BlankItem]
    ensures WaterSynced(r.0)
    ensures AllSynced(r.1, r.0.totalWater, r.0.fabricWeight)
    ensures TotalCosting(r.1) == 0.0
  {
    var form := FreshFormData(reqId, today);
    BlankItemSynced(form.totalWater, form.fabricWeight);
    SumSingleton(0.0);
    assert Costings([BlankItem]) == [0.0];
    (form, [BlankItem])
  }

  /** The total-water effect: store the derived total water when it
      differs from the stored one; the flag says whether it wrote. */
  function SyncTotalWater(d: FormData): (r: (FormData, bool))
    ensures WaterSynced(r.0)
    ensures r.0 == d.(totalWater := r.0.totalWater)
    ensures r.1 <==> !WaterSynced(d)
    ensures !r.1 ==> r.0 == d
  {
    var newTotalWater := TotalWater(d.fabricWeight, d.liquorRatio);
    if newTotalWater != d.totalWater then (d.(totalWater := newTotalWater), true) else (d, false)
  }

  /** The effect re-runs after its own write and then writes nothing. */
  lemma SyncTotalWaterSettles(d: FormData)
    ensures !SyncTotalWater(SyncTotalWater(d).0).1
  {
  }

  /** Stored recipes whose id differs from `id`, in stored order. */
  function OtherRecipes(rs: seq<Recipe>, id: string): seq<Recipe>
  {
    Filter(rs, (r: Recipe) => r.id != id)
  }

  /** Stored recipes whose id is `id`. */
  function RecipesWithId(rs: seq<Recipe>, id: string): seq<Recipe>
  {
    Filter(rs, (r: Recipe) => r.id == id)
  }

  /** The recipes kept beside a saved one are, in order and with their
      multiplicities, the stored recipes with another id. */
  lemma OtherRecipesKept(existing: seq<Recipe>, id: string)
    ensures forall x :: x in OtherRecipes(existing, id) <==> x in existing && x.id != id
    ensures IsSublist(OtherRecipes(existing, id), existing)
    ensures forall x :: multiset(OtherRecipes(existing, id))[x] == if x.id != id then multiset(existing)[x] else 0
  {
    forall x ensures x in OtherRecipes(existing, id) <==> x in existing && x.id != id {
      FilterMembers(existing, (x: Recipe) => x.id != id, x);
    }
    FilterIsSublist(existing, (x: Recipe) => x.id != id);
    forall x ensures multiset(OtherRecipes(existing, id))[x] == if x.id != id then multiset(existing)[x] else 0 {
      FilterCount(existing, (x: Recipe) => x.id != id, x);
    }
  }

  /** The list `handleSave` writes back: the new recipe first, then every
      stored recipe with another id, in their stored order. */
  function HandleSave(existing: seq<Recipe>, formData: FormData, items: seq<ChemicalItem>, timestamp: string)
    : (r: seq<Recipe>)
    ensures |r| >= 1 && r[0] == Recipe(formData.Field(ReqId), timestamp, formData, items)
    ensures |RecipesWithId(r, formData.Field(ReqId))| == 1
    ensures forall x :: x in r[1..] <==> x in existing && x.id != formData.Field(ReqId)
    ensures IsSublist(r[1..], existing)
    ensures forall x :: multiset(r[1..])[x] == if x.id != formData.Field(ReqId) then multiset(existing)[x] else 0
  {
    var id := formData.Field(ReqId);
    var recipe := Recipe(id, timestamp, formData, items);
    var others := OtherRecipes(existing, id);
    var r := [recipe] + others;
    assert r[1..] == others;
    OtherRecipesKept(existing, id);
    FilterKeepsNone(others, (x: Recipe) => x.id == id);
    assert RecipesWithId(r, id) == [recipe] + RecipesWithId(others, id);
    r
  }

  /** Saving the same form twice leaves the same list as saving it once
      with the second timestamp. */
  lemma SaveTwice(existing: seq<Recipe>, formData: FormData, items: seq<ChemicalItem>, t1: string, t2: string)
    ensures HandleSave(HandleSave(existing, formData, items, t1), formData, items, t2)
         == HandleSave(existing, formData, items, t2)
  {
    var id := formData.Field(ReqId);
    var others := OtherRecipes(existing, id);
    var first := HandleSave(existing, formData, items, t1);
    assert first == [Recipe(id, t1, formData, items)] + others;
    assert OtherRecipes(first, id) == OtherRecipes(others, id);
    forall i | 0 <= i < |others| ensures others[i].id != id {
      FilterMembers(existing, (x: Recipe) => x.id != id, others[i]);
    }
    FilterKeepsAll(others, (x: Recipe) => x.id != id);
  }

  lemma CostingsMoved(items: seq<ChemicalItem>, from: nat, to: nat)
    requires from < |items| && to < |items|
    ensures Costings(Moved(items, from, to)) == Moved(Costings(items), from, to)
  {
    forall j | 0 <= j < |items|
      ensures Costings(Moved(items, from, to))[j] == Moved(Costings(items), from, to)[j]
    {
      MovedAt(items, from, to, j);
      MovedAt(Costings(items), from, to, j);
    }
  }

  /** `handleReorderItems`: copy the rows into an array, splice the
      dragged row out and back in at its new place. */
  method HandleReorderItems(items: seq<ChemicalItem>, startIndex: nat, endIndex: nat)
    returns (result: seq<ChemicalItem>)
    requires startIndex < |items| && endIndex < |items|
    ensures result == Moved(items, startIndex, endIndex)
    ensures |result| == |items| && result[endIndex] == items[startIndex]
    ensures multiset(result) == multiset(items)
    ensures TotalCosting(result) == TotalCosting(items)
  {
    var a := new ChemicalItem[|items|](i requires 0 <= i < |items| => items[i]);
    assert a[..] == items;
    MoveInPlace(a, startIndex, endIndex);
    result := a[..];
    MovedPermutes(items, startIndex, endIndex);
    CostingsMoved(items, startIndex, endIndex);
    SumMoved(Costings(items), startIndex, endIndex);
  }

  /** `handleOnDragEnd`: a drop outside the list or onto the same place
      changes nothing; any other drop reorders. */
  method HandleOnDragEnd(items: seq<ChemicalItem>, source: nat, destination: Option<nat>)
    returns (result: seq<ChemicalItem>)
    requires source < |items|
    requires destination.Some? ==> destination.value < |items|
    ensures destination.None? ==> result == items
    ensures destination.Some? ==> result == Moved(items, source, destination.value)
    ensures multiset(result) == multiset(items)
  {
    if destination.None? {
      return items;
    }
    if source == destination.value {
      MovedSame(items, source);
      return items;
    }
    result := HandleReorderItems(items, source, destination.value);
  }
}
