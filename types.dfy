/** The requisition data model and the dosing/quantity primitives
    (src/types/index.ts). A JavaScript `number` is an exact `real` here and
    `number | null` is `Option<real>`; NaN is not representable, so every
    `isNaN` guard of the source coincides with its `null` guard. */
module Types {

  datatype Option<+T> = None | Some(value: T)

  function OrZero(o: Option<real>): real
  {
    if o.Some? then o.value else 0.0
  }

  /** The raw text of a numeric input box, classified as the handlers
      classify it: the empty string, text that `Number()` accepts (with its
      value), or anything else. */
  datatype FieldInput = Empty | Num(n: real) | NotNumeric

  function Max(a: real, b: real): real
  {
    if a >= b then a else b
  }

  function Min(a: real, b: real): real
  {
    if a <= b then a else b
  }

  // ---------------------------------------------------------------------
  // Records
  // ---------------------------------------------------------------------

  /** The string-valued fields of a requisition header. */
  datatype TextField =
    | ReqId | ReqDate | Project | FabricType | Color | ColorMore | LabDipNo
    | MachineDesc | MachineNo | Remarks | ReelSpeed | PumpSpeed | CycleTime
    | DyingType | ColorGroup | LotNo | Gsm | WorkOrder | FabricQty | Buyer
    | BatchNo | BatchQty | OrderNo | Composition

  datatype ProductMode = Inhouse | Subcontract

  /** Header of one requisition; a text field missing from `text` reads as
      the empty string. */
  datatype FormData = FormData(
    text: map<TextField, string>,
    productMode: ProductMode,
    fabricWeight: Option<real>,
    liquorRatio: Option<real>,
    totalWater: Option<real>)
  {
    function Field(f: TextField): string
    {
      if f in text then text[f] else ""
    }
  }

  datatype ItemType = Unset | Chemical | Dyes | DyeingStep

  /** The three display parts of a kilogram quantity; all `None` when the
      quantity is unknown. */
  datatype Qty = Qty(kg: Option<int>, gm: Option<int>, mg: Option<int>)

  const NoQty: Qty := Qty(None, None, None)

  datatype ChemicalItem = ChemicalItem(
    itemType: ItemType,
    itemName: string,
    lotNo: string,
    dosing: Option<real>,
    shade: Option<real>,
    qty: Qty,
    unitPrice: Option<real>,
    costing: real,
    remarks: string,
    highlight: bool)

  datatype Recipe = Recipe(
    id: string,
    timestamp: string,
    formData: FormData,
    chemicalItems: seq<ChemicalItem>)

  // ---------------------------------------------------------------------
  // Water and dosing
  // ---------------------------------------------------------------------

  /** Total liquor in litres: both inputs clamped at zero, then multiplied. */
  function TotalWater(fabricWeight: Option<real>, liquorRatio: Option<real>): (r: Option<real>)
    ensures r.None? <==> fabricWeight.None? || liquorRatio.None?
    ensures r.Some? ==> r.value >= 0.0
    ensures r.Some? && fabricWeight.value >= 0.0 && liquorRatio.value >= 0.0 ==>
              r.value == fabricWeight.value * liquorRatio.value
    ensures r.Some? && (fabricWeight.value <= 0.0 || liquorRatio.value <= 0.0) ==> r.value == 0.0
  {
    if fabricWeight.None? || liquorRatio.None? then None
    else
      var fw, lr := Max(0.0, fabricWeight.value), Max(0.0, liquorRatio.value);
      assert fw * lr >= 0.0 by { NonNegativeProduct(fw, lr); }
      Some(fw * lr)
  }

  lemma NonNegativeProduct(a: real, b: real)
    requires a >= 0.0 && b >= 0.0
    ensures a * b >= 0.0
  {
  }

  /** Kilograms of a chemical dosed at `dosing` g/l into `totalWater` litres. */
  function QtyFromDosing(dosing: Option<real>, totalWater: Option<real>): (r: Option<real>)
    ensures r.None? <==> dosing.None? || totalWater.None?
    ensures r.Some? ==> r.value * 1000.0 == dosing.value * totalWater.value
  {
    if dosing.None? || totalWater.None? then None
    else Some((totalWater.value * dosing.value) / 1000.0)
  }

  /** Kilograms of a dye at `shade` percent of `fabricWeight` kilograms. */
  function QtyFromShade(shade: Option<real>, fabricWeight: Option<real>): (r: Option<real>)
    ensures r.None? <==> shade.None? || fabricWeight.None?
    ensures r.Some? ==> r.value * 100.0 == shade.value * fabricWeight.value
  {
    if shade.None? || fabricWeight.None? then None
    else Some((shade.value * fabricWeight.value) / 100.0)
  }

  /** Dosing and shade agree: `d` g/l over the liquor of `fw` kg at ratio
      `lr` weighs as much as a shade of `d * lr / 10` percent of `fw`. */
  lemma DosingMatchesShade(d: real, fw: real, lr: real)
    requires fw >= 0.0 && lr >= 0.0
    ensures QtyFromDosing(Some(d), TotalWater(Some(fw), Some(lr)))
         == QtyFromShade(Some(d * lr / 10.0), Some(fw))
  {
    var w := TotalWater(Some(fw), Some(lr));
    assert Max(0.0, fw) == fw && Max(0.0, lr) == lr;
    assert w.value == fw * lr;
    var s := d * lr / 10.0;
    assert w.value * d == s * fw * 10.0 by {
      assert fw * lr * d == d * lr * fw;
    }
    assert QtyFromDosing(Some(d), w).value == (w.value * d) / 1000.0;
    assert QtyFromShade(Some(s), Some(fw)).value == (s * fw) / 100.0;
  }

  // ---------------------------------------------------------------------
  // Kilogram / gram / milligram split
  // ---------------------------------------------------------------------

  /** `Math.round` for the non-negative arguments it receives here. */
  function Round(x: real): int
  {
    (x + 0.5).Floor
  }

  /** The whole grams of `t` after its whole kilograms. */
  function GramsOf(t: real): int
  {
    ((t - t.Floor as real) * 1000.0).Floor
  }

  /** The rounded milligrams of `t` after its whole grams. */
  function MilligramsOf(t: real): int
  {
    var grams := (t - t.Floor as real) * 1000.0;
    Round((grams - grams.Floor as real) * 1000.0)
  }

  lemma PartsInRange(t: real)
    ensures 0 <= GramsOf(t) <= 999
    ensures 0 <= MilligramsOf(t) <= 1000
  {
  }

  /** `convertToSubUnits` as written: one carry from mg into gm, then an
      early return, so a carry into 999 grams leaves 1000 grams. */
  function ConvertToSubUnits(totalKg: Option<real>): (q: Qty)
    ensures q == NoQty <==> totalKg.None? || totalKg.value < 0.0
    ensures totalKg.Some? && totalKg.value >= 0.0 ==>
              q.kg == Some(totalKg.value.Floor) && q.gm.Some? && q.mg.Some?
              && 0 <= q.gm.value <= 1000 && 0 <= q.mg.value <= 999
  {
    if totalKg.None? || totalKg.value < 0.0 then NoQty
    else
      var t := totalKg.value;
      PartsInRange(t);
      var kg, gm, mg := t.Floor, GramsOf(t), MilligramsOf(t);
      if mg == 1000 then Qty(Some(kg), Some(gm + 1), Some(0))
      else if gm == 1000 then Qty(Some(kg + 1), Some(0), Some(mg))
      else Qty(Some(kg), Some(gm), Some(mg))
  }

  /** The quantity expressed as one kilogram value, a missing part counting
      as zero (the `|| 0` sum of the costing code). */
  function QtyKg(q: Qty): real
  {
    OrZero(if q.kg.Some? then Some(q.kg.value as real) else None)
    + OrZero(if q.gm.Some? then Some(q.gm.value as real) else None) / 1000.0
    + OrZero(if q.mg.Some? then Some(q.mg.value as real) else None) / 1000000.0
  }

  /** 1000 grams appear exactly when the milligram carry fires on 999 grams. */
  lemma ThousandGramsExactly(t: real)
    requires t >= 0.0
    ensures ConvertToSubUnits(Some(t)).gm == Some(1000)
        <==> GramsOf(t) == 999 && MilligramsOf(t) == 1000
  {
    PartsInRange(t);
  }

  /** A concrete input on which the as-written split shows 1000 grams. */
  lemma ThousandGramsWitness()
    ensures ConvertToSubUnits(Some(0.9999996)) == Qty(Some(0), Some(1000), Some(0))
  {
    assert (0.9999996).Floor == 0;
    assert GramsOf(0.9999996) == 999 by {
      assert (0.9999996 - 0 as real) * 1000.0 == 999.9996;
      assert (999.9996).Floor == 999;
    }
    assert MilligramsOf(0.9999996) == 1000 by {
      var g := (0.9999996 - 0 as real) * 1000.0;
      assert g == 999.9996 && g.Floor == 999;
      assert (g - 999 as real) * 1000.0 + 0.5 == 1000.1;
      assert (1000.1).Floor == 1000;
    }
  }

  /** The split reconstructs the total to within half a milligram. */
  lemma {:induction false} SubUnitsReconstruct(t: real)
    requires t >= 0.0
    ensures -0.0000005 <= QtyKg(ConvertToSubUnits(Some(t))) - t <= 0.0000005
  {
    PartsInRange(t);
    var kg := t.Floor;
    var grams := (t - kg as real) * 1000.0;
    var gm := grams.Floor;
    var micro := (grams - gm as real) * 1000.0;
    var mg := Round(micro);
    assert -0.5 <= mg as real - micro <= 0.5;
    assert t == kg as real + gm as real / 1000.0 + micro / 1000000.0;
  }

  /** `convertToSubUnits` with the carry cascading from milligrams through
      grams into kilograms, as its own comments intend. */
  function ConvertToSubUnitsCarried(totalKg: Option<real>): (q: Qty)
    ensures q == NoQty <==> totalKg.None? || totalKg.value < 0.0
    ensures totalKg.Some? && totalKg.value >= 0.0 ==>
              q.kg.Some? && q.gm.Some? && q.mg.Some?
              && totalKg.value.Floor <= q.kg.value <= totalKg.value.Floor + 1
              && 0 <= q.gm.value <= 999 && 0 <= q.mg.value <= 999
  {
    if totalKg.None? || totalKg.value < 0.0 then NoQty
    else
      var t := totalKg.value;
      PartsInRange(t);
      var kg, gm, mg := t.Floor, GramsOf(t), MilligramsOf(t);
      if mg == 1000 then
        if gm + 1 == 1000 then Qty(Some(kg + 1), Some(0), Some(0))
        else Qty(Some(kg), Some(gm + 1), Some(0))
      else Qty(Some(kg), Some(gm), Some(mg))
  }

  /** The cascading carry changes only the display: both splits denote the
      same kilogram value, so the costing built on either is the same. */
  lemma CarriedSameValue(totalKg: Option<real>)
    ensures QtyKg(ConvertToSubUnitsCarried(totalKg)) == QtyKg(ConvertToSubUnits(totalKg))
  {
    if totalKg.Some? && totalKg.value >= 0.0 {
      PartsInRange(totalKg.value);
    }
  }

  /** The corrected split reconstructs the total to within half a milligram. */
  lemma CarriedReconstruct(t: real)
    requires t >= 0.0
    ensures -0.0000005 <= QtyKg(ConvertToSubUnitsCarried(Some(t))) - t <= 0.0000005
  {
    SubUnitsReconstruct(t);
    CarriedSameValue(Some(t));
  }

  /** On the witness input the corrected split reads one whole kilogram. */
  lemma CarriedWitness()
    ensures ConvertToSubUnitsCarried(Some(0.9999996)) == Qty(Some(1), Some(0), Some(0))
  {
    ThousandGramsWitness();
  }
}
