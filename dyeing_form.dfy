/** The requisition header form (src/components/DyeingForm.tsx): one field
    changes per input event; a change of fabric weight or liquor ratio
    clamps both at zero and derives the total water again. */
module DyeingForm {
  import opened Types

  /** One change reported by an input of the form. */
  datatype FormEdit =
    | SetText(field: TextField, value: string)
    | SetFabricWeight(fabricWeight: Option<real>)
    | SetLiquorRatio(liquorRatio: Option<real>)

  /** What a number box hands to `handleChange`: the empty string becomes
      null, anything else `Number(text)`. A browser number box reports text
      it cannot read as the empty string, so that becomes null too. */
  function NumberBoxValue(input: FieldInput): (r: Option<real>)
    ensures r.None? <==> !input.Num?
    ensures input.Num? ==> r.value == input.n
  {
    match input
    case Num(n) => Some(n)
    case _ => None
  }

  /** `x === null ? null : Math.max(0, x)`. */
  function ClampNonNegative(x: Option<real>): (r: Option<real>)
    ensures r.None? <==> x.None?
    ensures r.Some? ==> r.value >= 0.0
    ensures r.Some? && x.value >= 0.0 ==> r.value == x.value
  {
    if x.None? then None else Some(Max(0.0, x.value))
  }

  /** The stored total water is the one derived from the stored weight and
      ratio. */
  predicate WaterSynced(d: FormData)
  {
    d.totalWater == TotalWater(d.fabricWeight, d.liquorRatio)
  }

  predicate NonNegativeOrNull(x: Option<real>)
  {
    x.None? || x.value >= 0.0
  }

  /** `handleChange`. */
  function HandleChange(d: FormData, e: FormEdit): (r: FormData)
    ensures e.SetText? ==> r == d.(text := d.text[e.field := e.value])
    ensures e.SetText? ==> r.Field(e.field) == e.value
                           && forall f :: f != e.field ==> r.Field(f) == d.Field(f)
    ensures !e.SetText? ==> r.text == d.text && r.productMode == d.productMode
    ensures e.SetFabricWeight? ==>
              r.fabricWeight == ClampNonNegative(e.fabricWeight) && r.liquorRatio == ClampNonNegative(d.liquorRatio)
    ensures e.SetLiquorRatio? ==>
              r.liquorRatio == ClampNonNegative(e.liquorRatio) && r.fabricWeight == ClampNonNegative(d.fabricWeight)
    ensures !e.SetText? ==> NonNegativeOrNull(r.fabricWeight) && NonNegativeOrNull(r.liquorRatio)
    ensures !e.SetText? ==> WaterSynced(r)
    ensures !e.SetText? ==> (r.totalWater.None? <==> r.fabricWeight.None? || r.liquorRatio.None?)
                            && NonNegativeOrNull(r.totalWater)
  {
    match e
    case SetText(f, v) => d.(text := d.text[f := v])
    case SetFabricWeight(fw) =>
      var fabricWeight, liquorRatio := ClampNonNegative(fw), ClampNonNegative(d.liquorRatio);
      d.(fabricWeight := fabricWeight, liquorRatio := liquorRatio,
         totalWater := TotalWater(fabricWeight, liquorRatio))
    case SetLiquorRatio(lr) =>
      var fabricWeight, liquorRatio := ClampNonNegative(d.fabricWeight), ClampNonNegative(lr);
      d.(fabricWeight := fabricWeight, liquorRatio := liquorRatio,
         totalWater := TotalWater(fabricWeight, liquorRatio))
  }

  /** Clamping first does not change the derived water, which clamps too. */
  lemma ClampKeepsWater(fw: Option<real>, lr: Option<real>)
    ensures TotalWater(ClampNonNegative(fw), ClampNonNegative(lr)) == TotalWater(fw, lr)
  {
  }

  /** Every change keeps the stored total water consistent with the stored
      weight and ratio; a weight or ratio change restores it even when it
      was stale. */
  lemma HandleChangeKeepsWaterSynced(d: FormData, e: FormEdit)
    requires WaterSynced(d) || !e.SetText?
    ensures WaterSynced(HandleChange(d, e))
  {
  }

  /** An empty weight box clears the weight and with it the total water;
      it never counts as zero. */
  lemma EmptyWeightClearsWater(d: FormData)
    ensures HandleChange(d, SetFabricWeight(NumberBoxValue(Empty))).fabricWeight.None?
    ensures HandleChange(d, SetFabricWeight(NumberBoxValue(Empty))).totalWater.None?
  {
  }
}
