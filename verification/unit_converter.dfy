/** The unit converter dialog: mm and inches in both directions, with the
    rounded factor the dialog uses from mm to inches. */
module UnitConverter {
  import opened Wrappers
  import opened Text
  import opened Helpers
  import opened Arith

  const InchesPerMm: real := 0.0393701

  /** The conversion factor between the two selected units. */
  function Factor(input: string, output: string): (f: real)
    ensures input == "mm" && output == "inches" ==> f == InchesPerMm
    ensures input == "inches" && output == "mm" ==> f == MmPerInch
    ensures !(input == "mm" && output == "inches") && !(input == "inches" && output == "mm") ==> f == 1.0
  {
    if input == "mm" && output == "inches" then 0.0393701
    else if input == "inches" && output == "mm" then 25.4
    else 1.0
  }

  /** `convert_units`: the output field, `None` when it is cleared (empty
      input or text that does not parse). */
  function Convert(input: FloatText, inUnit: string, outUnit: string): (out: Option<real>)
    ensures out.Some? <==> input.Num?
    ensures out.Some? ==> out.value == input.value * Factor(inUnit, outUnit)
    ensures out.Some? && inUnit == outUnit ==> out.value == input.value
  {
    if input.Num? then Some(input.value * Factor(inUnit, outUnit)) else None
  }

  /** mm to inches and back is not exact: the product of the two factors is
      1.00000054, so the value comes back larger by a relative error below
      one in a million. */
  lemma MmInchesRoundTrip(v: real)
    ensures var there := Convert(Num(v), "mm", "inches").value;
      var back := Convert(Num(there), "inches", "mm").value;
      back == v * 1.00000054 && AbsR(back - v) <= AbsR(v) / 1000000.0
      && (v != 0.0 ==> back != v)
  {
  }

  /** Inches to mm and back has the same error. */
  lemma InchesMmRoundTrip(v: real)
    ensures var there := Convert(Num(v), "inches", "mm").value;
      Convert(Num(there), "mm", "inches").value == v * 1.00000054
  {
  }

  /** The dialog's state: the two unit selections, the input field and the
      output field. */
  datatype Converter = Converter(inUnit: string, outUnit: string, input: FloatText, output: Option<real>)

  /** The output field after any change: every change of the input or a unit
      re-runs the conversion. */
  predicate Settled(c: Converter) {
    c.output == Convert(c.input, c.inUnit, c.outUnit)
  }

  /** `swap_units`: the units trade places, the output becomes the input (or
      the input is cleared when the output is empty), and the conversion runs
      again on the new input. */
  function Swap(c: Converter): (d: Converter)
    ensures d.inUnit == c.outUnit && d.outUnit == c.inUnit
    ensures c.output.Some? ==> d.input == Num(c.output.value)
    ensures c.output.None? ==> d.input == Blank
    ensures Settled(d)
  {
    var input := if c.output.Some? then Num(c.output.value) else Blank;
    Converter(c.outUnit, c.inUnit, input, Convert(input, c.outUnit, c.inUnit))
  }

  /** Swapping a settled mm-to-inches conversion converts the result back:
      the new output is the old input up to the factor error. */
  lemma SwapConvertsBack(v: real)
    ensures var c := Converter("mm", "inches", Num(v), Convert(Num(v), "mm", "inches"));
      Swap(c).output == Some(v * 1.00000054)
  {
  }

  /** Swapping twice restores the units, and a cleared output clears
      everything. */
  lemma SwapTwice(c: Converter)
    ensures Swap(Swap(c)).inUnit == c.inUnit && Swap(Swap(c)).outUnit == c.outUnit
    ensures c.output.None? ==> Swap(c).input == Blank && Swap(c).output.None?
  {
  }
}
