/** The scale calculator dialog: a scale factor from a document length and
    the real length it stands for, and the reverse use of a scale factor to
    turn a known length into the other one. */
module ScaleCalculator {
  import opened Text
  import opened Helpers

  /** The text of the two result labels. */
  datatype CalcResult =
    | NotCalculated
    | InvalidValues
    | InvalidInput
    | Factor(scale: real, form: RatioForm)

  /** A document length in mm: inches, pixels at an assumed 300 DPI, or mm
      (also for any other unit name). */
  function DocToMm(v: real, unit: string): (mm: real)
    ensures unit == "inches" ==> mm == v * MmPerInch
    ensures unit == "pixels" ==> mm * 300.0 == v * MmPerInch
    ensures unit != "inches" && unit != "pixels" ==> mm == v
  {
    if unit == "inches" then v * 25.4
    else if unit == "pixels" then v * 25.4 / 300.0
    else v
  }

  /** A real length in mm: inches, or mm for any other unit name. */
  function RealToMm(v: real, unit: string): (mm: real)
    ensures unit == "inches" ==> mm == v * MmPerInch
    ensures unit != "inches" ==> mm == v
  {
    if unit == "inches" then v * 25.4 else v
  }

  /** `calculate_scale`. Empty fields come first; a field that does not parse
      is an invalid input; non-positive values are invalid values. */
  function CalculateScale(doc: FloatText, docUnits: string, realLen: FloatText, realUnits: string): (r: CalcResult)
    ensures r.NotCalculated? <==> doc.Blank? || realLen.Blank?
    ensures r.InvalidInput? <==> !doc.Blank? && !realLen.Blank? && (doc.NotANumber? || realLen.NotANumber?)
    ensures r.Factor? <==> doc.Num? && realLen.Num? && doc.value > 0.0 && realLen.value > 0.0
    ensures r.Factor? ==> r.scale > 0.0 && r.scale * DocToMm(doc.value, docUnits) == RealToMm(realLen.value, realUnits)
    ensures r.Factor? ==> (r.form.TimesOne? <==> r.scale >= 1.0)
    ensures r.Factor? && r.form.TimesOne? ==> r.form.scale == r.scale
    ensures r.Factor? && r.form.OneTo? ==> r.form.ratio * r.scale == 1.0
  {
    if doc.Blank? || realLen.Blank? then NotCalculated
    else if doc.NotANumber? || realLen.NotANumber? then InvalidInput
    else if doc.value <= 0.0 || realLen.value <= 0.0 then InvalidValues
    else
      var docMm := DocToMm(doc.value, docUnits);
      var realMm := RealToMm(realLen.value, realUnits);
      var scale := realMm / docMm;
      Factor(scale, if scale >= 1.0 then TimesOne(scale) else OneTo(1.0 / scale))
  }

  /** The same physical lengths give the same scale whether the real length is
      entered in mm or in inches. */
  lemma ScaleUnitInvariant(doc: real, docUnits: string, inches: real)
    requires doc > 0.0 && inches > 0.0
    ensures CalculateScale(Num(doc), docUnits, Num(inches), "inches")
         == CalculateScale(Num(doc), docUnits, Num(inches * MmPerInch), "mm")
  {
  }

  /** The same holds for the document length in mm or in inches. */
  lemma ScaleDocUnitInvariant(inches: real, realLen: real, realUnits: string)
    requires inches > 0.0 && realLen > 0.0
    ensures CalculateScale(Num(inches), "inches", Num(realLen), realUnits)
         == CalculateScale(Num(inches * MmPerInch), "mm", Num(realLen), realUnits)
  {
  }

  /** The result label of the "use scale" half. */
  datatype UseResult = UseNotCalculated | UseInvalidValues | UseInvalidInput | Length(value: real)

  /** `use_scale_calculate`: the known length in mm times the scale, in the
      target unit. */
  function UseScale(scale: FloatText, known: FloatText, knownUnits: string, calcUnits: string): (r: UseResult)
    ensures r.UseNotCalculated? <==> scale.Blank? || known.Blank?
    ensures r.UseInvalidInput? <==> !scale.Blank? && !known.Blank? && (scale.NotANumber? || known.NotANumber?)
    ensures r.Length? <==> scale.Num? && known.Num? && scale.value > 0.0 && known.value > 0.0
    ensures r.Length? ==> RealToMm(r.value, calcUnits) == RealToMm(known.value, knownUnits) * scale.value
  {
    if scale.Blank? || known.Blank? then UseNotCalculated
    else if scale.NotANumber? || known.NotANumber? then UseInvalidInput
    else if scale.value <= 0.0 || known.value <= 0.0 then UseInvalidValues
    else
      var knownMm := RealToMm(known.value, knownUnits);
      var calcMm := knownMm * scale.value;
      Length(if calcUnits == "inches" then calcMm / 25.4 else calcMm)
  }

  /** Feeding the computed factor back with the document length returns the
      real length, in the real length's unit (the "use scale" units are mm
      and inches only). */
  lemma UseScaleRoundTrip(doc: real, docUnits: string, realLen: real, realUnits: string)
    requires doc > 0.0 && realLen > 0.0
    requires docUnits in {"mm", "inches"} && realUnits in {"mm", "inches"}
    ensures var c := CalculateScale(Num(doc), docUnits, Num(realLen), realUnits);
      c.Factor? && UseScale(Num(c.scale), Num(doc), docUnits, realUnits) == Length(realLen)
  {
    var c := CalculateScale(Num(doc), docUnits, Num(realLen), realUnits);
    var u := UseScale(Num(c.scale), Num(doc), docUnits, realUnits);
    assert RealToMm(doc, docUnits) == DocToMm(doc, docUnits);
    assert RealToMm(u.value, realUnits) == RealToMm(realLen, realUnits);
  }
}
