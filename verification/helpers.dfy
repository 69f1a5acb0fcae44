/** The unit, scale and page-size helpers of `opentiler/utils/helpers.py`. */
module Helpers {
  import opened Wrappers
  import opened Text
  import opened NumFormat
  import opened Arith

  const MmPerInch: real := 25.4

  /** Millimetres per unit in `convert_units`; an unknown unit counts as mm. */
  function ToMm(unit: string): (f: real)
    ensures f > 0.0
    ensures unit !in {"mm", "inches", "pixels"} ==> f == 1.0
  {
    if unit == "mm" then 1.0
    else if unit == "inches" then MmPerInch
    else if unit == "pixels" then MmPerInch / 300.0
    else 1.0
  }

  /** `convert_units`: through millimetres, then into the target unit. */
  function ConvertUnits(value: real, fromUnit: string, toUnit: string): (r: real)
    ensures r * ToMm(toUnit) == value * ToMm(fromUnit)
  {
    value * ToMm(fromUnit) / ToMm(toUnit)
  }

  /** Converting into the unit one started from changes nothing. */
  lemma ConvertSameUnit(value: real, unit: string)
    ensures ConvertUnits(value, unit, unit) == value
  {
    var f := ToMm(unit);
    assert ConvertUnits(value, unit, unit) * f == value * f;
  }

  /** Converting there and back again is the identity. */
  lemma ConvertRoundTrip(value: real, a: string, b: string)
    ensures ConvertUnits(ConvertUnits(value, a, b), b, a) == value
  {
    var there := ConvertUnits(value, a, b);
    var back := ConvertUnits(there, b, a);
    assert back * ToMm(a) == there * ToMm(b) == value * ToMm(a);
  }

  /** Unknown units are silently treated as millimetres. */
  lemma ConvertUnknownUnit(value: real, unit: string, other: string)
    requires unit !in {"mm", "inches", "pixels"}
    ensures ConvertUnits(value, unit, other) == ConvertUnits(value, "mm", other)
    ensures ConvertUnits(value, other, unit) == ConvertUnits(value, other, "mm")
  {
  }

  /** The unit tests of the helpers module: 25.4 mm is one inch, one inch is
      25.4 mm, 100 mm stay 100 mm. */
  lemma ConvertExamples()
    ensures ConvertUnits(25.4, "mm", "inches") == 1.0
    ensures ConvertUnits(1.0, "inches", "mm") == 25.4
    ensures ConvertUnits(100.0, "mm", "mm") == 100.0
  {
  }

  /** `calculate_scale_factor`: millimetres per pixel, or the sentinel 1.0 when
      either distance is not positive. */
  function CalculateScaleFactor(pixelDistance: real, realDistance: real, units: string): (r: real)
    ensures pixelDistance <= 0.0 || realDistance <= 0.0 ==> r == 1.0
    ensures pixelDistance > 0.0 && realDistance > 0.0 ==>
      r > 0.0 && r * pixelDistance == realDistance * (if units == "inches" then MmPerInch else 1.0)
  {
    if pixelDistance <= 0.0 || realDistance <= 0.0 then 1.0
    else
      var realMm := if units == "inches" then realDistance * MmPerInch else realDistance;
      realMm / pixelDistance
  }

  /** A length given in inches yields the same scale as the same length in mm. */
  lemma ScaleFactorUnitInvariant(pixelDistance: real, inches: real)
    requires pixelDistance > 0.0 && inches > 0.0
    ensures CalculateScaleFactor(pixelDistance, inches, "inches")
         == CalculateScaleFactor(pixelDistance, inches * MmPerInch, "mm")
  {
  }

  lemma ScaleFactorExamples()
    ensures CalculateScaleFactor(100.0, 50.0, "mm") == 0.5
    ensures CalculateScaleFactor(100.0, 1.0, "inches") == 25.4 / 100.0
    ensures CalculateScaleFactor(0.0, 50.0, "mm") == 1.0
    ensures CalculateScaleFactor(100.0, 0.0, "mm") == 1.0
  {
  }

  /** Which way `format_scale_ratio` prints a scale. */
  datatype RatioForm = TimesOne(scale: real) | OneTo(ratio: real)

  /** The branch `format_scale_ratio` takes; a zero scale divides by zero. */
  function ScaleRatioForm(scale: real): (r: Result<RatioForm, string>)
    ensures r.Failure? <==> scale == 0.0
    ensures r.Success? ==> (r.value.TimesOne? <==> scale >= 1.0)
    ensures r.Success? && r.value.TimesOne? ==> r.value.scale == scale
    ensures r.Success? && r.value.OneTo? ==> r.value.ratio * scale == 1.0
  {
    if scale >= 1.0 then Success(TimesOne(scale))
    else if scale == 0.0 then Failure("ZeroDivisionError")
    else Success(OneTo(1.0 / scale))
  }

  /** `format_scale_ratio`: "<s>:1" with two decimals, or "1:<1/s>" with one;
      only a zero scale fails. */
  function FormatScaleRatio(scale: real): (r: Result<string, string>)
    ensures r.Failure? <==> scale == 0.0
    ensures scale >= 1.0 ==> r.value == Fixed(scale, 2) + ":1"
    ensures scale != 0.0 && scale < 1.0 ==> r.value == "1:" + Fixed(1.0 / scale, 1)
  {
    match ScaleRatioForm(scale)
    case Failure(e) => Failure(e)
    case Success(TimesOne(s)) => Success(Fixed(s, 2) + ":1")
    case Success(OneTo(q)) => Success("1:" + Fixed(q, 1))
  }

  /** The printed ratio ends in ":1" exactly in the scale-at-least-one branch. */
  lemma FormatScaleRatioBranch(scale: real)
    requires scale != 0.0
    ensures FormatScaleRatio(scale).Success?
    ensures EndsWith(FormatScaleRatio(scale).value, ":1") <==> scale >= 1.0
  {
    var r := FormatScaleRatio(scale).value;
    if scale < 1.0 {
      var t := Fixed(1.0 / scale, 1);
      FixedOneDecimal(1.0 / scale);
      assert r == "1:" + t;
      assert r[|r| - 2] == t[|t| - 2] == '.';
    } else {
      assert r == Fixed(scale, 2) + ":1";
      assert r[|r| - 2..] == ":1";
    }
  }

  /** The unit test's first case: 2.5 prints as "2.50:1". */
  lemma FormatScaleRatioTwoAndHalf(scale: real)
    requires scale == 2.5
    ensures FormatScaleRatio(scale) == Success("2.50:1")
  {
    assert Scaled(scale, 2) == 250;
    assert NatToDigits(2) == "2";
    assert NatToDigits(50) == "50";
    assert ZeroPad(50, 2) == "50";
    assert Fixed(scale, 2) == "2.50";
    assert "2.50" + ":1" == "2.50:1";
  }

  /** The unit test's second case: 0.01 prints as "1:100.0". */
  lemma FormatScaleRatioHundredth(scale: real)
    requires scale == 0.01
    ensures FormatScaleRatio(scale) == Success("1:100.0")
  {
    var q := 1.0 / scale;
    assert q == 100.0;
    assert ScaleRatioForm(scale) == Success(OneTo(q));
    assert Pow10(1) == 10;
    assert Scaled(q, 1) == 1000;
    assert Whole(1000, 1) == 100 && Frac(1000, 1) == 0;
    assert NatToDigits(100) == "100";
    assert FracDigits(0, 1) == "0";
    assert PointDigits(1000, 1) == "100.0";
    assert Fixed(q, 1) == "100.0";
    assert "1:" + "100.0" == "1:100.0";
  }

  /** `get_page_size_mm`: (width, height) in mm; unknown names give A4. */
  function PageSizeMm(name: string): (wh: (real, real))
    ensures name !in {"A4", "A3", "A5", "Letter", "Legal", "Tabloid"} ==> wh == (210.0, 297.0)
    ensures 0.0 < wh.0 < wh.1
  {
    if name == "A4" then (210.0, 297.0)
    else if name == "A3" then (297.0, 420.0)
    else if name == "A5" then (148.0, 210.0)
    else if name == "Letter" then (215.9, 279.4)
    else if name == "Legal" then (215.9, 355.6)
    else if name == "Tabloid" then (279.4, 431.8)
    else (210.0, 297.0)
  }

  /** The page-size unit tests: A4, Letter, and an unknown name read as A4. */
  lemma PageSizeTests()
    ensures PageSizeMm("A4") == (210.0, 297.0)
    ensures PageSizeMm("Letter") == (215.9, 279.4)
    ensures PageSizeMm("Unknown") == (210.0, 297.0)
  {
  }

  /** `pixels_to_mm`; a zero dpi raises `ZeroDivisionError`. */
  function PixelsToMm(pixels: real, dpi: int): (r: Option<real>)
    ensures r.Some? <==> dpi != 0
    ensures r.Some? ==> r.value * dpi as real == pixels * MmPerInch
  {
    if dpi == 0 then None else Some(pixels / dpi as real * MmPerInch)
  }

  /** `mm_to_pixels`. */
  function MmToPixels(mm: real, dpi: int): (r: real)
    ensures r * MmPerInch == mm * dpi as real
  {
    mm / MmPerInch * dpi as real
  }

  /** The two conversions undo each other for any non-zero dpi. */
  lemma PixelsMmInverse(v: real, dpi: int)
    requires dpi != 0
    ensures PixelsToMm(MmToPixels(v, dpi), dpi) == Some(v)
    ensures MmToPixels(PixelsToMm(v, dpi).value, dpi) == v
  {
    var d := dpi as real;
    var p := MmToPixels(v, dpi);
    var back := PixelsToMm(p, dpi).value;
    assert back * d == p * MmPerInch == v * d;
    MulCancel(back, v, d);
    var m := PixelsToMm(v, dpi).value;
    assert MmToPixels(m, dpi) * MmPerInch == m * d == v * MmPerInch;
    MulCancel(MmToPixels(m, dpi), v, MmPerInch);
  }

  /** `validate_numeric_input`: the parsed number when it lies in [lo, hi]. */
  function ValidateNumericInput(text: FloatText, lo: real, hi: Option<real>): (r: Option<real>)
    ensures r.Some? <==> text.Num? && lo <= text.value && (hi.None? || text.value <= hi.value)
    ensures r.Some? ==> r.value == text.value
  {
    match text
    case Num(v) => if lo <= v && (hi.None? || v <= hi.value) then Some(v) else None
    case _ => None
  }
}
