/** Fixed-point rendering of reals, as Python's `f"{v:.Nf}"` prints them, with
    ties rounded away from zero (see README for the difference to binary
    floating point). */
module NumFormat {
  import opened Text

  function Pow10(d: nat): (p: nat)
    ensures p >= 1
  {
    if d == 0 then 1 else 10 * Pow10(d - 1)
  }

  /** `|v| * 10^d` rounded to the nearest integer, ties away from zero. */
  function Scaled(v: real, d: nat): nat {
    var a := if v < 0.0 then -v else v;
    var f := (a * Pow10(d) as real + 0.5).Floor;
    if f < 0 then 0 else f
  }

  /** `f"{v:.{d}f}"`: a minus sign for negative values, then the digits of the
      rounded magnitude. */
  function Fixed(v: real, d: nat): string {
    (if v < 0.0 then "-" else "") + PointDigits(Scaled(v, d), d)
  }

  /** The integer `m` read as `m / 10^d`: integer part, and for d > 0 a point
      followed by exactly d digits. */
  function PointDigits(m: nat, d: nat): string {
    if d == 0 then NatToDigits(m) else NatToDigits(Whole(m, d)) + "." + FracDigits(Frac(m, d), d)
  }

  function Whole(m: nat, d: nat): nat {
    DivNonNeg(m, Pow10(d))
  }

  function Frac(m: nat, d: nat): nat {
    m % Pow10(d)
  }

  function DivNonNeg(m: nat, p: nat): nat
    requires p >= 1
  {
    m / p
  }

  /** The `d` fractional digits of the scaled value. */
  function FracDigits(f: nat, d: nat): (s: string)
    requires d >= 1
    ensures AllDigits(s) && |s| >= d
  {
    ZeroPad(f, d)
  }

  /** For d = 1 the text ends with a point and one digit. */
  lemma FixedOneDecimal(v: real)
    ensures var s := Fixed(v, 1); |s| >= 3 && s[|s| - 2] == '.' && IsDigit(s[|s| - 1])
  {
    var m := Scaled(v, 1);
    var f := FracDigits(m % 10, 1);
    assert Pow10(1) == 10;
    assert |NatToDigits(m % 10)| == 1;
    assert f == NatToDigits(m % 10);
  }

  /** For d = 2 the text ends with a point and two digits. */
  lemma FixedTwoDecimals(v: real)
    ensures var s := Fixed(v, 2); |s| >= 4 && s[|s| - 3] == '.' && IsDigit(s[|s| - 2]) && IsDigit(s[|s| - 1])
  {
    var m := Scaled(v, 2);
    var r := m % 100;
    assert Pow10(2) == 100;
    var f := FracDigits(r, 2);
    if r < 10 {
      assert NatToDigits(r) == [DigitChar(r)];
      assert f == "0" + NatToDigits(r);
    } else {
      assert |NatToDigits(r / 10)| == 1;
      assert f == NatToDigits(r);
    }
  }
}
