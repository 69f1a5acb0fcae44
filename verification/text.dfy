/** String helpers shared by the model: the few `str` operations of Python the
    program relies on (suffix tests, ASCII case mapping, `strip`, `split`/`join`
    on one separator, decimal rendering and parsing of integers). */
module Text {
  import opened Wrappers

  /** What the program makes of a text field read with `float(text)`: the
      empty text, which every caller tests for before calling `float`, text
      `float` rejects (white space alone among it), or a number. Decimal
      parsing itself is not modelled. */
  datatype FloatText = Blank | NotANumber | Num(value: real)

  predicate StartsWith(s: string, prefix: string) {
    |prefix| <= |s| && s[..|prefix|] == prefix
  }

  predicate EndsWith(s: string, suffix: string) {
    |suffix| <= |s| && s[|s| - |suffix|..] == suffix
  }

  /** `sub in s`: some window of `s` equals `sub`. */
  predicate Contains(s: string, sub: string) {
    exists i :: 0 <= i <= |s| - |sub| && IsWindow(s, sub, i)
  }

  predicate IsWindow(s: string, sub: string, i: int)
    requires 0 <= i <= |s| - |sub|
  {
    s[i..i + |sub|] == sub
  }

  /** ASCII lower-casing of one character. */
  function LowerChar(c: char): char {
    if 'A' <= c <= 'Z' then (c as int + 32) as char else c
  }

  /** ASCII upper-casing of one character. */
  function UpperChar(c: char): char {
    if 'a' <= c <= 'z' then (c as int - 32) as char else c
  }

  function Lower(s: string): (r: string)
    ensures |r| == |s| && forall i :: 0 <= i < |s| ==> r[i] == LowerChar(s[i])
  {
    if s == [] then [] else [LowerChar(s[0])] + Lower(s[1..])
  }

  function Upper(s: string): (r: string)
    ensures |r| == |s| && forall i :: 0 <= i < |s| ==> r[i] == UpperChar(s[i])
  {
    if s == [] then [] else [UpperChar(s[0])] + Upper(s[1..])
  }

  lemma LowerIdempotent(s: string)
    ensures Lower(Lower(s)) == Lower(s)
  {
  }

  lemma UpperIdempotent(s: string)
    ensures Upper(Upper(s)) == Upper(s)
  {
  }

  /** Lower-casing commutes with concatenation. */
  lemma LowerAppend(a: string, b: string)
    ensures Lower(a + b) == Lower(a) + Lower(b)
  {
  }

  /** A suffix of `s` survives lower-casing as the lower-cased suffix. */
  lemma EndsWithLower(s: string, suffix: string)
    requires EndsWith(s, suffix)
    ensures EndsWith(Lower(s), Lower(suffix))
  {
    var k := |s| - |suffix|;
    assert s == s[..k] + suffix;
    LowerAppend(s[..k], suffix);
  }

  predicate IsSpace(c: char) {
    c == ' ' || c == '\t' || c == '\n' || c == '\r' || c == '\U{0B}' || c == '\U{0C}'
  }

  /** `str.strip()` over the ASCII white-space characters. */
  function Strip(s: string): (r: string)
    ensures |r| <= |s|
    ensures r == [] || (!IsSpace(r[0]) && !IsSpace(r[|r| - 1]))
  {
    StripEnd(StripStart(s))
  }

  function StripStart(s: string): (r: string)
    ensures |r| <= |s| && (r == [] || !IsSpace(r[0]))
    ensures EndsWith(s, r)
  {
    if s == [] then [] else if IsSpace(s[0]) then StripStart(s[1..]) else s
  }

  function StripEnd(s: string): (r: string)
    ensures |r| <= |s| && (r == [] || !IsSpace(r[|r| - 1]))
    ensures StartsWith(s, r)
    ensures s == [] || !IsSpace(s[0]) ==> r == [] || !IsSpace(r[0])
  {
    if s == [] then [] else if IsSpace(s[|s| - 1]) then StripEnd(s[..|s| - 1]) else s
  }

  /** A string with no white space at either end is its own strip. */
  lemma StripTrimmed(s: string)
    requires s == [] || (!IsSpace(s[0]) && !IsSpace(s[|s| - 1]))
    ensures Strip(s) == s
  {
  }

  predicate NoChar(s: string, c: char) {
    forall i :: 0 <= i < |s| ==> s[i] != c
  }

  /** `s.split(sep)` for a one-character separator: the pieces between
      separators, always at least one. */
  function Split(s: string, sep: char): (parts: seq<string>)
    ensures |parts| >= 1
    decreases |s|
  {
    var k := IndexOf(s, sep);
    if k == |s| then [s] else [s[..k]] + Split(s[k + 1..], sep)
  }

  /** Index of the first `c` in `s`, or `|s|` when there is none. */
  function IndexOf(s: string, c: char): (k: nat)
    ensures k <= |s| && NoChar(s[..k], c) && (k < |s| ==> s[k] == c)
  {
    if s == [] then 0 else if s[0] == c then 0 else 1 + IndexOf(s[1..], c)
  }

  /** `sep.join(parts)`. */
  function Join(parts: seq<string>, sep: char): string {
    if parts == [] then [] else if |parts| == 1 then parts[0] else parts[0] + [sep] + Join(parts[1..], sep)
  }

  /** Splitting a join on a separator that occurs in no part gives the parts back. */
  lemma {:induction false} SplitJoin(parts: seq<string>, sep: char)
    requires |parts| >= 1
    requires forall i :: 0 <= i < |parts| ==> NoChar(parts[i], sep)
    ensures Split(Join(parts, sep), sep) == parts
  {
    var p := parts[0];
    if |parts| == 1 {
      IndexOfAbsent(p, sep);
    } else {
      var rest := Join(parts[1..], sep);
      var s := p + [sep] + rest;
      IndexOfFirst(p, sep, rest);
      assert s[..|p|] == p;
      assert s[|p| + 1..] == rest;
      SplitJoin(parts[1..], sep);
    }
  }

  lemma {:induction false} IndexOfAbsent(s: string, c: char)
    requires NoChar(s, c)
    ensures IndexOf(s, c) == |s|
  {
    if s != [] {
      IndexOfAbsent(s[1..], c);
    }
  }

  lemma {:induction false} IndexOfFirst(p: string, c: char, rest: string)
    requires NoChar(p, c)
    ensures IndexOf(p + [c] + rest, c) == |p|
  {
    if p != [] {
      assert (p + [c] + rest)[1..] == p[1..] + [c] + rest;
      IndexOfFirst(p[1..], c, rest);
    }
  }

  predicate IsDigit(c: char) {
    '0' <= c <= '9'
  }

  predicate AllDigits(s: string) {
    forall i :: 0 <= i < |s| ==> IsDigit(s[i])
  }

  function DigitChar(d: nat): char
    requires d < 10
  {
    ('0' as int + d) as char
  }

  /** The decimal digits of `n`, most significant first, without leading zeros. */
  function NatToDigits(n: nat): (s: string)
    ensures |s| >= 1 && AllDigits(s)
  {
    if n < 10 then [DigitChar(n)] else NatToDigits(n / 10) + [DigitChar(n % 10)]
  }

  /** The value of a string of decimal digits (leading zeros allowed). */
  function DigitsValue(s: string): nat
    requires AllDigits(s)
  {
    if s == [] then 0 else DigitsValue(s[..|s| - 1]) * 10 + (s[|s| - 1] as int - '0' as int)
  }

  lemma {:induction false} DigitsRoundTrip(n: nat)
    ensures DigitsValue(NatToDigits(n)) == n
  {
    if n >= 10 {
      var s := NatToDigits(n);
      assert s[..|s| - 1] == NatToDigits(n / 10);
      DigitsRoundTrip(n / 10);
    }
  }

  /** Leading zeros do not change the value of a digit string. */
  lemma {:induction false} DigitsLeadingZero(s: string)
    requires AllDigits(s)
    ensures AllDigits("0" + s) && DigitsValue("0" + s) == DigitsValue(s)
  {
    if s != [] {
      var t := "0" + s;
      assert t[..|t| - 1] == "0" + s[..|s| - 1];
      DigitsLeadingZero(s[..|s| - 1]);
    }
  }

  /** `str(n)` for an integer. */
  function IntToString(n: int): string {
    if n < 0 then "-" + NatToDigits(-n) else NatToDigits(n)
  }

  /** Digits in which single underscores may separate two digits, as `int()`
      reads them ("1_000"): a digit, then groups each made of an optional
      underscore and a digit. */
  predicate DigitGroups(s: string) {
    |s| >= 1 && IsDigit(s[0])
    && (|s| == 1 || DigitGroups(if s[1] == '_' then s[2..] else s[1..]))
  }

  /** The digits of grouped text, with the underscores taken out. */
  function Ungrouped(s: string): (d: string)
    requires DigitGroups(s)
    ensures |d| >= 1 && AllDigits(d)
    ensures AllDigits(s) ==> d == s
  {
    [s[0]] + (if |s| == 1 then [] else Ungrouped(if s[1] == '_' then s[2..] else s[1..]))
  }

  /** Plain digits are grouped text with no underscore. */
  lemma {:induction false} DigitsAreGroups(s: string)
    ensures |s| >= 1 && AllDigits(s) ==> DigitGroups(s)
  {
    if |s| >= 2 && AllDigits(s) {
      DigitsAreGroups(s[1..]);
    }
  }

  /** `int(s)` on a stripped string: an optional sign, then ASCII digits that
      single underscores may group; anything else is modelled as the
      `ValueError`, `None`. Python also reads the other Unicode decimal
      digits, which this model does not. */
  function ParseInt(s: string): (r: Option<int>)
    ensures r.Some? ==> |s| >= 1
    ensures |s| >= 1 && AllDigits(s) ==> r == Some(DigitsValue(s))
  {
    DigitsAreGroups(s);
    if |s| >= 2 && (s[0] == '-' || s[0] == '+') && DigitGroups(s[1..]) then
      var v: int := DigitsValue(Ungrouped(s[1..]));
      Some(if s[0] == '-' then -v else v)
    else if DigitGroups(s) then Some(DigitsValue(Ungrouped(s)))
    else None
  }

  /** Python reads grouped digits: `int("1_200") == 1200`. */
  lemma ParseIntGrouped()
    ensures ParseInt("1_200") == Some(1200)
  {
    GroupedValue("1_200", "1200");
  }

  lemma GroupedValue(s: string, d: string)
    requires s == "1_200" && d == "1200"
    ensures ParseInt(s) == Some(1200)
  {
    assert s[0] == '1' && s[1] == '_' && s[2..] == d[1..] && AllDigits(d[1..]);
    DigitsAreGroups(d[1..]);
    assert DigitGroups(s) && Ungrouped(s) == [s[0]] + d[1..];
    assert [s[0]] + d[1..] == d;
    assert DigitsValue(d) == 1200 by {
      assert d[..3] == "120" && "120"[..2] == "12" && "12"[..1] == "1" && "1"[..0] == "";
    }
  }

  /** `int("1_0") == 10`, and a sign may precede the groups. */
  lemma ParseIntSignedGroups()
    ensures ParseInt("1_0") == Some(10) && ParseInt("-1_0") == Some(-10)
  {
    assert "-1_0"[1..] == "1_0" && "1_0"[2..] == "0";
    assert DigitGroups("0") && Ungrouped("0") == "0";
    assert DigitGroups("1_0") && Ungrouped("1_0") == "10";
    assert DigitsValue("10") == 10 by { assert "10"[..1] == "1" && "1"[..0] == ""; }
  }

  /** An underscore at either end, or two in a row, raise `ValueError`. */
  lemma ParseIntBadGroups()
    ensures ParseInt("1__0") == None && ParseInt("_1") == None && ParseInt("1_") == None
  {
    assert !DigitGroups("1__0") by { assert "1__0"[1] == '_' && "1__0"[2] == '_'; }
  }

  /** `int(str(n)) == n`. */
  lemma ParseIntToString(n: int)
    ensures ParseInt(IntToString(n)) == Some(n)
  {
    var s := IntToString(n);
    if n < 0 {
      ParseNegative(s);
      DigitsRoundTrip(-n);
    } else {
      ParsePlain(s);
      DigitsRoundTrip(n);
    }
  }

  /** Plain digits read as their decimal value. */
  lemma ParsePlain(s: string)
    requires |s| >= 1 && AllDigits(s)
    ensures ParseInt(s) == Some(DigitsValue(s))
  {
  }

  /** A minus sign before plain digits negates their value. */
  lemma ParseNegative(s: string)
    requires |s| >= 2 && s[0] == '-' && AllDigits(s[1..])
    ensures ParseInt(s) == Some(-(DigitsValue(s[1..]) as int))
  {
    DigitsAreGroups(s[1..]);
  }

  /** `f"{n:0{width}d}"` for a non-negative `n`: zeros padded on the left. */
  function ZeroPad(n: nat, width: nat): (s: string)
    ensures AllDigits(s) && DigitsValue(s) == n && |s| >= width
  {
    DigitsRoundTrip(n);
    PadDigits(NatToDigits(n), width, n)
  }

  function PadDigits(s: string, width: nat, ghost n: nat): (r: string)
    requires AllDigits(s) && DigitsValue(s) == n
    ensures AllDigits(r) && DigitsValue(r) == n && |r| >= width
    decreases width - |s|
  {
    DigitsLeadingZero(s);
    if |s| >= width then s else PadDigits("0" + s, width, n)
  }

  /** Zero padding is injective: different numbers give different strings. */
  lemma ZeroPadInjective(m: nat, n: nat, width: nat)
    requires ZeroPad(m, width) == ZeroPad(n, width)
    ensures m == n
  {
  }
}
