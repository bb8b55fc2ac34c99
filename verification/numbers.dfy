/** The numeric recognisers of db_stuffs.py: the decimal-literal subset of Python's
    `float(...)` and `int(...)` constructors, and `is_nonnegative_number`. */
module Numbers {
  import opened Base
  import opened Text

  predicate IsDigit(c: char) {
    '0' <= c <= '9'
  }

  predicate AllDigits(s: string) {
    forall i :: 0 <= i < |s| ==> IsDigit(s[i])
  }

  /** The value of a string of decimal digits, most significant digit first. */
  function DigitsValue(s: string): nat
    requires AllDigits(s)
    decreases |s|
  {
    if |s| == 0 then 0
    else DigitsValue(s[..|s| - 1]) * 10 + (s[|s| - 1] as int - '0' as int)
  }

  /** An exact decimal: (-1 if `negative`) * `units` / 10^`scale`. Python's float
      is replaced by this exact value; `scale` counts the digits after the point. */
  datatype Decimal = Decimal(negative: bool, units: nat, scale: nat) {
    /** Python's `value >= 0`; a negative zero such as `-0.0` compares as non-negative. */
    predicate NonNegative() {
      !negative || units == 0
    }
  }

  /** Which constructor `is_nonnegative_number` applies to the text. */
  datatype Constructor = FloatConstructor | IntConstructor

  /** Splits an optional leading sign off a numeral. */
  function SignAndBody(s: string): (r: (bool, string))
    ensures |r.1| <= |s|
    ensures r.1 == s || r.1 == s[1..]
    ensures r.0 ==> |s| > 0 && s[0] == '-'
  {
    if |s| > 0 && s[0] == '-' then (true, s[1..])
    else if |s| > 0 && s[0] == '+' then (false, s[1..])
    else (false, s)
  }

  /** Python's `float(s)` on the literals `[sign] digits [. digits]` and `[sign] . digits`;
      `None` stands for the ValueError every other text raises. */
  function ParseFloat(s: string): (r: Option<Decimal>)
    ensures r.Some? ==> |s| > 0
  {
    var (negative, body) := SignAndBody(s);
    ParseMagnitude(negative, body)
  }

  /** The unsigned part of a float literal, with the sign already taken off. */
  function ParseMagnitude(negative: bool, body: string): (r: Option<Decimal>)
    ensures r.Some? ==> |body| > 0 && r.value.negative == negative
  {
    if '.' in body then
      var i := FirstIndex(body, '.');
      var whole := body[..i];
      var fraction := body[i + 1..];
      if AllDigits(whole) && AllDigits(fraction) && |whole| + |fraction| > 0
      then Some(Decimal(negative, DigitsValue(whole + fraction), |fraction|))
      else None
    else if AllDigits(body) && |body| > 0 then Some(Decimal(negative, DigitsValue(body), 0))
    else None
  }

  /** Python's `int(s)` on the literals `[sign] digits`; `None` stands for ValueError. */
  function ParseInt(s: string): (r: Option<int>)
    ensures r.Some? ==> '.' !in s
  {
    var (negative, body) := SignAndBody(s);
    if AllDigits(body) && |body| > 0 then
      Some(if negative then 0 - DigitsValue(body) else DigitsValue(body))
    else None
  }

  /** `is_nonnegative_number(string, constructor)`: the constructor accepts the text and
      the value it yields is at least zero. */
  function IsNonnegativeNumber(s: string, ctor: Constructor): (ok: bool)
    ensures ok ==> |s| > 0
    ensures ctor == IntConstructor && '.' in s ==> !ok
  {
    match ctor
    case FloatConstructor => ParseFloat(s).Some? && ParseFloat(s).value.NonNegative()
    case IntConstructor => ParseInt(s).Some? && ParseInt(s).value >= 0
  }

  // Rendering, used by the report and as the inverse of the parsers

  function DigitChar(d: nat): (c: char)
    requires d < 10
    ensures IsDigit(c) && c as int - '0' as int == d
  {
    (d + '0' as int) as char
  }

  /** The shortest decimal numeral of `n`. */
  function ShowNat(n: nat): (s: string)
    ensures |s| >= 1 && AllDigits(s)
    ensures DigitsValue(s) == n
  {
    if n < 10 then [DigitChar(n)]
    else
      var s := ShowNat(n / 10) + [DigitChar(n % 10)];
      assert s[..|s| - 1] == ShowNat(n / 10);
      s
  }

  function Zeros(k: nat): (z: string)
    ensures |z| == k && AllDigits(z)
    ensures DigitsValue(z) == 0
  {
    if k == 0 then ""
    else
      var z := Zeros(k - 1) + "0";
      assert z[..|z| - 1] == Zeros(k - 1);
      z
  }

  /** `ShowNat(n)` with leading zeros up to at least `width` digits. */
  function PadDigits(n: nat, width: nat): (s: string)
    ensures |s| >= width && |s| >= 1 && AllDigits(s)
  {
    var d := ShowNat(n);
    if |d| >= width then d else Zeros(width - |d|) + d
  }

  /** The text of an integer, with a leading `-` when negative. */
  function ShowInt(n: int): (s: string)
    ensures |s| >= 1
  {
    if n < 0 then "-" + ShowNat(-n) else ShowNat(n)
  }

  /** The text of a decimal: its digits with a point `scale` places from the right. */
  function Render(d: Decimal): (s: string)
    ensures |s| >= 1
  {
    (if d.negative then "-" else "") + RenderMagnitude(d.units, d.scale)
  }

  function RenderMagnitude(units: nat, scale: nat): (s: string)
    ensures |s| >= 1 && IsDigit(s[0])
  {
    var digits := PadDigits(units, scale + 1);
    if scale == 0 then digits
    else digits[..|digits| - scale] + "." + digits[|digits| - scale..]
  }

  /** Rendered numbers hold only digits, a sign and a point: never a line break. */
  lemma RenderedNumbersArePlain(d: Decimal, n: int)
    ensures '\n' !in Render(d)
    ensures '\n' !in ShowInt(n)
  {
    var digits := PadDigits(d.units, d.scale + 1);
    DigitsHaveNoPoint(digits);
    DigitsHaveNoPoint(ShowNat(if n < 0 then -n else n));
    if d.scale > 0 {
      DigitsHaveNoPoint(digits[..|digits| - d.scale]);
      DigitsHaveNoPoint(digits[|digits| - d.scale..]);
    }
  }

  /** Leading zeros do not change the value of a digit string. */
  lemma {:induction false} DigitsValueLeadingZeros(k: nat, s: string)
    requires AllDigits(s)
    ensures AllDigits(Zeros(k) + s)
    ensures DigitsValue(Zeros(k) + s) == DigitsValue(s)
    decreases |s|
  {
    var t := Zeros(k) + s;
    if |s| > 0 {
      assert t[..|t| - 1] == Zeros(k) + s[..|s| - 1];
      DigitsValueLeadingZeros(k, s[..|s| - 1]);
    } else {
      assert t == Zeros(k);
    }
  }

  lemma PadDigitsValue(n: nat, width: nat)
    ensures DigitsValue(PadDigits(n, width)) == n
  {
    var d := ShowNat(n);
    if |d| < width {
      DigitsValueLeadingZeros(width - |d|, d);
    }
  }

  /** Digits never carry a sign or a decimal point. */
  lemma DigitsHaveNoPoint(s: string)
    requires AllDigits(s)
    ensures '.' !in s && '\n' !in s && ',' !in s
  {
  }

  /** The sign of a rendered decimal is the only sign character `float` strips. */
  lemma SignOfRender(d: Decimal)
    ensures SignAndBody(Render(d)) == (d.negative, RenderMagnitude(d.units, d.scale))
  {
    var m := RenderMagnitude(d.units, d.scale);
    if d.negative {
      assert Render(d)[1..] == m;
    } else {
      assert Render(d) == m;
    }
  }

  /** The magnitude parser reads `whole.fraction` as the digits of both sides, scaled by
      the length of the fraction. */
  lemma ParsePointMagnitude(negative: bool, whole: string, fraction: string)
    requires AllDigits(whole) && AllDigits(fraction) && |whole| > 0
    ensures AllDigits(whole + fraction)
    ensures ParseMagnitude(negative, whole + "." + fraction)
         == Some(Decimal(negative, DigitsValue(whole + fraction), |fraction|))
  {
    var body := whole + "." + fraction;
    FirstPointAfterDigits(whole, fraction);
    assert body[..|whole|] == whole;
    assert body[|whole| + 1..] == fraction;
  }

  /** Putting a point `scale` digits from the right of a digit string and parsing the
      result gives back the digits' value at that scale. */
  lemma ParseSplitDigits(negative: bool, digits: string, scale: nat)
    requires AllDigits(digits) && 0 < scale < |digits|
    ensures ParseMagnitude(negative, digits[..|digits| - scale] + "." + digits[|digits| - scale..])
         == Some(Decimal(negative, DigitsValue(digits), scale))
  {
    var whole, fraction := digits[..|digits| - scale], digits[|digits| - scale..];
    assert whole + fraction == digits;
    ParsePointMagnitude(negative, whole, fraction);
  }

  /** A plain digit string parses as its value with no fractional digits. */
  lemma ParseWholeDigits(negative: bool, digits: string)
    requires AllDigits(digits) && |digits| > 0
    ensures ParseMagnitude(negative, digits) == Some(Decimal(negative, DigitsValue(digits), 0))
  {
    DigitsHaveNoPoint(digits);
  }

  /** The magnitude parser reads back a rendered magnitude. */
  lemma ParseRenderMagnitude(negative: bool, units: nat, scale: nat)
    ensures ParseMagnitude(negative, RenderMagnitude(units, scale)) == Some(Decimal(negative, units, scale))
  {
    var digits := PadDigits(units, scale + 1);
    PadDigitsValue(units, scale + 1);
    var body := RenderMagnitude(units, scale);
    if scale > 0 {
      assert body == digits[..|digits| - scale] + "." + digits[|digits| - scale..];
      ParseSplitDigits(negative, digits, scale);
    } else {
      assert body == digits;
      ParseWholeDigits(negative, digits);
    }
  }

  /** Round trip: Python's `float` reads back every rendered decimal exactly. */
  lemma ParseRender(d: Decimal)
    ensures ParseFloat(Render(d)) == Some(d)
  {
    SignOfRender(d);
    ParseRenderMagnitude(d.negative, d.units, d.scale);
  }

  /** Round trip: Python's `int` reads back every rendered integer exactly. */
  lemma ParseShowInt(n: int)
    ensures ParseInt(ShowInt(n)) == Some(n)
  {
    var d := ShowNat(if n < 0 then -n else n);
    assert IsDigit(d[0]);
    if n < 0 {
      assert ShowInt(n)[1..] == d;
    }
  }

  /** `is_nonnegative_number` with the float constructor accepts exactly the
      renderings of non-negative decimals among rendered decimals. */
  lemma NonnegativeRender(d: Decimal)
    ensures IsNonnegativeNumber(Render(d), FloatConstructor) <==> d.NonNegative()
  {
    ParseRender(d);
  }

  /** `is_nonnegative_number` with the int constructor accepts the rendering of
      an integer exactly when the integer is at least zero. */
  lemma NonnegativeShowInt(n: int)
    ensures IsNonnegativeNumber(ShowInt(n), IntConstructor) <==> n >= 0
  {
    ParseShowInt(n);
  }

  /** The rejected non-numerals documented with `is_nonnegative_number`. */
  lemma RejectedExamples(empty: string, letter: string, point: string, word: string)
    requires empty == "" && letter == "a" && point == "." && word == "ofwnJWNFK"
    ensures !IsNonnegativeNumber(empty, FloatConstructor)
    ensures !IsNonnegativeNumber(letter, FloatConstructor)
    ensures !IsNonnegativeNumber(point, FloatConstructor)
    ensures !IsNonnegativeNumber(word, FloatConstructor)
  {
    assert SignAndBody(letter) == (false, letter) && !IsDigit(letter[0]);
    assert SignAndBody(point) == (false, point) && point[..0] == "" && point[1..] == "";
    assert SignAndBody(word) == (false, word) && !IsDigit(word[0]);
  }

  /** The documented rejection of a negative numeral. */
  lemma NegativeRejected()
    ensures !IsNonnegativeNumber("-1", FloatConstructor)
  {
    assert SignAndBody("-1") == (true, "1");
  }

  /** The first point of `whole + "." + rest` is the one after `whole` when `whole` is all digits. */
  lemma FirstPointAfterDigits(whole: string, rest: string)
    requires AllDigits(whole)
    ensures '.' in whole + "." + rest
    ensures FirstIndex(whole + "." + rest, '.') == |whole|
  {
    var s := whole + "." + rest;
    assert s[|whole|] == '.';
    var i := FirstIndex(s, '.');
    assert s[..|whole| + 1][|whole|] == '.';
  }

  /** Every literal `digits . digits` with a non-empty integer part is a non-negative float. */
  lemma PointLiteralAccepted(whole: string, fraction: string)
    requires AllDigits(whole) && AllDigits(fraction) && |whole| > 0
    ensures IsNonnegativeNumber(whole + "." + fraction, FloatConstructor)
  {
    var s := whole + "." + fraction;
    assert s[0] == whole[0];
    assert SignAndBody(s) == (false, s);
    FirstPointAfterDigits(whole, fraction);
    assert s[..|whole|] == whole;
    assert s[|whole| + 1..] == fraction;
  }

  /** Every non-empty string of digits is a non-negative float. */
  lemma DigitLiteralAccepted(whole: string)
    requires AllDigits(whole) && |whole| > 0
    ensures IsNonnegativeNumber(whole, FloatConstructor)
  {
    DigitsHaveNoPoint(whole);
    assert SignAndBody(whole) == (false, whole);
  }

  /** A numeral with a second decimal point after a first one at `i` is rejected. */
  lemma SecondPointRejected(s: string, i: nat)
    requires i < |s| && s[i] == '.' && AllDigits(s[..i]) && '.' in s[i + 1..]
    ensures !IsNonnegativeNumber(s, FloatConstructor)
  {
    assert SignAndBody(s) == (false, s) by {
      if i > 0 { assert s[..i][0] == s[0]; }
    }
    assert s == s[..i] + "." + s[i + 1..];
    FirstPointAfterDigits(s[..i], s[i + 1..]);
  }

  /** The documented rejection of a numeral with two decimal points. */
  lemma TwoPointsRejected()
    ensures !IsNonnegativeNumber("2837948.2327839.238", FloatConstructor)
  {
    var s := "2837948.2327839.238";
    assert s[8..][7] == '.';
    SecondPointRejected(s, 7);
  }

  /** The accepted whole-number examples documented with `is_nonnegative_number`. */
  lemma AcceptedWholeExamples()
    ensures IsNonnegativeNumber("0", FloatConstructor)
    ensures IsNonnegativeNumber("1", FloatConstructor)
    ensures IsNonnegativeNumber("3823872398", FloatConstructor)
  {
    DigitLiteralAccepted("0");
    DigitLiteralAccepted("1");
    DigitLiteralAccepted("3823872398");
  }

  /** A literal whose only point sits at `i`, with digits on both sides, is a non-negative float. */
  lemma PointAtAccepted(s: string, i: nat)
    requires 0 < i < |s| && s[i] == '.'
    requires AllDigits(s[..i]) && AllDigits(s[i + 1..])
    ensures IsNonnegativeNumber(s, FloatConstructor)
  {
    assert s == s[..i] + "." + s[i + 1..];
    PointLiteralAccepted(s[..i], s[i + 1..]);
  }

  /** The accepted examples with a decimal point documented with `is_nonnegative_number`. */
  lemma AcceptedPointExamples(one: string, tenth: string, long: string)
    requires one == "1.0" && tenth == "0.1" && long == "38238723.98"
    ensures IsNonnegativeNumber(one, FloatConstructor)
    ensures IsNonnegativeNumber(tenth, FloatConstructor)
    ensures IsNonnegativeNumber(long, FloatConstructor)
  {
    PointAtAccepted(one, 1);
    PointAtAccepted(tenth, 1);
    assert long[..8] == "38238723" && long[9..] == "98";
    PointAtAccepted(long, 8);
  }

  /** A negative zero is accepted by both constructors, since `-0 >= 0` holds in Python,
      and so is `-0.0` by the float constructor, since `-0.0 >= 0`. */
  lemma NegativeZeroAccepted()
    ensures IsNonnegativeNumber("-0", FloatConstructor)
    ensures IsNonnegativeNumber("-0", IntConstructor)
    ensures IsNonnegativeNumber("-0.0", FloatConstructor)
  {
    assert SignAndBody("-0") == (true, "0");
    var body := "0.0";
    assert SignAndBody("-0.0") == (true, body);
    assert body == "0" + "." + "0";
    ParsePointMagnitude(true, "0", "0");
    assert "0" + "0" == "00";
    assert DigitsValue("00") == DigitsValue("0") * 10 + 0;
    assert DigitsValue("0") == 0;
    assert ParseFloat("-0.0") == Some(Decimal(true, 0, 1));
  }
}
