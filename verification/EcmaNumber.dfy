/** ECMAScript number text (internal/outbox/jcs.go, section 3.2.2.3 of RFC 8785), starting from the
    shortest digits of a double: each of its four layouts is a JSON number that denotes the same rational
    as the digits and the decimal point. */
module EcmaNumber {
  import opened Wrappers
  import opened Utf8
  import opened Json
  import opened Jcs
  import Decimal

  /** Zero (of either sign), or +-0.d1d2...dk * 10^point. */
  datatype Double = Zero | Finite(negative: bool, digits: seq<Decimal.Digit>, point: int)

  predicate Proper(d: Double) { d.Finite? ==> d.digits != [] && d.digits[0] != 0 }

  type ProperDouble = d: Double | Proper(d) witness Zero

  function Zeros(n: nat): (ds: seq<Decimal.Digit>)
    ensures |ds| == n
  {
    if n == 0 then [] else Zeros(n - 1) + [0]
  }

  function ZeroBytes(n: nat): seq<Byte> {
    if n == 0 then [] else ZeroBytes(n - 1) + [ZERO]
  }

  const EXPONENT: Byte := 101

  function ExponentText(e: int): seq<Byte> {
    [EXPONENT, if e < 0 then MINUS else PLUS] + DigitBytes(Decimal.Digits(if e < 0 then -e else e))
  }

  function EcmaText(d: Double): seq<Byte>
    requires Proper(d)
  {
    match d
    case Zero => [ZERO]
    case Finite(negative, digits, n) =>
      var sign := if negative then [MINUS] else [];
      var k := |digits|;
      if k <= n <= 21 then sign + DigitBytes(digits) + ZeroBytes(n - k)
      else if 0 < n <= 21 then sign + DigitBytes(digits[..n]) + [POINT] + DigitBytes(digits[n..])
      else if -6 < n <= 0 then sign + [ZERO, POINT] + ZeroBytes(-n) + DigitBytes(digits)
      else if k == 1 then sign + DigitBytes(digits) + ExponentText(n - 1)
      else sign + DigitBytes(digits[..1]) + [POINT] + DigitBytes(digits[1..]) + ExponentText(n - 1)
  }

  // ---- what a number text denotes ----

  /** mantissa * 10^scale */
  datatype Rational = Rational(mantissa: int, scale: int)

  function Pow10(n: nat): nat { if n == 0 then 1 else 10 * Pow10(n - 1) }

  predicate Same(x: Rational, y: Rational) {
    if x.scale >= y.scale then x.mantissa * Pow10(x.scale - y.scale) == y.mantissa
    else x.mantissa == y.mantissa * Pow10(y.scale - x.scale)
  }

  function Magnitude(bs: seq<Byte>): nat {
    if bs == [] then 0
    else 10 * Magnitude(bs[..|bs| - 1]) + (if IsDigit(bs[|bs| - 1]) then bs[|bs| - 1] as int - 48 else 0)
  }

  function SignedMagnitude(bs: seq<Byte>): int {
    if bs != [] && bs[0] == MINUS then -(Magnitude(bs[1..]) as int)
    else if bs != [] && bs[0] == PLUS then Magnitude(bs[1..])
    else Magnitude(bs)
  }

  function Signed(negative: bool, m: int): int { if negative then -m else m }

  function Parts(negative: bool, integer: seq<Byte>, fraction: seq<Byte>, exponent: int): Rational {
    Rational(Signed(negative, Magnitude(integer + fraction)), exponent - |fraction|)
  }

  /** The number with sign before `sign`, integer digits up to `a`, and point and fraction digits up to `b`. */
  function ReadAt(s: seq<Byte>, sign: nat, a: nat, b: nat): Rational
    requires sign <= a <= b <= |s|
  {
    Parts(sign == 1, s[sign..a], if b == a then [] else s[a + 1..b], if b == |s| then 0 else SignedMagnitude(s[b + 1..]))
  }

  /** A JSON number read by its grammar: sign, integer digits, fraction digits, exponent. */
  function Denotes(s: seq<Byte>): Rational
    requires JsonNumber(s)
  {
    var a := IntegerEnd(s).value;
    ReadAt(s, if s[0] == MINUS then 1 else 0, a, FractionEnd(s, a).value)
  }

  // ---- reading a text back ----

  function SignText(negative: bool): seq<Byte> { if negative then [MINUS] else [] }

  function FractionText(f: seq<Decimal.Digit>): seq<Byte> { if f == [] then [] else [POINT] + DigitBytes(f) }

  function ScaleText(e: Option<int>): seq<Byte> { if e.None? then [] else ExponentText(e.value) }

  function ScaleOf(e: Option<int>): int { if e.None? then 0 else e.value }

  /** Sign, integer digits, fraction digits (with their point, unless empty), exponent (unless absent). */
  function Render(negative: bool, i: seq<Decimal.Digit>, f: seq<Decimal.Digit>, e: Option<int>): seq<Byte> {
    SignText(negative) + DigitBytes(i) + FractionText(f) + ScaleText(e)
  }

  lemma {:induction false} MagnitudeOfDigits(ds: seq<Decimal.Digit>)
    ensures Magnitude(DigitBytes(ds)) == Decimal.Value(ds)
  {
    if ds != [] {
      var init := ds[..|ds| - 1];
      assert DigitBytes(ds)[..|ds| - 1] == DigitBytes(init);
      MagnitudeOfDigits(init);
    }
  }

  lemma Regroup(a: seq<Byte>, b: seq<Byte>, c: seq<Byte>)
    ensures a + b + c == a + (b + c)
  {
  }

  lemma DigitBytesConcat(i: seq<Decimal.Digit>, f: seq<Decimal.Digit>)
    ensures DigitBytes(i + f) == DigitBytes(i) + DigitBytes(f)
  {
  }

  // The texts of a number's parts, as plain bytes.

  predicate DigitsIn(s: seq<Byte>, i: nat, j: nat)
    requires i <= j <= |s|
  {
    forall k :: i <= k < j ==> IsDigit(s[k])
  }

  lemma {:induction false} RunAt(s: seq<Byte>, i: nat, j: nat)
    requires i <= j <= |s| && DigitsIn(s, i, j) && (j == |s| || !IsDigit(s[j]))
    ensures DigitRun(s[i..]) == j - i
    decreases j - i
  {
    if i < j {
      assert s[i..][1..] == s[i + 1..];
      RunAt(s, i + 1, j);
    }
  }

  /** A sign up to `sign`, integer digits up to `a`, a fraction or nothing up to `b`, an exponent or nothing. */
  predicate Shape(s: seq<Byte>, sign: nat, a: nat, b: nat) {
    && sign <= 1 && sign < a <= b <= |s| && (s[0] == MINUS <==> sign == 1)
    && DigitsIn(s, sign, a) && (s[sign] == ZERO ==> a == sign + 1)
    && (b == a || (a + 1 < b && s[a] == POINT && DigitsIn(s, a + 1, b)))
    && (b == |s| || (b + 2 < |s| && s[b] == EXPONENT && (s[b + 1] == PLUS || s[b + 1] == MINUS) && DigitsIn(s, b + 2, |s|)))
  }

  lemma IntegerShape(s: seq<Byte>, sign: nat, a: nat)
    requires sign <= 1 && sign < a <= |s| && (s[0] == MINUS <==> sign == 1)
    requires DigitsIn(s, sign, a) && (s[sign] == ZERO ==> a == sign + 1) && (a == |s| || !IsDigit(s[a]))
    ensures IntegerEnd(s) == Some(a)
  {
    RunAt(s, sign, a);
  }

  lemma FractionShape(s: seq<Byte>, a: nat, b: nat)
    requires a <= b <= |s| && (b == |s| || (!IsDigit(s[b]) && s[b] != POINT))
    requires b == a || (a + 1 < b && s[a] == POINT && DigitsIn(s, a + 1, b))
    ensures FractionEnd(s, a) == Some(b)
  {
    if a < b {
      RunAt(s, a + 1, b);
    }
  }

  lemma ExponentShape(s: seq<Byte>, b: nat)
    requires b == |s| || (b + 2 < |s| && s[b] == EXPONENT && (s[b + 1] == PLUS || s[b + 1] == MINUS) && DigitsIn(s, b + 2, |s|))
    ensures ExponentEnd(s, b) == Some(|s|)
  {
    if b < |s| {
      RunAt(s, b + 2, |s|);
    }
  }

  lemma ReadByShape(s: seq<Byte>, sign: nat, a: nat, b: nat)
    requires Shape(s, sign, a, b)
    ensures JsonNumber(s) && Denotes(s) == ReadAt(s, sign, a, b)
  {
    IntegerShape(s, sign, a);
    FractionShape(s, a, b);
    ExponentShape(s, b);
  }

  /** Nothing, or a point and digits. */
  predicate IsFraction(text: seq<Byte>, digits: seq<Byte>) {
    AllDigits(digits) && text == (if digits == [] then [] else [POINT] + digits)
  }

  /** Nothing, or a mark, a sign and digits. */
  predicate IsScale(text: seq<Byte>) {
    text == [] || (|text| >= 3 && text[0] == EXPONENT && (text[1] == PLUS || text[1] == MINUS) && AllDigits(text[2..]))
  }

  function ScaleValue(text: seq<Byte>): int { if text == [] then 0 else SignedMagnitude(text[1..]) }

  /** A text cut into its parts. */
  ghost predicate Cut(s: seq<Byte>, sign: seq<Byte>, integer: seq<Byte>, fraction: seq<Byte>, scale: seq<Byte>) {
    var a := |sign| + |integer|;
    var b := a + |fraction|;
    b + |scale| == |s| && s[..|sign|] == sign && s[|sign|..a] == integer && s[a..b] == fraction && s[b..] == scale
  }

  lemma ConcatIsCut(sign: seq<Byte>, integer: seq<Byte>, fraction: seq<Byte>, scale: seq<Byte>)
    ensures Cut(sign + integer + fraction + scale, sign, integer, fraction, scale)
  {
  }

  lemma ShapeOf(s: seq<Byte>, sign: seq<Byte>, integer: seq<Byte>, fraction: seq<Byte>, digits: seq<Byte>, scale: seq<Byte>)
    requires Cut(s, sign, integer, fraction, scale) && (sign == [] || sign == [MINUS])
    requires integer != [] && AllDigits(integer) && (integer[0] == ZERO ==> |integer| == 1)
    requires IsFraction(fraction, digits) && IsScale(scale)
    ensures Shape(s, |sign|, |sign| + |integer|, |sign| + |integer| + |fraction|)
  {
    var a := |sign| + |integer|;
    var b := a + |fraction|;
    assert forall k :: |sign| <= k < a ==> s[k] == s[|sign|..a][k - |sign|];
    assert forall k :: a <= k < b ==> s[k] == s[a..b][k - a];
    assert forall k :: b <= k < |s| ==> s[k] == s[b..][k - b];
    assert sign != [] ==> s[0] == s[..1][0];
    assert scale != [] ==> forall k :: 2 <= k < |scale| ==> scale[k] == scale[2..][k - 2];
  }

  lemma ReadSlices(s: seq<Byte>, sign: seq<Byte>, integer: seq<Byte>, fraction: seq<Byte>, digits: seq<Byte>, scale: seq<Byte>)
    requires Cut(s, sign, integer, fraction, scale) && |sign| <= 1 && IsFraction(fraction, digits)
    ensures ReadAt(s, |sign|, |sign| + |integer|, |sign| + |integer| + |fraction|)
            == Parts(sign != [], integer, digits, ScaleValue(scale))
  {
    var a := |sign| + |integer|;
    var b := a + |fraction|;
    assert digits != [] ==> s[a + 1..b] == s[a..b][1..] && s[a..b][1..] == digits;
    assert scale != [] ==> s[b + 1..] == s[b..][1..];
  }

  /** Sign, integer digits, fraction and exponent texts put together have the shape of a number of just these parts. */
  lemma RenderShape(s: seq<Byte>, sign: seq<Byte>, integer: seq<Byte>, fraction: seq<Byte>, digits: seq<Byte>, scale: seq<Byte>)
    requires Cut(s, sign, integer, fraction, scale) && (sign == [] || sign == [MINUS])
    requires integer != [] && AllDigits(integer) && (integer[0] == ZERO ==> |integer| == 1)
    requires IsFraction(fraction, digits) && IsScale(scale)
    ensures Shape(s, |sign|, |sign| + |integer|, |sign| + |integer| + |fraction|)
    ensures ReadAt(s, |sign|, |sign| + |integer|, |sign| + |integer| + |fraction|)
            == Parts(sign != [], integer, digits, ScaleValue(scale))
  {
    ShapeOf(s, sign, integer, fraction, digits, scale);
    ReadSlices(s, sign, integer, fraction, digits, scale);
  }

  lemma ShapeDenotes(s: seq<Byte>, sign: nat, a: nat, b: nat, r: Rational)
    requires Shape(s, sign, a, b) && ReadAt(s, sign, a, b) == r
    ensures JsonNumber(s) && Denotes(s) == r
  {
    ReadByShape(s, sign, a, b);
  }

  /** Then they are a JSON number that denotes what these parts do. */
  lemma PartsRead(s: seq<Byte>, sign: seq<Byte>, integer: seq<Byte>, fraction: seq<Byte>, digits: seq<Byte>, scale: seq<Byte>)
    requires Cut(s, sign, integer, fraction, scale) && (sign == [] || sign == [MINUS])
    requires integer != [] && AllDigits(integer) && (integer[0] == ZERO ==> |integer| == 1)
    requires IsFraction(fraction, digits) && IsScale(scale)
    ensures JsonNumber(s) && Denotes(s) == Parts(sign != [], integer, digits, ScaleValue(scale))
  {
    RenderShape(s, sign, integer, fraction, digits, scale);
    ShapeDenotes(s, |sign|, |sign| + |integer|, |sign| + |integer| + |fraction|, Parts(sign != [], integer, digits, ScaleValue(scale)));
  }

  // The texts of digits.

  lemma DigitsText(ds: seq<Decimal.Digit>)
    ensures AllDigits(DigitBytes(ds)) && (ds != [] ==> (DigitBytes(ds)[0] == ZERO <==> ds[0] == 0))
    ensures IsFraction(FractionText(ds), DigitBytes(ds))
  {
  }

  lemma ScaleIs(e: Option<int>)
    ensures IsScale(ScaleText(e)) && ScaleValue(ScaleText(e)) == ScaleOf(e)
  {
    if e.Some? {
      var m := if e.value < 0 then -e.value else e.value;
      DigitsText(Decimal.Digits(m));
      MagnitudeOfDigits(Decimal.Digits(m));
      Decimal.ValueOfDigits(m);
      ExponentIs(DigitBytes(Decimal.Digits(m)), m, e.value, ScaleText(e));
    }
  }

  lemma ExponentIs(digits: seq<Byte>, m: nat, e: int, text: seq<Byte>)
    requires digits != [] && AllDigits(digits) && Magnitude(digits) == m && m == (if e < 0 then -e else e)
    requires text == [EXPONENT, if e < 0 then MINUS else PLUS] + digits
    ensures IsScale(text) && ScaleValue(text) == e
  {
    assert text[2..] == digits && text[1..][1..] == digits;
  }

  lemma PartsAre(negative: bool, i: seq<Decimal.Digit>, f: seq<Decimal.Digit>, e: int)
    ensures Parts(negative, DigitBytes(i), DigitBytes(f), e) == Rational(Signed(negative, Decimal.Value(i + f)), e - |f|)
  {
    DigitBytesConcat(i, f);
    MagnitudeOfDigits(i + f);
  }

  /** A rendered number is a JSON number and reads back as its digits and exponent. */
  lemma RenderRead(negative: bool, i: seq<Decimal.Digit>, f: seq<Decimal.Digit>, e: Option<int>)
    requires i != [] && (i[0] != 0 || |i| == 1)
    ensures var s := Render(negative, i, f, e);
            JsonNumber(s) && Denotes(s) == Rational(Signed(negative, Decimal.Value(i + f)), ScaleOf(e) - |f|)
  {
    DigitsText(i);
    DigitsText(f);
    ScaleIs(e);
    ConcatIsCut(SignText(negative), DigitBytes(i), FractionText(f), ScaleText(e));
    PartsRead(Render(negative, i, f, e), SignText(negative), DigitBytes(i), FractionText(f), DigitBytes(f), ScaleText(e));
    PartsAre(negative, i, f, ScaleOf(e));
  }

  // ---- the four layouts ----

  lemma {:induction false} TrailingZeros(ds: seq<Decimal.Digit>, n: nat)
    ensures Decimal.Value(ds + Zeros(n)) == Decimal.Value(ds) * Pow10(n)
  {
    if n == 0 {
      assert ds + Zeros(0) == ds;
    } else {
      TrailingZeros(ds, n - 1);
      assert (ds + Zeros(n))[..|ds| + n - 1] == ds + Zeros(n - 1);
      assert Decimal.Value(ds + Zeros(n)) == 10 * Decimal.Value(ds + Zeros(n - 1));
      TenTimes(Decimal.Value(ds), Pow10(n - 1));
    }
  }

  lemma TenTimes(v: nat, p: nat)
    ensures v * (10 * p) == 10 * (v * p)
  {
  }

  lemma {:induction false} LeadingZeros(n: nat, ds: seq<Decimal.Digit>)
    ensures Decimal.Value(Zeros(n) + ds) == Decimal.Value(ds)
    decreases |ds|, n
  {
    if ds != [] {
      assert (Zeros(n) + ds)[..n + |ds| - 1] == Zeros(n) + ds[..|ds| - 1];
      LeadingZeros(n, ds[..|ds| - 1]);
    } else if n > 0 {
      assert Zeros(n) + [] == Zeros(n) && Zeros(n)[..n - 1] == Zeros(n - 1) && Zeros(n - 1) + [] == Zeros(n - 1);
      LeadingZeros(n - 1, []);
    }
  }

  lemma {:induction false} ZeroBytesAre(n: nat)
    ensures ZeroBytes(n) == DigitBytes(Zeros(n))
  {
    if n > 0 {
      ZeroBytesAre(n - 1);
    }
  }

  /** The integer digits, fraction digits and exponent a layout shows. */
  datatype Layout = Layout(integer: seq<Decimal.Digit>, fraction: seq<Decimal.Digit>, exponent: Option<int>)

  function LayoutOf(ds: seq<Decimal.Digit>, n: int): (l: Layout)
    requires ds != [] && ds[0] != 0
    ensures l.integer != [] && (l.integer[0] != 0 || |l.integer| == 1)
  {
    if |ds| <= n <= 21 then Layout(ds + Zeros(n - |ds|), [], None)
    else if 0 < n <= 21 then Layout(ds[..n], ds[n..], None)
    else if -6 < n <= 0 then Layout([0], Zeros(-n) + ds, None)
    else Layout(ds[..1], ds[1..], Some(n - 1))
  }

  lemma PaddedValue(ds: seq<Decimal.Digit>, z: nat)
    ensures Same(Rational(Decimal.Value(ds + Zeros(z) + []), 0), Rational(Decimal.Value(ds), z))
  {
    TrailingZeros(ds, z);
    assert ds + Zeros(z) + [] == ds + Zeros(z);
    assert Pow10(0) == 1;
  }

  lemma SmallValue(ds: seq<Decimal.Digit>, z: nat)
    ensures Decimal.Value([0] + (Zeros(z) + ds)) == Decimal.Value(ds)
  {
    assert Zeros(1) == [0] by { assert Zeros(0) == []; }
    LeadingZeros(1, Zeros(z) + ds);
    LeadingZeros(z, ds);
  }

  lemma SameWhenEqual(m: int, scale: int)
    ensures Same(Rational(m, scale), Rational(m, scale))
  {
    assert Pow10(0) == 1;
  }

  /** The layout shows the digits at their place. */
  lemma LayoutValue(ds: seq<Decimal.Digit>, n: int)
    requires ds != [] && ds[0] != 0
    ensures var l := LayoutOf(ds, n);
            Same(Rational(Decimal.Value(l.integer + l.fraction), ScaleOf(l.exponent) - |l.fraction|),
                 Rational(Decimal.Value(ds), n - |ds|))
  {
    if |ds| <= n <= 21 {
      PaddedValue(ds, n - |ds|);
    } else {
      SameWhenEqual(Decimal.Value(ds), n - |ds|);
      if -6 < n <= 0 {
        SmallValue(ds, -n);
      } else {
        assert 0 < n <= 21 ==> ds[..n] + ds[n..] == ds;
        assert ds[..1] + ds[1..] == ds;
      }
    }
  }

  lemma Padded(sign: seq<Byte>, ds: seq<Decimal.Digit>, z: nat)
    ensures sign + DigitBytes(ds + Zeros(z)) + [] + [] == sign + DigitBytes(ds) + ZeroBytes(z)
  {
    DigitBytesConcat(ds, Zeros(z));
    ZeroBytesAre(z);
    Regroup(sign, DigitBytes(ds), ZeroBytes(z));
  }

  lemma Pointed(a: seq<Byte>, f: seq<Byte>, e: seq<Byte>)
    ensures a + ([POINT] + f) + e == a + [POINT] + f + e
    ensures a + ([POINT] + f) + [] == a + [POINT] + f
  {
  }

  lemma SmallText(sign: seq<Byte>, ds: seq<Decimal.Digit>, z: nat)
    requires ds != []
    ensures sign + DigitBytes([0]) + FractionText(Zeros(z) + ds) + [] == sign + [ZERO, POINT] + ZeroBytes(z) + DigitBytes(ds)
  {
    assert Zeros(z) + ds != [];
    DigitBytesConcat(Zeros(z), ds);
    ZeroBytesAre(z);
    assert DigitBytes([0]) == [ZERO];
    SmallParts(sign, ZeroBytes(z), DigitBytes(ds));
  }

  lemma SmallParts(sign: seq<Byte>, z: seq<Byte>, t: seq<Byte>)
    ensures sign + [ZERO] + ([POINT] + (z + t)) + [] == sign + [ZERO, POINT] + z + t
  {
  }

  lemma ExponentialText(sign: seq<Byte>, ds: seq<Decimal.Digit>, e: seq<Byte>)
    requires ds != []
    ensures (if |ds| == 1 then sign + DigitBytes(ds) + e else sign + DigitBytes(ds[..1]) + [POINT] + DigitBytes(ds[1..]) + e)
            == sign + DigitBytes(ds[..1]) + FractionText(ds[1..]) + e
  {
    if |ds| == 1 {
      assert ds[..1] == ds && ds[1..] == [];
      assert sign + DigitBytes(ds) + [] == sign + DigitBytes(ds);
    } else {
      Pointed(sign + DigitBytes(ds[..1]), DigitBytes(ds[1..]), e);
    }
  }

  lemma PointText(sign: seq<Byte>, ds: seq<Decimal.Digit>, n: nat)
    requires 0 < n < |ds|
    ensures sign + DigitBytes(ds[..n]) + [POINT] + DigitBytes(ds[n..]) == sign + DigitBytes(ds[..n]) + FractionText(ds[n..]) + []
  {
    Pointed(sign + DigitBytes(ds[..n]), DigitBytes(ds[n..]), []);
  }

  ghost predicate Prints(d: Double)
    requires Proper(d) && d.Finite?
  {
    var l := LayoutOf(d.digits, d.point);
    EcmaText(d) == Render(d.negative, l.integer, l.fraction, l.exponent)
  }

  lemma PaddedPrints(d: Double)
    requires Proper(d) && d.Finite? && |d.digits| <= d.point <= 21
    ensures Prints(d)
  {
    Padded(SignText(d.negative), d.digits, d.point - |d.digits|);
  }

  lemma PointPrints(d: Double)
    requires Proper(d) && d.Finite? && d.point < |d.digits| && 0 < d.point <= 21
    ensures Prints(d)
  {
    PointText(SignText(d.negative), d.digits, d.point);
  }

  lemma SmallPrints(d: Double)
    requires Proper(d) && d.Finite? && -6 < d.point <= 0
    ensures Prints(d)
  {
    SmallText(SignText(d.negative), d.digits, -d.point);
  }

  lemma ExponentialPrints(d: Double)
    requires Proper(d) && d.Finite? && !(-6 < d.point <= 21)
    ensures Prints(d)
  {
    ExponentialText(SignText(d.negative), d.digits, ExponentText(d.point - 1));
  }

  /** The text prints the layout. */
  lemma TextOfLayout(d: Double)
    requires Proper(d) && d.Finite?
    ensures Prints(d)
  {
    if |d.digits| <= d.point <= 21 {
      PaddedPrints(d);
    } else if 0 < d.point <= 21 {
      PointPrints(d);
    } else if -6 < d.point <= 0 {
      SmallPrints(d);
    } else {
      ExponentialPrints(d);
    }
  }

  /** Every finite double prints as a JSON number that denotes it. */
  lemma DenotesItsDigits(d: Double)
    requires Proper(d) && d.Finite?
    ensures JsonNumber(EcmaText(d))
    ensures Same(Denotes(EcmaText(d)), Rational(Signed(d.negative, Decimal.Value(d.digits)), d.point - |d.digits|))
  {
    var l := LayoutOf(d.digits, d.point);
    TextOfLayout(d);
    LayoutValue(d.digits, d.point);
    LayoutDenotes(d.negative, l, Rational(Decimal.Value(d.digits), d.point - |d.digits|), EcmaText(d));
  }

  lemma LayoutDenotes(negative: bool, l: Layout, r: Rational, s: seq<Byte>)
    requires l.integer != [] && (l.integer[0] != 0 || |l.integer| == 1)
    requires s == Render(negative, l.integer, l.fraction, l.exponent)
    requires Same(Rational(Decimal.Value(l.integer + l.fraction), ScaleOf(l.exponent) - |l.fraction|), r)
    ensures JsonNumber(s) && Same(Denotes(s), Rational(Signed(negative, r.mantissa), r.scale))
  {
    RenderRead(negative, l.integer, l.fraction, l.exponent);
    SameSigned(negative, Rational(Decimal.Value(l.integer + l.fraction), ScaleOf(l.exponent) - |l.fraction|), r);
  }

  lemma SameSigned(negative: bool, x: Rational, y: Rational)
    requires Same(x, y)
    ensures Same(Rational(Signed(negative, x.mantissa), x.scale), Rational(Signed(negative, y.mantissa), y.scale))
  {
    if x.scale >= y.scale {
      Negated(x.mantissa, Pow10(x.scale - y.scale));
    } else {
      Negated(y.mantissa, Pow10(y.scale - x.scale));
    }
  }

  lemma Negated(a: int, b: int)
    ensures (-a) * b == -(a * b)
  {
  }

  lemma ZeroDenotesZero()
    ensures JsonNumber(EcmaText(Zero)) && Denotes(EcmaText(Zero)) == Rational(0, 0)
  {
    RenderRead(false, [0], [], None);
    assert Render(false, [0], [], None) == [ZERO];
    assert [0] + [] == [0] && [0][..0] == [];
  }
}
