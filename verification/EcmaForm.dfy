/** The form of a printed number, over its bytes: when it has an exponent, and how many digits stand where.
    With the value (EcmaNumber.DenotesItsDigits) this leaves one text for every double. */
module EcmaForm {
  import opened Wrappers
  import opened Utf8
  import opened Json
  import opened Jcs
  import opened EcmaNumber
  import Decimal

  /** Sign, integer digits, a point and fraction digits unless there are none, and an exponent or nothing. */
  predicate Spells(s: seq<Byte>, sign: seq<Byte>, integer: seq<Byte>, fraction: seq<Byte>, exponent: seq<Byte>) {
    && s == sign + integer + (if fraction == [] then [] else [46] + fraction) + exponent
    && AllDigits(integer) && AllDigits(fraction) && integer != []
  }

  /** An 'e', the sign of the exponent, always written, and its digits without a leading zero. */
  predicate SpellsExponent(s: seq<Byte>, e: int) {
    && |s| >= 3 && s[0] == 101 && s[1] == (if e < 0 then 45 else 43)
    && AllDigits(s[2..]) && (|s| > 3 ==> s[2] != 48)
    && Magnitude(s[2..]) == (if e < 0 then -e else e)
  }

  lemma ExponentSpells(e: int)
    ensures SpellsExponent(ExponentText(e), e)
  {
    var m := if e < 0 then -e else e;
    var ds := Decimal.Digits(m);
    assert ExponentText(e)[2..] == DigitBytes(ds);
    MagnitudeOfDigits(ds);
    Decimal.ValueOfDigits(m);
  }

  /** A number is written without an exponent exactly when its point stands from five zeros after the decimal
      point to twenty-one digits. Then its integer part has as many digits as stand before the point, one at least,
      and its fraction the rest. Otherwise one digit stands before the point, not a zero, all others after it, and
      the exponent is one less than the point. */
  lemma FormExactly(d: Double) returns (integer: seq<Byte>, fraction: seq<Byte>, exponent: seq<Byte>)
    requires Proper(d) && d.Finite?
    ensures Spells(EcmaText(d), if d.negative then [45] else [], integer, fraction, exponent)
    ensures exponent == [] <==> -6 < d.point <= 21
    ensures exponent == [] ==> |integer| == (if d.point < 1 then 1 else d.point)
    ensures exponent == [] ==> |fraction| == (if d.point < |d.digits| then |d.digits| - d.point else 0)
    ensures exponent != [] ==> |integer| == 1 && integer[0] != 48 && |fraction| == |d.digits| - 1
    ensures exponent != [] ==> SpellsExponent(exponent, d.point - 1)
  {
    TextOfLayout(d);
    var l := LayoutOf(d.digits, d.point);
    integer, fraction, exponent := DigitBytes(l.integer), DigitBytes(l.fraction), ScaleText(l.exponent);
    ExponentSpells(d.point - 1);
    assert fraction == [] <==> l.fraction == [];
  }

  lemma DigitsHaveNoMark(s: seq<Byte>, b: Byte)
    requires AllDigits(s) && b in s
    ensures 48 <= b < 58
  {
    var i :| 0 <= i < |s| && s[i] == b;
  }

  /** An 'e' occurs in the text exactly then. */
  lemma MarkedExactly(d: Double)
    requires Proper(d) && d.Finite?
    ensures 101 in EcmaText(d) <==> !(-6 < d.point <= 21)
  {
    var integer, fraction, exponent := FormExactly(d);
    if exponent == [] {
      if 101 in integer { DigitsHaveNoMark(integer, 101); }
      if 101 in fraction { DigitsHaveNoMark(fraction, 101); }
    } else {
      assert exponent[0] in exponent;
    }
  }

  // ---- integers ----

  lemma {:induction false} DigitsRead(s: seq<Byte>)
    requires AllDigits(s)
    ensures Decimal.Value(BytesDigits(s)) == Magnitude(s)
  {
    if s != [] {
      var init := s[..|s| - 1];
      DigitsRead(init);
      assert BytesDigits(s)[..|s| - 1] == BytesDigits(init);
    }
  }

  /** A number without fraction or exponent is all digits after its sign. */
  lemma IntegerLiteral(literal: seq<Byte>)
    requires JsonNumber(literal) && !HasFloatMark(literal)
    ensures var digits := if literal[0] == MINUS then literal[1..] else literal; digits != [] && AllDigits(digits)
  {
    var sign := if literal[0] == MINUS then 1 else 0;
    var a := IntegerEnd(literal).value;
    assert a < |literal| ==> FloatMark(literal[a]);
    RunIsDigits(literal[sign..]);
  }

  lemma {:induction false} RunIsDigits(s: seq<Byte>)
    ensures forall i :: 0 <= i < DigitRun(s) ==> IsDigit(s[i])
  {
    if s != [] && IsDigit(s[0]) {
      RunIsDigits(s[1..]);
      assert forall i :: 1 <= i < DigitRun(s) ==> s[i] == s[1..][i - 1];
    }
  }

  /** An integer literal is printable, as itself, exactly when its value fits a signed 64-bit integer. */
  lemma IntegerSafeExactly(floats: Floats, literal: seq<Byte>)
    requires JsonNumber(literal) && !HasFloatMark(literal)
    ensures NumberText(floats, literal)
            == (if -9223372036854775808 <= SignedMagnitude(literal) <= 9223372036854775807 then Some(literal) else None)
  {
    IntegerLiteral(literal);
    var digits := if literal[0] == MINUS then literal[1..] else literal;
    DigitsRead(digits);
    assert literal[0] != PLUS;
    assert ReadInteger(literal) == Some(SignedMagnitude(literal));
  }
}
