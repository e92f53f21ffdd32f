/** The outbox's own canonical JSON printer (internal/outbox/jcs.go): strings escaped byte by byte,
    integers up to 2^53 by their value, other numbers through a double. It prints the same bytes as the
    envelope's printer on values of small integers, exactly when none is written "-0". */
module OutboxJcs {
  import opened Wrappers
  import opened Utf8
  import opened Json
  import opened Jcs
  import opened EcmaNumber
  import Decimal
  import JcsRoundTrip
  import JcsTheorems
  import JcsWriter

  /** The double a literal parses to (strconv.ParseFloat), as its shortest digits; None when out of range. */
  type Doubles = seq<Byte> -> Option<ProperDouble>

  const MAX_EXACT := 0x20_0000_0000_0000

  function CanonicalNumber(doubles: Doubles, literal: seq<Byte>): Option<seq<Byte>> {
    if literal == [] then None
    else if !HasFloatMark(literal) && ReadInteger(literal).None? then None
    else if !HasFloatMark(literal) && -MAX_EXACT <= ReadInteger(literal).value <= MAX_EXACT then Some(Itoa(ReadInteger(literal).value))
    else
      var d := doubles(literal);
      if d.None? then None else Some(EcmaText(d.value))
  }

  // ---- strings ----

  function EscapeByte(b: Byte): seq<Byte> {
    if b == 34 then [BACKSLASH, 34]
    else if b == 92 then [BACKSLASH, 92]
    else if b == 8 then [BACKSLASH, 98]
    else if b == 12 then [BACKSLASH, 102]
    else if b == 10 then [BACKSLASH, 110]
    else if b == 13 then [BACKSLASH, 114]
    else if b == 9 then [BACKSLASH, 116]
    else if b < 0x20 then [BACKSLASH, 117, 48, 48, HexByte(b / 16), HexByte(b % 16)]
    else [b]
  }

  function EscapedBytes(bs: seq<Byte>): seq<Byte> {
    if bs == [] then [] else EscapedBytes(bs[..|bs| - 1]) + EscapeByte(bs[|bs| - 1])
  }

  method WriteCanonicalString(buffer: JcsWriter.Buffer, value: seq<Byte>)
    modifies buffer
    ensures buffer.bytes == old(buffer.bytes) + ([QUOTE] + EscapedBytes(value) + [QUOTE])
  {
    buffer.Write([QUOTE]);
    ghost var start := old(buffer.bytes) + [QUOTE];
    for i := 0 to |value|
      invariant buffer.bytes == start + EscapedBytes(value[..i])
    {
      assert value[..i + 1][..i] == value[..i];
      JcsWriter.Grouped(start, EscapedBytes(value[..i]), EscapeByte(value[i]));
      buffer.Write(EscapeByte(value[i]));
    }
    assert value[..|value|] == value;
    buffer.Write([QUOTE]);
    JcsWriter.Framed(old(buffer.bytes), [QUOTE], EscapedBytes(value), [QUOTE]);
  }

  lemma {:induction false} EscapedBytesConcat(a: seq<Byte>, b: seq<Byte>)
    ensures EscapedBytes(a + b) == EscapedBytes(a) + EscapedBytes(b)
  {
    if b == [] {
      assert a + b == a;
    } else {
      var init, last := b[..|b| - 1], b[|b| - 1];
      assert (a + b)[..|a + b| - 1] == a + init && (a + b)[|a + b| - 1] == last;
      EscapedBytesConcat(a, init);
      assert EscapedBytes(a + b) == EscapedBytes(a + init) + EscapeByte(last);
      JcsWriter.Grouped(EscapedBytes(a), EscapedBytes(init), EscapeByte(last));
    }
  }

  lemma {:induction false} HighBytesStay(bs: seq<Byte>)
    requires forall i :: 0 <= i < |bs| ==> bs[i] >= 0x80
    ensures EscapedBytes(bs) == bs
  {
    if bs != [] {
      var init, last := bs[..|bs| - 1], bs[|bs| - 1];
      HighBytesStay(init);
      assert EscapeByte(last) == [last];
      assert bs == init + [last];
    }
  }

  lemma OneByte(b: Byte)
    ensures EscapedBytes([b]) == EscapeByte(b)
  {
    assert [b][..0] == [] && EscapedBytes([]) == [];
    assert [] + EscapeByte(b) == EscapeByte(b);
  }

  lemma SameEscapes(b: Byte)
    requires b < 0x80
    ensures EscapeByte(b) == Escape(b)
  {
  }

  lemma OneRune(r: Rune)
    ensures EscapedBytes(EncodeRune(r)) == Escape(r)
  {
    if r >= 0x80 {
      HighBytesStay(EncodeRune(r));
    } else {
      OneByte(r);
      SameEscapes(r);
    }
  }

  /** Escaping the bytes of a string is encoding its escaped characters: no byte of a multi-byte
      character is ever escaped. */
  lemma {:induction false} ByteWiseIsRuneWise(s: Str)
    ensures EscapedBytes(Encode(s)) == Escaped(s)
  {
    if s != [] {
      EscapedBytesConcat(EncodeRune(s[0]), Encode(s[1..]));
      OneRune(s[0]);
      ByteWiseIsRuneWise(s[1..]);
    }
  }

  // ---- the printer ----

  ghost predicate OutboxSafe(doubles: Doubles, v: Value)
    decreases v
  {
    match v
    case Num(literal) => CanonicalNumber(doubles, literal).Some?
    case Arr(items) => forall x :: x in items ==> OutboxSafe(doubles, x)
    case Obj(members) => forall k :: k in members ==> OutboxSafe(doubles, members[k])
    case _ => true
  }

  ghost function OutboxString(s: Str): seq<Byte> { [QUOTE] + EscapedBytes(Encode(s)) + [QUOTE] }

  ghost function OutboxText(doubles: Doubles, v: Value): seq<Byte>
    requires OutboxSafe(doubles, v)
    decreases v, 1, 0
  {
    match v
    case Null => NULL_TEXT
    case Bool(b) => if b then TRUE_TEXT else FALSE_TEXT
    case Num(literal) => CanonicalNumber(doubles, literal).value
    case Text(s) => OutboxString(s)
    case Arr(items) => [OPEN_ARRAY] + OutboxItems(doubles, v, 0) + [CLOSE_ARRAY]
    case Obj(members) => [OPEN_OBJECT] + OutboxMembers(doubles, v, SortedKeys(members.Keys)) + [CLOSE_OBJECT]
  }

  ghost function OutboxItems(doubles: Doubles, v: Value, i: nat): seq<Byte>
    requires v.Arr? && OutboxSafe(doubles, v) && i <= |v.items|
    decreases v, 0, |v.items| - i
  {
    if i == |v.items| then []
    else OutboxText(doubles, v.items[i]) + (if i + 1 == |v.items| then [] else [COMMA] + OutboxItems(doubles, v, i + 1))
  }

  ghost function OutboxMembers(doubles: Doubles, v: Value, ks: seq<Str>): seq<Byte>
    requires v.Obj? && OutboxSafe(doubles, v) && forall k :: k in ks ==> k in v.members
    decreases v, 0, |ks|
  {
    if ks == [] then []
    else OutboxString(ks[0]) + [COLON] + OutboxText(doubles, v.members[ks[0]])
         + (if |ks| == 1 then [] else [COMMA] + OutboxMembers(doubles, v, ks[1..]))
  }

  // ---- agreement ----

  const NEGATIVE_ZERO: seq<Byte> := [MINUS, ZERO]

  predicate SmallInteger(literal: seq<Byte>) {
    JsonNumber(literal) && !HasFloatMark(literal)
    && ReadInteger(literal).Some? && -MAX_EXACT <= ReadInteger(literal).value <= MAX_EXACT
  }

  /** Every number is an integer literal of magnitude at most 2^53. */
  ghost predicate SmallIntegers(v: Value)
    decreases v
  {
    match v
    case Num(literal) => SmallInteger(literal)
    case Arr(items) => forall x :: x in items ==> SmallIntegers(x)
    case Obj(members) => forall k :: k in members ==> SmallIntegers(members[k])
    case _ => true
  }

  ghost predicate NoNegativeZero(v: Value)
    decreases v
  {
    match v
    case Num(literal) => literal != NEGATIVE_ZERO
    case Arr(items) => forall x :: x in items ==> NoNegativeZero(x)
    case Obj(members) => forall k :: k in members ==> NoNegativeZero(members[k])
    case _ => true
  }

  /** The value with every "-0" written "0". */
  ghost function Unsigned(v: Value): Value
    decreases v
  {
    match v
    case Num(literal) => if literal == NEGATIVE_ZERO then Num([ZERO]) else v
    case Arr(items) => Arr(seq(|items|, i requires 0 <= i < |items| => Unsigned(items[i])))
    case Obj(members) => Obj(map k | k in members :: Unsigned(members[k]))
    case _ => v
  }

  lemma AllDigitsLiteral(s: seq<Byte>)
    requires JsonNumber(s) && !HasFloatMark(s)
    ensures IntegerEnd(s) == Some(|s|)
    ensures var digits := if s[0] == MINUS then s[1..] else s;
            digits != [] && AllDigits(digits) && (digits[0] == ZERO ==> |digits| == 1) && s[0] != PLUS
  {
    var a := IntegerEnd(s).value;
    assert a < |s| ==> !FloatMark(s[a]);
    assert FractionEnd(s, a) == Some(a) && ExponentEnd(s, a) == Some(a);
    var sign := if s[0] == MINUS then 1 else 0;
    assert DigitRun(s[sign..]) >= |s| - sign;
    RunIsDigits(s[sign..]);
  }

  lemma DigitsAgain(digits: seq<Byte>)
    requires digits != [] && AllDigits(digits) && (digits[0] == ZERO ==> |digits| == 1)
    ensures DigitBytes(Decimal.Digits(Decimal.Value(BytesDigits(digits)))) == digits
    ensures Decimal.Value(BytesDigits(digits)) == 0 <==> digits == [ZERO]
  {
    var ds := BytesDigits(digits);
    Decimal.DigitsOfValue(ds);
    assert DigitBytes(ds) == digits;
    if digits == [ZERO] {
      assert ds == [0] && ds[..0] == [];
    }
  }

  /** An integer literal of JSON is how its value is formatted, except "-0". */
  lemma LiteralIsItsValue(s: seq<Byte>)
    requires JsonNumber(s) && !HasFloatMark(s)
    ensures ReadInteger(s).Some? && Itoa(ReadInteger(s).value) == (if s == NEGATIVE_ZERO then [ZERO] else s)
  {
    AllDigitsLiteral(s);
    if s[0] == MINUS {
      assert s == [MINUS] + s[1..];
      NegativeLiteral(s, s[1..]);
    } else {
      PlainLiteral(s);
    }
  }

  lemma PlainLiteral(s: seq<Byte>)
    requires s != [] && AllDigits(s) && (s[0] == ZERO ==> |s| == 1)
    ensures ReadInteger(s).Some? && Itoa(ReadInteger(s).value) == s
  {
    DigitsAgain(s);
    assert ReadInteger(s) == Some(Decimal.Value(BytesDigits(s)));
  }

  lemma NegativeValue(s: seq<Byte>, digits: seq<Byte>)
    requires digits != [] && AllDigits(digits) && s == [MINUS] + digits && s[1..] == digits
    ensures ReadInteger(s) == Some(-(Decimal.Value(BytesDigits(digits)) as int))
  {
  }

  lemma NegativeText(n: int)
    requires n > 0
    ensures Itoa(-n) == [MINUS] + DigitBytes(Decimal.Digits(n))
  {
  }

  lemma NegativeLiteral(s: seq<Byte>, digits: seq<Byte>)
    requires digits != [] && AllDigits(digits) && (digits[0] == ZERO ==> |digits| == 1)
    requires s == [MINUS] + digits && s[1..] == digits
    ensures ReadInteger(s).Some? && Itoa(ReadInteger(s).value) == (if s == NEGATIVE_ZERO then [ZERO] else s)
  {
    var n := Decimal.Value(BytesDigits(digits));
    DigitsAgain(digits);
    NegativeValue(s, digits);
    if n == 0 {
      ZeroText();
    } else {
      assert NEGATIVE_ZERO[1..] == [ZERO];
      NegativeText(n);
    }
  }

  lemma ZeroText()
    ensures Itoa(0) == [ZERO]
  {
    assert Decimal.Digits(0) == [0];
  }

  lemma SmallNumbersAgree(floats: Floats, doubles: Doubles, literal: seq<Byte>)
    requires SmallInteger(literal)
    ensures NumberText(floats, literal) == Some(literal)
    ensures CanonicalNumber(doubles, literal) == NumberText(floats, if literal == NEGATIVE_ZERO then [ZERO] else literal)
  {
    LiteralIsItsValue(literal);
    if literal == NEGATIVE_ZERO {
      ZeroText();
      JcsRoundTrip.ItoaIsInteger(0);
    }
  }

  lemma {:induction false} SmallIsSafe(floats: Floats, doubles: Doubles, v: Value)
    requires SmallIntegers(v)
    ensures Safe(floats, v) && OutboxSafe(doubles, v) && ProperNumbers(v) && JcsTheorems.IntegersOnly(v)
    decreases v
  {
    match v
    case Num(literal) => SmallNumbersAgree(floats, doubles, literal);
    case Arr(items) =>
      forall x | x in items
        ensures Safe(floats, x) && OutboxSafe(doubles, x) && ProperNumbers(x) && JcsTheorems.IntegersOnly(x)
      {
        SmallIsSafe(floats, doubles, x);
      }
    case Obj(members) =>
      forall k | k in members
        ensures Safe(floats, members[k]) && OutboxSafe(doubles, members[k]) && ProperNumbers(members[k])
                && JcsTheorems.IntegersOnly(members[k])
      {
        SmallIsSafe(floats, doubles, members[k]);
      }
    case _ =>
  }

  lemma ZeroIsSmall()
    ensures SmallInteger([ZERO])
  {
    ZeroText();
    JcsRoundTrip.ItoaIsInteger(0);
  }

  lemma {:induction false} UnsignedIsSmall(v: Value)
    requires SmallIntegers(v)
    ensures SmallIntegers(Unsigned(v))
    decreases v
  {
    match v
    case Num(literal) => ZeroIsSmall();
    case Arr(items) =>
      forall x | x in items ensures SmallIntegers(Unsigned(x)) { UnsignedIsSmall(x); }
    case Obj(members) =>
      forall k | k in members ensures SmallIntegers(Unsigned(members[k])) { UnsignedIsSmall(members[k]); }
    case _ =>
  }

  lemma {:induction false} UnsignedExactly(v: Value)
    ensures Unsigned(v) == v <==> NoNegativeZero(v)
    decreases v
  {
    match v
    case Arr(items) =>
      forall i | 0 <= i < |items| ensures Unsigned(items[i]) == items[i] <==> NoNegativeZero(items[i]) {
        UnsignedExactly(items[i]);
      }
      var us := Unsigned(v).items;
      assert us == items <==> forall i :: 0 <= i < |items| ==> us[i] == items[i];
    case Obj(members) =>
      forall k | k in members ensures Unsigned(members[k]) == members[k] <==> NoNegativeZero(members[k]) {
        UnsignedExactly(members[k]);
      }
      var us := Unsigned(v).members;
      assert us == members <==> forall k :: k in members ==> us[k] == members[k];
    case _ =>
  }

  /** The outbox prints what the envelope prints for the value with "-0" written "0". */
  lemma {:induction false} OutboxPrintsUnsigned(floats: Floats, doubles: Doubles, v: Value)
    requires SmallIntegers(v) && SmallIntegers(Unsigned(v))
    requires OutboxSafe(doubles, v) && Safe(floats, Unsigned(v))
    ensures OutboxText(doubles, v) == Canonical(floats, Unsigned(v))
    decreases v, 1, 0
  {
    match v
    case Num(literal) => SmallNumbersAgree(floats, doubles, literal);
    case Text(s) => ByteWiseIsRuneWise(s);
    case Arr(items) => ItemsPrintUnsigned(floats, doubles, v, 0);
    case Obj(members) =>
      assert Unsigned(v).members.Keys == members.Keys;
      MembersPrintUnsigned(floats, doubles, v, SortedKeys(members.Keys));
    case _ =>
  }

  lemma {:induction false} ItemsPrintUnsigned(floats: Floats, doubles: Doubles, v: Value, i: nat)
    requires v.Arr? && i <= |v.items| && SmallIntegers(v) && SmallIntegers(Unsigned(v))
    requires OutboxSafe(doubles, v) && Safe(floats, Unsigned(v))
    ensures OutboxItems(doubles, v, i) == ItemsText(floats, Unsigned(v), i)
    decreases v, 0, |v.items| - i
  {
    if i < |v.items| {
      assert Unsigned(v).items[i] == Unsigned(v.items[i]);
      OutboxPrintsUnsigned(floats, doubles, v.items[i]);
      ItemsPrintUnsigned(floats, doubles, v, i + 1);
    }
  }

  lemma {:induction false} MembersPrintUnsigned(floats: Floats, doubles: Doubles, v: Value, ks: seq<Str>)
    requires v.Obj? && SmallIntegers(v) && SmallIntegers(Unsigned(v))
    requires OutboxSafe(doubles, v) && Safe(floats, Unsigned(v)) && forall k :: k in ks ==> k in v.members
    ensures OutboxMembers(doubles, v, ks) == MembersText(floats, Unsigned(v), ks)
    decreases v, 0, |ks|
  {
    if ks != [] {
      ByteWiseIsRuneWise(ks[0]);
      assert Unsigned(v).members[ks[0]] == Unsigned(v.members[ks[0]]);
      OutboxPrintsUnsigned(floats, doubles, v.members[ks[0]]);
      MembersPrintUnsigned(floats, doubles, v, ks[1..]);
    }
  }

  /** On values of integers up to 2^53 the two printers give the same bytes exactly when no number is
      written "-0". */
  lemma PrintersAgreeExactly(floats: Floats, doubles: Doubles, v: Value)
    requires SmallIntegers(v)
    ensures Safe(floats, v) && OutboxSafe(doubles, v)
    ensures OutboxText(doubles, v) == Canonical(floats, v) <==> NoNegativeZero(v)
  {
    var u := Unsigned(v);
    SmallIsSafe(floats, doubles, v);
    UnsignedIsSmall(v);
    SmallIsSafe(floats, doubles, u);
    OutboxPrintsUnsigned(floats, doubles, v);
    UnsignedExactly(v);
    JcsTheorems.PrintingInjective(floats, v, u);
    JcsTheorems.NormOfIntegers(floats, v);
    JcsTheorems.NormOfIntegers(floats, u);
  }
}
