/** The envelope's canonical JSON printer (internal/envelope/envelope.go): what it prints, and that what
    it prints decodes back. Object keys are sorted by their UTF-8 bytes. */
module Jcs {
  import opened Wrappers
  import opened Utf8
  import opened Json
  import Decimal
  import Sorting

  type Int64 = n: int | -0x8000_0000_0000_0000 <= n < 0x8000_0000_0000_0000

  /** The integer a literal with a fraction or exponent stands for, when its double is one (strconv.ParseFloat
      and the comparison with its int64 truncation). */
  type Floats = seq<Byte> -> Option<Int64>

  // ---- numbers ----

  predicate FloatMark(b: Byte) { b == POINT || IsExponentMark(b) }

  predicate HasFloatMark(literal: seq<Byte>) { exists i :: 0 <= i < |literal| && FloatMark(literal[i]) }

  function DigitByte(d: int): Byte
    requires 0 <= d < 10
  {
    48 + d
  }

  function DigitBytes(ds: seq<Decimal.Digit>): (bs: seq<Byte>)
    ensures |bs| == |ds| && forall i :: 0 <= i < |bs| ==> bs[i] == DigitByte(ds[i])
  {
    seq(|ds|, i requires 0 <= i < |ds| => DigitByte(ds[i]))
  }

  function ByteDigit(b: int): Decimal.Digit
    requires 48 <= b < 58
  {
    b - 48
  }

  function BytesDigits(bs: seq<Byte>): (ds: seq<Decimal.Digit>)
    requires AllDigits(bs)
    ensures |bs| == |ds| && forall i :: 0 <= i < |bs| ==> ds[i] == ByteDigit(bs[i])
  {
    seq(|bs|, i requires 0 <= i < |bs| && IsDigit(bs[i]) => ByteDigit(bs[i]))
  }

  /** strconv.FormatInt in base ten. */
  function Itoa(n: int): seq<Byte> {
    if n < 0 then [MINUS] + DigitBytes(Decimal.Digits(-n)) else DigitBytes(Decimal.Digits(n))
  }

  predicate AllDigits(s: seq<Byte>) { forall i :: 0 <= i < |s| ==> IsDigit(s[i]) }

  /** An optional sign and decimal digits. */
  function ReadInteger(s: seq<Byte>): (r: Option<int>)
    ensures r.Some? ==> s != [] && (s[0] == MINUS || s[0] == PLUS || IsDigit(s[0]))
  {
    var digits := if s != [] && (s[0] == MINUS || s[0] == PLUS) then s[1..] else s;
    if digits == [] || !AllDigits(digits) then None
    else
      var n := Decimal.Value(BytesDigits(digits));
      Some(if s[0] == MINUS then -(n as int) else n)
  }

  /** strconv.ParseInt in base ten for 64 bits. */
  function ParseInt(s: seq<Byte>): (r: Option<Int64>)
    ensures r.Some? ==> s != [] && (s[0] == MINUS || s[0] == PLUS || IsDigit(s[0]))
  {
    var n := ReadInteger(s);
    if n.Some? && -0x8000_0000_0000_0000 <= n.value < 0x8000_0000_0000_0000 then Some(n.value) else None
  }

  /** What a number literal prints as; None when it is not JCS-safe. */
  function NumberText(floats: Floats, literal: seq<Byte>): Option<seq<Byte>> {
    if HasFloatMark(literal) then
      var n := floats(literal);
      if n.Some? then Some(Itoa(n.value)) else None
    else if ParseInt(literal).Some? then Some(literal)
    else None
  }

  // ---- strings ----

  function HexByte(d: int): Byte
    requires 0 <= d < 16
  {
    if d < 10 then 48 + d else 87 + d
  }

  /** The minimal escape set. */
  function Escape(r: Rune): (bs: seq<Byte>)
    ensures bs != []
  {
    if r == 34 then [BACKSLASH, 34]
    else if r == 92 then [BACKSLASH, 92]
    else if r == 8 then [BACKSLASH, 98]
    else if r == 12 then [BACKSLASH, 102]
    else if r == 10 then [BACKSLASH, 110]
    else if r == 13 then [BACKSLASH, 114]
    else if r == 9 then [BACKSLASH, 116]
    else if r < 0x20 then [BACKSLASH, 117, 48, 48, HexByte(r / 16), HexByte(r % 16)]
    else EncodeRune(r)
  }

  function Escaped(s: Str): seq<Byte> {
    if s == [] then [] else Escape(s[0]) + Escaped(s[1..])
  }

  function Quoted(s: Str): seq<Byte> { [QUOTE] + Escaped(s) + [QUOTE] }

  // ---- keys ----

  predicate KeyLess(a: Str, b: Str) { LexLess(Encode(a), Encode(b)) }

  lemma KeysAreOrdered()
    ensures Sorting.StrictTotal(KeyLess)
  {
    forall a, b, c
      ensures !(KeyLess(a, b) && KeyLess(b, a))
      ensures a == b || KeyLess(a, b) || KeyLess(b, a)
      ensures KeyLess(a, c) ==> KeyLess(a, b) || KeyLess(b, c)
    {
      KeyOrder(a, b, c);
    }
  }

  lemma KeyOrder(a: Str, b: Str, c: Str)
    ensures !(KeyLess(a, b) && KeyLess(b, a))
    ensures a == b || KeyLess(a, b) || KeyLess(b, a)
    ensures KeyLess(a, c) ==> KeyLess(a, b) || KeyLess(b, c)
  {
    ByteOrderIsCodePointOrder(a, b);
    ByteOrderIsCodePointOrder(b, a);
    LexTotal(a, b);
    var x, y, z := Encode(a), Encode(b), Encode(c);
    LexTotal(x, y);
    if LexLess(y, x) && LexLess(x, z) {
      LexTransitive(y, x, z);
    }
  }

  /** Object keys in the order they are printed. */
  ghost function SortedKeys(ks: set<Str>): (r: seq<Str>)
    ensures forall x :: x in r <==> x in ks
    ensures forall i, j :: 0 <= i < j < |r| ==> LexLess(Encode(r[i]), Encode(r[j]))
  {
    KeysAreOrdered();
    Sorting.Ordered(ks, KeyLess)
  }

  // ---- the printer ----

  /** Every number in a value is JCS-safe. */
  ghost predicate Safe(floats: Floats, v: Value)
    decreases v
  {
    match v
    case Num(literal) => NumberText(floats, literal).Some?
    case Arr(items) => forall x :: x in items ==> Safe(floats, x)
    case Obj(members) => forall k :: k in members ==> Safe(floats, members[k])
    case _ => true
  }

  /** A first byte that neither is skipped nor closes an array. */
  predicate Opens(s: seq<Byte>) { s != [] && !Space(s[0]) && s[0] != CLOSE_ARRAY }

  ghost function Canonical(floats: Floats, v: Value): (r: seq<Byte>)
    requires Safe(floats, v)
    ensures Opens(r)
    decreases v, 1, 0
  {
    match v
    case Null => NULL_TEXT
    case Bool(b) => if b then TRUE_TEXT else FALSE_TEXT
    case Num(literal) => NumberText(floats, literal).value
    case Text(s) => Quoted(s)
    case Arr(items) => [OPEN_ARRAY] + ItemsText(floats, v, 0) + [CLOSE_ARRAY]
    case Obj(members) => [OPEN_OBJECT] + MembersText(floats, v, SortedKeys(members.Keys)) + [CLOSE_OBJECT]
  }

  ghost function ItemsText(floats: Floats, v: Value, i: nat): seq<Byte>
    requires v.Arr? && Safe(floats, v) && i <= |v.items|
    decreases v, 0, |v.items| - i
  {
    if i == |v.items| then []
    else Canonical(floats, v.items[i]) + (if i + 1 == |v.items| then [] else [COMMA] + ItemsText(floats, v, i + 1))
  }

  ghost function MembersText(floats: Floats, v: Value, ks: seq<Str>): seq<Byte>
    requires v.Obj? && Safe(floats, v) && forall k :: k in ks ==> k in v.members
    decreases v, 0, |ks|
  {
    if ks == [] then []
    else Quoted(ks[0]) + [COLON] + Canonical(floats, v.members[ks[0]])
         + (if |ks| == 1 then [] else [COMMA] + MembersText(floats, v, ks[1..]))
  }

  // ---- what decoding the printed bytes gives ----

  /** The value with every number literal replaced by what it prints as. */
  ghost function Norm(floats: Floats, v: Value): Value
    decreases v
  {
    match v
    case Num(literal) => if NumberText(floats, literal).Some? then Num(NumberText(floats, literal).value) else v
    case Arr(items) => Arr(seq(|items|, i requires 0 <= i < |items| => Norm(floats, items[i])))
    case Obj(members) => Obj(map k | k in members :: Norm(floats, members[k]))
    case _ => v
  }
}
