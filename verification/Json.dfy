/** JSON values as Go's encoding/json decodes them with UseNumber, and the decoder itself (RFC 8259):
    objects become maps with the last duplicate winning, numbers keep their literal, ill-formed UTF-8 and
    unpaired surrogate escapes become U+FFFD, and nesting is limited. */
module Json {
  import opened Wrappers
  import opened Utf8

  type Str = seq<Rune>

  datatype Value =
    | Null
    | Bool(b: bool)
    | Num(literal: seq<Byte>)
    | Text(s: Str)
    | Arr(items: seq<Value>)
    | Obj(members: map<Str, Value>)

  /** A decoded prefix and what follows it. */
  datatype Parsed<+T> = Parsed(value: T, rest: seq<Byte>)

  const QUOTE: Byte := 34
  const COMMA: Byte := 44
  const COLON: Byte := 58
  const BACKSLASH: Byte := 92
  const OPEN_ARRAY: Byte := 91
  const CLOSE_ARRAY: Byte := 93
  const OPEN_OBJECT: Byte := 123
  const CLOSE_OBJECT: Byte := 125
  const MINUS: Byte := 45
  const PLUS: Byte := 43
  const POINT: Byte := 46
  const ZERO: Byte := 48
  const NULL_TEXT: seq<Byte> := [110, 117, 108, 108]
  const TRUE_TEXT: seq<Byte> := [116, 114, 117, 101]
  const FALSE_TEXT: seq<Byte> := [102, 97, 108, 115, 101]

  // ---- white space ----

  predicate Space(b: Byte) { b == 32 || b == 9 || b == 10 || b == 13 }

  function SkipSpace(s: seq<Byte>): (r: seq<Byte>)
    ensures |r| <= |s|
    ensures s != [] && !Space(s[0]) ==> r == s
  {
    if s != [] && Space(s[0]) then SkipSpace(s[1..]) else s
  }

  // ---- numbers ----

  predicate IsDigit(b: Byte) { ZERO <= b < ZERO + 10 }

  predicate IsExponentMark(b: Byte) { b == 69 || b == 101 }

  /** How many digits a text starts with. */
  function DigitRun(s: seq<Byte>): (n: nat)
    ensures n <= |s|
  {
    if s != [] && IsDigit(s[0]) then 1 + DigitRun(s[1..]) else 0
  }

  lemma {:induction false} RunIsDigits(s: seq<Byte>)
    ensures forall i :: 0 <= i < DigitRun(s) ==> IsDigit(s[i])
    ensures DigitRun(s) < |s| ==> !IsDigit(s[DigitRun(s)])
  {
    if s != [] && IsDigit(s[0]) {
      RunIsDigits(s[1..]);
      assert forall i :: 0 < i < DigitRun(s) ==> s[i] == s[1..][i - 1];
    }
  }

  /** The end of the integer part: no sign but a minus, no leading zero. */
  function IntegerEnd(s: seq<Byte>): (r: Option<nat>)
    ensures r.Some? ==> 1 <= r.value <= |s|
  {
    var sign := if s != [] && s[0] == MINUS then 1 else 0;
    var n := DigitRun(s[sign..]);
    if n == 0 then None else if s[sign] == ZERO then Some(sign + 1) else Some(sign + n)
  }

  function FractionEnd(s: seq<Byte>, i: nat): (r: Option<nat>)
    requires i <= |s|
    ensures r.Some? ==> i <= r.value <= |s|
  {
    if i < |s| && s[i] == POINT then
      var n := DigitRun(s[i + 1..]);
      if n == 0 then None else Some(i + 1 + n)
    else Some(i)
  }

  function ExponentEnd(s: seq<Byte>, i: nat): (r: Option<nat>)
    requires i <= |s|
    ensures r.Some? ==> i <= r.value <= |s|
  {
    if i < |s| && IsExponentMark(s[i]) then
      var k := if i + 1 < |s| && (s[i + 1] == PLUS || s[i + 1] == MINUS) then i + 2 else i + 1;
      var n := DigitRun(s[k..]);
      if n == 0 then None else Some(k + n)
    else Some(i)
  }

  /** The length of the number a text starts with. */
  function NumberLength(s: seq<Byte>): (r: Option<nat>)
    ensures r.Some? ==> 1 <= r.value <= |s|
  {
    var a := IntegerEnd(s);
    if a.None? then None
    else
      var b := FractionEnd(s, a.value);
      if b.None? then None else ExponentEnd(s, b.value)
  }

  /** A literal of the JSON number grammar. */
  predicate JsonNumber(literal: seq<Byte>) { NumberLength(literal) == Some(|literal|) }

  // ---- strings ----

  function HexDigit(b: Byte): Option<int> {
    if IsDigit(b) then Some(b as int - 48)
    else if 97 <= b <= 102 then Some(b as int - 87)
    else if 65 <= b <= 70 then Some(b as int - 55)
    else None
  }

  /** The code unit of a four-digit escape, after its 'u'. */
  function Hex4(s: seq<Byte>): (r: Option<int>)
    ensures r.Some? ==> |s| >= 4 && 0 <= r.value < 0x10000
  {
    if |s| < 4 then None
    else
      var a, b, c, d := HexDigit(s[0]), HexDigit(s[1]), HexDigit(s[2]), HexDigit(s[3]);
      if a.None? || b.None? || c.None? || d.None? then None
      else Some(4096 * a.value + 256 * b.value + 16 * c.value + d.value)
  }

  function SimpleEscape(b: Byte): Option<Rune> {
    if b == QUOTE || b == BACKSLASH || b == 47 then Some(b)
    else if b == 98 then Some(8)
    else if b == 102 then Some(12)
    else if b == 110 then Some(10)
    else if b == 114 then Some(13)
    else if b == 116 then Some(9)
    else None
  }

  /** The scalar of a \u escape and its length, counted from the backslash. */
  function UnicodeEscape(s: seq<Byte>): (r: Option<Decoded>)
    requires |s| >= 2
    ensures r.Some? ==> 6 <= r.value.size <= |s|
  {
    var hi := Hex4(s[2..]);
    if hi.None? then None
    else if !(0xD800 <= hi.value <= 0xDFFF) then Some(Decoded(hi.value, 6))
    else
      var lo := if |s| >= 8 && s[6] == BACKSLASH && s[7] == 117 then Hex4(s[8..]) else None;
      if hi.value < 0xDC00 && lo.Some? && 0xDC00 <= lo.value <= 0xDFFF
      then Some(Decoded(0x10000 + (hi.value - 0xD800) * 1024 + (lo.value - 0xDC00), 12))
      else Some(Decoded(REPLACEMENT, 6))
  }

  /** One character of a string literal and its length in bytes. */
  function ParseChar(s: seq<Byte>): (r: Option<Decoded>)
    requires s != []
    ensures r.Some? ==> 1 <= r.value.size <= |s|
  {
    if s[0] == BACKSLASH then
      if |s| < 2 then None
      else if s[1] == 117 then UnicodeEscape(s)
      else if SimpleEscape(s[1]).Some? then Some(Decoded(SimpleEscape(s[1]).value, 2))
      else None
    else if s[0] < 0x20 then None
    else Some(DecodeRune(s))
  }

  /** A string literal after its opening quote. */
  function ParseString(s: seq<Byte>): (r: Option<Parsed<Str>>)
    ensures r.Some? ==> |r.value.rest| < |s|
    decreases |s|
  {
    if s == [] then None
    else if s[0] == QUOTE then Some(Parsed([], s[1..]))
    else
      var c := ParseChar(s);
      if c.None? then None
      else
        var tail := ParseString(s[c.value.size..]);
        if tail.None? then None else Some(Parsed([c.value.rune] + tail.value.value, tail.value.rest))
  }

  // ---- values ----

  function ParseScalar(s: seq<Byte>): (r: Option<Parsed<Value>>)
    requires s != []
    ensures r.Some? ==> |r.value.rest| < |s|
  {
    if s[0] == QUOTE then
      var t := ParseString(s[1..]);
      if t.None? then None else Some(Parsed(Text(t.value.value), t.value.rest))
    else if NULL_TEXT <= s then Some(Parsed(Null, s[4..]))
    else if TRUE_TEXT <= s then Some(Parsed(Bool(true), s[4..]))
    else if FALSE_TEXT <= s then Some(Parsed(Bool(false), s[5..]))
    else
      var n := NumberLength(s);
      if n.None? then None else Some(Parsed(Num(s[..n.value]), s[n.value..]))
  }

  /** One value with at most `depth` levels of nesting, and the bytes after it. */
  function ParseValue(s: seq<Byte>, depth: nat): (r: Option<Parsed<Value>>)
    ensures r.Some? ==> |r.value.rest| < |s|
    decreases |s|, 0
  {
    var t := SkipSpace(s);
    if t == [] then None
    else if t[0] == OPEN_ARRAY then
      if depth == 0 then None
      else
        var u := SkipSpace(t[1..]);
        if u != [] && u[0] == CLOSE_ARRAY then Some(Parsed(Arr([]), u[1..]))
        else
          var items := ParseItems(u, depth - 1);
          if items.None? then None else Some(Parsed(Arr(items.value.value), items.value.rest))
    else if t[0] == OPEN_OBJECT then
      if depth == 0 then None
      else
        var u := SkipSpace(t[1..]);
        if u != [] && u[0] == CLOSE_OBJECT then Some(Parsed(Obj(map[]), u[1..]))
        else
          var members := ParseMembers(u, depth - 1, map[]);
          if members.None? then None else Some(Parsed(Obj(members.value.value), members.value.rest))
    else ParseScalar(t)
  }

  /** The elements up to and including the closing bracket. */
  function ParseItems(s: seq<Byte>, depth: nat): (r: Option<Parsed<seq<Value>>>)
    ensures r.Some? ==> |r.value.rest| < |s|
    decreases |s|, 1
  {
    var item := ParseValue(s, depth);
    if item.None? then None
    else
      var t := SkipSpace(item.value.rest);
      if t == [] then None
      else if t[0] == CLOSE_ARRAY then Some(Parsed([item.value.value], t[1..]))
      else if t[0] != COMMA then None
      else
        var tail := ParseItems(t[1..], depth);
        if tail.None? then None else Some(Parsed([item.value.value] + tail.value.value, tail.value.rest))
  }

  /** The members up to and including the closing brace, added to those read before. */
  function ParseMembers(s: seq<Byte>, depth: nat, before: map<Str, Value>): (r: Option<Parsed<map<Str, Value>>>)
    ensures r.Some? ==> |r.value.rest| < |s|
    decreases |s|, 1
  {
    var t := SkipSpace(s);
    if t == [] || t[0] != QUOTE then None
    else
      var key := ParseString(t[1..]);
      if key.None? then None
      else
        var u := SkipSpace(key.value.rest);
        if u == [] || u[0] != COLON then None
        else
          var item := ParseValue(u[1..], depth);
          if item.None? then None
          else
            var members := before[key.value.value := item.value.value];
            var w := SkipSpace(item.value.rest);
            if w == [] then None
            else if w[0] == CLOSE_OBJECT then Some(Parsed(members, w[1..]))
            else if w[0] != COMMA then None
            else ParseMembers(w[1..], depth, members)
  }

  // ---- what every decoded value is ----

  /** Nesting depth: how many brackets and braces a value needs inside one another. */
  ghost predicate Nests(v: Value, depth: nat)
    decreases v
  {
    match v
    case Arr(items) => depth > 0 && forall x :: x in items ==> Nests(x, depth - 1)
    case Obj(members) => depth > 0 && forall k :: k in members ==> Nests(members[k], depth - 1)
    case _ => true
  }

  /** All number literals are JSON numbers. */
  ghost predicate ProperNumbers(v: Value)
    decreases v
  {
    match v
    case Num(literal) => JsonNumber(literal)
    case Arr(items) => forall x :: x in items ==> ProperNumbers(x)
    case Obj(members) => forall k :: k in members ==> ProperNumbers(members[k])
    case _ => true
  }

  ghost predicate Decodable(v: Value, depth: nat) { ProperNumbers(v) && Nests(v, depth) }

  lemma NumberPrefix(s: seq<Byte>)
    requires NumberLength(s).Some?
    ensures JsonNumber(s[..NumberLength(s).value])
  {
    var n := NumberLength(s).value;
    var a := IntegerEnd(s).value;
    var b := FractionEnd(s, a).value;
    var p := s[..n];
    IntegerPrefix(s, n);
    FractionPrefix(s, a, n);
    ExponentPrefix(s, b);
  }

  lemma {:induction false} RunPrefix(s: seq<Byte>, n: nat)
    requires DigitRun(s) <= n <= |s|
    ensures DigitRun(s[..n]) == DigitRun(s)
  {
    if s != [] && IsDigit(s[0]) {
      assert s[..n][1..] == s[1..][..n - 1];
      RunPrefix(s[1..], n - 1);
    }
  }

  lemma IntegerPrefix(s: seq<Byte>, n: nat)
    requires IntegerEnd(s).Some? && IntegerEnd(s).value <= n <= |s|
    ensures IntegerEnd(s[..n]) == IntegerEnd(s)
  {
    var sign := if s[0] == MINUS then 1 else 0;
    var m := DigitRun(s[sign..]);
    assert s[..n][sign..] == s[sign..][..n - sign];
    if sign + m <= n {
      RunPrefix(s[sign..], n - sign);
    } else {
      RunShort(s[sign..], n - sign);
    }
  }

  /** Cutting inside a run of digits leaves only digits. */
  lemma {:induction false} RunShort(s: seq<Byte>, n: nat)
    requires n <= DigitRun(s)
    ensures DigitRun(s[..n]) == n
  {
    if n > 0 {
      assert s[..n][1..] == s[1..][..n - 1];
      RunShort(s[1..], n - 1);
    }
  }

  lemma FractionPrefix(s: seq<Byte>, i: nat, n: nat)
    requires i <= |s| && FractionEnd(s, i).Some? && FractionEnd(s, i).value <= n <= |s|
    ensures FractionEnd(s[..n], i) == FractionEnd(s, i)
  {
    if i < |s| && s[i] == POINT {
      assert s[..n][i + 1..] == s[i + 1..][..n - i - 1];
      RunPrefix(s[i + 1..], n - i - 1);
    }
  }

  lemma ExponentPrefix(s: seq<Byte>, i: nat)
    requires i <= |s| && ExponentEnd(s, i).Some?
    ensures ExponentEnd(s[..ExponentEnd(s, i).value], i) == ExponentEnd(s, i)
  {
    var n := ExponentEnd(s, i).value;
    if i < |s| && IsExponentMark(s[i]) {
      var k := if i + 1 < |s| && (s[i + 1] == PLUS || s[i + 1] == MINUS) then i + 2 else i + 1;
      assert s[..n][k..] == s[k..][..n - k];
      RunPrefix(s[k..], n - k);
    }
  }

  /** Whatever the bytes, what decodes has proper number literals and respects the nesting limit. */
  lemma {:induction false} DecodedIsDecodable(s: seq<Byte>, depth: nat)
    requires ParseValue(s, depth).Some?
    ensures Decodable(ParseValue(s, depth).value.value, depth)
    decreases |s|, 0
  {
    var t := SkipSpace(s);
    if t[0] == OPEN_ARRAY {
      var u := SkipSpace(t[1..]);
      if u == [] || u[0] != CLOSE_ARRAY {
        ItemsDecodable(u, depth - 1);
      }
    } else if t[0] == OPEN_OBJECT {
      var u := SkipSpace(t[1..]);
      if u == [] || u[0] != CLOSE_OBJECT {
        MembersDecodable(u, depth - 1, map[]);
      }
    } else {
      ScalarDecodable(t, depth);
    }
  }

  lemma ScalarDecodable(s: seq<Byte>, depth: nat)
    requires s != [] && ParseScalar(s).Some?
    ensures Decodable(ParseScalar(s).value.value, depth)
  {
    if NumberLength(s).Some? {
      NumberPrefix(s);
    }
  }

  lemma {:induction false} ItemsDecodable(s: seq<Byte>, depth: nat)
    requires ParseItems(s, depth).Some?
    ensures forall x :: x in ParseItems(s, depth).value.value ==> Decodable(x, depth)
    decreases |s|, 1
  {
    DecodedIsDecodable(s, depth);
    var t := SkipSpace(ParseValue(s, depth).value.rest);
    if t[0] == COMMA {
      ItemsDecodable(t[1..], depth);
    }
  }

  lemma {:induction false} MembersDecodable(s: seq<Byte>, depth: nat, before: map<Str, Value>)
    requires ParseMembers(s, depth, before).Some? && forall k :: k in before ==> Decodable(before[k], depth)
    ensures var m := ParseMembers(s, depth, before).value.value; forall k :: k in m ==> Decodable(m[k], depth)
    decreases |s|, 1
  {
    var key := ParseString(SkipSpace(s)[1..]).value;
    var u := SkipSpace(key.rest);
    DecodedIsDecodable(u[1..], depth);
    var item := ParseValue(u[1..], depth).value;
    var w := SkipSpace(item.rest);
    if w[0] == COMMA {
      MembersDecodable(w[1..], depth, before[key.value := item.value]);
    }
  }
}
