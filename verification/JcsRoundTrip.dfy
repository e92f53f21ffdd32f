/** What the canonical printer prints decodes back to the value it was given, so printing is injective,
    and every sealed payload passes the canonicality check of Verify. */
module JcsRoundTrip {
  import opened Wrappers
  import opened Utf8
  import opened Json
  import opened Jcs
  import Decimal

  /** What may follow a printed value without being taken for part of it. */
  predicate Stop(rest: seq<Byte>) {
    rest == [] || rest[0] == COMMA || rest[0] == CLOSE_ARRAY || rest[0] == CLOSE_OBJECT
  }

  // ---- numbers ----

  lemma {:induction false} RunThenStop(s: seq<Byte>, rest: seq<Byte>)
    requires rest == [] || !IsDigit(rest[0])
    ensures DigitRun(s + rest) == DigitRun(s)
  {
    if s == [] {
      assert s + rest == rest;
    } else if IsDigit(s[0]) {
      assert (s + rest)[1..] == s[1..] + rest;
      RunThenStop(s[1..], rest);
    }
  }

  lemma IntegerThenStop(s: seq<Byte>, rest: seq<Byte>)
    requires IntegerEnd(s).Some? && Stop(rest)
    ensures IntegerEnd(s + rest) == IntegerEnd(s)
  {
    var sign := if s[0] == MINUS then 1 else 0;
    assert (s + rest)[sign..] == s[sign..] + rest;
    RunThenStop(s[sign..], rest);
  }

  lemma FractionThenStop(s: seq<Byte>, i: nat, rest: seq<Byte>)
    requires i <= |s| && FractionEnd(s, i).Some? && Stop(rest)
    ensures FractionEnd(s + rest, i) == FractionEnd(s, i)
  {
    if i < |s| && s[i] == POINT {
      assert (s + rest)[i + 1..] == s[i + 1..] + rest;
      RunThenStop(s[i + 1..], rest);
    }
  }

  lemma ExponentThenStop(s: seq<Byte>, i: nat, rest: seq<Byte>)
    requires i <= |s| && ExponentEnd(s, i).Some? && Stop(rest)
    ensures ExponentEnd(s + rest, i) == ExponentEnd(s, i)
  {
    if i < |s| && IsExponentMark(s[i]) {
      var k := if i + 1 < |s| && (s[i + 1] == PLUS || s[i + 1] == MINUS) then i + 2 else i + 1;
      assert k < |s|;
      assert (s + rest)[k..] == s[k..] + rest;
      RunThenStop(s[k..], rest);
    }
  }

  lemma NumberThenStop(s: seq<Byte>, rest: seq<Byte>)
    requires JsonNumber(s) && Stop(rest)
    ensures NumberLength(s + rest) == Some(|s|)
  {
    IntegerThenStop(s, rest);
    var a := IntegerEnd(s).value;
    FractionThenStop(s, a, rest);
    ExponentThenStop(s, FractionEnd(s, a).value, rest);
  }

  lemma {:induction false} AllDigitsRun(s: seq<Byte>)
    requires AllDigits(s)
    ensures DigitRun(s) == |s|
  {
    if s != [] {
      AllDigitsRun(s[1..]);
    }
  }

  lemma ItoaDigits(n: nat)
    ensures var s := DigitBytes(Decimal.Digits(n));
            AllDigits(s) && Decimal.Value(BytesDigits(s)) == n && (n > 0 ==> s[0] != ZERO) && (n == 0 ==> |s| == 1)
  {
    Decimal.ValueOfDigits(n);
    var s := DigitBytes(Decimal.Digits(n));
    assert BytesDigits(s) == Decimal.Digits(n);
  }

  lemma DigitsAreInteger(s: seq<Byte>)
    requires s != [] && AllDigits(s) && (s[0] == ZERO ==> |s| == 1)
    ensures JsonNumber(s) && JsonNumber([MINUS] + s) && !HasFloatMark(s) && !HasFloatMark([MINUS] + s)
  {
    AllDigitsRun(s);
    var t := [MINUS] + s;
    assert s[0..] == s && t[1..] == s;
    assert IntegerEnd(s) == Some(|s|) && IntegerEnd(t) == Some(|t|);
  }

  /** A formatted integer is a JSON number without fraction or exponent and parses back. */
  lemma ItoaIsInteger(n: Int64)
    ensures JsonNumber(Itoa(n)) && !HasFloatMark(Itoa(n)) && ParseInt(Itoa(n)) == Some(n)
  {
    var m := if n < 0 then -(n as int) else n;
    ItoaDigits(m);
    var s := DigitBytes(Decimal.Digits(m));
    DigitsAreInteger(s);
    if n < 0 {
      assert ([MINUS] + s)[1..] == s;
      assert ReadInteger([MINUS] + s) == Some(n as int);
    } else {
      assert ReadInteger(s) == Some(n as int);
    }
  }

  /** A printed number is a JSON number and prints as itself. */
  lemma NumberAgain(floats: Floats, literal: seq<Byte>)
    requires JsonNumber(literal) && NumberText(floats, literal).Some?
    ensures var r := NumberText(floats, literal).value; JsonNumber(r) && NumberText(floats, r) == Some(r)
  {
    if HasFloatMark(literal) {
      ItoaIsInteger(floats(literal).value);
    }
  }

  lemma NumberBack(literal: seq<Byte>, rest: seq<Byte>, depth: nat)
    requires JsonNumber(literal) && Stop(rest)
    ensures ParseValue(literal + rest, depth) == Some(Parsed(Num(literal), rest))
  {
    var s := literal + rest;
    assert s[0] == literal[0] && (s[0] == MINUS || IsDigit(s[0]));
    NumberThenStop(literal, rest);
    assert s[..|literal|] == literal && s[|literal|..] == rest;
    assert SkipSpace(s) == s && ParseScalar(s) == Some(Parsed(Num(literal), rest));
  }

  // ---- strings ----

  lemma HexBack(d: int)
    requires 0 <= d < 16
    ensures HexDigit(HexByte(d)) == Some(d)
  {
  }

  lemma ControlBack(r: Rune, rest: seq<Byte>)
    requires r < 0x20 && Escape(r) == [BACKSLASH, 117, 48, 48, HexByte(r / 16), HexByte(r % 16)]
    ensures ParseChar(Escape(r) + rest) == Some(Decoded(r, 6))
  {
    var s := Escape(r) + rest;
    HexBack(r / 16);
    HexBack(r % 16);
    var h := s[2..];
    assert h[0] == 48 && h[1] == 48 && h[2] == HexByte(r / 16) && h[3] == HexByte(r % 16);
    assert Hex4(h) == Some(16 * (r / 16) + r % 16);
  }

  lemma CharBack(r: Rune, rest: seq<Byte>)
    ensures Escape(r)[0] != QUOTE
    ensures ParseChar(Escape(r) + rest) == Some(Decoded(r, |Escape(r)|))
  {
    if r < 0x20 && Escape(r)[1] == 117 {
      ControlBack(r, rest);
    } else if r >= 0x20 && r != 34 && r != 92 {
      DecodeEncoded(r, rest);
      var s := EncodeRune(r) + rest;
      assert s[0] == EncodeRune(r)[0] >= 0x20 && s[0] != BACKSLASH;
    } else {
      var s := Escape(r) + rest;
      assert |Escape(r)| == 2 && s[0] == BACKSLASH && s[1] == Escape(r)[1];
      assert SimpleEscape(s[1]) == Some(r);
    }
  }

  lemma StringStep(s: seq<Byte>, c: Decoded, tail: seq<Byte>, t: Str, rest: seq<Byte>)
    requires s != [] && s[0] != QUOTE && ParseChar(s) == Some(c) && c.size <= |s| && s[c.size..] == tail
    requires ParseString(tail) == Some(Parsed(t, rest))
    ensures ParseString(s) == Some(Parsed([c.rune] + t, rest))
  {
  }

  lemma {:induction false} StringBack(s: Str, rest: seq<Byte>)
    ensures ParseString(Escaped(s) + ([QUOTE] + rest)) == Some(Parsed(s, rest))
    decreases |s|
  {
    var end := [QUOTE] + rest;
    if s == [] {
      assert Escaped(s) + end == end && end[1..] == rest;
    } else {
      var e, tail := Escape(s[0]), Escaped(s[1..]) + end;
      Regroup(e, Escaped(s[1..]), end);
      CharBack(s[0], tail);
      StringBack(s[1..], rest);
      StringStep(e + tail, Decoded(s[0], |e|), tail, s[1..], rest);
      assert [s[0]] + s[1..] == s;
    }
  }

  lemma Regroup(a: seq<Byte>, b: seq<Byte>, c: seq<Byte>)
    ensures (a + b) + c == a + (b + c) && (a + (b + c))[|a|..] == b + c
  {
  }

  lemma QuotedBack(s: Str, rest: seq<Byte>)
    ensures (Quoted(s) + rest)[0] == QUOTE && ParseString((Quoted(s) + rest)[1..]) == Some(Parsed(s, rest))
  {
    var e := Escaped(s);
    QuotedShape(e, rest);
    assert Quoted(s) + rest == [QUOTE] + (e + ([QUOTE] + rest));
    StringBack(s, rest);
  }

  lemma QuotedShape(e: seq<Byte>, rest: seq<Byte>)
    ensures [QUOTE] + e + [QUOTE] + rest == [QUOTE] + (e + ([QUOTE] + rest))
    ensures ([QUOTE] + (e + ([QUOTE] + rest)))[1..] == e + ([QUOTE] + rest)
  {
  }

  // ---- values ----

  lemma ScalarBack(floats: Floats, v: Value, rest: seq<Byte>, depth: nat)
    requires Safe(floats, v) && ProperNumbers(v) && Stop(rest) && !v.Arr? && !v.Obj?
    ensures ParseValue(Canonical(floats, v) + rest, depth) == Some(Parsed(Norm(floats, v), rest))
  {
    var s := Canonical(floats, v) + rest;
    match v
    case Num(literal) =>
      NumberAgain(floats, literal);
      NumberBack(NumberText(floats, literal).value, rest, depth);
    case Text(t) =>
      QuotedBack(t, rest);
      assert SkipSpace(s) == s;
    case Null =>
      assert s[0] == 110 && s[4..] == rest && NULL_TEXT <= s && SkipSpace(s) == s;
    case Bool(b) =>
      if b {
        assert s[0] == 116 && s[4..] == rest && TRUE_TEXT <= s && SkipSpace(s) == s;
      } else {
        assert s[0] == 102 && s[5..] == rest && FALSE_TEXT <= s && SkipSpace(s) == s;
      }
  }

  ghost function NormItems(floats: Floats, v: Value, i: nat): seq<Value>
    requires v.Arr? && i <= |v.items|
  {
    seq(|v.items| - i, j requires 0 <= j < |v.items| - i => Norm(floats, v.items[i + j]))
  }

  ghost function NormMembers(floats: Floats, v: Value, ks: seq<Str>, before: map<Str, Value>): map<Str, Value>
    requires v.Obj? && forall k :: k in ks ==> k in v.members
  {
    if ks == [] then before else NormMembers(floats, v, ks[1..], before[ks[0] := Norm(floats, v.members[ks[0]])])
  }

  lemma {:induction false} NormMembersAre(floats: Floats, v: Value, ks: seq<Str>, before: map<Str, Value>)
    requires v.Obj? && forall k :: k in ks ==> k in v.members
    ensures var m := NormMembers(floats, v, ks, before);
            forall k :: (k in m <==> k in before || k in ks)
                        && (k in ks ==> m[k] == Norm(floats, v.members[k])) && (k in before && k !in ks ==> m[k] == before[k])
  {
    if ks != [] {
      NormMembersAre(floats, v, ks[1..], before[ks[0] := Norm(floats, v.members[ks[0]])]);
      assert forall k :: k in ks <==> k == ks[0] || k in ks[1..];
    }
  }

  lemma AllMembers(floats: Floats, v: Value)
    requires v.Obj?
    ensures Norm(floats, v) == Obj(NormMembers(floats, v, SortedKeys(v.members.Keys), map[]))
  {
    var ks := SortedKeys(v.members.Keys);
    NormMembersAre(floats, v, ks, map[]);
    SameMap(Norm(floats, v).members, NormMembers(floats, v, ks, map[]));
  }

  lemma SameMap(m: map<Str, Value>, n: map<Str, Value>)
    requires m.Keys == n.Keys && forall k :: k in m ==> m[k] == n[k]
    ensures m == n
  {
  }

  // ---- one step of the decoder ----

  lemma EmptyArrayStep(s: seq<Byte>, rest: seq<Byte>, depth: nat)
    requires s == [OPEN_ARRAY, CLOSE_ARRAY] + rest && depth > 0
    ensures ParseValue(s, depth) == Some(Parsed(Arr([]), rest))
  {
    assert SkipSpace(s) == s;
    assert s[1..] == [CLOSE_ARRAY] + rest && s[1..][1..] == rest;
  }

  lemma ArrayStep(s: seq<Byte>, u: seq<Byte>, depth: nat, items: seq<Value>, rest: seq<Byte>)
    requires s == [OPEN_ARRAY] + u && Opens(u) && depth > 0
    requires ParseItems(u, depth - 1) == Some(Parsed(items, rest))
    ensures ParseValue(s, depth) == Some(Parsed(Arr(items), rest))
  {
    assert SkipSpace(s) == s && s[1..] == u && SkipSpace(u) == u;
  }

  lemma LastItemStep(s: seq<Byte>, depth: nat, item: Value, after: seq<Byte>)
    requires ParseValue(s, depth) == Some(Parsed(item, after)) && after != [] && after[0] == CLOSE_ARRAY
    ensures ParseItems(s, depth) == Some(Parsed([item], after[1..]))
  {
    assert SkipSpace(after) == after;
  }

  lemma ItemStep(s: seq<Byte>, depth: nat, item: Value, after: seq<Byte>, items: seq<Value>, rest: seq<Byte>)
    requires ParseValue(s, depth) == Some(Parsed(item, after)) && after != [] && after[0] == COMMA
    requires ParseItems(after[1..], depth) == Some(Parsed(items, rest))
    ensures ParseItems(s, depth) == Some(Parsed([item] + items, rest))
  {
    assert SkipSpace(after) == after;
  }

  lemma EmptyObjectStep(s: seq<Byte>, rest: seq<Byte>, depth: nat)
    requires s == [OPEN_OBJECT, CLOSE_OBJECT] + rest && depth > 0
    ensures ParseValue(s, depth) == Some(Parsed(Obj(map[]), rest))
  {
    assert SkipSpace(s) == s;
    assert s[1..] == [CLOSE_OBJECT] + rest && s[1..][1..] == rest;
  }

  lemma ObjectStep(s: seq<Byte>, u: seq<Byte>, depth: nat, members: map<Str, Value>, rest: seq<Byte>)
    requires s == [OPEN_OBJECT] + u && u != [] && u[0] == QUOTE && depth > 0
    requires ParseMembers(u, depth - 1, map[]) == Some(Parsed(members, rest))
    ensures ParseValue(s, depth) == Some(Parsed(Obj(members), rest))
  {
    assert SkipSpace(s) == s && s[1..] == u && SkipSpace(u) == u;
  }

  lemma LastMemberStep(s: seq<Byte>, depth: nat, before: map<Str, Value>, key: Str, u: seq<Byte>, item: Value, after: seq<Byte>)
    requires s != [] && s[0] == QUOTE && ParseString(s[1..]) == Some(Parsed(key, u)) && u != [] && u[0] == COLON
    requires ParseValue(u[1..], depth) == Some(Parsed(item, after)) && after != [] && after[0] == CLOSE_OBJECT
    ensures ParseMembers(s, depth, before) == Some(Parsed(before[key := item], after[1..]))
  {
    assert SkipSpace(s) == s && SkipSpace(u) == u && SkipSpace(after) == after;
  }

  lemma MemberStep(s: seq<Byte>, depth: nat, before: map<Str, Value>, key: Str, u: seq<Byte>, item: Value, after: seq<Byte>)
    requires s != [] && s[0] == QUOTE && ParseString(s[1..]) == Some(Parsed(key, u)) && u != [] && u[0] == COLON
    requires ParseValue(u[1..], depth) == Some(Parsed(item, after)) && after != [] && after[0] == COMMA
    ensures ParseMembers(s, depth, before) == ParseMembers(after[1..], depth, before[key := item])
  {
    assert SkipSpace(s) == s && SkipSpace(u) == u && SkipSpace(after) == after;
  }

  // ---- whole values ----

  /** Decoding a printed value gives its normal form, with whatever follows left over. */
  lemma {:induction false} PrintedBack(floats: Floats, v: Value, rest: seq<Byte>, depth: nat)
    requires Safe(floats, v) && Decodable(v, depth) && Stop(rest)
    ensures ParseValue(Canonical(floats, v) + rest, depth) == Some(Parsed(Norm(floats, v), rest))
    decreases v, 2, 0
  {
    if v.Arr? {
      ArrayBack(floats, v, rest, depth);
    } else if v.Obj? {
      ObjectBack(floats, v, rest, depth);
    } else {
      ScalarBack(floats, v, rest, depth);
    }
  }

  lemma ArrayShape(t: seq<Byte>, rest: seq<Byte>)
    ensures [OPEN_ARRAY] + t + [CLOSE_ARRAY] + rest == [OPEN_ARRAY] + (t + ([CLOSE_ARRAY] + rest))
    ensures t == [] ==> [OPEN_ARRAY] + t + [CLOSE_ARRAY] + rest == [OPEN_ARRAY, CLOSE_ARRAY] + rest
  {
  }

  lemma ItemsOpen(floats: Floats, v: Value, after: seq<Byte>)
    requires v.Arr? && Safe(floats, v) && v.items != []
    ensures Opens(ItemsText(floats, v, 0) + after)
  {
    var item := Canonical(floats, v.items[0]);
    assert item <= ItemsText(floats, v, 0);
    assert (ItemsText(floats, v, 0) + after)[0] == item[0];
  }

  lemma {:induction false} ArrayBack(floats: Floats, v: Value, rest: seq<Byte>, depth: nat)
    requires v.Arr? && Safe(floats, v) && Decodable(v, depth)
    ensures ParseValue(Canonical(floats, v) + rest, depth) == Some(Parsed(Norm(floats, v), rest))
    decreases v, 1, 0
  {
    var t, end := ItemsText(floats, v, 0), [CLOSE_ARRAY] + rest;
    var s := Canonical(floats, v) + rest;
    ArrayShape(t, rest);
    if v.items == [] {
      EmptyArrayStep(s, rest, depth);
      assert Norm(floats, v) == Arr([]);
    } else {
      ItemsOpen(floats, v, end);
      ItemsBack(floats, v, 0, rest, depth - 1);
      ArrayStep(s, t + end, depth, NormItems(floats, v, 0), rest);
      assert NormItems(floats, v, 0) == Norm(floats, v).items;
    }
  }

  lemma ItemsShape(item: seq<Byte>, tail: seq<Byte>, end: seq<Byte>)
    ensures (item + ([COMMA] + tail)) + end == item + ([COMMA] + (tail + end))
    ensures ([COMMA] + (tail + end))[1..] == tail + end
  {
  }

  lemma {:induction false} ItemsBack(floats: Floats, v: Value, i: nat, rest: seq<Byte>, depth: nat)
    requires v.Arr? && Safe(floats, v) && i < |v.items| && forall x :: x in v.items ==> Decodable(x, depth)
    ensures ParseItems(ItemsText(floats, v, i) + ([CLOSE_ARRAY] + rest), depth) == Some(Parsed(NormItems(floats, v, i), rest))
    decreases v, 0, |v.items| - i
  {
    var end := [CLOSE_ARRAY] + rest;
    if i + 1 == |v.items| {
      PrintedBack(floats, v.items[i], end, depth);
      LastItemBack(floats, v, i, rest, depth);
    } else {
      var tail := ItemsText(floats, v, i + 1);
      PrintedBack(floats, v.items[i], [COMMA] + (tail + end), depth);
      ItemsBack(floats, v, i + 1, rest, depth);
      FirstItemBack(floats, v, i, tail, rest, depth);
    }
  }

  lemma LastItemBack(floats: Floats, v: Value, i: nat, rest: seq<Byte>, depth: nat)
    requires v.Arr? && Safe(floats, v) && i + 1 == |v.items|
    requires var end := [CLOSE_ARRAY] + rest;
             ParseValue(Canonical(floats, v.items[i]) + end, depth) == Some(Parsed(Norm(floats, v.items[i]), end))
    ensures ParseItems(ItemsText(floats, v, i) + ([CLOSE_ARRAY] + rest), depth) == Some(Parsed(NormItems(floats, v, i), rest))
  {
    var end := [CLOSE_ARRAY] + rest;
    var item, norm := Canonical(floats, v.items[i]), Norm(floats, v.items[i]);
    assert end[1..] == rest && ItemsText(floats, v, i) == item;
    LastItemStep(item + end, depth, norm, end);
    assert NormItems(floats, v, i) == [norm];
  }

  lemma FirstItemBack(floats: Floats, v: Value, i: nat, tail: seq<Byte>, rest: seq<Byte>, depth: nat)
    requires v.Arr? && Safe(floats, v) && i + 1 < |v.items| && tail == ItemsText(floats, v, i + 1)
    requires var end := [CLOSE_ARRAY] + rest;
             var after := [COMMA] + (tail + end);
             ParseValue(Canonical(floats, v.items[i]) + after, depth) == Some(Parsed(Norm(floats, v.items[i]), after))
             && ParseItems(tail + end, depth) == Some(Parsed(NormItems(floats, v, i + 1), rest))
    ensures ParseItems(ItemsText(floats, v, i) + ([CLOSE_ARRAY] + rest), depth) == Some(Parsed(NormItems(floats, v, i), rest))
  {
    var end := [CLOSE_ARRAY] + rest;
    var after := [COMMA] + (tail + end);
    var item, norm := Canonical(floats, v.items[i]), Norm(floats, v.items[i]);
    ItemsShape(item, tail, end);
    OneItemMore(floats, v, i);
    ItemStep(item + after, depth, norm, after, NormItems(floats, v, i + 1), rest);
  }

  lemma OneItemMore(floats: Floats, v: Value, i: nat)
    requires v.Arr? && Safe(floats, v) && i + 1 < |v.items|
    ensures ItemsText(floats, v, i) == Canonical(floats, v.items[i]) + ([COMMA] + ItemsText(floats, v, i + 1))
    ensures NormItems(floats, v, i) == [Norm(floats, v.items[i])] + NormItems(floats, v, i + 1)
  {
  }

  lemma ObjectShape(t: seq<Byte>, rest: seq<Byte>)
    ensures [OPEN_OBJECT] + t + [CLOSE_OBJECT] + rest == [OPEN_OBJECT] + (t + ([CLOSE_OBJECT] + rest))
    ensures t == [] ==> [OPEN_OBJECT] + t + [CLOSE_OBJECT] + rest == [OPEN_OBJECT, CLOSE_OBJECT] + rest
  {
  }

  lemma MembersOpen(floats: Floats, v: Value, ks: seq<Str>, after: seq<Byte>)
    requires v.Obj? && Safe(floats, v) && ks != [] && forall k :: k in ks ==> k in v.members
    ensures var s := MembersText(floats, v, ks) + after; s != [] && s[0] == QUOTE
  {
    assert Quoted(ks[0])[0] == QUOTE;
    assert Quoted(ks[0]) <= MembersText(floats, v, ks);
  }

  lemma {:induction false} ObjectBack(floats: Floats, v: Value, rest: seq<Byte>, depth: nat)
    requires v.Obj? && Safe(floats, v) && Decodable(v, depth)
    ensures ParseValue(Canonical(floats, v) + rest, depth) == Some(Parsed(Norm(floats, v), rest))
    decreases v, 1, 0
  {
    var ks := SortedKeys(v.members.Keys);
    var t, end := MembersText(floats, v, ks), [CLOSE_OBJECT] + rest;
    ObjectShape(t, rest);
    AllMembers(floats, v);
    if ks == [] {
      EmptyObjectStep([OPEN_OBJECT, CLOSE_OBJECT] + rest, rest, depth);
    } else {
      assert forall k :: k in v.members ==> Decodable(v.members[k], depth - 1);
      FilledObjectBack(floats, v, ks, rest, depth - 1);
    }
  }

  lemma {:induction false} FilledObjectBack(floats: Floats, v: Value, ks: seq<Str>, rest: seq<Byte>, depth: nat)
    requires v.Obj? && Safe(floats, v) && ks != [] && (forall k :: k in ks ==> k in v.members)
    requires forall k :: k in v.members ==> Decodable(v.members[k], depth)
    ensures ParseValue([OPEN_OBJECT] + (MembersText(floats, v, ks) + ([CLOSE_OBJECT] + rest)), depth + 1)
            == Some(Parsed(Obj(NormMembers(floats, v, ks, map[])), rest))
    decreases v, 0, |ks| + 1
  {
    var u := MembersText(floats, v, ks) + ([CLOSE_OBJECT] + rest);
    MembersOpen(floats, v, ks, [CLOSE_OBJECT] + rest);
    MembersBack(floats, v, ks, rest, depth, map[]);
    ObjectStep([OPEN_OBJECT] + u, u, depth + 1, NormMembers(floats, v, ks, map[]), rest);
  }

  lemma MemberShape(q: seq<Byte>, item: seq<Byte>, tail: seq<Byte>, end: seq<Byte>)
    ensures (q + [COLON] + item) + end == q + ([COLON] + (item + end))
    ensures (q + [COLON] + item + ([COMMA] + tail)) + end == q + ([COLON] + (item + ([COMMA] + (tail + end))))
    ensures ([COMMA] + (tail + end))[1..] == tail + end
    ensures ([COLON] + (item + end))[1..] == item + end
    ensures ([COLON] + (item + ([COMMA] + (tail + end))))[1..] == item + ([COMMA] + (tail + end))
  {
    var a := (q + [COLON] + item + ([COMMA] + tail)) + end;
    assert a == q + ([COLON] + (item + ([COMMA] + (tail + end))));
  }

  lemma {:induction false} MembersBack(
      floats: Floats, v: Value, ks: seq<Str>, rest: seq<Byte>, depth: nat, before: map<Str, Value>)
    requires v.Obj? && Safe(floats, v) && ks != [] && (forall k :: k in ks ==> k in v.members)
    requires forall k :: k in v.members ==> Decodable(v.members[k], depth)
    ensures ParseMembers(MembersText(floats, v, ks) + ([CLOSE_OBJECT] + rest), depth, before)
            == Some(Parsed(NormMembers(floats, v, ks, before), rest))
    decreases v, 0, |ks|
  {
    var end := [CLOSE_OBJECT] + rest;
    assert end[1..] == rest;
    var q, item, norm := Quoted(ks[0]), Canonical(floats, v.members[ks[0]]), Norm(floats, v.members[ks[0]]);
    if |ks| == 1 {
      MemberShape(q, item, [], end);
      assert MembersText(floats, v, ks) == q + [COLON] + item;
      PrintedBack(floats, v.members[ks[0]], end, depth);
      var u := [COLON] + (item + end);
      QuotedBack(ks[0], u);
      LastMemberStep(q + u, depth, before, ks[0], u, norm, end);
      assert NormMembers(floats, v, ks, before) == before[ks[0] := norm];
    } else {
      var tail := MembersText(floats, v, ks[1..]);
      var after := [COMMA] + (tail + end);
      MemberShape(q, item, tail, end);
      PrintedBack(floats, v.members[ks[0]], after, depth);
      var u := [COLON] + (item + after);
      QuotedBack(ks[0], u);
      MemberStep(q + u, depth, before, ks[0], u, norm, after);
      MembersBack(floats, v, ks[1..], rest, depth, before[ks[0] := norm]);
    }
  }
}
