/** The canonical printer as it runs: bytes appended to a buffer by loops and recursion, object keys
    collected in map order and then sorted. */
module JcsWriter {
  import opened Wrappers
  import opened Utf8
  import opened Json
  import opened Jcs
  import Sorting

  class Buffer {
    var bytes: seq<Byte>

    constructor ()
      ensures bytes == []
    {
      bytes := [];
    }

    method Write(bs: seq<Byte>)
      modifies this
      ensures bytes == old(bytes) + bs
    {
      bytes := bytes + bs;
    }
  }

  lemma {:induction false} EscapedSnoc(s: Str, r: Rune)
    ensures Escaped(s + [r]) == Escaped(s) + Escape(r)
  {
    if s == [] {
      assert s + [r] == [r] && [r][1..] == [];
    } else {
      assert (s + [r])[1..] == s[1..] + [r];
      EscapedSnoc(s[1..], r);
    }
  }

  lemma Grouped(a: seq<Byte>, b: seq<Byte>, c: seq<Byte>)
    ensures (a + b) + c == a + (b + c)
  {
  }

  lemma Framed(a: seq<Byte>, open: seq<Byte>, body: seq<Byte>, close: seq<Byte>)
    ensures ((a + open) + body) + close == a + (open + body + close)
  {
  }

  method WriteString(buffer: Buffer, s: Str)
    modifies buffer
    ensures buffer.bytes == old(buffer.bytes) + Quoted(s)
  {
    buffer.Write([QUOTE]);
    ghost var start := old(buffer.bytes) + [QUOTE];
    for i := 0 to |s|
      invariant buffer.bytes == start + Escaped(s[..i])
    {
      assert s[..i + 1] == s[..i] + [s[i]];
      EscapedSnoc(s[..i], s[i]);
      Grouped(start, Escaped(s[..i]), Escape(s[i]));
      buffer.Write(Escape(s[i]));
    }
    assert s[..|s|] == s;
    buffer.Write([QUOTE]);
    Framed(old(buffer.bytes), [QUOTE], Escaped(s), [QUOTE]);
  }

  /** What remains to be printed of an array before its element i. */
  ghost function ItemsFrom(floats: Floats, v: Value, i: nat): seq<Byte>
    requires v.Arr? && Safe(floats, v) && i <= |v.items|
  {
    if 0 < i < |v.items| then [COMMA] + ItemsText(floats, v, i) else ItemsText(floats, v, i)
  }

  ghost function MembersFrom(floats: Floats, v: Value, ks: seq<Str>, i: nat): seq<Byte>
    requires v.Obj? && Safe(floats, v) && i <= |ks| && forall k :: k in ks ==> k in v.members
  {
    if 0 < i < |ks| then [COMMA] + MembersText(floats, v, ks[i..]) else MembersText(floats, v, ks[i..])
  }

  /** Prints a value, or fails on a number that is not JCS-safe (the buffer is then discarded). */
  method WriteValue(buffer: Buffer, floats: Floats, v: Value) returns (ok: bool)
    modifies buffer
    ensures ok <==> Safe(floats, v)
    ensures ok ==> buffer.bytes == old(buffer.bytes) + Canonical(floats, v)
    decreases v, 2
  {
    ok := true;
    match v
    case Null => buffer.Write(NULL_TEXT);
    case Bool(b) => buffer.Write(if b then TRUE_TEXT else FALSE_TEXT);
    case Text(s) => WriteString(buffer, s);
    case Num(literal) =>
      var t := NumberText(floats, literal);
      if t.None? {
        return false;
      }
      buffer.Write(t.value);
    case Arr(_) => ok := WriteArray(buffer, floats, v);
    case Obj(_) => ok := WriteObject(buffer, floats, v);
  }

  /** Printing element i (after a comma, unless it is the first) moves it out of what remains. */
  lemma ItemWritten(floats: Floats, v: Value, i: nat, before: seq<Byte>)
    requires v.Arr? && Safe(floats, v) && i < |v.items|
    ensures ((before + (if i > 0 then [COMMA] else [])) + Canonical(floats, v.items[i])) + ItemsFrom(floats, v, i + 1)
            == before + ItemsFrom(floats, v, i)
  {
    var c, t, r := if i > 0 then [COMMA] else [], Canonical(floats, v.items[i]), ItemsFrom(floats, v, i + 1);
    assert ItemsText(floats, v, i) == t + r;
    assert ItemsFrom(floats, v, i) == c + (t + r);
    Regrouped(before, c, t, r);
  }

  lemma Regrouped(a: seq<Byte>, b: seq<Byte>, c: seq<Byte>, d: seq<Byte>)
    ensures ((a + b) + c) + d == a + (b + (c + d))
  {
  }

  method WriteArray(buffer: Buffer, floats: Floats, v: Value) returns (ok: bool)
    requires v.Arr?
    modifies buffer
    ensures ok <==> Safe(floats, v)
    ensures ok ==> buffer.bytes == old(buffer.bytes) + Canonical(floats, v)
    decreases v, 0
  {
    buffer.Write([OPEN_ARRAY]);
    ghost var whole := if Safe(floats, v) then buffer.bytes + ItemsFrom(floats, v, 0) else [];
    for i := 0 to |v.items|
      invariant forall j :: 0 <= j < i ==> Safe(floats, v.items[j])
      invariant Safe(floats, v) ==> buffer.bytes + ItemsFrom(floats, v, i) == whole
    {
      ghost var before := buffer.bytes;
      if i > 0 {
        buffer.Write([COMMA]);
      }
      assert buffer.bytes == before + (if i > 0 then [COMMA] else []);
      ok := WriteItem(buffer, floats, v, i);
      if !ok {
        return;
      }
      if Safe(floats, v) {
        ItemWritten(floats, v, i, before);
      }
    }
    assert Safe(floats, v);
    assert buffer.bytes + [] == buffer.bytes;
    buffer.Write([CLOSE_ARRAY]);
    Framed(old(buffer.bytes), [OPEN_ARRAY], ItemsText(floats, v, 0), [CLOSE_ARRAY]);
    ok := true;
  }

  method WriteItem(buffer: Buffer, floats: Floats, v: Value, i: nat) returns (ok: bool)
    requires v.Arr? && i < |v.items|
    modifies buffer
    ensures !ok ==> !Safe(floats, v)
    ensures ok ==> Safe(floats, v.items[i]) && buffer.bytes == old(buffer.bytes) + Canonical(floats, v.items[i])
    decreases v.items[i], 3
  {
    assert v.items[i] in v.items;
    ok := WriteValue(buffer, floats, v.items[i]);
  }

  ghost predicate MembersOf(v: Value, ks: seq<Str>) { v.Obj? && forall k :: k in ks ==> k in v.members }

  /** The members before i are written: what is in the buffer and what remains make up the whole. */
  ghost predicate WrittenTo(floats: Floats, v: Value, ks: seq<Str>, i: nat, bytes: seq<Byte>, whole: seq<Byte>)
    requires MembersOf(v, ks) && i <= |ks|
  {
    && (forall j :: 0 <= j < i ==> Safe(floats, v.members[ks[j]]))
    && (Safe(floats, v) ==> bytes + MembersFrom(floats, v, ks, i) == whole)
  }

  lemma MemberWritten(floats: Floats, v: Value, ks: seq<Str>, i: nat, before: seq<Byte>, after: seq<Byte>, whole: seq<Byte>)
    requires MembersOf(v, ks) && i < |ks| && WrittenTo(floats, v, ks, i, before, whole) && Safe(floats, v.members[ks[i]])
    requires after == (before + (if i > 0 then [COMMA] else [])) + (Quoted(ks[i]) + [COLON] + Canonical(floats, v.members[ks[i]]))
    ensures WrittenTo(floats, v, ks, i + 1, after, whole)
  {
    if Safe(floats, v) {
      var c := if i > 0 then [COMMA] else [];
      var t, r := Quoted(ks[i]) + [COLON] + Canonical(floats, v.members[ks[i]]), MembersFrom(floats, v, ks, i + 1);
      NextMember(floats, v, ks, i);
      assert MembersFrom(floats, v, ks, i) == c + (t + r) by {
        assert [] + (t + r) == t + r;
        assert ks[0..] == ks;
      }
      Regrouped(before, c, t, r);
    }
  }

  lemma AllWritten(floats: Floats, v: Value, ks: seq<Str>, start: seq<Byte>, bytes: seq<Byte>, whole: seq<Byte>)
    requires MembersOf(v, ks) && (forall k :: k in v.members ==> k in ks) && WrittenTo(floats, v, ks, |ks|, bytes, whole)
    requires Safe(floats, v) ==> whole == start + MembersFrom(floats, v, ks, 0)
    ensures Safe(floats, v) && bytes == start + MembersText(floats, v, ks)
  {
    assert Safe(floats, v);
    assert ks[0..] == ks && ks[|ks|..] == [];
    assert bytes + [] == bytes;
  }

  method WriteObject(buffer: Buffer, floats: Floats, v: Value) returns (ok: bool)
    requires v.Obj?
    modifies buffer
    ensures ok <==> Safe(floats, v)
    ensures ok ==> buffer.bytes == old(buffer.bytes) + Canonical(floats, v)
    decreases v, 1
  {
    KeysAreOrdered();
    var ks := Sorting.SortSet(v.members.Keys, KeyLess);
    buffer.Write([OPEN_OBJECT]);
    ok := WriteMembers(buffer, floats, v, ks);
    if ok {
      buffer.Write([CLOSE_OBJECT]);
      Framed(old(buffer.bytes), [OPEN_OBJECT], MembersText(floats, v, ks), [CLOSE_OBJECT]);
    }
  }

  method WriteMembers(buffer: Buffer, floats: Floats, v: Value, ks: seq<Str>) returns (ok: bool)
    requires v.Obj? && forall k :: k in ks <==> k in v.members
    modifies buffer
    ensures ok <==> Safe(floats, v)
    ensures ok ==> buffer.bytes == old(buffer.bytes) + MembersText(floats, v, ks)
    decreases v, 0
  {
    ghost var whole := if Safe(floats, v) then buffer.bytes + MembersFrom(floats, v, ks, 0) else [];
    for i := 0 to |ks|
      invariant WrittenTo(floats, v, ks, i, buffer.bytes, whole)
    {
      ghost var before := buffer.bytes;
      if i > 0 {
        buffer.Write([COMMA]);
      }
      assert buffer.bytes == before + (if i > 0 then [COMMA] else []);
      ok := WriteMemberAt(buffer, floats, v, ks, i);
      if !ok {
        return;
      }
      MemberWritten(floats, v, ks, i, before, buffer.bytes, whole);
    }
    AllWritten(floats, v, ks, old(buffer.bytes), buffer.bytes, whole);
    ok := true;
  }

  method WriteMemberAt(buffer: Buffer, floats: Floats, v: Value, ks: seq<Str>, i: nat) returns (ok: bool)
    requires MembersOf(v, ks) && i < |ks|
    modifies buffer
    ensures !ok ==> !Safe(floats, v)
    ensures ok ==> Safe(floats, v.members[ks[i]])
    ensures ok ==> buffer.bytes == old(buffer.bytes) + (Quoted(ks[i]) + [COLON] + Canonical(floats, v.members[ks[i]]))
    decreases v, 0, 0
  {
    assert ks[i] in v.members;
    ok := WriteMember(buffer, floats, ks[i], v.members[ks[i]]);
  }

  lemma NextMember(floats: Floats, v: Value, ks: seq<Str>, i: nat)
    requires v.Obj? && Safe(floats, v) && i < |ks| && forall k :: k in ks ==> k in v.members
    ensures MembersText(floats, v, ks[i..])
            == (Quoted(ks[i]) + [COLON] + Canonical(floats, v.members[ks[i]])) + MembersFrom(floats, v, ks, i + 1)
  {
    assert ks[i..][0] == ks[i] && ks[i..][1..] == ks[i + 1..];
  }

  method WriteMember(buffer: Buffer, floats: Floats, key: Str, v: Value) returns (ok: bool)
    modifies buffer
    ensures ok <==> Safe(floats, v)
    ensures ok ==> buffer.bytes == old(buffer.bytes) + (Quoted(key) + [COLON] + Canonical(floats, v))
    decreases v, 3
  {
    WriteString(buffer, key);
    buffer.Write([COLON]);
    ok := WriteValue(buffer, floats, v);
    if ok {
      MemberGrouped(old(buffer.bytes), Quoted(key), Canonical(floats, v));
    }
  }

  lemma MemberGrouped(a: seq<Byte>, q: seq<Byte>, b: seq<Byte>)
    ensures ((a + q) + [COLON]) + b == a + (q + [COLON] + b)
  {
  }

  /** JCS: the printed bytes, or nothing. */
  method Print(floats: Floats, v: Value) returns (r: Option<seq<Byte>>)
    ensures r.Some? <==> Safe(floats, v)
    ensures r.Some? ==> r.value == Canonical(floats, v)
  {
    var buffer := new Buffer();
    var ok := WriteValue(buffer, floats, v);
    r := if ok then Some(buffer.bytes) else None;
  }
}
