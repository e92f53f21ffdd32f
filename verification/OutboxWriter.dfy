/** The outbox's printer as it runs: bytes appended to a buffer by loops and recursion, keys collected in map
    order and then sorted (internal/outbox/jcs.go). */
module OutboxWriter {
  import opened Wrappers
  import opened Utf8
  import opened Json
  import opened Jcs
  import opened OutboxJcs
  import JcsWriter
  import Sorting

  /** What remains to be printed of an array before its element i. */
  ghost function ItemsFrom(doubles: Doubles, v: Value, i: nat): seq<Byte>
    requires v.Arr? && OutboxSafe(doubles, v) && i <= |v.items|
  {
    if 0 < i < |v.items| then [COMMA] + OutboxItems(doubles, v, i) else OutboxItems(doubles, v, i)
  }

  ghost function MembersFrom(doubles: Doubles, v: Value, ks: seq<Str>, i: nat): seq<Byte>
    requires v.Obj? && OutboxSafe(doubles, v) && i <= |ks| && forall k :: k in ks ==> k in v.members
  {
    if 0 < i < |ks| then [COMMA] + OutboxMembers(doubles, v, ks[i..]) else OutboxMembers(doubles, v, ks[i..])
  }

  /** Prints a value, or fails on a number that cannot be printed (the buffer is then discarded). */
  method WriteValue(buffer: JcsWriter.Buffer, doubles: Doubles, v: Value) returns (ok: bool)
    modifies buffer
    ensures ok <==> OutboxSafe(doubles, v)
    ensures ok ==> buffer.bytes == old(buffer.bytes) + OutboxText(doubles, v)
    decreases v, 2
  {
    ok := true;
    match v
    case Null => buffer.Write(NULL_TEXT);
    case Bool(b) => buffer.Write(if b then TRUE_TEXT else FALSE_TEXT);
    case Text(s) => WriteCanonicalString(buffer, Encode(s));
    case Num(literal) =>
      var t := CanonicalNumber(doubles, literal);
      if t.None? {
        return false;
      }
      buffer.Write(t.value);
    case Arr(_) => ok := WriteArray(buffer, doubles, v);
    case Obj(_) => ok := WriteObject(buffer, doubles, v);
  }

  /** Printing element i (after a comma, unless it is the first) moves it out of what remains. */
  lemma ItemWritten(doubles: Doubles, v: Value, i: nat, before: seq<Byte>)
    requires v.Arr? && OutboxSafe(doubles, v) && i < |v.items|
    ensures ((before + (if i > 0 then [COMMA] else [])) + OutboxText(doubles, v.items[i])) + ItemsFrom(doubles, v, i + 1)
            == before + ItemsFrom(doubles, v, i)
  {
    var c, t, r := if i > 0 then [COMMA] else [], OutboxText(doubles, v.items[i]), ItemsFrom(doubles, v, i + 1);
    assert OutboxItems(doubles, v, i) == t + r;
    assert ItemsFrom(doubles, v, i) == c + (t + r);
    JcsWriter.Regrouped(before, c, t, r);
  }

  method WriteArray(buffer: JcsWriter.Buffer, doubles: Doubles, v: Value) returns (ok: bool)
    requires v.Arr?
    modifies buffer
    ensures ok <==> OutboxSafe(doubles, v)
    ensures ok ==> buffer.bytes == old(buffer.bytes) + OutboxText(doubles, v)
    decreases v, 0
  {
    buffer.Write([OPEN_ARRAY]);
    ghost var whole := if OutboxSafe(doubles, v) then buffer.bytes + ItemsFrom(doubles, v, 0) else [];
    for i := 0 to |v.items|
      invariant forall j :: 0 <= j < i ==> OutboxSafe(doubles, v.items[j])
      invariant OutboxSafe(doubles, v) ==> buffer.bytes + ItemsFrom(doubles, v, i) == whole
    {
      ghost var before := buffer.bytes;
      if i > 0 {
        buffer.Write([COMMA]);
      }
      assert buffer.bytes == before + (if i > 0 then [COMMA] else []);
      ok := WriteItem(buffer, doubles, v, i);
      if !ok {
        return;
      }
      if OutboxSafe(doubles, v) {
        ItemWritten(doubles, v, i, before);
      }
    }
    assert OutboxSafe(doubles, v);
    assert buffer.bytes + [] == buffer.bytes;
    buffer.Write([CLOSE_ARRAY]);
    JcsWriter.Framed(old(buffer.bytes), [OPEN_ARRAY], OutboxItems(doubles, v, 0), [CLOSE_ARRAY]);
    ok := true;
  }

  method WriteItem(buffer: JcsWriter.Buffer, doubles: Doubles, v: Value, i: nat) returns (ok: bool)
    requires v.Arr? && i < |v.items|
    modifies buffer
    ensures !ok ==> !OutboxSafe(doubles, v)
    ensures ok ==> OutboxSafe(doubles, v.items[i]) && buffer.bytes == old(buffer.bytes) + OutboxText(doubles, v.items[i])
    decreases v.items[i], 3
  {
    assert v.items[i] in v.items;
    ok := WriteValue(buffer, doubles, v.items[i]);
  }

  /** The members before i are written: what is in the buffer and what remains make up the whole. */
  ghost predicate WrittenTo(doubles: Doubles, v: Value, ks: seq<Str>, i: nat, bytes: seq<Byte>, whole: seq<Byte>)
    requires JcsWriter.MembersOf(v, ks) && i <= |ks|
  {
    && (forall j :: 0 <= j < i ==> OutboxSafe(doubles, v.members[ks[j]]))
    && (OutboxSafe(doubles, v) ==> bytes + MembersFrom(doubles, v, ks, i) == whole)
  }

  lemma MemberWritten(doubles: Doubles, v: Value, ks: seq<Str>, i: nat, before: seq<Byte>, after: seq<Byte>, whole: seq<Byte>)
    requires JcsWriter.MembersOf(v, ks) && i < |ks| && WrittenTo(doubles, v, ks, i, before, whole) && OutboxSafe(doubles, v.members[ks[i]])
    requires after == (before + (if i > 0 then [COMMA] else [])) + (OutboxString(ks[i]) + [COLON] + OutboxText(doubles, v.members[ks[i]]))
    ensures WrittenTo(doubles, v, ks, i + 1, after, whole)
  {
    if OutboxSafe(doubles, v) {
      var c := if i > 0 then [COMMA] else [];
      var t, r := OutboxString(ks[i]) + [COLON] + OutboxText(doubles, v.members[ks[i]]), MembersFrom(doubles, v, ks, i + 1);
      NextMember(doubles, v, ks, i);
      assert MembersFrom(doubles, v, ks, i) == c + (t + r) by {
        assert [] + (t + r) == t + r;
        assert ks[0..] == ks;
      }
      JcsWriter.Regrouped(before, c, t, r);
    }
  }

  lemma AllWritten(doubles: Doubles, v: Value, ks: seq<Str>, start: seq<Byte>, bytes: seq<Byte>, whole: seq<Byte>)
    requires JcsWriter.MembersOf(v, ks) && (forall k :: k in v.members ==> k in ks) && WrittenTo(doubles, v, ks, |ks|, bytes, whole)
    requires OutboxSafe(doubles, v) ==> whole == start + MembersFrom(doubles, v, ks, 0)
    ensures OutboxSafe(doubles, v) && bytes == start + OutboxMembers(doubles, v, ks)
  {
    assert OutboxSafe(doubles, v);
    assert ks[0..] == ks && ks[|ks|..] == [];
    assert bytes + [] == bytes;
  }

  method WriteObject(buffer: JcsWriter.Buffer, doubles: Doubles, v: Value) returns (ok: bool)
    requires v.Obj?
    modifies buffer
    ensures ok <==> OutboxSafe(doubles, v)
    ensures ok ==> buffer.bytes == old(buffer.bytes) + OutboxText(doubles, v)
    decreases v, 1
  {
    KeysAreOrdered();
    var ks := Sorting.SortSet(v.members.Keys, KeyLess);
    buffer.Write([OPEN_OBJECT]);
    ok := WriteMembers(buffer, doubles, v, ks);
    if ok {
      buffer.Write([CLOSE_OBJECT]);
      JcsWriter.Framed(old(buffer.bytes), [OPEN_OBJECT], OutboxMembers(doubles, v, ks), [CLOSE_OBJECT]);
    }
  }

  method WriteMembers(buffer: JcsWriter.Buffer, doubles: Doubles, v: Value, ks: seq<Str>) returns (ok: bool)
    requires v.Obj? && forall k :: k in ks <==> k in v.members
    modifies buffer
    ensures ok <==> OutboxSafe(doubles, v)
    ensures ok ==> buffer.bytes == old(buffer.bytes) + OutboxMembers(doubles, v, ks)
    decreases v, 0
  {
    ghost var whole := if OutboxSafe(doubles, v) then buffer.bytes + MembersFrom(doubles, v, ks, 0) else [];
    for i := 0 to |ks|
      invariant WrittenTo(doubles, v, ks, i, buffer.bytes, whole)
    {
      ghost var before := buffer.bytes;
      if i > 0 {
        buffer.Write([COMMA]);
      }
      assert buffer.bytes == before + (if i > 0 then [COMMA] else []);
      ok := WriteMemberAt(buffer, doubles, v, ks, i);
      if !ok {
        return;
      }
      MemberWritten(doubles, v, ks, i, before, buffer.bytes, whole);
    }
    AllWritten(doubles, v, ks, old(buffer.bytes), buffer.bytes, whole);
    ok := true;
  }

  method WriteMemberAt(buffer: JcsWriter.Buffer, doubles: Doubles, v: Value, ks: seq<Str>, i: nat) returns (ok: bool)
    requires JcsWriter.MembersOf(v, ks) && i < |ks|
    modifies buffer
    ensures !ok ==> !OutboxSafe(doubles, v)
    ensures ok ==> OutboxSafe(doubles, v.members[ks[i]])
    ensures ok ==> buffer.bytes == old(buffer.bytes) + (OutboxString(ks[i]) + [COLON] + OutboxText(doubles, v.members[ks[i]]))
    decreases v, 0, 0
  {
    assert ks[i] in v.members;
    ok := WriteMember(buffer, doubles, ks[i], v.members[ks[i]]);
  }

  lemma NextMember(doubles: Doubles, v: Value, ks: seq<Str>, i: nat)
    requires v.Obj? && OutboxSafe(doubles, v) && i < |ks| && forall k :: k in ks ==> k in v.members
    ensures OutboxMembers(doubles, v, ks[i..])
            == (OutboxString(ks[i]) + [COLON] + OutboxText(doubles, v.members[ks[i]])) + MembersFrom(doubles, v, ks, i + 1)
  {
    assert ks[i..][0] == ks[i] && ks[i..][1..] == ks[i + 1..];
  }

  method WriteMember(buffer: JcsWriter.Buffer, doubles: Doubles, key: Str, v: Value) returns (ok: bool)
    modifies buffer
    ensures ok <==> OutboxSafe(doubles, v)
    ensures ok ==> buffer.bytes == old(buffer.bytes) + (OutboxString(key) + [COLON] + OutboxText(doubles, v))
    decreases v, 3
  {
    WriteCanonicalString(buffer, Encode(key));
    buffer.Write([COLON]);
    ok := WriteValue(buffer, doubles, v);
    if ok {
      JcsWriter.MemberGrouped(old(buffer.bytes), OutboxString(key), OutboxText(doubles, v));
    }
  }

  /** The canonical bytes, or nothing. */
  method Canonicalize(doubles: Doubles, v: Value) returns (r: Option<seq<Byte>>)
    ensures r.Some? <==> OutboxSafe(doubles, v)
    ensures r.Some? ==> r.value == OutboxText(doubles, v)
  {
    var buffer := new JcsWriter.Buffer();
    var ok := WriteValue(buffer, doubles, v);
    r := if ok then Some(buffer.bytes) else None;
  }
}
