/** No JSON text of a value is shorter than its canonical text: no white space, no escape that can be avoided,
    and the short form of every escape that cannot. */
module JcsShortest {
  import opened Wrappers
  import opened Utf8
  import opened Json
  import opened Jcs
  import opened JcsRoundTrip
  import opened JcsTheorems
  import opened JcsKeys

  /** Free of U+FFFD, which the decoder also reads out of a single invalid byte. */
  predicate Clean(s: Str) { REPLACEMENT !in s }

  ghost predicate AllClean(v: Value)
    decreases v
  {
    match v
    case Text(s) => Clean(s)
    case Arr(items) => forall x :: x in items ==> AllClean(x)
    case Obj(members) => forall k :: k in members ==> Clean(k) && AllClean(members[k])
    case _ => true
  }

  /** Values whose canonical text is compared: printable, with integer literals only. */
  ghost predicate Plain(floats: Floats, v: Value) { Safe(floats, v) && IntegersOnly(v) && AllClean(v) }

  // ---- strings ----

  lemma RawCost(s: seq<Byte>)
    requires s != [] && s[0] >= 0x20 && s[0] != QUOTE && s[0] != BACKSLASH
    ensures var d := DecodeRune(s); d.rune != REPLACEMENT ==> |Escape(d.rune)| == d.size
  {
  }

  /** No character of a literal takes fewer bytes than its escape. */
  lemma CharCost(s: seq<Byte>)
    requires s != [] && s[0] != QUOTE && ParseChar(s).Some?
    ensures var d := ParseChar(s).value; d.rune != REPLACEMENT ==> |Escape(d.rune)| <= d.size
  {
    if s[0] != BACKSLASH {
      RawCost(s);
    }
  }

  lemma {:induction false} StringCost(s: seq<Byte>)
    requires ParseString(s).Some? && Clean(ParseString(s).value.value)
    ensures |Escaped(ParseString(s).value.value)| + 1 <= |s| - |ParseString(s).value.rest|
    decreases |s|
  {
    if s[0] != QUOTE {
      var c := ParseChar(s).value;
      var tail := ParseString(s[c.size..]).value;
      var t := ParseString(s).value.value;
      assert t == [c.rune] + tail.value && t[1..] == tail.value && c.rune in t;
      assert Clean(tail.value) by {
        assert forall r :: r in tail.value ==> r in t;
      }
      CharCost(s);
      StringCost(s[c.size..]);
    }
  }

  /** A control character without a short form is written with lower-case digits. */
  lemma EscapesAreLower(r: Rune)
    requires r < 0x20
    ensures forall b :: b in Escape(r) ==> !(65 <= b <= 90)
  {
  }

  // ---- values ----

  ghost function ItemsCost(floats: Floats, xs: seq<Value>): nat
    requires forall x :: x in xs ==> Safe(floats, x)
  {
    if xs == [] then 0 else |Canonical(floats, xs[0])| + 1 + ItemsCost(floats, xs[1..])
  }

  lemma {:induction false} ItemsTextCost(floats: Floats, v: Value, i: nat)
    requires v.Arr? && Safe(floats, v) && i <= |v.items|
    ensures |ItemsText(floats, v, i)| + (if i == |v.items| then 0 else 1) == ItemsCost(floats, v.items[i..])
    decreases |v.items| - i
  {
    if i < |v.items| {
      ItemsTextCost(floats, v, i + 1);
      assert v.items[i..][1..] == v.items[i + 1..];
    }
  }

  ghost function MembersCost(floats: Floats, m: map<Str, Value>, ks: set<Str>): nat
    requires ks <= m.Keys && forall k :: k in m ==> Safe(floats, m[k])
  {
    if ks == {} then 0
    else
      var k :| k in ks;
      |Quoted(k)| + |Canonical(floats, m[k])| + 2 + MembersCost(floats, m, ks - {k})
  }

  lemma {:induction false} MembersCostRemove(floats: Floats, m: map<Str, Value>, ks: set<Str>, k: Str)
    requires ks <= m.Keys && k in ks && forall x :: x in m ==> Safe(floats, m[x])
    ensures MembersCost(floats, m, ks)
            == |Quoted(k)| + |Canonical(floats, m[k])| + 2 + MembersCost(floats, m, ks - {k})
    decreases |ks|
  {
    var p :| p in ks && MembersCost(floats, m, ks)
                        == |Quoted(p)| + |Canonical(floats, m[p])| + 2 + MembersCost(floats, m, ks - {p});
    if p != k {
      MembersCostRemove(floats, m, ks - {p}, k);
      MembersCostRemove(floats, m, ks - {k}, p);
      assert ks - {p} - {k} == ks - {k} - {p};
    }
  }

  lemma {:induction false} MembersTextCost(floats: Floats, v: Value, ks: seq<Str>)
    requires v.Obj? && Safe(floats, v) && (forall k :: k in ks ==> k in v.members)
    requires forall i, j :: 0 <= i < j < |ks| ==> ks[i] != ks[j]
    ensures var set_ := set k | k in ks;
            |MembersText(floats, v, ks)| + (if ks == [] then 0 else 1) == MembersCost(floats, v.members, set_)
    decreases |ks|
  {
    var set_ := set k | k in ks;
    if ks != [] {
      MembersTextCost(floats, v, ks[1..]);
      MembersCostRemove(floats, v.members, set_, ks[0]);
      assert set_ - {ks[0]} == set k | k in ks[1..];
      FirstMemberCost(floats, v, ks);
    }
  }

  lemma FirstMemberCost(floats: Floats, v: Value, ks: seq<Str>)
    requires v.Obj? && Safe(floats, v) && ks != [] && (forall k :: k in ks ==> k in v.members)
    ensures |MembersText(floats, v, ks)| + 1
            == |Quoted(ks[0])| + |Canonical(floats, v.members[ks[0]])| + 2
               + (if |ks| == 1 then 0 else |MembersText(floats, v, ks[1..])| + 1)
  {
  }

  // ---- the members of a text ----

  ghost function KeySet(ks: seq<Str>): set<Str> { set k | k in ks }

  /** What decoding the members gives: the keys written, each with one of its values, over those before. */
  lemma {:induction false} MembersHaveKeys(s: seq<Byte>, depth: nat, before: map<Str, Value>)
    requires ParseMembers(s, depth, before).Some?
    ensures KeysOf(s, depth).Some?
    ensures var m, ks := ParseMembers(s, depth, before).value.value, KeysOf(s, depth).value;
            m.Keys == before.Keys + KeySet(ks) && forall k :: k in before && k !in ks ==> m[k] == before[k]
    decreases |s|
  {
    var key := ParseString(SkipSpace(s)[1..]).value;
    var u := SkipSpace(key.rest);
    var item := ParseValue(u[1..], depth).value;
    var w := SkipSpace(item.rest);
    if w[0] == COMMA {
      MembersHaveKeys(w[1..], depth, before[key.value := item.value]);
      var tail := KeysOf(w[1..], depth).value;
      assert KeysOf(s, depth) == Some([key.value] + tail);
      assert KeySet([key.value] + tail) == {key.value} + KeySet(tail);
    } else {
      assert KeysOf(s, depth) == Some([key.value]);
      assert KeySet([key.value]) == {key.value};
    }
  }

  ghost predicate PlainMembers(floats: Floats, m: map<Str, Value>) {
    forall k :: k in m ==> Clean(k) && Plain(floats, m[k])
  }

  /** A value of a text costs at least its canonical text. */
  lemma {:induction false} ValueCost(floats: Floats, s: seq<Byte>, depth: nat)
    requires ParseValue(s, depth).Some? && Plain(floats, ParseValue(s, depth).value.value)
    ensures |Canonical(floats, ParseValue(s, depth).value.value)| <= |s| - |ParseValue(s, depth).value.rest|
    decreases |s|, 1
  {
    var t := SkipSpace(s);
    if t[0] == OPEN_ARRAY {
      ArrayCost(floats, t, depth);
    } else if t[0] == OPEN_OBJECT {
      ObjectCost(floats, t, depth);
    } else {
      ScalarCost(floats, t);
    }
  }

  lemma ScalarCost(floats: Floats, t: seq<Byte>)
    requires t != [] && ParseScalar(t).Some? && Plain(floats, ParseScalar(t).value.value)
    ensures |Canonical(floats, ParseScalar(t).value.value)| <= |t| - |ParseScalar(t).value.rest|
  {
    if t[0] == QUOTE {
      StringCost(t[1..]);
    }
  }

  lemma {:induction false} ArrayCost(floats: Floats, t: seq<Byte>, depth: nat)
    requires t != [] && t[0] == OPEN_ARRAY && ParseValue(t, depth).Some? && Plain(floats, ParseValue(t, depth).value.value)
    ensures |Canonical(floats, ParseValue(t, depth).value.value)| <= |t| - |ParseValue(t, depth).value.rest|
    decreases |t|, 0
  {
    var v := ParseValue(t, depth).value.value;
    var u := SkipSpace(t[1..]);
    ItemsTextCost(floats, v, 0);
    assert v.items[0..] == v.items;
    if u[0] != CLOSE_ARRAY {
      AllItemsCost(floats, u, depth - 1);
    }
  }

  lemma {:induction false} AllItemsCost(floats: Floats, s: seq<Byte>, depth: nat)
    requires ParseItems(s, depth).Some?
    requires forall x :: x in ParseItems(s, depth).value.value ==> Safe(floats, x) && Plain(floats, x)
    ensures ItemsCost(floats, ParseItems(s, depth).value.value) <= |s| - |ParseItems(s, depth).value.rest|
    decreases |s|, 2
  {
    var xs := ParseItems(s, depth).value.value;
    var item := ParseValue(s, depth).value;
    var t := SkipSpace(item.rest);
    assert xs[0] == item.value && xs[0] in xs;
    ValueCost(floats, s, depth);
    if t[0] == COMMA {
      var tail := ParseItems(t[1..], depth).value.value;
      assert xs == [item.value] + tail && xs[1..] == tail;
      assert forall x :: x in tail ==> x in xs;
      AllItemsCost(floats, t[1..], depth);
    } else {
      assert xs[1..] == [];
    }
  }

  lemma {:induction false} ObjectCost(floats: Floats, t: seq<Byte>, depth: nat)
    requires t != [] && t[0] == OPEN_OBJECT && ParseValue(t, depth).Some? && Plain(floats, ParseValue(t, depth).value.value)
    ensures |Canonical(floats, ParseValue(t, depth).value.value)| <= |t| - |ParseValue(t, depth).value.rest|
    decreases |t|, 0
  {
    var v := ParseValue(t, depth).value.value;
    var u := SkipSpace(t[1..]);
    ObjectTextCost(floats, v);
    if u[0] != CLOSE_OBJECT {
      FilledObjectCost(floats, v, u, depth - 1, ParseMembers(u, depth - 1, map[]).value.rest);
    }
  }

  lemma {:induction false} FilledObjectCost(floats: Floats, v: Value, u: seq<Byte>, depth: nat, rest: seq<Byte>)
    requires v.Obj? && Safe(floats, v) && PlainMembers(floats, v.members)
    requires ParseMembers(u, depth, map[]) == Some(Parsed(v.members, rest))
    ensures MembersCost(floats, v.members, v.members.Keys) <= |u| - |rest|
    decreases |u|, 3
  {
    MembersHaveKeys(u, depth, map[]);
    AllMembersCost(floats, u, depth, map[], v.members, rest);
    assert KeySet(KeysOf(u, depth).value) == v.members.Keys;
  }

  lemma ObjectTextCost(floats: Floats, v: Value)
    requires v.Obj? && Safe(floats, v)
    ensures |Canonical(floats, v)| == 2 + (if v.members == map[] then 0 else MembersCost(floats, v.members, v.members.Keys) - 1)
  {
    var ks := SortedKeys(v.members.Keys);
    forall i, j | 0 <= i < j < |ks| ensures ks[i] != ks[j] {
      if ks[i] == ks[j] {
        LexIrreflexive(Encode(ks[i]));
      }
    }
    MembersTextCost(floats, v, ks);
    assert (set k | k in ks) == v.members.Keys;
    if ks == [] {
      assert v.members.Keys == {};
    } else {
      assert ks[0] in v.members;
    }
  }

  /** The members of a text, a key counted where it is written last, cost at least their canonical texts. */
  lemma {:induction false} AllMembersCost(
      floats: Floats, s: seq<Byte>, depth: nat, before: map<Str, Value>, m: map<Str, Value>, rest: seq<Byte>)
    requires ParseMembers(s, depth, before) == Some(Parsed(m, rest)) && PlainMembers(floats, m)
    requires KeysOf(s, depth).Some? && KeySet(KeysOf(s, depth).value) <= m.Keys
    ensures MembersCost(floats, m, KeySet(KeysOf(s, depth).value)) <= |s| - |rest|
    decreases |s|, 2
  {
    var key := ParseString(SkipSpace(s)[1..]).value;
    var u := SkipSpace(key.rest);
    var item := ParseValue(u[1..], depth).value;
    var w := SkipSpace(item.rest);
    if w[0] == COMMA {
      var after := before[key.value := item.value];
      MembersHaveKeys(w[1..], depth, after);
      var tail := KeysOf(w[1..], depth).value;
      assert KeySet([key.value] + tail) == {key.value} + KeySet(tail);
      AllMembersCost(floats, w[1..], depth, after, m, rest);
      if key.value !in tail {
        assert m[key.value] == item.value;
        MemberCost(floats, s, depth, m);
      }
      AddKeyCost(floats, m, KeySet(tail), key.value);
    } else {
      assert m == before[key.value := item.value] && KeySet([key.value]) == {key.value} + {};
      MemberCost(floats, s, depth, m);
      AddKeyCost(floats, m, {}, key.value);
    }
  }

  lemma AddKeyCost(floats: Floats, m: map<Str, Value>, ks: set<Str>, k: Str)
    requires ks <= m.Keys && k in m && forall x :: x in m ==> Safe(floats, m[x])
    ensures MembersCost(floats, m, {k} + ks)
            == MembersCost(floats, m, ks) + (if k in ks then 0 else |Quoted(k)| + |Canonical(floats, m[k])| + 2)
  {
    if k in ks {
      assert {k} + ks == ks;
    } else {
      MembersCostRemove(floats, m, {k} + ks, k);
      assert {k} + ks - {k} == ks;
    }
  }

  /** The first member of a text and the byte that ends it. */
  lemma {:induction false} MemberCost(floats: Floats, s: seq<Byte>, depth: nat, m: map<Str, Value>)
    requires KeysOf(s, depth).Some? && PlainMembers(floats, m)
    requires var key := ParseString(SkipSpace(s)[1..]).value;
             var item := ParseValue(SkipSpace(key.rest)[1..], depth).value;
             key.value in m && m[key.value] == item.value
    ensures var key := ParseString(SkipSpace(s)[1..]).value;
            var item := ParseValue(SkipSpace(key.rest)[1..], depth).value;
            |Quoted(key.value)| + |Canonical(floats, m[key.value])| + 2 <= |s| - |SkipSpace(item.rest)[1..]|
    decreases |s|, 1
  {
    var key := ParseString(SkipSpace(s)[1..]).value;
    StringCost(SkipSpace(s)[1..]);
    ValueCost(floats, SkipSpace(key.rest)[1..], depth);
  }

  /** Every text that decodes to a value is at least as long as the text the printer gives it. */
  lemma ShortestText(floats: Floats, text: seq<Byte>, depth: nat)
    requires ParseValue(text, depth).Some? && Plain(floats, ParseValue(text, depth).value.value)
    ensures |Canonical(floats, ParseValue(text, depth).value.value)| <= |text|
  {
    ValueCost(floats, text, depth);
  }
}
