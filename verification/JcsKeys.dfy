/** The order of the keys in a printed object: read back from its bytes, they ascend in the order of their UTF-8
    bytes, and in that of their UTF-16 code units exactly when no two of them clash. */
module JcsKeys {
  import opened Wrappers
  import opened Utf8
  import opened Json
  import opened Jcs
  import opened JcsRoundTrip
  import opened OutboxJcs

  /** A proper prefix, or smaller where they first differ. */
  ghost predicate Precedes(a: seq<int>, b: seq<int>) {
    exists n :: 0 <= n <= |a| && n <= |b| && a[..n] == b[..n]
                && (if n == |a| then n < |b| else n < |b| && a[n] < b[n])
  }

  lemma PrefixHead(a: seq<int>, b: seq<int>, n: nat)
    requires n <= |a| && n <= |b| && a[..n] == b[..n]
    ensures n > 0 ==> a[0] == b[0]
  {
    if n > 0 {
      assert a[..n][0] == a[0] && b[..n][0] == b[0];
    }
  }

  lemma {:induction false} LexIsPrecedes(a: seq<int>, b: seq<int>)
    ensures LexLess(a, b) <==> Precedes(a, b)
    decreases |a|
  {
    if a == [] || b == [] {
      if b != [] {
        assert a[..0] == b[..0];
      }
    } else if a[0] != b[0] {
      assert a[..0] == b[..0];
      if n :| 0 <= n <= |a| && n <= |b| && a[..n] == b[..n] && (if n == |a| then n < |b| else n < |b| && a[n] < b[n]) {
        PrefixHead(a, b, n);
      }
    } else {
      LexIsPrecedes(a[1..], b[1..]);
      if LexLess(a, b) {
        var n :| 0 <= n <= |a[1..]| && n <= |b[1..]| && a[1..][..n] == b[1..][..n]
                 && (if n == |a[1..]| then n < |b[1..]| else n < |b[1..]| && a[1..][n] < b[1..][n]);
        assert a[..n + 1] == [a[0]] + a[1..][..n] && b[..n + 1] == [b[0]] + b[1..][..n];
      }
      if n :| 0 <= n <= |a| && n <= |b| && a[..n] == b[..n] && (if n == |a| then n < |b| else n < |b| && a[n] < b[n]) {
        assert n > 0;
        assert a[1..][..n - 1] == a[..n][1..] && b[1..][..n - 1] == b[..n][1..];
      }
    }
  }

  /** Distinct keys in ascending order of their bytes. */
  ghost predicate InByteOrder(ks: seq<Str>) {
    forall i, j :: 0 <= i < j < |ks| ==> Precedes(Encode(ks[i]), Encode(ks[j]))
  }

  ghost predicate InUtf16Order(ks: seq<Str>) {
    forall i, j :: 0 <= i < j < |ks| ==> Precedes(Utf16(ks[i]), Utf16(ks[j]))
  }

  lemma SortedKeysAscend(ks: set<Str>)
    ensures InByteOrder(SortedKeys(ks))
  {
    var r := SortedKeys(ks);
    forall i, j | 0 <= i < j < |r| ensures Precedes(Encode(r[i]), Encode(r[j])) {
      LexIsPrecedes(Encode(r[i]), Encode(r[j]));
    }
  }

  // ---- reading the keys of a text ----

  /** The keys of the members that follow an opening brace, in the order they are written. */
  function KeysOf(s: seq<Byte>, depth: nat): (r: Option<seq<Str>>)
    decreases |s|
  {
    var t := SkipSpace(s);
    if t == [] || t[0] != QUOTE then None
    else
      var key := ParseString(t[1..]);
      if key.None? then None
      else
        var u := SkipSpace(key.value.rest);
        if u == [] || u[0] != COLON then None
        else
          var item := ParseValue(u[1..], depth);
          if item.None? then None
          else
            var w := SkipSpace(item.value.rest);
            if w == [] then None
            else if w[0] == CLOSE_OBJECT then Some([key.value.value])
            else if w[0] != COMMA then None
            else
              var tail := KeysOf(w[1..], depth);
              if tail.None? then None else Some([key.value.value] + tail.value)
  }

  lemma LastKeyStep(s: seq<Byte>, depth: nat, key: Str, u: seq<Byte>, item: Value, after: seq<Byte>)
    requires s != [] && s[0] == QUOTE && ParseString(s[1..]) == Some(Parsed(key, u)) && u != [] && u[0] == COLON
    requires ParseValue(u[1..], depth) == Some(Parsed(item, after)) && after != [] && after[0] == CLOSE_OBJECT
    ensures KeysOf(s, depth) == Some([key])
  {
    assert SkipSpace(s) == s && SkipSpace(u) == u && SkipSpace(after) == after;
  }

  lemma KeyStep(s: seq<Byte>, depth: nat, key: Str, u: seq<Byte>, item: Value, after: seq<Byte>, ks: seq<Str>)
    requires s != [] && s[0] == QUOTE && ParseString(s[1..]) == Some(Parsed(key, u)) && u != [] && u[0] == COLON
    requires ParseValue(u[1..], depth) == Some(Parsed(item, after)) && after != [] && after[0] == COMMA
    requires KeysOf(after[1..], depth) == Some(ks)
    ensures KeysOf(s, depth) == Some([key] + ks)
  {
    assert SkipSpace(s) == s && SkipSpace(u) == u && SkipSpace(after) == after;
  }

  lemma LastKeyBack(floats: Floats, v: Value, ks: seq<Str>, rest: seq<Byte>, depth: nat)
    requires v.Obj? && Safe(floats, v) && |ks| == 1 && ks[0] in v.members && Decodable(v.members[ks[0]], depth)
    ensures KeysOf(MembersText(floats, v, ks) + ([CLOSE_OBJECT] + rest), depth) == Some(ks)
  {
    var end := [CLOSE_OBJECT] + rest;
    var q, item := Quoted(ks[0]), Canonical(floats, v.members[ks[0]]);
    MemberShape(q, item, [], end);
    assert MembersText(floats, v, ks) == q + [COLON] + item;
    PrintedBack(floats, v.members[ks[0]], end, depth);
    var u := [COLON] + (item + end);
    QuotedBack(ks[0], u);
    LastKeyStep(q + u, depth, ks[0], u, Norm(floats, v.members[ks[0]]), end);
    assert ks == [ks[0]];
  }

  lemma FirstKeyBack(floats: Floats, v: Value, ks: seq<Str>, rest: seq<Byte>, depth: nat)
    requires v.Obj? && Safe(floats, v) && |ks| > 1 && (forall k :: k in ks ==> k in v.members)
    requires Decodable(v.members[ks[0]], depth)
    requires KeysOf(MembersText(floats, v, ks[1..]) + ([CLOSE_OBJECT] + rest), depth) == Some(ks[1..])
    ensures KeysOf(MembersText(floats, v, ks) + ([CLOSE_OBJECT] + rest), depth) == Some(ks)
  {
    var end := [CLOSE_OBJECT] + rest;
    var q, item, tail := Quoted(ks[0]), Canonical(floats, v.members[ks[0]]), MembersText(floats, v, ks[1..]);
    var after := [COMMA] + (tail + end);
    MemberShape(q, item, tail, end);
    PrintedBack(floats, v.members[ks[0]], after, depth);
    var u := [COLON] + (item + after);
    QuotedBack(ks[0], u);
    KeyStep(q + u, depth, ks[0], u, Norm(floats, v.members[ks[0]]), after, ks[1..]);
    assert ks == [ks[0]] + ks[1..];
  }

  lemma {:induction false} KeysBack(floats: Floats, v: Value, ks: seq<Str>, rest: seq<Byte>, depth: nat)
    requires v.Obj? && Safe(floats, v) && ks != [] && (forall k :: k in ks ==> k in v.members)
    requires forall k :: k in v.members ==> Decodable(v.members[k], depth)
    ensures KeysOf(MembersText(floats, v, ks) + ([CLOSE_OBJECT] + rest), depth) == Some(ks)
    decreases |ks|
  {
    if |ks| == 1 {
      LastKeyBack(floats, v, ks, rest, depth);
    } else {
      KeysBack(floats, v, ks[1..], rest, depth);
      FirstKeyBack(floats, v, ks, rest, depth);
    }
  }

  lemma AfterBrace(t: seq<Byte>, rest: seq<Byte>)
    ensures ([OPEN_OBJECT] + t + [CLOSE_OBJECT] + rest)[1..] == t + ([CLOSE_OBJECT] + rest)
  {
  }

  /** The keys read from the text of a printed object, wherever it stands, are its keys in ascending order of
      their UTF-8 bytes. */
  lemma PrintedKeysAscend(floats: Floats, v: Value, rest: seq<Byte>, depth: nat) returns (ks: seq<Str>)
    requires v.Obj? && v.members != map[] && Safe(floats, v) && Decodable(v, depth)
    ensures KeysOf((Canonical(floats, v) + rest)[1..], depth - 1) == Some(ks)
    ensures InByteOrder(ks) && forall k :: k in ks <==> k in v.members
  {
    ks := SortedKeys(v.members.Keys);
    SortedKeysAscend(v.members.Keys);
    AfterBrace(MembersText(floats, v, ks), rest);
    var k :| k in v.members;
    assert k in ks;
    MembersDecodable(v, depth);
    KeysBack(floats, v, ks, rest, depth - 1);
  }

  lemma MembersDecodable(v: Value, depth: nat)
    requires v.Obj? && Decodable(v, depth)
    ensures depth > 0 && forall k :: k in v.members ==> Decodable(v.members[k], depth - 1)
  {
  }

  /** Both printers write the members in that order. */
  lemma OutboxKeysAscend(doubles: Doubles, v: Value) returns (ks: seq<Str>)
    requires v.Obj? && OutboxSafe(doubles, v)
    ensures InByteOrder(ks) && forall k :: k in ks <==> k in v.members
    ensures OutboxText(doubles, v) == [OPEN_OBJECT] + OutboxMembers(doubles, v, ks) + [CLOSE_OBJECT]
  {
    ks := SortedKeys(v.members.Keys);
    SortedKeysAscend(v.members.Keys);
  }

  /** Two keys differ first at a code point from U+E000 to U+FFFF against a supplementary one. */
  ghost predicate Clashes(s: Str, t: Str) {
    exists n :: 0 <= n < |s| && n < |t| && s[..n] == t[..n]
                && (0xE000 <= s[n] < 0x10000 <= t[n] || 0xE000 <= t[n] < 0x10000 <= s[n])
  }

  lemma {:induction false} ClashIsFirst(s: Str, t: Str)
    ensures SurrogateClash(s, t) <==> Clashes(s, t)
    decreases |s|
  {
    if s != [] && t != [] {
      if s[0] == t[0] {
        ClashIsFirst(s[1..], t[1..]);
        if SurrogateClash(s, t) {
          var n :| 0 <= n < |s[1..]| && n < |t[1..]| && s[1..][..n] == t[1..][..n]
                   && (0xE000 <= s[1..][n] < 0x10000 <= t[1..][n] || 0xE000 <= t[1..][n] < 0x10000 <= s[1..][n]);
          assert s[..n + 1] == [s[0]] + s[1..][..n] && t[..n + 1] == [t[0]] + t[1..][..n];
        }
        if n :| 0 <= n < |s| && n < |t| && s[..n] == t[..n]
                && (0xE000 <= s[n] < 0x10000 <= t[n] || 0xE000 <= t[n] < 0x10000 <= s[n]) {
          assert n > 0;
          assert s[1..][..n - 1] == s[..n][1..] && t[1..][..n - 1] == t[..n][1..];
        }
      } else {
        assert s[..0] == t[..0];
        if n :| 0 <= n < |s| && n < |t| && s[..n] == t[..n]
                && (0xE000 <= s[n] < 0x10000 <= t[n] || 0xE000 <= t[n] < 0x10000 <= s[n]) {
          PrefixHead(s, t, n);
        }
      }
    }
  }

  /** The keys of a printed object stand in the order section 3.2.3 of RFC 8785 asks for exactly when no two of
      them clash. */
  lemma PrintedInUtf16OrderExactly(ks: seq<Str>)
    requires InByteOrder(ks)
    ensures InUtf16Order(ks) <==> forall i, j :: 0 <= i < j < |ks| ==> !Clashes(ks[i], ks[j])
  {
    forall i, j | 0 <= i < j < |ks| ensures Precedes(Utf16(ks[i]), Utf16(ks[j])) <==> !Clashes(ks[i], ks[j]) {
      PairInUtf16Order(ks[i], ks[j]);
    }
  }

  lemma PairInUtf16Order(s: Str, t: Str)
    requires Precedes(Encode(s), Encode(t))
    ensures Precedes(Utf16(s), Utf16(t)) <==> !Clashes(s, t)
  {
    LexIsPrecedes(Encode(s), Encode(t));
    LexIsPrecedes(Utf16(s), Utf16(t));
    ClashIsFirst(s, t);
    if s == t {
      LexIrreflexive(Encode(s));
    }
    ByteOrderIsUtf16OrderExactly(s, t);
  }
}
