/** What the round trip gives the envelope: printing is idempotent and injective, the canonicality check
    of Verify accepts exactly the printed forms, and decoding them succeeds exactly within the nesting
    limit. */
module JcsTheorems {
  import opened Wrappers
  import opened Utf8
  import opened Json
  import opened Jcs
  import opened JcsRoundTrip

  // ---- the normal form prints the same ----

  lemma {:induction false} NormIsProper(floats: Floats, v: Value)
    requires Safe(floats, v) && ProperNumbers(v)
    ensures ProperNumbers(Norm(floats, v)) && Safe(floats, Norm(floats, v))
    decreases v
  {
    match v
    case Num(literal) => NumberAgain(floats, literal);
    case Arr(items) =>
      forall x | x in items ensures ProperNumbers(Norm(floats, x)) && Safe(floats, Norm(floats, x)) {
        NormIsProper(floats, x);
      }
    case Obj(members) =>
      forall k | k in members ensures ProperNumbers(Norm(floats, members[k])) && Safe(floats, Norm(floats, members[k])) {
        NormIsProper(floats, members[k]);
      }
    case _ =>
  }

  lemma AllByIndex(xs: seq<Value>, ys: seq<Value>, depth: nat)
    requires |xs| == |ys| && forall i :: 0 <= i < |xs| ==> (Nests(ys[i], depth) <==> Nests(xs[i], depth))
    ensures (forall x :: x in xs ==> Nests(x, depth)) <==> (forall y :: y in ys ==> Nests(y, depth))
  {
    if forall x :: x in xs ==> Nests(x, depth) {
      forall y | y in ys ensures Nests(y, depth) {
        var i :| 0 <= i < |ys| && ys[i] == y;
        assert xs[i] in xs;
      }
    }
    if forall y :: y in ys ==> Nests(y, depth) {
      forall x | x in xs ensures Nests(x, depth) {
        var i :| 0 <= i < |xs| && xs[i] == x;
        assert ys[i] in ys;
      }
    }
  }

  lemma {:induction false} NormNests(floats: Floats, v: Value, depth: nat)
    ensures Nests(Norm(floats, v), depth) <==> Nests(v, depth)
    decreases v
  {
    match v
    case Arr(items) =>
      if depth > 0 {
        var ns := Norm(floats, v).items;
        forall i | 0 <= i < |items| ensures Nests(ns[i], depth - 1) <==> Nests(items[i], depth - 1) {
          NormNests(floats, items[i], depth - 1);
        }
        AllByIndex(items, ns, depth - 1);
      }
    case Obj(members) =>
      if depth > 0 {
        forall k | k in members ensures Nests(Norm(floats, v).members[k], depth - 1) <==> Nests(members[k], depth - 1) {
          NormNests(floats, members[k], depth - 1);
        }
      }
    case _ =>
  }

  /** Printing what was decoded from printed bytes gives those bytes again. */
  lemma {:induction false} PrintingAgain(floats: Floats, v: Value)
    requires Safe(floats, v) && ProperNumbers(v)
    ensures Safe(floats, Norm(floats, v)) && Canonical(floats, Norm(floats, v)) == Canonical(floats, v)
    decreases v, 1, 0
  {
    NormIsProper(floats, v);
    match v
    case Num(literal) => NumberAgain(floats, literal);
    case Arr(items) => ItemsAgain(floats, v, 0);
    case Obj(members) =>
      assert Norm(floats, v).members.Keys == members.Keys;
      MembersAgain(floats, v, SortedKeys(members.Keys));
    case _ =>
  }

  lemma {:induction false} ItemsAgain(floats: Floats, v: Value, i: nat)
    requires v.Arr? && Safe(floats, v) && ProperNumbers(v) && i <= |v.items| && Safe(floats, Norm(floats, v))
    ensures ItemsText(floats, Norm(floats, v), i) == ItemsText(floats, v, i)
    decreases v, 0, |v.items| - i
  {
    if i < |v.items| {
      PrintingAgain(floats, v.items[i]);
      ItemsAgain(floats, v, i + 1);
    }
  }

  lemma {:induction false} MembersAgain(floats: Floats, v: Value, ks: seq<Str>)
    requires v.Obj? && Safe(floats, v) && ProperNumbers(v) && Safe(floats, Norm(floats, v))
    requires forall k :: k in ks ==> k in v.members
    ensures MembersText(floats, Norm(floats, v), ks) == MembersText(floats, v, ks)
    decreases v, 0, |ks|
  {
    if ks != [] {
      PrintingAgain(floats, v.members[ks[0]]);
      MembersAgain(floats, v, ks[1..]);
    }
  }

  // ---- integers ----

  /** A value of null, booleans, integer literals, strings, arrays and objects. */
  ghost predicate IntegersOnly(v: Value)
    decreases v
  {
    match v
    case Num(literal) => !HasFloatMark(literal)
    case Arr(items) => forall x :: x in items ==> IntegersOnly(x)
    case Obj(members) => forall k :: k in members ==> IntegersOnly(members[k])
    case _ => true
  }

  lemma {:induction false} NormOfIntegers(floats: Floats, v: Value)
    requires IntegersOnly(v)
    ensures Norm(floats, v) == v
    decreases v
  {
    match v
    case Arr(items) =>
      forall i | 0 <= i < |items| ensures Norm(floats, items[i]) == items[i] {
        NormOfIntegers(floats, items[i]);
      }
    case Obj(members) =>
      forall k | k in members ensures Norm(floats, members[k]) == members[k] {
        NormOfIntegers(floats, members[k]);
      }
      SameMap(Norm(floats, v).members, members);
    case _ =>
  }

  /** Integer-only values decode back to themselves. */
  lemma RoundTrip(floats: Floats, v: Value, depth: nat)
    requires Safe(floats, v) && Decodable(v, depth) && IntegersOnly(v)
    ensures ParseValue(Canonical(floats, v), depth) == Some(Parsed(v, []))
  {
    PrintedBack(floats, v, [], depth);
    NormOfIntegers(floats, v);
    assert Canonical(floats, v) + [] == Canonical(floats, v);
  }

  // ---- nesting ----

  lemma {:induction false} NestsMore(v: Value, depth: nat, more: nat)
    requires Nests(v, depth) && depth <= more
    ensures Nests(v, more)
    decreases v
  {
    match v
    case Arr(items) =>
      forall x | x in items ensures Nests(x, more - 1) { NestsMore(x, depth - 1, more - 1); }
    case Obj(members) =>
      forall k | k in members ensures Nests(members[k], more - 1) { NestsMore(members[k], depth - 1, more - 1); }
    case _ =>
  }

  /** A level deep enough for the first n elements. */
  lemma {:induction false} ItemsNest(v: Value, n: nat) returns (depth: nat)
    requires v.Arr? && n <= |v.items|
    ensures forall i :: 0 <= i < n ==> Nests(v.items[i], depth)
    decreases v, 0, n
  {
    if n == 0 {
      depth := 0;
    } else {
      var a := ItemsNest(v, n - 1);
      var b := SomeDepth(v.items[n - 1]);
      depth := a + b;
      forall i | 0 <= i < n ensures Nests(v.items[i], depth) {
        NestsMore(v.items[i], if i < n - 1 then a else b, depth);
      }
    }
  }

  lemma {:induction false} MembersNest(v: Value, ks: set<Str>) returns (depth: nat)
    requires v.Obj? && ks <= v.members.Keys
    ensures forall k :: k in ks ==> Nests(v.members[k], depth)
    decreases v, 0, |ks|
  {
    if ks == {} {
      depth := 0;
    } else {
      var k0 :| k0 in ks;
      var a := MembersNest(v, ks - {k0});
      var b := SomeDepth(v.members[k0]);
      depth := a + b;
      forall k | k in ks ensures Nests(v.members[k], depth) {
        NestsMore(v.members[k], if k == k0 then b else a, depth);
      }
    }
  }

  /** Every value is finitely nested. */
  lemma {:induction false} SomeDepth(v: Value) returns (depth: nat)
    ensures Nests(v, depth)
    decreases v, 1, 0
  {
    match v
    case Arr(items) =>
      var d := ItemsNest(v, |items|);
      depth := d + 1;
      forall x | x in items ensures Nests(x, d) {
        var i :| 0 <= i < |items| && items[i] == x;
      }
    case Obj(members) =>
      var d := MembersNest(v, members.Keys);
      depth := d + 1;
    case _ => depth := 0;
  }

  /** A larger nesting limit never changes a successful decoding. */
  lemma {:induction false} DeeperSame(s: seq<Byte>, depth: nat, more: nat)
    requires ParseValue(s, depth).Some? && depth <= more
    ensures ParseValue(s, more) == ParseValue(s, depth)
    decreases |s|, 1
  {
    var t := SkipSpace(s);
    if t[0] == OPEN_ARRAY {
      DeeperArray(s, t, depth, more);
    } else if t[0] == OPEN_OBJECT {
      DeeperObject(s, t, depth, more);
    }
  }

  lemma {:induction false} DeeperArray(s: seq<Byte>, t: seq<Byte>, depth: nat, more: nat)
    requires t == SkipSpace(s) && t != [] && t[0] == OPEN_ARRAY && ParseValue(s, depth).Some? && depth <= more
    ensures ParseValue(s, more) == ParseValue(s, depth)
    decreases |s|, 0
  {
    var u := SkipSpace(t[1..]);
    if u == [] || u[0] != CLOSE_ARRAY {
      DeeperItems(u, depth - 1, more - 1);
    }
  }

  lemma {:induction false} DeeperObject(s: seq<Byte>, t: seq<Byte>, depth: nat, more: nat)
    requires t == SkipSpace(s) && t != [] && t[0] == OPEN_OBJECT && ParseValue(s, depth).Some? && depth <= more
    ensures ParseValue(s, more) == ParseValue(s, depth)
    decreases |s|, 0
  {
    var u := SkipSpace(t[1..]);
    if u == [] || u[0] != CLOSE_OBJECT {
      DeeperMembers(u, depth - 1, more - 1, map[]);
    }
  }

  lemma {:induction false} DeeperItems(s: seq<Byte>, depth: nat, more: nat)
    requires ParseItems(s, depth).Some? && depth <= more
    ensures ParseItems(s, more) == ParseItems(s, depth)
    decreases |s|, 2
  {
    DeeperSame(s, depth, more);
    var t := SkipSpace(ParseValue(s, depth).value.rest);
    if t[0] == COMMA {
      DeeperItems(t[1..], depth, more);
    }
  }

  lemma {:induction false} DeeperMembers(s: seq<Byte>, depth: nat, more: nat, before: map<Str, Value>)
    requires ParseMembers(s, depth, before).Some? && depth <= more
    ensures ParseMembers(s, more, before) == ParseMembers(s, depth, before)
    decreases |s|, 2
  {
    var key := ParseString(SkipSpace(s)[1..]).value;
    var u := SkipSpace(key.rest);
    DeeperSame(u[1..], depth, more);
    var item := ParseValue(u[1..], depth).value;
    var w := SkipSpace(item.rest);
    if w[0] == COMMA {
      DeeperMembers(w[1..], depth, more, before[key.value := item.value]);
    }
  }

  lemma WholeBack(floats: Floats, v: Value, depth: nat)
    requires Safe(floats, v) && Decodable(v, depth)
    ensures ParseValue(Canonical(floats, v), depth) == Some(Parsed(Norm(floats, v), []))
  {
    PrintedBack(floats, v, [], depth);
    assert Canonical(floats, v) + [] == Canonical(floats, v);
  }

  /** What decodes at one limit and is v at a larger one nests within the smaller limit. */
  lemma DecodedNests(floats: Floats, v: Value, s: seq<Byte>, depth: nat, more: nat)
    requires ParseValue(s, depth).Some? && depth <= more && ParseValue(s, more) == Some(Parsed(Norm(floats, v), []))
    ensures Nests(v, depth)
  {
    DeeperSame(s, depth, more);
    DecodedIsDecodable(s, depth);
    NormNests(floats, v, depth);
  }

  /** A printed value decodes exactly when its nesting is within the decoder's limit. */
  lemma DecodesExactly(floats: Floats, v: Value, depth: nat)
    requires Safe(floats, v) && ProperNumbers(v)
    ensures ParseValue(Canonical(floats, v), depth)
            == (if Nests(v, depth) then Some(Parsed(Norm(floats, v), [])) else None)
  {
    var s := Canonical(floats, v);
    if Nests(v, depth) {
      WholeBack(floats, v, depth);
    } else {
      var d := SomeDepth(v);
      NestsMore(v, d, d + depth);
      WholeBack(floats, v, d + depth);
      if ParseValue(s, depth).Some? {
        DecodedNests(floats, v, s, depth, d + depth);
      }
    }
  }

  lemma SameTextSameNorm(floats: Floats, v: Value, w: Value)
    requires Safe(floats, v) && Safe(floats, w) && ProperNumbers(v) && ProperNumbers(w)
    requires Canonical(floats, v) == Canonical(floats, w)
    ensures Norm(floats, v) == Norm(floats, w)
  {
    var a := BackFrom(floats, v);
    var b := BackFrom(floats, w);
    BackAt(Canonical(floats, v), Norm(floats, v), a, b);
    BackAt(Canonical(floats, w), Norm(floats, w), b, a);
  }

  lemma BackFrom(floats: Floats, v: Value) returns (depth: nat)
    requires Safe(floats, v) && ProperNumbers(v)
    ensures ParseValue(Canonical(floats, v), depth) == Some(Parsed(Norm(floats, v), []))
  {
    depth := SomeDepth(v);
    WholeBack(floats, v, depth);
  }

  lemma BackAt(s: seq<Byte>, v: Value, depth: nat, more: nat)
    requires ParseValue(s, depth) == Some(Parsed(v, []))
    ensures ParseValue(s, depth + more) == Some(Parsed(v, []))
  {
    DeeperSame(s, depth, depth + more);
  }

  /** Printing is injective: values print the same exactly when they have the same normal form. */
  lemma PrintingInjective(floats: Floats, v: Value, w: Value)
    requires Safe(floats, v) && Safe(floats, w) && ProperNumbers(v) && ProperNumbers(w)
    ensures Canonical(floats, v) == Canonical(floats, w) <==> Norm(floats, v) == Norm(floats, w)
  {
    if Canonical(floats, v) == Canonical(floats, w) {
      SameTextSameNorm(floats, v, w);
    }
    PrintingAgain(floats, v);
    PrintingAgain(floats, w);
  }

  // ---- sealing and verifying ----

  /** Canonicalize on marshalled bytes: decode, then print. */
  ghost function Canonicalized(floats: Floats, raw: seq<Byte>, depth: nat): Option<seq<Byte>> {
    var p := ParseValue(raw, depth);
    if p.Some? && Safe(floats, p.value.value) then Some(Canonical(floats, p.value.value)) else None
  }

  /** The canonicality check of Verify: decode the payload, print it again, compare the bytes. */
  ghost predicate Accepts(floats: Floats, payload: seq<Byte>, depth: nat) {
    Canonicalized(floats, payload, depth) == Some(payload)
  }

  /** Whatever was sealed passes the check. */
  lemma SealedIsAccepted(floats: Floats, raw: seq<Byte>, depth: nat)
    requires Canonicalized(floats, raw, depth).Some?
    ensures Accepts(floats, Canonicalized(floats, raw, depth).value, depth)
  {
    var v := ParseValue(raw, depth).value.value;
    DecodedIsDecodable(raw, depth);
    DecodesExactly(floats, v, depth);
    PrintingAgain(floats, v);
  }

  /** The check accepts exactly the printed forms of decodable values, and those without trailing bytes. */
  lemma AcceptsExactly(floats: Floats, payload: seq<Byte>, depth: nat)
    ensures Accepts(floats, payload, depth)
            <==> exists v :: Decodable(v, depth) && Safe(floats, v) && payload == Canonical(floats, v)
    ensures Accepts(floats, payload, depth) ==> ParseValue(payload, depth).value.rest == []
  {
    if Accepts(floats, payload, depth) {
      var v := ParseValue(payload, depth).value.value;
      DecodedIsDecodable(payload, depth);
      assert Decodable(v, depth) && Safe(floats, v) && payload == Canonical(floats, v);
      DecodesExactly(floats, v, depth);
    }
    if v :| Decodable(v, depth) && Safe(floats, v) && payload == Canonical(floats, v) {
      DecodesExactly(floats, v, depth);
      PrintingAgain(floats, v);
    }
  }
}
