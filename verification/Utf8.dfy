/** Unicode text as bytes: UTF-8 (RFC 3629) as Go encodes and decodes it, UTF-16 code units, and the
    orders the three give to strings. */
module Utf8 {
  type Byte = b: int | 0 <= b < 256

  /** A Unicode scalar value. */
  type Rune = r: int | 0 <= r <= 0x10FFFF && !(0xD800 <= r <= 0xDFFF)

  const REPLACEMENT: Rune := 0xFFFD

  // ---- UTF-8 ----

  function EncodeRune(r: Rune): (bs: seq<Byte>)
    ensures 1 <= |bs| <= 4
    ensures r >= 0x80 ==> forall i :: 0 <= i < |bs| ==> bs[i] >= 0x80
  {
    if r < 0x80 then [r]
    else if r < 0x800 then [0xC0 + r / 64, 0x80 + r % 64]
    else if r < 0x10000 then [0xE0 + r / 4096, 0x80 + r / 64 % 64, 0x80 + r % 64]
    else [0xF0 + r / 262144, 0x80 + r / 4096 % 64, 0x80 + r / 64 % 64, 0x80 + r % 64]
  }

  function Encode(s: seq<Rune>): seq<Byte> {
    if s == [] then [] else EncodeRune(s[0]) + Encode(s[1..])
  }

  predicate Continuation(b: Byte) { 0x80 <= b < 0xC0 }

  function Two(a: int, b: int): int { (a - 0xC0) * 64 + (b - 0x80) }

  function Three(a: int, b: int, c: int): int { (a - 0xE0) * 4096 + (b - 0x80) * 64 + (c - 0x80) }

  function Four(a: int, b: int, c: int, d: int): int {
    (a - 0xF0) * 262144 + (b - 0x80) * 4096 + (c - 0x80) * 64 + (d - 0x80)
  }

  datatype Decoded = Decoded(rune: Rune, size: nat)

  /** utf8.DecodeRune: anything that is not a shortest-form scalar decodes as U+FFFD of size one. */
  function DecodeRune(s: seq<Byte>): (d: Decoded)
    requires s != []
    ensures 1 <= d.size <= |s|
  {
    if s[0] < 0x80 then Decoded(s[0], 1)
    else if 0xC2 <= s[0] < 0xE0 && |s| >= 2 && Continuation(s[1]) then
      Decoded(Two(s[0], s[1]), 2)
    else if 0xE0 <= s[0] < 0xF0 && |s| >= 3 && Continuation(s[1]) && Continuation(s[2]) then
      var r := Three(s[0], s[1], s[2]);
      if r >= 0x800 && !(0xD800 <= r <= 0xDFFF) then Decoded(r, 3) else Decoded(REPLACEMENT, 1)
    else if 0xF0 <= s[0] < 0xF5 && |s| >= 4 && Continuation(s[1]) && Continuation(s[2]) && Continuation(s[3]) then
      var r := Four(s[0], s[1], s[2], s[3]);
      if 0x10000 <= r <= 0x10FFFF then Decoded(r, 4) else Decoded(REPLACEMENT, 1)
    else Decoded(REPLACEMENT, 1)
  }

  /** Every scalar decodes back from its encoding, whatever follows. */
  lemma DecodeEncoded(r: Rune, rest: seq<Byte>)
    ensures DecodeRune(EncodeRune(r) + rest) == Decoded(r, |EncodeRune(r)|)
  {
    var s := EncodeRune(r) + rest;
    if r < 0x80 {
    } else if r < 0x800 {
      assert s[0] == 0xC0 + r / 64 && s[1] == 0x80 + r % 64;
      assert Two(s[0], s[1]) == r;
    } else if r < 0x10000 {
      assert s[0] == 0xE0 + r / 4096 && s[1] == 0x80 + r / 64 % 64 && s[2] == 0x80 + r % 64;
      ThreeBytes(r);
    } else {
      assert s[0] == 0xF0 + r / 262144 && s[1] == 0x80 + r / 4096 % 64 && s[2] == 0x80 + r / 64 % 64 && s[3] == 0x80 + r % 64;
      FourBytes(r);
    }
  }

  lemma ThreeBytes(r: int)
    ensures Three(0xE0 + r / 4096, 0x80 + r / 64 % 64, 0x80 + r % 64) == r
  {
    assert r == r / 64 * 64 + r % 64;
    assert r / 64 == r / 4096 * 64 + r / 64 % 64;
  }

  lemma FourBytes(r: int)
    ensures Four(0xF0 + r / 262144, 0x80 + r / 4096 % 64, 0x80 + r / 64 % 64, 0x80 + r % 64) == r
  {
    var a := r / 64;
    var b := a / 64;
    var c := b / 64;
    assert b == r / 4096 && c == r / 262144;
    assert r % 64 == r - 64 * a;
    assert a % 64 == a - 64 * b;
    assert b % 64 == b - 64 * c;
  }

  lemma {:induction false} EncodeInjective(s: seq<Rune>, t: seq<Rune>)
    requires Encode(s) == Encode(t)
    ensures s == t
  {
    if s != [] && t != [] {
      DecodeEncoded(s[0], Encode(s[1..]));
      DecodeEncoded(t[0], Encode(t[1..]));
      var n := |EncodeRune(s[0])|;
      assert Encode(s)[n..] == Encode(s[1..]) && Encode(t)[n..] == Encode(t[1..]);
      EncodeInjective(s[1..], t[1..]);
    }
  }

  // ---- orders ----

  /** First difference decides, a proper prefix is smaller. */
  predicate LexLess(a: seq<int>, b: seq<int>) {
    b != [] && (a == [] || a[0] < b[0] || (a[0] == b[0] && LexLess(a[1..], b[1..])))
  }

  lemma {:induction false} LexTotal(a: seq<int>, b: seq<int>)
    ensures a == b || LexLess(a, b) || LexLess(b, a)
    ensures !(LexLess(a, b) && LexLess(b, a)) && !LexLess(a, a)
    decreases |a| + |b|
  {
    if a != [] && b != [] {
      LexTotal(a[1..], b[1..]);
      assert a == [a[0]] + a[1..] && b == [b[0]] + b[1..];
    }
    LexIrreflexive(a);
  }

  lemma {:induction false} LexIrreflexive(a: seq<int>)
    ensures !LexLess(a, a)
  {
    if a != [] {
      LexIrreflexive(a[1..]);
    }
  }

  lemma {:induction false} LexTransitive(a: seq<int>, b: seq<int>, c: seq<int>)
    requires LexLess(a, b) && LexLess(b, c)
    ensures LexLess(a, c)
  {
    if a != [] && a[0] == b[0] == c[0] {
      LexTransitive(a[1..], b[1..], c[1..]);
    }
  }

  lemma {:induction false} LexPrefix(p: seq<int>, a: seq<int>, b: seq<int>)
    ensures LexLess(p + a, p + b) <==> LexLess(a, b)
  {
    if p == [] {
      assert p + a == a && p + b == b;
    } else {
      assert (p + a)[1..] == p[1..] + a && (p + b)[1..] == p[1..] + b;
      LexPrefix(p[1..], a, b);
    }
  }

  /** Two sequences that differ at a common position are ordered by it, whatever follows. */
  lemma {:induction false} LexAt(a: seq<int>, b: seq<int>, i: nat)
    requires i < |a| && i < |b| && a[..i] == b[..i] && a[i] < b[i]
    ensures LexLess(a, b)
    decreases i
  {
    if i > 0 {
      assert a[0] == a[..i][0] == b[..i][0] == b[0];
      assert a[1..][..i - 1] == a[..i][1..] == b[..i][1..] == b[1..][..i - 1];
      LexAt(a[1..], b[1..], i - 1);
    }
  }

  /** Where the encodings of two code points first differ. */
  lemma FirstDifference(q: Rune, r: Rune) returns (i: nat)
    requires q < r
    ensures i < |EncodeRune(q)| && i < |EncodeRune(r)|
    ensures EncodeRune(q)[..i] == EncodeRune(r)[..i] && EncodeRune(q)[i] < EncodeRune(r)[i]
  {
    var a, b := EncodeRune(q), EncodeRune(r);
    if |a| < |b| {
      i := 0;
    } else if r < 0x80 {
      i := 0;
    } else if r < 0x800 {
      i := if q / 64 != r / 64 then 0 else 1;
    } else if r < 0x10000 {
      i := if q / 4096 != r / 4096 then 0 else if q / 64 != r / 64 then 1 else 2;
      SameQuotients(q, r);
    } else {
      i := if q / 262144 != r / 262144 then 0 else if q / 4096 != r / 4096 then 1 else if q / 64 != r / 64 then 2 else 3;
      SameQuotients(q, r);
    }
  }

  lemma SameQuotients(q: int, r: int)
    requires q < r
    ensures q / 64 <= r / 64 && q / 4096 <= r / 4096 && q / 262144 <= r / 262144
    ensures q / 4096 == r / 4096 && q / 64 != r / 64 ==> q / 64 % 64 < r / 64 % 64
    ensures q / 262144 == r / 262144 && q / 4096 != r / 4096 ==> q / 4096 % 64 < r / 4096 % 64
    ensures q / 64 == r / 64 ==> q / 4096 == r / 4096 && q % 64 < r % 64
    ensures q / 4096 == r / 4096 ==> q / 262144 == r / 262144
  {
    assert q / 64 / 64 == q / 4096 && r / 64 / 64 == r / 4096;
    assert q / 4096 / 64 == q / 262144 && r / 4096 / 64 == r / 262144;
  }

  lemma RuneOrder(q: Rune, r: Rune, x: seq<Byte>, y: seq<Byte>)
    requires q < r
    ensures LexLess(EncodeRune(q) + x, EncodeRune(r) + y)
  {
    var i := FirstDifference(q, r);
    var a, b := EncodeRune(q), EncodeRune(r);
    assert (a + x)[..i] == a[..i] && (b + y)[..i] == b[..i];
    LexAt(a + x, b + y, i);
  }

  /** Comparing UTF-8 bytes, as sort.Strings does, is comparing code points. */
  lemma {:induction false} ByteOrderIsCodePointOrder(s: seq<Rune>, t: seq<Rune>)
    ensures LexLess(Encode(s), Encode(t)) <==> LexLess(s, t)
  {
    if s != [] && t != [] {
      if s[0] < t[0] {
        RuneOrder(s[0], t[0], Encode(s[1..]), Encode(t[1..]));
      } else if t[0] < s[0] {
        RuneOrder(t[0], s[0], Encode(t[1..]), Encode(s[1..]));
        LexTotal(Encode(s), Encode(t));
      } else {
        ByteOrderIsCodePointOrder(s[1..], t[1..]);
        LexPrefix(EncodeRune(s[0]), Encode(s[1..]), Encode(t[1..]));
      }
    }
  }

  // ---- UTF-16 ----

  function Utf16Rune(r: Rune): (us: seq<int>)
    ensures 1 <= |us| <= 2
  {
    if r < 0x10000 then [r] else [0xD800 + (r - 0x10000) / 1024, 0xDC00 + (r - 0x10000) % 1024]
  }

  function Utf16(s: seq<Rune>): seq<int> {
    if s == [] then [] else Utf16Rune(s[0]) + Utf16(s[1..])
  }

  /** The first difference sets a code point from U+E000 to U+FFFF against a supplementary one. */
  predicate SurrogateClash(s: seq<Rune>, t: seq<Rune>) {
    s != [] && t != []
    && (|| (0xE000 <= s[0] < 0x10000 <= t[0]) || (0xE000 <= t[0] < 0x10000 <= s[0])
        || (s[0] == t[0] && SurrogateClash(s[1..], t[1..])))
  }

  lemma UnitOrder(q: Rune, r: Rune, x: seq<int>, y: seq<int>)
    requires q < r
    ensures if 0xE000 <= q < 0x10000 <= r then LexLess(Utf16Rune(r) + y, Utf16Rune(q) + x)
            else LexLess(Utf16Rune(q) + x, Utf16Rune(r) + y)
  {
    var a, b := Utf16Rune(q), Utf16Rune(r);
    if 0xE000 <= q < 0x10000 <= r {
      LexAt(b + y, a + x, 0);
    } else {
      var i := if a[0] != b[0] then 0 else 1;
      assert (a + x)[..i] == (b + y)[..i];
      LexAt(a + x, b + y, i);
    }
  }

  /** Section 3.2.3 of RFC 8785 sorts by UTF-16 code units. The byte order of the code agrees with it on
      two different keys exactly when their first difference does not set U+E000..U+FFFF against a
      supplementary code point. */
  lemma {:induction false} ByteOrderIsUtf16OrderExactly(s: seq<Rune>, t: seq<Rune>)
    requires s != t
    ensures (LexLess(Encode(s), Encode(t)) <==> LexLess(Utf16(s), Utf16(t))) <==> !SurrogateClash(s, t)
  {
    ByteOrderIsCodePointOrder(s, t);
    if s != [] && t != [] {
      if s[0] < t[0] {
        UnitOrder(s[0], t[0], Utf16(s[1..]), Utf16(t[1..]));
        LexTotal(Utf16(s), Utf16(t));
      } else if t[0] < s[0] {
        UnitOrder(t[0], s[0], Utf16(t[1..]), Utf16(s[1..]));
        LexTotal(Utf16(s), Utf16(t));
      } else {
        assert s == [s[0]] + s[1..] && t == [t[0]] + t[1..];
        ByteOrderIsUtf16OrderExactly(s[1..], t[1..]);
        ByteOrderIsCodePointOrder(s[1..], t[1..]);
        LexPrefix(Utf16Rune(s[0]), Utf16(s[1..]), Utf16(t[1..]));
      }
    }
  }
}
