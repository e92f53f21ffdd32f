/** Separator-delimited text: deterministic identifiers and dedupe keys are built by joining
    parts with a separator that the left part cannot contain. */
module Text {

  function FirstIndex(s: string, c: char): (i: nat)
    requires c in s
    ensures i < |s| && s[i] == c && c !in s[..i]
  {
    if s[0] == c then 0 else 1 + FirstIndex(s[1..], c)
  }

  lemma FirstIndexOfJoin(a: string, x: string, sep: char)
    requires sep !in a
    ensures sep in a + [sep] + x && FirstIndex(a + [sep] + x, sep) == |a|
  {
    var s := a + [sep] + x;
    assert s[|a|] == sep;
    assert forall k :: 0 <= k < |a| ==> s[k] == a[k];
    var i := FirstIndex(s, sep);
    forall k | 0 <= k < i ensures s[k] != sep {
      assert s[..i][k] == s[k];
    }
  }

  /** The left part of a joined text can be read back, so joining is injective. */
  lemma JoinInjective(a: string, x: string, b: string, y: string, sep: char)
    requires sep !in a && sep !in b
    requires a + [sep] + x == b + [sep] + y
    ensures a == b && x == y
  {
    var s, t := a + [sep] + x, b + [sep] + y;
    FirstIndexOfJoin(a, x, sep);
    FirstIndexOfJoin(b, y, sep);
    assert a == s[..|a|] == t[..|b|] == b;
    assert x == s[|a| + 1..] == t[|b| + 1..] == y;
  }

  /** White space as Go's unicode.IsSpace sees it. */
  predicate IsSpace(c: char) {
    '\t' <= c <= '\r' || c == ' ' || c == '\U{85}' || c == '\U{A0}' || c == '\U{1680}'
    || '\U{2000}' <= c <= '\U{200A}' || c == '\U{2028}' || c == '\U{2029}' || c == '\U{202F}'
    || c == '\U{205F}' || c == '\U{3000}'
  }

  /** True when trimming white space leaves nothing. */
  predicate Blank(s: string) {
    forall k :: 0 <= k < |s| ==> IsSpace(s[k])
  }

  predicate Alphanumeric(c: char) {
    'A' <= c <= 'Z' || 'a' <= c <= 'z' || '0' <= c <= '9'
  }

  /** The approved identifier pattern: 1 to 128 characters, the first alphanumeric, the others
      also '.', '_', ':' or '-'. */
  predicate Canonical(s: string) {
    && 1 <= |s| <= 128
    && Alphanumeric(s[0])
    && forall k :: 0 <= k < |s| ==> Alphanumeric(s[k]) || s[k] in "._:-"
  }

  /** Go's order on strings of single-byte characters: first difference decides, a prefix is smaller. */
  predicate Less(a: string, b: string) {
    b != "" && (a == "" || a[0] < b[0] || (a[0] == b[0] && Less(a[1..], b[1..])))
  }

  lemma {:induction false} LessTotal(a: string, b: string)
    ensures a == b || Less(a, b) || Less(b, a)
    ensures !(Less(a, b) && Less(b, a)) && !Less(a, a)
    decreases |a| + |b|
  {
    if a != "" && b != "" {
      LessTotal(a[1..], b[1..]);
      assert a == [a[0]] + a[1..] && b == [b[0]] + b[1..];
    }
    LessIrreflexive(a);
  }

  lemma {:induction false} LessIrreflexive(a: string)
    ensures !Less(a, a)
  {
    if a != "" {
      LessIrreflexive(a[1..]);
    }
  }

  lemma {:induction false} LessTransitive(a: string, b: string, c: string)
    requires Less(a, b) && Less(b, c)
    ensures Less(a, c)
  {
    if a != "" && a[0] == b[0] == c[0] {
      LessTransitive(a[1..], b[1..], c[1..]);
    }
  }

  lemma PrefixHead(a: string, b: string, n: nat)
    requires n <= |a| && n <= |b| && a[..n] == b[..n]
    ensures n > 0 ==> a[0] == b[0]
  {
    if n > 0 {
      assert a[..n][0] == a[0] && b[..n][0] == b[0];
    }
  }

  /** A proper prefix, or the smaller character where the two first differ. */
  ghost predicate Precedes(a: string, b: string) {
    exists n :: 0 <= n <= |a| && n <= |b| && a[..n] == b[..n]
                && (if n == |a| then n < |b| else n < |b| && a[n] < b[n])
  }

  lemma {:induction false} LessIsFirstDifference(a: string, b: string)
    ensures Less(a, b) <==> Precedes(a, b)
    decreases |a|
  {
    if a == "" || b == "" {
      if b != "" {
        assert a[..0] == b[..0];
      }
    } else if a[0] != b[0] {
      assert a[..0] == b[..0];
      if n :| 0 <= n <= |a| && n <= |b| && a[..n] == b[..n] && (if n == |a| then n < |b| else n < |b| && a[n] < b[n]) {
        PrefixHead(a, b, n);
      }
    } else {
      LessIsFirstDifference(a[1..], b[1..]);
      if Less(a, b) {
        var n :| 0 <= n <= |a[1..]| && n <= |b[1..]| && a[1..][..n] == b[1..][..n]
                 && (if n == |a[1..]| then n < |b[1..]| else n < |b[1..]| && a[1..][n] < b[1..][n]);
        assert a[..n + 1] == [a[0]] + a[1..][..n] && b[..n + 1] == [b[0]] + b[1..][..n];
      }
      if n :| 0 <= n <= |a| && n <= |b| && a[..n] == b[..n] && (if n == |a| then n < |b| else n < |b| && a[n] < b[n]) {
        assert n > 0;
        assert a[1..][..n - 1] == a[..n][1..] && b[1..][..n - 1] == b[..n][1..];
      }
    }
  }
}
