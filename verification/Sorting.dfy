/** Sorting by a comparison that may tie, as sort.Slice does: any sorted arrangement of the same elements
    is the same sequence as long as elements that tie are equal. */
module Sorting {

  /** A strict weak order: what a comparison must be for sorting to make sense. */
  ghost predicate StrictWeak<T(!new)>(less: (T, T) -> bool) {
    && (forall a, b :: !(less(a, b) && less(b, a)))
    && (forall a, b, c | less(a, c) :: less(a, b) || less(b, c))
  }

  ghost predicate Sorted<T(!new)>(xs: seq<T>, less: (T, T) -> bool) {
    forall i, j :: 0 <= i < j < |xs| ==> !less(xs[j], xs[i])
  }

  ghost predicate TiesEqual<T(!new)>(xs: seq<T>, less: (T, T) -> bool) {
    forall x, y :: x in xs && y in xs ==> x == y || less(x, y) || less(y, x)
  }

  function Insert<T>(xs: seq<T>, x: T, less: (T, T) -> bool): (r: seq<T>)
    ensures multiset(r) == multiset(xs) + multiset{x}
  {
    if xs == [] then [x]
    else if less(x, xs[0]) then [x] + xs
    else
      assert xs == [xs[0]] + xs[1..];
      [xs[0]] + Insert(xs[1..], x, less)
  }

  function Sort<T>(xs: seq<T>, less: (T, T) -> bool): (r: seq<T>)
    ensures multiset(r) == multiset(xs)
  {
    if xs == [] then []
    else
      assert xs == xs[..|xs| - 1] + [xs[|xs| - 1]];
      Insert(Sort(xs[..|xs| - 1], less), xs[|xs| - 1], less)
  }

  method SortSlice<T>(xs: seq<T>, less: (T, T) -> bool) returns (r: seq<T>)
    ensures r == Sort(xs, less)
  {
    r := [];
    for k := 0 to |xs|
      invariant r == Sort(xs[..k], less)
    {
      assert xs[..k + 1][..k] == xs[..k];
      r := Insert(r, xs[k], less);
    }
    assert xs[..|xs|] == xs;
  }

  lemma Between<T(!new)>(a: T, b: T, c: T, less: (T, T) -> bool)
    requires StrictWeak(less) && less(a, c)
    ensures less(a, b) || less(b, c)
  {
  }

  lemma {:induction false} InsertSorts<T(!new)>(xs: seq<T>, x: T, less: (T, T) -> bool)
    requires StrictWeak(less) && Sorted(xs, less)
    ensures Sorted(Insert(xs, x, less), less)
  {
    if xs != [] {
      if less(x, xs[0]) {
        forall j | 0 <= j < |xs| ensures !less(xs[j], x) {
          Between(x, xs[j], xs[0], less);
        }
      } else {
        var tail := Insert(xs[1..], x, less);
        InsertSorts(xs[1..], x, less);
        forall j | 0 <= j < |tail| ensures !less(tail[j], xs[0]) {
          assert tail[j] in multiset(tail);
          assert tail[j] in xs[1..] || tail[j] == x;
        }
      }
    }
  }

  lemma {:induction false} SortSorts<T(!new)>(xs: seq<T>, less: (T, T) -> bool)
    requires StrictWeak(less)
    ensures Sorted(Sort(xs, less), less)
  {
    if xs != [] {
      SortSorts(xs[..|xs| - 1], less);
      InsertSorts(Sort(xs[..|xs| - 1], less), xs[|xs| - 1], less);
    }
  }

  lemma FirstIsLeast<T(!new)>(a: seq<T>, x: T, less: (T, T) -> bool)
    requires StrictWeak(less) && Sorted(a, less) && x in a
    ensures !less(x, a[0])
  {
    var i :| 0 <= i < |a| && a[i] == x;
  }

  lemma TailMultiset<T>(a: seq<T>)
    requires a != []
    ensures multiset(a[1..]) == multiset(a) - multiset{a[0]}
  {
    assert a == [a[0]] + a[1..];
  }

  lemma SameFirst<T(!new)>(a: seq<T>, b: seq<T>, less: (T, T) -> bool)
    requires StrictWeak(less) && Sorted(a, less) && Sorted(b, less) && TiesEqual(a, less) && multiset(a) == multiset(b) && a != []
    ensures b != [] && a[0] == b[0] && multiset(a[1..]) == multiset(b[1..])
  {
    assert a[0] in multiset(b);
    assert a[0] in b && b[0] in multiset(a);
    FirstIsLeast(a, b[0], less);
    FirstIsLeast(b, a[0], less);
    TailMultiset(a);
    TailMultiset(b);
  }

  lemma SortedTail<T(!new)>(a: seq<T>, less: (T, T) -> bool)
    requires Sorted(a, less) && TiesEqual(a, less) && a != []
    ensures Sorted(a[1..], less) && TiesEqual(a[1..], less)
  {
  }

  /** Sorting is deterministic up to ties, whatever the algorithm and the order it starts from. */
  lemma {:induction false} SortedUnique<T(!new)>(a: seq<T>, b: seq<T>, less: (T, T) -> bool)
    requires StrictWeak(less) && Sorted(a, less) && Sorted(b, less) && TiesEqual(a, less) && multiset(a) == multiset(b)
    ensures a == b
  {
    if a == [] {
      assert |multiset(b)| == 0;
    } else {
      SameFirst(a, b, less);
      SameMembers(a, b);
      SortedTail(a, less);
      SortedTail(b, less);
      SortedUnique(a[1..], b[1..], less);
      assert a == [a[0]] + a[1..] && b == [b[0]] + b[1..];
    }
  }

  lemma SameMembers<T(!new)>(a: seq<T>, b: seq<T>)
    requires multiset(a) == multiset(b)
    ensures forall x :: x in a <==> x in b
  {
    assert forall x :: x in a <==> x in multiset(a);
    assert forall x :: x in b <==> x in multiset(b);
  }

  // ---- sets in order ----

  /** An order in which different elements never tie. */
  ghost predicate StrictTotal<T(!new)>(less: (T, T) -> bool) {
    StrictWeak(less) && forall a, b :: a == b || less(a, b) || less(b, a)
  }

  ghost predicate Ascending<T(!new)>(xs: seq<T>, less: (T, T) -> bool) {
    forall i, j :: 0 <= i < j < |xs| ==> less(xs[i], xs[j])
  }

  lemma InsertMembers<T>(xs: seq<T>, x: T, less: (T, T) -> bool, y: T)
    ensures y in Insert(xs, x, less) <==> y in xs || y == x
  {
    assert y in Insert(xs, x, less) <==> y in multiset(Insert(xs, x, less));
    assert y in xs <==> y in multiset(xs);
  }

  lemma {:induction false} InsertAscends<T(!new)>(xs: seq<T>, x: T, less: (T, T) -> bool)
    requires StrictTotal(less) && Ascending(xs, less) && x !in xs
    ensures Ascending(Insert(xs, x, less), less)
  {
    if xs != [] {
      if less(x, xs[0]) {
        forall j | 0 <= j < |xs| ensures less(x, xs[j]) {
          Between(x, xs[j], xs[0], less);
          assert j > 0 ==> less(xs[0], xs[j]);
        }
      } else {
        var tail := Insert(xs[1..], x, less);
        InsertAscends(xs[1..], x, less);
        forall j | 0 <= j < |tail| ensures less(xs[0], tail[j]) {
          InsertMembers(xs[1..], x, less, tail[j]);
        }
      }
    }
  }

  lemma HeadIsLeast<T(!new)>(a: seq<T>, x: T, less: (T, T) -> bool)
    requires Ascending(a, less) && x in a
    ensures x == a[0] || less(a[0], x)
  {
    var i :| 0 <= i < |a| && a[i] == x;
  }

  lemma AscendingHead<T(!new)>(a: seq<T>, b: seq<T>, less: (T, T) -> bool)
    requires StrictWeak(less) && Ascending(a, less) && Ascending(b, less) && a != []
    requires forall x :: x in a <==> x in b
    ensures b != [] && a[0] == b[0]
    ensures forall x :: x in a[1..] <==> x in b[1..]
  {
    assert a[0] in b;
    assert b[0] in a;
    HeadIsLeast(a, b[0], less);
    HeadIsLeast(b, a[0], less);
    NotInTail(a, less);
    NotInTail(b, less);
  }

  lemma NotInTail<T(!new)>(a: seq<T>, less: (T, T) -> bool)
    requires StrictWeak(less) && Ascending(a, less) && a != []
    ensures a[0] !in a[1..] && forall x :: x in a <==> x == a[0] || x in a[1..]
  {
    assert forall k :: 0 < k < |a| ==> less(a[0], a[k]);
    assert a == [a[0]] + a[1..];
  }

  /** A set has one ascending arrangement, so any sorting algorithm gives the same. */
  lemma {:induction false} AscendingUnique<T(!new)>(a: seq<T>, b: seq<T>, less: (T, T) -> bool)
    requires StrictWeak(less) && Ascending(a, less) && Ascending(b, less)
    requires forall x :: x in a <==> x in b
    ensures a == b
  {
    if a == [] {
      assert forall i :: 0 <= i < |b| ==> b[i] in a;
    } else {
      AscendingHead(a, b, less);
      AscendingUnique(a[1..], b[1..], less);
      assert a == [a[0]] + a[1..] && b == [b[0]] + b[1..];
    }
  }

  ghost function Ordered<T(!new)>(s: set<T>, less: (T, T) -> bool): (r: seq<T>)
    requires StrictTotal(less)
    ensures Ascending(r, less) && forall x :: x in r <==> x in s
  {
    if s == {} then []
    else
      var x :| x in s;
      var rest := Ordered(s - {x}, less);
      InsertAscends(rest, x, less);
      assert forall y :: y in Insert(rest, x, less) <==> y in multiset(Insert(rest, x, less));
      assert forall y :: y in rest <==> y in multiset(rest);
      Insert(rest, x, less)
  }

  /** The elements of a set, taken in any order, then sorted. */
  method SortSet<T(!new, ==)>(s: set<T>, less: (T, T) -> bool) returns (sorted: seq<T>)
    requires StrictTotal(less)
    ensures sorted == Ordered(s, less)
  {
    sorted := [];
    var left := s;
    while left != {}
      invariant left <= s && Ascending(sorted, less) && forall x :: x in sorted <==> x in s - left
      decreases |left|
    {
      var x :| x in left;
      InsertAscends(sorted, x, less);
      ghost var before := sorted;
      sorted := Insert(sorted, x, less);
      assert forall y :: y in sorted <==> y in before || y == x by {
        forall y ensures y in sorted <==> y in before || y == x { InsertMembers(before, x, less, y); }
      }
      left := left - {x};
    }
    AscendingUnique(sorted, Ordered(s, less), less);
  }

  // ---- collecting in any order ----

  function FlatMap<T, U>(xs: seq<T>, f: T -> seq<U>): seq<U> {
    if xs == [] then [] else FlatMap(xs[..|xs| - 1], f) + f(xs[|xs| - 1])
  }

  lemma {:induction false} FlatMapConcat<T, U>(xs: seq<T>, ys: seq<T>, f: T -> seq<U>)
    ensures FlatMap(xs + ys, f) == FlatMap(xs, f) + FlatMap(ys, f)
  {
    if ys == [] {
      assert xs + ys == xs;
    } else {
      assert (xs + ys)[..|xs + ys| - 1] == xs + ys[..|ys| - 1];
      FlatMapConcat(xs, ys[..|ys| - 1], f);
    }
  }

  lemma Middle<U>(a: seq<U>, m: seq<U>, b: seq<U>)
    ensures multiset(a + (m + b)) == multiset(a + b) + multiset(m)
  {
  }

  lemma FlatMapWithout<T, U>(a: seq<T>, x: T, b: seq<T>, f: T -> seq<U>)
    ensures multiset(FlatMap(a + ([x] + b), f)) == multiset(FlatMap(a + b, f)) + multiset(f(x))
  {
    FlatMapConcat(a, [x] + b, f);
    FlatMapConcat([x], b, f);
    FlatMapConcat(a, b, f);
    assert [x][..0] == [];
    assert FlatMap([x], f) == f(x);
    Middle(FlatMap(a, f), f(x), FlatMap(b, f));
  }

  lemma PickOut<T>(xs: seq<T>, x: T) returns (a: seq<T>, b: seq<T>)
    requires x in multiset(xs)
    ensures xs == a + ([x] + b) && multiset(a + b) == multiset(xs) - multiset{x}
  {
    assert x in xs;
    var i :| 0 <= i < |xs| && xs[i] == x;
    a, b := xs[..i], xs[i + 1..];
    assert xs == a + ([x] + b);
    Middle(a, [x], b);
  }

  /** A permutation of the inputs permutes what is collected. */
  lemma {:induction false} FlatMapPermuted<T, U>(xs: seq<T>, ys: seq<T>, f: T -> seq<U>)
    requires multiset(xs) == multiset(ys)
    ensures multiset(FlatMap(xs, f)) == multiset(FlatMap(ys, f))
    decreases |xs|
  {
    if xs == [] {
      assert |multiset(ys)| == 0;
    } else {
      var x, rest := xs[0], xs[1..];
      assert xs == [] + ([x] + rest) && [] + rest == rest;
      TailMultiset(xs);
      var a, b := PickOut(ys, x);
      FlatMapPermuted(rest, a + b, f);
      FlatMapWithout([], x, rest, f);
      FlatMapWithout(a, x, b, f);
    }
  }

  lemma {:induction false} FlatMapEmpty<T(!new), U>(xs: seq<T>, f: T -> seq<U>)
    ensures FlatMap(xs, f) == [] <==> forall x :: x in xs ==> f(x) == []
  {
    if xs != [] {
      FlatMapEmpty(xs[..|xs| - 1], f);
      assert forall x :: x in xs <==> x in xs[..|xs| - 1] || x == xs[|xs| - 1];
    }
  }

  lemma {:induction false} FlatMapFrom<T, U>(xs: seq<T>, f: T -> seq<U>, y: U) returns (x: T)
    requires y in FlatMap(xs, f)
    ensures x in xs && y in f(x)
  {
    if y in f(xs[|xs| - 1]) {
      x := xs[|xs| - 1];
    } else {
      x := FlatMapFrom(xs[..|xs| - 1], f, y);
    }
  }
}
