/** The TSA split (internal/revenue/split.go): one amount divided over the active rules of a revenue line,
    in int64 arithmetic, with the rounding remainder on the largest share. */
module Split {
  import opened Wrappers
  import Sorting
  import Text

  datatype Rule = Rule(beneficiary: string, shareBps: int, active: bool, effectiveFrom: int, effectiveTo: Option<int>)

  datatype Allocation = Allocation(beneficiary: string, shareBps: int, amountMinor: int)

  /** What a rule contributes to a split. */
  datatype Leg = Leg(beneficiary: string, shareBps: int)

  // ---- int64 ----

  /** Two's complement wrap-around. */
  function Wrap(n: int): int { (n + 0x8000_0000_0000_0000) % 0x1_0000_0000_0000_0000 - 0x8000_0000_0000_0000 }

  /** Go's division truncates toward zero. */
  function Quotient(n: int, d: int): int
    requires d > 0
  {
    if n < 0 then -((-n) / d) else n / d
  }

  function RoundHalfUp(numerator: int, denominator: int): int {
    if denominator <= 0 || numerator < 0 then 0
    else Quotient(Wrap(Quotient(Wrap(2 * numerator), denominator) + 1), 2)
  }

  lemma WrapIsIdentity(n: int)
    requires -0x8000_0000_0000_0000 <= n < 0x8000_0000_0000_0000
    ensures Wrap(n) == n
  {
  }

  lemma NestedFloors(n: int, d: int)
    requires 0 <= n <= 0x3FFF_FFFF_FFFF_FFFF && d > 0
    ensures RoundHalfUp(n, d) == (2 * n / d + 1) / 2
  {
    WrapIsIdentity(2 * n);
    DivBounds(2 * n, d);
    SmallerQuotient(2 * n, d);
    WrapIsIdentity(2 * n / d + 1);
  }

  /** While doubling does not overflow, the nested divisions give exactly the nearest integer, halves up. */
  lemma RoundsHalfUp(n: int, d: int, q: int)
    requires 0 <= n <= 0x3FFF_FFFF_FFFF_FFFF && d > 0
    ensures RoundHalfUp(n, d) == q <==> d * (2 * q - 1) <= 2 * n < d * (2 * q + 1)
  {
    var h := 2 * n / d;
    NestedFloors(n, d);
    DivBounds(2 * n, d);
    HalfBounds(d, h, (h + 1) / 2);
    OnlyOne(d, 2 * n, (h + 1) / 2, q);
  }

  /** The intervals of different quotients do not meet. */
  lemma OnlyOne(d: int, m: int, r: int, q: int)
    requires d > 0 && d * (2 * r - 1) <= m < d * (2 * r + 1)
    ensures r == q <==> d * (2 * q - 1) <= m < d * (2 * q + 1)
  {
    if q < r {
      Product(d, 2 * q + 1, 2 * r - 1);
    } else if q > r {
      Product(d, 2 * r + 1, 2 * q - 1);
    }
  }

  lemma DivBounds(n: int, d: int)
    requires n >= 0 && d > 0
    ensures d * (n / d) <= n < d * (n / d) + d && n / d >= 0
  {
  }

  lemma SmallerQuotient(n: int, d: int)
    requires n >= 0 && d > 0
    ensures n / d <= n
  {
    DivBounds(n, d);
    if n / d > n {
      Product(d, n + 1, n / d);
      Product(n + 1, 1, d);
    }
  }

  lemma Product(d: int, a: int, b: int)
    requires d >= 0 && a <= b
    ensures d * a <= d * b
  {
  }

  /** The half-up quotient r = (h + 1) / 2 of h brackets what h brackets. */
  lemma HalfBounds(d: int, h: int, r: int)
    requires d > 0 && h >= 0 && r == (h + 1) / 2
    ensures d * (2 * r - 1) <= d * h && d * h + d <= d * (2 * r + 1)
  {
    Product(d, 2 * r - 1, h);
    Product(d, h + 1, 2 * r + 1);
    assert d * (h + 1) == d * h + d;
  }

  // ---- the legs ----

  predicate InForce(r: Rule, asOf: int) {
    r.active && r.effectiveFrom <= asOf && (r.effectiveTo.None? || asOf <= r.effectiveTo.value)
  }

  function LegsAt(asOf: int): Rule -> seq<Leg> {
    r => if InForce(r, asOf) then [Leg(r.beneficiary, r.shareBps)] else []
  }

  function Legs(rules: seq<Rule>, asOf: int): seq<Leg> { Sorting.FlatMap(rules, LegsAt(asOf)) }

  /** Share descending, then beneficiary name. */
  predicate Before(a: Leg, b: Leg) {
    if a.shareBps != b.shareBps then a.shareBps > b.shareBps else Text.Less(a.beneficiary, b.beneficiary)
  }

  lemma BeforeOrder(a: Leg, b: Leg, c: Leg)
    ensures a == b || Before(a, b) || Before(b, a)
    ensures !(Before(a, b) && Before(b, a)) && !Before(a, a)
    ensures Before(a, c) ==> Before(a, b) || Before(b, c)
  {
    Text.LessTotal(a.beneficiary, b.beneficiary);
    Text.LessTotal(b.beneficiary, c.beneficiary);
    if Text.Less(b.beneficiary, a.beneficiary) && Text.Less(a.beneficiary, c.beneficiary) {
      Text.LessTransitive(b.beneficiary, a.beneficiary, c.beneficiary);
    }
  }

  /** Legs tie only when they are equal. */
  lemma LegsAreOrdered(legs: seq<Leg>)
    ensures Sorting.StrictWeak(Before) && Sorting.TiesEqual(legs, Before)
  {
    forall a, b, c
      ensures a == b || Before(a, b) || Before(b, a)
      ensures !(Before(a, b) && Before(b, a))
      ensures Before(a, c) ==> Before(a, b) || Before(b, c)
    {
      BeforeOrder(a, b, c);
    }
  }

  // ---- the split ----

  function TotalBps(legs: seq<Leg>): int {
    if legs == [] then 0 else Wrap(TotalBps(legs[..|legs| - 1]) + legs[|legs| - 1].shareBps)
  }

  function Share(amount: int, l: Leg): Allocation {
    Allocation(l.beneficiary, l.shareBps, RoundHalfUp(Wrap(amount * l.shareBps), 10000))
  }

  function Shares(amount: int, legs: seq<Leg>): (r: seq<Allocation>)
    ensures |r| == |legs| && forall i :: 0 <= i < |r| ==> r[i] == Share(amount, legs[i])
  {
    seq(|legs|, i requires 0 <= i < |legs| => Share(amount, legs[i]))
  }

  function Distributed(allocations: seq<Allocation>): int {
    if allocations == [] then 0
    else Wrap(Distributed(allocations[..|allocations| - 1]) + allocations[|allocations| - 1].amountMinor)
  }

  /** The rounding remainder goes to the first leg, which must not become negative. */
  function Adjusted(shares: seq<Allocation>, delta: int): Option<seq<Allocation>>
    requires shares != []
  {
    if delta == 0 then Some(shares)
    else
      var first := Wrap(shares[0].amountMinor + delta);
      if first < 0 then None else Some(shares[0 := shares[0].(amountMinor := first)])
  }

  /** The split over legs in order; None is ErrSplitIncomplete. */
  function SplitLegs(amount: int, legs: seq<Leg>): Option<seq<Allocation>> {
    if legs == [] || TotalBps(legs) != 10000 then None
    else
      var shares := Shares(amount, legs);
      Adjusted(shares, Wrap(amount - Distributed(shares)))
  }

  function Computed(amount: int, rules: seq<Rule>, asOf: int): Option<seq<Allocation>> {
    SplitLegs(amount, Sorting.Sort(Legs(rules, asOf), Before))
  }

  method ComputeSplit(amountMinor: int, rules: seq<Rule>, asOf: int) returns (r: Option<seq<Allocation>>)
    ensures r == Computed(amountMinor, rules, asOf)
  {
    var selected := Select(rules, asOf);
    var legs := Sorting.SortSlice(selected, Before);
    if legs == [] {
      return None;
    }
    var totalBps := AddShares(legs);
    if totalBps != 10000 {
      return None;
    }
    var allocations, distributed := Distribute(amountMinor, legs);
    r := Adjust(allocations, Wrap(amountMinor - distributed));
  }

  method Adjust(shares: seq<Allocation>, delta: int) returns (r: Option<seq<Allocation>>)
    requires shares != []
    ensures r == Adjusted(shares, delta)
  {
    var allocations := shares;
    if delta != 0 {
      allocations := allocations[0 := allocations[0].(amountMinor := Wrap(allocations[0].amountMinor + delta))];
      if allocations[0].amountMinor < 0 {
        return None;
      }
    }
    return Some(allocations);
  }

  method Select(rules: seq<Rule>, asOf: int) returns (selected: seq<Leg>)
    ensures selected == Legs(rules, asOf)
  {
    selected := [];
    for k := 0 to |rules|
      invariant selected == Legs(rules[..k], asOf)
    {
      assert rules[..k + 1][..k] == rules[..k];
      if InForce(rules[k], asOf) {
        selected := selected + [Leg(rules[k].beneficiary, rules[k].shareBps)];
      }
    }
    assert rules[..|rules|] == rules;
  }

  method AddShares(legs: seq<Leg>) returns (totalBps: int)
    ensures totalBps == TotalBps(legs)
  {
    totalBps := 0;
    for k := 0 to |legs|
      invariant totalBps == TotalBps(legs[..k])
    {
      assert legs[..k + 1][..k] == legs[..k];
      totalBps := Wrap(totalBps + legs[k].shareBps);
    }
    assert legs[..|legs|] == legs;
  }

  method Distribute(amountMinor: int, legs: seq<Leg>) returns (allocations: seq<Allocation>, distributed: int)
    ensures allocations == Shares(amountMinor, legs) && distributed == Distributed(allocations)
  {
    allocations, distributed := [], 0;
    ghost var shares := Shares(amountMinor, legs);
    for k := 0 to |legs|
      invariant allocations == shares[..k] && distributed == Distributed(allocations)
    {
      var share := RoundHalfUp(Wrap(amountMinor * legs[k].shareBps), 10000);
      var next := allocations + [Allocation(legs[k].beneficiary, legs[k].shareBps, share)];
      assert next[..k] == allocations;
      allocations := next;
      distributed := Wrap(distributed + share);
    }
  }

  // ---- independence of row order ----

  /** Any arrangement of the rule rows, and any sort of their legs, stable or not, gives the same split. */
  lemma OrderDoesNotMatter(amount: int, rules: seq<Rule>, permuted: seq<Rule>, asOf: int, sorted: seq<Leg>)
    requires multiset(rules) == multiset(permuted)
    requires Sorting.Sorted(sorted, Before) && multiset(sorted) == multiset(Legs(permuted, asOf))
    ensures SplitLegs(amount, sorted) == Computed(amount, rules, asOf)
  {
    Sorting.FlatMapPermuted(rules, permuted, LegsAt(asOf));
    LegsAreOrdered(sorted);
    Sorting.SortSorts(Legs(rules, asOf), Before);
    Sorting.SortedUnique(sorted, Sorting.Sort(Legs(rules, asOf), Before), Before);
  }
}
