/** A split in terms of the rule rows: which of them share, in what order, and when there is no split. */
module SplitRules {
  import opened Wrappers
  import opened Split
  import opened SplitTheorems
  import Sorting
  import Text

  /** An active rule whose window holds the date, both ends included. */
  predicate Holds(r: Rule, asOf: int) {
    r.active && r.effectiveFrom <= asOf && (r.effectiveTo.Some? ==> r.effectiveTo.value >= asOf)
  }

  function BpsHeld(rules: seq<Rule>, asOf: int): int {
    if rules == [] then 0
    else BpsHeld(rules[..|rules| - 1], asOf) + (if Holds(rules[|rules| - 1], asOf) then rules[|rules| - 1].shareBps else 0)
  }

  function CountHeld(rules: seq<Rule>, asOf: int): nat {
    if rules == [] then 0
    else CountHeld(rules[..|rules| - 1], asOf) + (if Holds(rules[|rules| - 1], asOf) then 1 else 0)
  }

  lemma {:induction false} LegsOfRules(rules: seq<Rule>, asOf: int)
    ensures |Legs(rules, asOf)| == CountHeld(rules, asOf) && ExactTotal(Legs(rules, asOf)) == BpsHeld(rules, asOf)
    ensures forall l :: l in Legs(rules, asOf) <==> HeldBy(rules, asOf, l.beneficiary, l.shareBps)
  {
    if rules != [] {
      var init, last := rules[..|rules| - 1], rules[|rules| - 1];
      LegsOfRules(init, asOf);
      assert forall r :: r in rules <==> r in init || r == last;
      if Holds(last, asOf) {
        assert Legs(rules, asOf) == Legs(init, asOf) + [Leg(last.beneficiary, last.shareBps)];
        assert Legs(rules, asOf)[..|Legs(init, asOf)|] == Legs(init, asOf);
      } else {
        assert Legs(rules, asOf) == Legs(init, asOf);
      }
    }
  }

  // ---- sorting keeps the total ----

  lemma {:induction false} TotalFromFront(legs: seq<Leg>)
    requires legs != []
    ensures ExactTotal(legs) == legs[0].shareBps + ExactTotal(legs[1..])
  {
    if |legs| > 1 {
      var init := legs[..|legs| - 1];
      TotalFromFront(init);
      assert init[1..] == legs[1..][..|legs| - 2];
    }
  }

  lemma {:induction false} InsertAddsTotal(legs: seq<Leg>, l: Leg)
    ensures ExactTotal(Sorting.Insert(legs, l, Before)) == ExactTotal(legs) + l.shareBps
  {
    var r := Sorting.Insert(legs, l, Before);
    if legs == [] {
    } else if Before(l, legs[0]) {
      TotalFromFront(r);
      assert r[1..] == legs;
    } else {
      InsertAddsTotal(legs[1..], l);
      TotalFromFront(r);
      TotalFromFront(legs);
      assert r[1..] == Sorting.Insert(legs[1..], l, Before);
    }
  }

  lemma {:induction false} SortKeepsTotal(legs: seq<Leg>)
    ensures ExactTotal(Sorting.Sort(legs, Before)) == ExactTotal(legs)
  {
    if legs != [] {
      SortKeepsTotal(legs[..|legs| - 1]);
      InsertAddsTotal(Sorting.Sort(legs[..|legs| - 1], Before), legs[|legs| - 1]);
    }
  }

  lemma {:induction false} TotalWraps(legs: seq<Leg>)
    ensures TotalBps(legs) == Wrap(ExactTotal(legs))
  {
    if legs != [] {
      TotalWraps(legs[..|legs| - 1]);
      WrapTwice(ExactTotal(legs[..|legs| - 1]), legs[|legs| - 1].shareBps);
    }
  }

  lemma WrapTwice(a: int, b: int)
    ensures Wrap(Wrap(a) + b) == Wrap(a + b)
  {
    var m := 0x1_0000_0000_0000_0000;
    var q := (a + 0x8000_0000_0000_0000) / m;
    assert Wrap(a) == a - m * q;
    Multiples(a + b + 0x8000_0000_0000_0000, q);
  }

  lemma Multiples(x: int, q: int)
    ensures (x - 0x1_0000_0000_0000_0000 * q) % 0x1_0000_0000_0000_0000 == x % 0x1_0000_0000_0000_0000
  {
  }

  // ---- the split of a table of rules ----

  /** Share descending, equal shares by name. */
  ghost predicate LargestFirst(r: seq<Allocation>) {
    forall i, j :: 0 <= i < j < |r| ==>
      r[i].shareBps > r[j].shareBps
      || (r[i].shareBps == r[j].shareBps && !Text.Precedes(r[j].beneficiary, r[i].beneficiary))
  }

  ghost predicate ValidRules(rules: seq<Rule>) { forall r :: r in rules ==> 1 <= r.shareBps <= 10000 }

  predicate HeldBy(rules: seq<Rule>, asOf: int, beneficiary: string, shareBps: int) {
    exists r :: r in rules && Holds(r, asOf) && r.beneficiary == beneficiary && r.shareBps == shareBps
  }

  predicate GivenTo(r: seq<Allocation>, beneficiary: string, shareBps: int) {
    exists i :: 0 <= i < |r| && r[i].beneficiary == beneficiary && r[i].shareBps == shareBps
  }

  lemma SortedLegs(rules: seq<Rule>, asOf: int)
    requires ValidRules(rules)
    ensures var legs := Sorting.Sort(Legs(rules, asOf), Before);
            && ValidLegs(legs) && ExactTotal(legs) == BpsHeld(rules, asOf) && |legs| == CountHeld(rules, asOf)
            && (forall l :: l in legs <==> HeldBy(rules, asOf, l.beneficiary, l.shareBps))
            && forall i, j :: 0 <= i < j < |legs| ==> !Before(legs[j], legs[i])
  {
    var unsorted := Legs(rules, asOf);
    var legs := Sorting.Sort(unsorted, Before);
    LegsOfRules(rules, asOf);
    SortKeepsTotal(unsorted);
    LegsAreOrdered(unsorted);
    Sorting.SortSorts(unsorted, Before);
    Sorting.SameMembers(legs, unsorted);
    assert |multiset(legs)| == |multiset(unsorted)|;
    forall i | 0 <= i < |legs| ensures 1 <= legs[i].shareBps <= 10000 {
      assert legs[i] in legs;
    }
  }

  /** The allocations go to the rules in force, one each, the largest share first, equal shares by name. */
  ghost predicate Follows(r: seq<Allocation>, rules: seq<Rule>, asOf: int) {
    && |r| == CountHeld(rules, asOf) && LargestFirst(r)
    && forall b, s :: GivenTo(r, b, s) <==> HeldBy(rules, asOf, b, s)
  }

  /** A split follows the rules in force and adds up to the amount, and the leg with the residual is one that no
      other exceeds. There is none when the rules in force do not share out exactly ten thousand basis points. */
  lemma SplitOfRules(amount: int, rules: seq<Rule>, asOf: int)
    requires ValidAmount(amount) && ValidRules(rules) && |rules| < 0x1_0000_0000
    ensures BpsHeld(rules, asOf) != 10000 ==> Computed(amount, rules, asOf) == None
    ensures Computed(amount, rules, asOf).Some? ==>
              var r := Computed(amount, rules, asOf).value;
              r != [] && ExactSum(r) == amount && Follows(r, rules, asOf) && forall i :: 0 <= i < |r| ==> r[0].shareBps >= r[i].shareBps
  {
    var legs := Sorting.Sort(Legs(rules, asOf), Before);
    SortedLegs(rules, asOf);
    TotalWraps(legs);
    HeldIsBounded(rules, asOf);
    FitsUnwrapped(BpsHeld(rules, asOf));
    if SplitLegs(amount, legs).Some? {
      SplitIsExact(amount, legs);
      LegsToAllocations(legs, SplitLegs(amount, legs).value, rules, asOf);
    }
  }

  lemma FitsUnwrapped(n: int)
    requires 0 <= n <= 10000 * 0x1_0000_0000
    ensures Wrap(n) == n
  {
  }

  lemma {:induction false} HeldIsBounded(rules: seq<Rule>, asOf: int)
    requires ValidRules(rules)
    ensures 0 <= BpsHeld(rules, asOf) <= 10000 * |rules|
  {
    if rules != [] {
      var init := rules[..|rules| - 1];
      assert forall r :: r in init ==> r in rules;
      HeldIsBounded(init, asOf);
      assert rules[|rules| - 1] in rules;
    }
  }

  lemma LegsToAllocations(legs: seq<Leg>, r: seq<Allocation>, rules: seq<Rule>, asOf: int)
    requires |r| == |legs| == CountHeld(rules, asOf)
    requires forall i :: 0 <= i < |r| ==> r[i].beneficiary == legs[i].beneficiary && r[i].shareBps == legs[i].shareBps
    requires forall i, j :: 0 <= i < j < |legs| ==> !Before(legs[j], legs[i])
    requires forall l :: l in legs <==> HeldBy(rules, asOf, l.beneficiary, l.shareBps)
    ensures Follows(r, rules, asOf) && forall i :: 0 <= i < |r| ==> r[0].shareBps >= r[i].shareBps
  {
    forall i, j | 0 <= i < j < |r|
      ensures r[i].shareBps > r[j].shareBps
              || (r[i].shareBps == r[j].shareBps && !Text.Precedes(r[j].beneficiary, r[i].beneficiary))
    {
      assert !Before(legs[j], legs[i]);
      Text.LessIsFirstDifference(r[j].beneficiary, r[i].beneficiary);
    }
    forall b, s ensures GivenTo(r, b, s) <==> HeldBy(rules, asOf, b, s) {
      assert Leg(b, s) in legs <==> HeldBy(rules, asOf, b, s);
      if GivenTo(r, b, s) {
        var i :| 0 <= i < |r| && r[i].beneficiary == b && r[i].shareBps == s;
        assert legs[i] == Leg(b, s);
      }
      if Leg(b, s) in legs {
        var i :| 0 <= i < |legs| && legs[i] == Leg(b, s);
        assert r[i].beneficiary == b && r[i].shareBps == s;
      }
    }
  }
}
