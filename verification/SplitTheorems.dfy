/** What a TSA split guarantees: no int64 step overflows up to 461168601842738 minor units, the legs sum
    to the amount, each is within half a unit of its exact share (the first within half a unit per other
    leg), and up to three legs are never rejected. */
module SplitTheorems {
  import opened Wrappers
  import opened Split

  const MAX_AMOUNT: int := 461168601842738

  function ExactTotal(legs: seq<Leg>): int {
    if legs == [] then 0 else ExactTotal(legs[..|legs| - 1]) + legs[|legs| - 1].shareBps
  }

  function ExactSum(allocations: seq<Allocation>): int {
    if allocations == [] then 0
    else ExactSum(allocations[..|allocations| - 1]) + allocations[|allocations| - 1].amountMinor
  }

  /** The table's bounds on shares. */
  predicate ValidLegs(legs: seq<Leg>) { forall i :: 0 <= i < |legs| ==> 1 <= legs[i].shareBps <= 10000 }

  predicate ValidAmount(amount: int) { 0 <= amount <= MAX_AMOUNT }

  /** Within half a unit of the exact share, in ten-thousandths. */
  predicate Near(amount: int, l: Leg, given: int, halves: int) {
    -5000 * halves <= 10000 * given - amount * l.shareBps <= 5000 * halves
  }

  lemma ProductFits(amount: int, share: int)
    requires ValidAmount(amount) && 0 <= share <= 10000
    ensures 0 <= amount * share <= 0x3FFF_FFFF_FFFF_FFFF
  {
    Product(amount, share, 10000);
    Product(share, 0, amount);
  }

  /** One leg: no step overflows, and the share is the nearest unit. */
  lemma ShareIsNear(amount: int, l: Leg)
    requires ValidAmount(amount) && 1 <= l.shareBps <= 10000
    ensures Share(amount, l).amountMinor == (2 * (amount * l.shareBps) / 10000 + 1) / 2
    ensures Near(amount, l, Share(amount, l).amountMinor, 1) && 0 <= Share(amount, l).amountMinor <= amount
  {
    var p := amount * l.shareBps;
    ProductFits(amount, l.shareBps);
    WrapIsIdentity(p);
    NestedFloors(p, 10000);
    Product(amount, l.shareBps, 10000);
  }

  /** Legs summing to at most 10000: no sum overflows, and the sums stay close to their exact value. */
  lemma {:induction false} SumsAreNear(amount: int, legs: seq<Leg>)
    requires ValidAmount(amount) && ValidLegs(legs) && ExactTotal(legs) <= 10000
    ensures |legs| <= ExactTotal(legs) == TotalBps(legs)
    ensures var d := Distributed(Shares(amount, legs));
            d == ExactSum(Shares(amount, legs)) && 0 <= d <= amount * |legs|
            && -5000 * |legs| <= 10000 * d - amount * ExactTotal(legs) <= 5000 * |legs|
  {
    if legs != [] {
      var init, l := legs[..|legs| - 1], legs[|legs| - 1];
      assert ValidLegs(init);
      SumsAreNear(amount, init);
      assert Shares(amount, legs)[..|legs| - 1] == Shares(amount, init);
      ShareIsNear(amount, l);
      var d, a := Distributed(Shares(amount, init)), Share(amount, l).amountMinor;
      OneMoreLeg(amount, d, a, |init|, ExactTotal(init), l);
      WrapIsIdentity(d + a);
      WrapIsIdentity(TotalBps(init) + l.shareBps);
      assert Distributed(Shares(amount, legs)) == d + a && ExactTotal(legs) == ExactTotal(init) + l.shareBps;
    }
  }

  lemma OneMoreLeg(amount: int, d: int, a: int, n: nat, total: int, l: Leg)
    requires ValidAmount(amount) && n <= total <= 10000 && 0 <= d <= amount * n && 0 <= a <= amount
    requires -5000 * n <= 10000 * d - amount * total <= 5000 * n && Near(amount, l, a, 1)
    ensures 0 <= d + a <= amount * (n + 1) && d + a < 0x8000_0000_0000_0000
    ensures -5000 * (n + 1) <= 10000 * (d + a) - amount * (total + l.shareBps) <= 5000 * (n + 1)
  {
    assert amount * (n + 1) == amount * n + amount;
    assert amount * (total + l.shareBps) == amount * total + amount * l.shareBps;
    Product(amount, n, 10000);
  }

  lemma {:induction false} HeadAndTail(amount: int, legs: seq<Leg>)
    requires legs != []
    ensures ExactTotal(legs) == legs[0].shareBps + ExactTotal(legs[1..])
    ensures ExactSum(Shares(amount, legs)) == Share(amount, legs[0]).amountMinor + ExactSum(Shares(amount, legs[1..]))
    decreases |legs|
  {
    var init := legs[..|legs| - 1];
    assert Shares(amount, legs)[..|legs| - 1] == Shares(amount, init);
    if |legs| == 1 {
      assert init == [] && legs[1..] == [];
    } else {
      HeadAndTail(amount, init);
      assert init[1..] == legs[1..][..|legs| - 2];
      assert Shares(amount, legs[1..])[..|legs| - 2] == Shares(amount, init[1..]);
    }
  }

  lemma {:induction false} ReplaceFirst(allocations: seq<Allocation>, a: Allocation)
    requires allocations != []
    ensures ExactSum(allocations[0 := a]) == ExactSum(allocations) - allocations[0].amountMinor + a.amountMinor
    decreases |allocations|
  {
    var init := allocations[..|allocations| - 1];
    if |allocations| == 1 {
      assert allocations[0 := a][..0] == [] && init == [];
    } else {
      assert allocations[0 := a][..|allocations| - 1] == init[0 := a];
      ReplaceFirst(init, a);
    }
  }

  /** What the first leg receives: everything the rounded other legs leave. */
  function FirstAmount(amount: int, legs: seq<Leg>): int
    requires legs != []
  {
    amount - ExactSum(Shares(amount, legs[1..]))
  }

  lemma {:induction false} TailSums(amount: int, legs: seq<Leg>)
    requires ValidAmount(amount) && ValidLegs(legs) && legs != [] && ExactTotal(legs) == 10000
    ensures var d := ExactSum(Shares(amount, legs[1..]));
            0 <= d <= amount * 10000 && -5000 * (|legs| - 1) <= 10000 * d - amount * (10000 - legs[0].shareBps) <= 5000 * (|legs| - 1)
  {
    HeadAndTail(amount, legs);
    assert ValidLegs(legs[1..]);
    SumsAreNear(amount, legs[1..]);
    Product(amount, |legs[1..]|, 10000);
  }

  /** The split is the rounded shares with the first leg taking what the others leave; it is rejected
      exactly when the rounded other legs exceed the amount. */
  lemma {:induction false} SplitIs(amount: int, legs: seq<Leg>)
    requires ValidAmount(amount) && ValidLegs(legs) && legs != [] && ExactTotal(legs) == 10000
    ensures SplitLegs(amount, legs)
            == (if FirstAmount(amount, legs) < 0 then None
                else Some(Shares(amount, legs)[0 := Share(amount, legs[0]).(amountMinor := FirstAmount(amount, legs))]))
  {
    var shares := Shares(amount, legs);
    SumsAreNear(amount, legs);
    HeadAndTail(amount, legs);
    ShareIsNear(amount, legs[0]);
    var tail := ExactSum(Shares(amount, legs[1..]));
    TailSums(amount, legs);
    Product(amount, 10000, 10000);
    AdjustedIs(shares, amount, Distributed(shares), tail);
  }

  lemma AdjustedIs(shares: seq<Allocation>, amount: int, distributed: int, tail: int)
    requires shares != [] && distributed == shares[0].amountMinor + tail && 0 <= shares[0].amountMinor <= amount
    requires ValidAmount(amount) && 0 <= tail <= amount * 10000
    ensures Adjusted(shares, Wrap(amount - distributed))
            == (if amount - tail < 0 then None else Some(shares[0 := shares[0].(amountMinor := amount - tail)]))
  {
    WrapIsIdentity(amount - distributed);
    WrapIsIdentity(amount - tail);
    if amount == distributed {
      assert shares[0 := shares[0].(amountMinor := amount - tail)] == shares;
    }
  }

  /** Every accepted split sums exactly to the amount, names the legs in order, keeps every leg but the
      first within half a unit of its exact share and the first within half a unit per other leg. */
  lemma {:induction false} SplitIsExact(amount: int, legs: seq<Leg>)
    requires ValidAmount(amount) && ValidLegs(legs) && legs != [] && ExactTotal(legs) == 10000
    requires SplitLegs(amount, legs).Some?
    ensures var r := SplitLegs(amount, legs).value;
            && ExactSum(r) == amount && |r| == |legs|
            && (forall i :: 0 <= i < |r| ==> r[i].beneficiary == legs[i].beneficiary && r[i].shareBps == legs[i].shareBps)
            && (forall i :: 0 <= i < |r| ==> r[i].amountMinor >= 0)
            && (forall i :: 0 < i < |r| ==> Near(amount, legs[i], r[i].amountMinor, 1))
            && Near(amount, legs[0], r[0].amountMinor, |legs| - 1)
  {
    SplitIs(amount, legs);
    HeadAndTail(amount, legs);
    TailSums(amount, legs);
    var shares := Shares(amount, legs);
    ReplaceFirst(shares, Share(amount, legs[0]).(amountMinor := FirstAmount(amount, legs)));
    forall i | 0 < i < |legs| ensures Near(amount, legs[i], shares[i].amountMinor, 1) && shares[i].amountMinor >= 0 {
      ShareIsNear(amount, legs[i]);
    }
    assert amount * (10000 - legs[0].shareBps) == 10000 * amount - amount * legs[0].shareBps;
  }

  /** With at most three legs a non-negative amount is never rejected. */
  lemma ThreeLegsNeverRejected(amount: int, legs: seq<Leg>)
    requires ValidAmount(amount) && ValidLegs(legs) && 1 <= |legs| <= 3 && ExactTotal(legs) == 10000
    ensures SplitLegs(amount, legs).Some?
  {
    SplitIs(amount, legs);
    TailSums(amount, legs);
    var first := FirstAmount(amount, legs);
    assert amount * (10000 - legs[0].shareBps) == 10000 * amount - amount * legs[0].shareBps;
    if amount == 0 {
      ZeroShares(legs[1..]);
    } else {
      Product(amount, 1, legs[0].shareBps);
      assert 10000 * first >= amount * legs[0].shareBps - 10000 > -10000;
    }
  }

  lemma {:induction false} ZeroShares(legs: seq<Leg>)
    requires ValidLegs(legs)
    ensures ExactSum(Shares(0, legs)) == 0
  {
    if legs != [] {
      var init := legs[..|legs| - 1];
      assert ValidLegs(init);
      ZeroShares(init);
      assert Shares(0, legs)[..|legs| - 1] == Shares(0, init);
      ShareIsNear(0, legs[|legs| - 1]);
    }
  }

  /** The bound is tight: two units over four equal legs are rejected. */
  const QUARTERS := [Leg("A", 2500), Leg("B", 2500), Leg("C", 2500), Leg("D", 2500)]

  lemma {:induction false} EqualTails(k: nat)
    requires k <= 4
    ensures ExactSum(Shares(2, QUARTERS[k..])) == 4 - k && ExactTotal(QUARTERS[k..]) == 2500 * (4 - k)
    decreases 4 - k
  {
    if k < 4 {
      EqualTails(k + 1);
      HeadAndTail(2, QUARTERS[k..]);
      assert QUARTERS[k..][1..] == QUARTERS[k + 1..];
      ShareIsNear(2, QUARTERS[k]);
    }
  }

  lemma FourLegsRejected()
    ensures ValidLegs(QUARTERS) && ExactTotal(QUARTERS) == 10000 && SplitLegs(2, QUARTERS) == None
  {
    EqualTails(0);
    EqualTails(1);
    assert QUARTERS[0..] == QUARTERS;
    SplitIs(2, QUARTERS);
  }

  /** A negative amount is always rejected. */
  lemma NegativeRejected(amount: int, legs: seq<Leg>)
    requires -MAX_AMOUNT <= amount < 0 && ValidLegs(legs)
    ensures SplitLegs(amount, legs) == None
  {
    if legs != [] {
      NothingDistributed(amount, legs);
      NoShare(amount, legs[0]);
      WrapIsIdentity(amount);
    }
  }

  lemma NoShare(amount: int, l: Leg)
    requires -MAX_AMOUNT <= amount < 0 && 1 <= l.shareBps <= 10000
    ensures Share(amount, l).amountMinor == 0
  {
    ProductFits(-amount, l.shareBps);
    assert amount * l.shareBps == -((-amount) * l.shareBps);
    Product(l.shareBps, amount, -1);
    WrapIsIdentity(amount * l.shareBps);
  }

  lemma {:induction false} NothingDistributed(amount: int, legs: seq<Leg>)
    requires -MAX_AMOUNT <= amount < 0 && ValidLegs(legs)
    ensures Distributed(Shares(amount, legs)) == 0
  {
    if legs != [] {
      var init := legs[..|legs| - 1];
      assert ValidLegs(init);
      NothingDistributed(amount, init);
      assert Shares(amount, legs)[..|legs| - 1] == Shares(amount, init);
      NoShare(amount, legs[|legs| - 1]);
    }
  }
}
