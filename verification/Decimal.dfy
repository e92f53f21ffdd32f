/** Decimal digits of natural numbers. */
module Decimal {
  type Digit = d: int | 0 <= d < 10

  function Digits(n: nat): (ds: seq<Digit>)
    ensures |ds| > 0
  {
    if n < 10 then [n] else Digits(n / 10) + [n % 10]
  }

  function Value(ds: seq<Digit>): nat {
    if ds == [] then 0 else 10 * Value(ds[..|ds| - 1]) + ds[|ds| - 1]
  }

  lemma {:induction false} ValueOfDigits(n: nat)
    ensures Value(Digits(n)) == n
    ensures n > 0 ==> Digits(n)[0] != 0
  {
    if n >= 10 {
      ValueOfDigits(n / 10);
      assert Digits(n)[..|Digits(n)| - 1] == Digits(n / 10);
    }
  }

  /** Digits without a leading zero are the rendering of their value. */
  lemma {:induction false} DigitsOfValue(ds: seq<Digit>)
    requires |ds| > 0 && (ds[0] != 0 || |ds| == 1)
    ensures Digits(Value(ds)) == ds
    ensures ds[0] != 0 ==> Value(ds) > 0
    decreases |ds|
  {
    var init := ds[..|ds| - 1];
    if |ds| == 1 {
      assert init == [];
      assert Value(ds) == ds[0];
    } else {
      DigitsOfValue(init);
      assert Value(ds) == 10 * Value(init) + ds[|ds| - 1];
      assert Value(ds) / 10 == Value(init) && Value(ds) % 10 == ds[|ds| - 1];
    }
  }
}
