/** Reference-rate conversion between USD and NGN minor units (internal/fx/fx.go): exact half-up
    rounding, dual control, round trips and monotonicity. */
module Fx {
  import opened Wrappers

  const MICRO_SCALE: int := 1_000_000
  const MAX_RATE: int := 100_000_000 * MICRO_SCALE

  type Uint64 = n: int | 0 <= n < 0x1_0000_0000_0000_0000

  datatype Error = RateInvalid | DualControl | RateConflict | AmountOverflow | Unconfirmed | ZeroAmount | MissingField

  datatype Rate = Rate(id: string, ngnPerUsdMicro: Uint64, maker: string, checker: Option<string>, confirmed: bool)

  function NewRate(id: string, ngnPerUsdMicro: Uint64, maker: string): Result<Rate, Error> {
    if ngnPerUsdMicro == 0 || ngnPerUsdMicro > MAX_RATE then Err(RateInvalid)
    else if maker == "" || id == "" then Err(MissingField)
    else Ok(Rate(id, ngnPerUsdMicro, maker, None, false))
  }

  function Confirm(rate: Rate, checker: string): Result<Rate, Error> {
    if rate.confirmed then Err(RateConflict)
    else if checker == "" || checker == rate.maker then Err(DualControl)
    else Ok(rate.(checker := Some(checker), confirmed := true))
  }

  function Usable(rate: Rate): Option<Error> {
    if !rate.confirmed then Some(Unconfirmed)
    else if rate.ngnPerUsdMicro == 0 then Some(RateInvalid)
    else None
  }

  function Bounded(q: int): Result<Uint64, Error> {
    if q <= 0 || q >= 0x1_0000_0000_0000_0000 then Err(AmountOverflow) else Ok(q)
  }

  function ConvertUSDToNGN(rate: Rate, usd: Uint64): Result<Uint64, Error> {
    if Usable(rate).Some? then Err(Usable(rate).value)
    else if usd == 0 then Err(ZeroAmount)
    else Bounded((usd * rate.ngnPerUsdMicro + MICRO_SCALE / 2) / MICRO_SCALE)
  }

  function ConvertNGNToUSD(rate: Rate, ngn: Uint64): Result<Uint64, Error> {
    if Usable(rate).Some? then Err(Usable(rate).value)
    else if ngn == 0 then Err(ZeroAmount)
    else Bounded((ngn * (2 * MICRO_SCALE) + rate.ngnPerUsdMicro) / (2 * rate.ngnPerUsdMicro))
  }

  // ---- dual control ----

  /** A rate is entered between one millionth of a naira and a hundred million naira per dollar. No conversion
      ever happens at a rate one person entered alone: a rate that converts was confirmed, by somebody other than
      its maker, exactly once. */
  lemma ConvertsOnlyUnderDualControl(id: string, micro: Uint64, maker: string, checker: string, amount: Uint64)
    ensures NewRate(id, micro, maker).Ok? <==> 0 < micro <= 100_000_000_000_000 && maker != "" && id != ""
    ensures NewRate(id, micro, maker).Ok? ==>
            var entered := NewRate(id, micro, maker).value;
            && entered.maker == maker && entered.ngnPerUsdMicro == micro
            && ConvertUSDToNGN(entered, amount) == Err(Unconfirmed) && ConvertNGNToUSD(entered, amount) == Err(Unconfirmed)
            && (Confirm(entered, checker).Ok? <==> checker != "" && checker != maker)
            && (Confirm(entered, checker).Ok? ==>
                  var confirmed := Confirm(entered, checker).value;
                  Usable(confirmed).None? && confirmed.checker == Some(checker) && confirmed.ngnPerUsdMicro == micro
                  && forall other :: Confirm(confirmed, other) == Err(RateConflict))
  {
  }

  // ---- rounding ----

  lemma Floor(n: int, d: int, q: int)
    requires d > 0
    ensures q == n / d <==> d * q <= n < d * q + d
  {
    var r := n / d;
    assert d * r <= n < d * r + d;
    if q < r {
      Times(d, q + 1, r);
    } else if q > r {
      Times(d, r + 1, q);
    }
  }

  lemma Times(d: int, a: int, b: int)
    requires d >= 0 && a <= b
    ensures d * a <= d * b
  {
  }

  /** A conversion gives an amount exactly when the rate is confirmed and not zero and the amount, neither
      operand zero, is the exact product rounded to the nearest unit, halves up. */
  lemma UsdToNgnIsNearest(rate: Rate, usd: Uint64, ngn: Uint64)
    ensures ConvertUSDToNGN(rate, usd) == Ok(ngn) <==>
            && rate.confirmed && rate.ngnPerUsdMicro > 0 && usd > 0 && ngn > 0
            && 2 * usd * rate.ngnPerUsdMicro - MICRO_SCALE < 2 * MICRO_SCALE * ngn <= 2 * usd * rate.ngnPerUsdMicro + MICRO_SCALE
  {
    SamePair(usd, rate.ngnPerUsdMicro);
    NearestMicro(usd * rate.ngnPerUsdMicro, ngn);
  }

  lemma NearestMicro(p: int, ngn: int)
    ensures ngn == (p + MICRO_SCALE / 2) / MICRO_SCALE <==> 2 * p - MICRO_SCALE < 2 * MICRO_SCALE * ngn <= 2 * p + MICRO_SCALE
  {
    Floor(p + MICRO_SCALE / 2, MICRO_SCALE, ngn);
  }

  /** The same for the exact quotient. */
  lemma NgnToUsdIsNearest(rate: Rate, ngn: Uint64, usd: Uint64)
    ensures ConvertNGNToUSD(rate, ngn) == Ok(usd) <==>
            && rate.confirmed && rate.ngnPerUsdMicro > 0 && ngn > 0 && usd > 0
            && 2 * MICRO_SCALE * ngn - rate.ngnPerUsdMicro < 2 * (rate.ngnPerUsdMicro * usd) <= 2 * MICRO_SCALE * ngn + rate.ngnPerUsdMicro
  {
    var r := rate.ngnPerUsdMicro;
    if r > 0 {
      Floor(ngn * (2 * MICRO_SCALE) + r, 2 * r, usd);
      assert 2 * r * usd == 2 * (r * usd);
    }
  }

  // ---- round trips ----

  /** USD to NGN to USD is the identity at every rate of at least one naira per dollar. */
  lemma UsdRoundTrip(rate: Rate, usd: Uint64)
    requires rate.ngnPerUsdMicro >= MICRO_SCALE && ConvertUSDToNGN(rate, usd).Ok?
    ensures ConvertNGNToUSD(rate, ConvertUSDToNGN(rate, usd).value) == Ok(usd)
  {
    var r, ngn := rate.ngnPerUsdMicro, ConvertUSDToNGN(rate, usd).value;
    UsdToNgnIsNearest(rate, usd, ngn);
    SamePair(usd, r);
    BackInRange(r * usd, r, ngn, usd);
    Floor(ngn * (2 * MICRO_SCALE) + r, 2 * r, usd);
  }

  lemma SamePair(usd: int, r: int)
    ensures 2 * usd * r == 2 * (r * usd) && 2 * r * usd == 2 * (r * usd) && usd * r == r * usd
  {
  }

  /** The naira amount lies close enough to the exact one to convert back. */
  lemma BackInRange(p: int, r: int, ngn: int, usd: int)
    requires r >= MICRO_SCALE && p == r * usd
    requires 2 * p - MICRO_SCALE < 2 * MICRO_SCALE * ngn <= 2 * p + MICRO_SCALE
    ensures 2 * p <= ngn * (2 * MICRO_SCALE) + r < 2 * p + 2 * r
  {
    if r == MICRO_SCALE {
      assert p == MICRO_SCALE * usd;
      assert ngn == usd;
    }
  }

  /** Below one naira per dollar two neighbouring amounts, neither above 1_000_000, convert to the same naira. */
  function Neighbour(micro: int): int
    requires 0 < micro < MICRO_SCALE
  {
    if 2 * micro <= MICRO_SCALE then (MICRO_SCALE / 2 + micro - 1) / micro else MICRO_SCALE / 2 / (MICRO_SCALE - micro)
  }

  lemma SlowNeighbours(micro: int, u: int)
    requires 0 < 2 * micro <= MICRO_SCALE && u == (MICRO_SCALE / 2 + micro - 1) / micro
    ensures 0 < u < MICRO_SCALE
    ensures (u * micro + MICRO_SCALE / 2) / MICRO_SCALE == 1 && ((u + 1) * micro + MICRO_SCALE / 2) / MICRO_SCALE == 1
  {
    Floor(MICRO_SCALE / 2 + micro - 1, micro, u);
    assert MICRO_SCALE / 2 <= micro * u < MICRO_SCALE / 2 + micro;
    Distributes(u, micro);
    Times(u, 1, micro);
    Floor(u * micro + MICRO_SCALE / 2, MICRO_SCALE, 1);
    Floor((u + 1) * micro + MICRO_SCALE / 2, MICRO_SCALE, 1);
  }

  lemma FastNeighbours(micro: int, gap: int, u: int)
    requires MICRO_SCALE < 2 * micro && 0 < gap == MICRO_SCALE - micro && u == MICRO_SCALE / 2 / gap
    ensures 0 < u < MICRO_SCALE
    ensures (u * micro + MICRO_SCALE / 2) / MICRO_SCALE == u && ((u + 1) * micro + MICRO_SCALE / 2) / MICRO_SCALE == u
  {
    Floor(MICRO_SCALE / 2, gap, u);
    Floor(MICRO_SCALE / 2, gap, 0);
    assert gap * u <= MICRO_SCALE / 2 < gap * u + gap;
    Gap(u, micro, gap);
    Gap(u + 1, micro, gap);
    Distributes(u, gap);
    if u >= MICRO_SCALE {
      Times(u, 1, gap);
    }
    Floor(u * micro + MICRO_SCALE / 2, MICRO_SCALE, u);
    Floor((u + 1) * micro + MICRO_SCALE / 2, MICRO_SCALE, u);
  }

  lemma Distributes(u: int, micro: int)
    ensures (u + 1) * micro == u * micro + micro && micro * u == u * micro
  {
  }

  lemma Gap(u: int, micro: int, gap: int)
    requires gap == MICRO_SCALE - micro
    ensures u * micro == MICRO_SCALE * u - u * gap
  {
  }

  lemma NeighboursAgree(rate: Rate)
    requires Usable(rate).None? && rate.ngnPerUsdMicro < MICRO_SCALE
    ensures var u := Neighbour(rate.ngnPerUsdMicro);
            && 0 < u < MICRO_SCALE
            && ConvertUSDToNGN(rate, u).Ok? && ConvertUSDToNGN(rate, u + 1) == ConvertUSDToNGN(rate, u)
  {
    var micro: int := rate.ngnPerUsdMicro;
    if 2 * micro <= MICRO_SCALE {
      SlowNeighbours(micro, Neighbour(micro));
    } else {
      FastNeighbours(micro, MICRO_SCALE - micro, Neighbour(micro));
    }
  }

  ghost predicate ReturnsAll(rate: Rate) {
    forall usd: Uint64 :: ConvertUSDToNGN(rate, usd).Ok? ==>
                            ConvertNGNToUSD(rate, ConvertUSDToNGN(rate, usd).value) == Ok(usd)
  }

  /** USD to NGN to USD gives back every convertible amount if and only if the rate is at least one naira
      per dollar. */
  lemma UsdRoundTripExactly(rate: Rate)
    requires Usable(rate).None?
    ensures ReturnsAll(rate) <==> rate.ngnPerUsdMicro >= MICRO_SCALE
  {
    if rate.ngnPerUsdMicro >= MICRO_SCALE {
      forall usd: Uint64 | ConvertUSDToNGN(rate, usd).Ok?
        ensures ConvertNGNToUSD(rate, ConvertUSDToNGN(rate, usd).value) == Ok(usd)
      {
        UsdRoundTrip(rate, usd);
      }
    } else {
      NeighboursAgree(rate);
      var u: Uint64, v: Uint64 := Neighbour(rate.ngnPerUsdMicro), Neighbour(rate.ngnPerUsdMicro) + 1;
      assert ConvertUSDToNGN(rate, u) == ConvertUSDToNGN(rate, v) && u != v;
    }
  }

  /** NGN to USD to NGN is off by at most half the rate plus half a kobo. */
  lemma NgnRoundTrip(rate: Rate, ngn: Uint64, usd: Uint64, back: Uint64)
    requires ConvertNGNToUSD(rate, ngn) == Ok(usd) && ConvertUSDToNGN(rate, usd) == Ok(back)
    ensures -(rate.ngnPerUsdMicro + MICRO_SCALE) <= 2 * MICRO_SCALE * (back - ngn) <= rate.ngnPerUsdMicro + MICRO_SCALE
  {
    NgnToUsdIsNearest(rate, ngn, usd);
    UsdToNgnIsNearest(rate, usd, back);
    assert 2 * usd * rate.ngnPerUsdMicro == 2 * (rate.ngnPerUsdMicro * usd);
  }

  // ---- monotone ----

  lemma FloorMonotone(m: int, n: int, d: int)
    requires d > 0 && m <= n
    ensures m / d <= n / d
  {
    Floor(m, d, m / d);
    Floor(n, d, n / d);
    if m / d > n / d {
      Times(d, n / d + 1, m / d);
    }
  }

  /** More dollars never convert to fewer naira, and the other way round; nothing in between overflows. */
  lemma Monotone(rate: Rate, a: Uint64, b: Uint64)
    requires 0 < a <= b
    ensures ConvertUSDToNGN(rate, a).Ok? && ConvertUSDToNGN(rate, b).Ok? ==>
              ConvertUSDToNGN(rate, a).value <= ConvertUSDToNGN(rate, b).value
    ensures ConvertNGNToUSD(rate, a).Ok? && ConvertNGNToUSD(rate, b).Ok? ==>
              ConvertNGNToUSD(rate, a).value <= ConvertNGNToUSD(rate, b).value
  {
    var r: int := rate.ngnPerUsdMicro;
    Times(r, a, b);
    FloorMonotone(a * r + MICRO_SCALE / 2, b * r + MICRO_SCALE / 2, MICRO_SCALE);
    if r > 0 {
      FloorMonotone(a * (2 * MICRO_SCALE) + r, b * (2 * MICRO_SCALE) + r, 2 * r);
    }
  }
}
