/** Price-impact quoting of `pricing.rs`: the bid or ask the trader trades
    at, a bps impact that is a clamped power of the pool's OI imbalance, and
    the clamp of the execution price to ±10% of the mid price. */
module Pricing {
  import opened Arith
  import opened Types
  import Utils
  import Oracle

  datatype QuoteResult = QuoteResult(executionPrice: u128, priceImpact: i128, priceImpactUsd: int)

  /** The largest impact, in bps, in either direction. */
  const MAX_IMPACT_BPS: int := 500

  // ---------------------------------------------------------------- impact

  /** The imbalance `long_oi − short_oi` after both `as i128` casts. */
  function Imbalance(pool: Pool): int
  {
    ToI128(pool.longOiUsd) - ToI128(pool.shortOiUsd)
  }

  /** The imbalance in bps of the pool's depth (it exceeds 10_000 when the
      imbalance exceeds the depth). */
  function RatioBps(pool: Pool): u128
  {
    var depth := SatAdd(pool.longLiquidityUsd, pool.shortLiquidityUsd);
    if depth == 0 then 0
    else
      DivLeSelf(SatMul(Abs(Imbalance(pool)), BPS), depth);
      SatMul(Abs(Imbalance(pool)), BPS) / depth
  }

  /** `pi_exponent` clamped to 1..=8. */
  function ImpactExponent(cfg: MarketConfig): (e: nat)
    ensures 1 <= e <= 8
  {
    Max(1, Min(cfg.piExponent, 8))
  }

  /** `ratio` after `k` rounds of `base * ratio / 10_000`: the ratio raised to
      the power `k + 1`, in bps. */
  function ImpactPow(ratio: u128, k: nat): u128
  {
    if k == 0 then ratio else SatMul(ImpactPow(ratio, k - 1), ratio) / BPS
  }

  /** A ratio of at most 100% never grows by being raised to a power. */
  lemma {:induction false} ImpactPowLe(ratio: u128, k: nat)
    requires ratio <= 10_000
    ensures ImpactPow(ratio, k) <= ratio
  {
    if k > 0 {
      var x := ImpactPow(ratio, k - 1);
      ImpactPowLe(ratio, k - 1);
      MulLe(ratio, BPS, x);
      DivLe(SatMul(x, ratio), x * BPS, BPS);
    }
  }

  /** No imbalance, no impact at any power. */
  lemma {:induction false} ImpactPowZero(k: nat)
    ensures ImpactPow(0, k) == 0
  {
    if k > 0 {
      ImpactPowZero(k - 1);
    }
  }

  /** The factor `calculate_price_impact` applies: an increase on the heavy
      side, and a decrease on the light side, use the positive factor. */
  function ImpactFactor(pool: Pool, cfg: MarketConfig, side: OrderSide, isIncrease: bool): u128
  {
    var imbalance := Imbalance(pool);
    var isLong := side == Long;
    if isIncrease then
      if (isLong && imbalance > 0) || (!isLong && imbalance < 0) then cfg.piFactorPositive else cfg.piFactorNegative
    else
      if (isLong && imbalance > 0) || (!isLong && imbalance <= 0) then cfg.piFactorNegative else cfg.piFactorPositive
  }

  /** The signed impact before the ±500 clamp: positive when the trade moves
      the imbalance further (the trader pays), negative when it reduces it. */
  function SignedImpact(pool: Pool, cfg: MarketConfig, side: OrderSide, isIncrease: bool): int
  {
    var imbalance := Imbalance(pool);
    var isLong := side == Long;
    var raw := SatMul(ImpactPow(RatioBps(pool), ImpactExponent(cfg) - 1), ImpactFactor(pool, cfg, side, isIncrease)) / BPS;
    var impactBps := ToI128(raw);
    if isIncrease then
      if (isLong && imbalance >= 0) || (!isLong && imbalance < 0) then impactBps else -impactBps
    else
      if (isLong && imbalance > 0) || (!isLong && imbalance <= 0) then -impactBps else impactBps
  }

  /** `calculate_price_impact`, as a value: the signed impact clamped to
      [−500, 500] bps. The order size does not enter. */
  function PriceImpact(pool: Pool, cfg: MarketConfig, side: OrderSide, sizeUsd: u128, isIncrease: bool): (r: i128)
    ensures -MAX_IMPACT_BPS <= r <= MAX_IMPACT_BPS
  {
    if SatAdd(pool.longLiquidityUsd, pool.shortLiquidityUsd) == 0 then 0
    else Min(Max(SignedImpact(pool, cfg, side, isIncrease), -MAX_IMPACT_BPS), MAX_IMPACT_BPS)
  }

  /** `calculate_price_impact`: the power is computed by the source's loop. */
  method CalculatePriceImpact(pool: Pool, cfg: MarketConfig, side: OrderSide, sizeUsd: u128, isIncrease: bool)
    returns (r: i128)
    ensures r == PriceImpact(pool, cfg, side, sizeUsd, isIncrease)
  {
    var depth := SatAdd(pool.longLiquidityUsd, pool.shortLiquidityUsd);
    if depth == 0 {
      return 0;
    }
    var ratioBps := RatioBps(pool);
    var exp := ImpactExponent(cfg);
    var impactBase := ratioBps;
    var i := 1;
    while i < exp
      invariant 1 <= i <= exp
      invariant impactBase == ImpactPow(ratioBps, i - 1)
      invariant ratioBps <= 10_000 ==> impactBase <= ratioBps
    {
      impactBase := SatMul(impactBase, ratioBps) / BPS;
      i := i + 1;
      if ratioBps <= 10_000 {
        ImpactPowLe(ratioBps, i - 1);
      }
    }
    var rawImpactBps := SatMul(impactBase, ImpactFactor(pool, cfg, side, isIncrease)) / BPS;
    var impactBps := ToI128(rawImpactBps);
    var imbalance := Imbalance(pool);
    var isLong := side == Long;
    var signed;
    if isIncrease {
      signed := if (isLong && imbalance >= 0) || (!isLong && imbalance < 0) then impactBps else -impactBps;
    } else {
      signed := if (isLong && imbalance > 0) || (!isLong && imbalance <= 0) then -impactBps else impactBps;
    }
    r := Min(Max(signed, -MAX_IMPACT_BPS), MAX_IMPACT_BPS);
  }

  /** The impact is 0 for a pool without depth and for a balanced pool. */
  lemma PriceImpactZero(pool: Pool, cfg: MarketConfig, side: OrderSide, sizeUsd: u128, isIncrease: bool)
    requires SatAdd(pool.longLiquidityUsd, pool.shortLiquidityUsd) == 0 || pool.longOiUsd == pool.shortOiUsd
    ensures PriceImpact(pool, cfg, side, sizeUsd, isIncrease) == 0
  {
    if pool.longOiUsd == pool.shortOiUsd {
      assert RatioBps(pool) == 0;
      ImpactPowZero(ImpactExponent(cfg) - 1);
    }
  }

  /** The order size is never read. */
  lemma PriceImpactIgnoresSize(pool: Pool, cfg: MarketConfig, side: OrderSide, s1: u128, s2: u128, isIncrease: bool)
    ensures PriceImpact(pool, cfg, side, s1, isIncrease) == PriceImpact(pool, cfg, side, s2, isIncrease)
  {
  }

  /** The raw impact is a u128 divided by 10_000, so its `as i128` cast
      never wraps. */
  lemma RawImpactFits(base: u128, factor: u128)
    ensures SatMul(base, factor) / BPS <= I128_MAX
  {
    DivLe(SatMul(base, factor), U128_MAX, BPS);
  }

  /** For an increase (with OI that fits an i128), the impact is not negative
      when the trader joins the heavier side and not positive when the
      trader joins the lighter side. */
  lemma PriceImpactSignIncrease(pool: Pool, cfg: MarketConfig, side: OrderSide, sizeUsd: u128)
    requires pool.longOiUsd <= I128_MAX && pool.shortOiUsd <= I128_MAX
    ensures ((side == Long && pool.longOiUsd > pool.shortOiUsd) || (side == Short && pool.longOiUsd < pool.shortOiUsd))
              ==> PriceImpact(pool, cfg, side, sizeUsd, true) >= 0
    ensures ((side == Long && pool.longOiUsd < pool.shortOiUsd) || (side == Short && pool.longOiUsd > pool.shortOiUsd))
              ==> PriceImpact(pool, cfg, side, sizeUsd, true) <= 0
  {
    RawImpactFits(ImpactPow(RatioBps(pool), ImpactExponent(cfg) - 1), ImpactFactor(pool, cfg, side, true));
  }

  // ---------------------------------------------------------------- quote

  /** The price a trade starts from: a trader who buys (opens a long or
      closes a short) pays the ask, one who sells gets the bid. */
  function BasePrice(side: OrderSide, isIncrease: bool, mid: u128, spread: u128): (r: u128)
    ensures (side == Long) == isIncrease ==> r == SatAdd(mid, spread / 2) && r >= mid
    ensures (side == Long) != isIncrease ==> r == SatSub(mid, spread / 2) && r <= mid
  {
    var ask := SatAdd(mid, spread / 2);
    var bid := SatSub(mid, spread / 2);
    match side
    case Long => if isIncrease then ask else bid
    case Short => if isIncrease then bid else ask
  }

  /** The price after the impact, before the ±10% clamp. */
  function UnclampedPrice(base: u128, impact: i128, side: OrderSide, isIncrease: bool): u128
  {
    var impactAbs := SatMul(base, Abs(impact)) / BPS;
    var worseForTrader := isIncrease;
    if (impact >= 0) == worseForTrader then
      if (side == Long) == isIncrease then SatAdd(base, impactAbs) else SatSub(base, impactAbs)
    else
      if (side == Long) == isIncrease then SatSub(base, impactAbs) else SatAdd(base, impactAbs)
  }

  /** For an increase a non-negative impact makes the price worse for the
      trader (higher for a long, lower for a short) and a non-positive one
      makes it better. */
  lemma UnclampedPriceDirection(base: u128, impact: i128, side: OrderSide)
    ensures impact >= 0 && side == Long ==> UnclampedPrice(base, impact, side, true) >= base
    ensures impact >= 0 && side == Short ==> UnclampedPrice(base, impact, side, true) <= base
    ensures impact <= 0 && side == Long ==> UnclampedPrice(base, impact, side, true) <= base
    ensures impact <= 0 && side == Short ==> UnclampedPrice(base, impact, side, true) >= base
  {
    if impact == 0 {
      assert SatMul(base, 0) == 0;
    }
  }

  /** For an increase: joining the heavier OI side gives a price no better
      than the base price, joining the lighter side one no worse. */
  lemma IncreasePriceDirection(pool: Pool, cfg: MarketConfig, side: OrderSide, sizeUsd: u128, base: u128)
    requires pool.longOiUsd <= I128_MAX && pool.shortOiUsd <= I128_MAX
    ensures var p := UnclampedPrice(base, PriceImpact(pool, cfg, side, sizeUsd, true), side, true);
            && (side == Long && pool.longOiUsd > pool.shortOiUsd ==> p >= base)
            && (side == Short && pool.longOiUsd < pool.shortOiUsd ==> p <= base)
            && (side == Long && pool.longOiUsd < pool.shortOiUsd ==> p <= base)
            && (side == Short && pool.longOiUsd > pool.shortOiUsd ==> p >= base)
  {
    PriceImpactSignIncrease(pool, cfg, side, sizeUsd);
    UnclampedPriceDirection(base, PriceImpact(pool, cfg, side, sizeUsd, true), side);
  }

  /** `quote` once the market's pool, config, mid and spread are known. The
      execution price stays within ±10% of the mid; `price_impact_usd`
      divides by the mid, so a zero mid traps. */
  function QuoteAt(pool: Pool, cfg: MarketConfig, side: OrderSide, sizeUsd: u128, isIncrease: bool,
                   mid: u128, spread: u128): (r: Result<QuoteResult>)
    ensures r.Ok? <==> mid != 0
    ensures r.Err? ==> r.error == Trap
    ensures r.Ok? ==> mid - mid / 10 <= r.value.executionPrice <= mid + mid / 10
    ensures r.Ok? ==> r.value.priceImpact == PriceImpact(pool, cfg, side, sizeUsd, isIncrease)
  {
    var impactBps := PriceImpact(pool, cfg, side, sizeUsd, isIncrease);
    var base := BasePrice(side, isIncrease, mid, spread);
    var execUnclamped := UnclampedPrice(base, impactBps, side, isIncrease);
    var maxDev := mid / 10;
    var executionPrice := Min(Max(execUnclamped, SatSub(mid, maxDev)), SatAdd(mid, maxDev));
    if ToI128(mid) == 0 then Err(Trap)
    else
      var priceImpactUsd := Quot((ToI128(executionPrice) - ToI128(base)) * ToI128(sizeUsd), ToI128(mid));
      Ok(QuoteResult(executionPrice, impactBps, priceImpactUsd))
  }

  /** `(e − b) * s / m` rounded toward zero has the sign of `e − b`. */
  lemma ImpactUsdSign(e: int, b: int, sz: nat, m: int)
    requires m > 0
    ensures e >= b ==> Quot((e - b) * sz, m) >= 0
    ensures e <= b ==> Quot((e - b) * sz, m) <= 0
  {
    if e >= b { MulLe(0, e - b, sz); } else { MulLe(e - b, 0, sz); }
    QuotBound((e - b) * sz, m);
  }

  /** A quote with every `as i128` cast in range: the USD impact has the
      sign of the move from the base price to the execution price. */
  lemma QuoteImpactUsdSign(pool: Pool, cfg: MarketConfig, side: OrderSide, sizeUsd: u128, isIncrease: bool,
                           mid: u128, spread: u128)
    requires 0 < mid && mid + mid / 10 <= I128_MAX && mid + spread / 2 <= I128_MAX && sizeUsd <= I128_MAX
    ensures var r := QuoteAt(pool, cfg, side, sizeUsd, isIncrease, mid, spread);
            var base := BasePrice(side, isIncrease, mid, spread);
            r.Ok? && (r.value.executionPrice >= base ==> r.value.priceImpactUsd >= 0)
            && (r.value.executionPrice <= base ==> r.value.priceImpactUsd <= 0)
  {
    var r := QuoteAt(pool, cfg, side, sizeUsd, isIncrease, mid, spread);
    var base := BasePrice(side, isIncrease, mid, spread);
    assert r.value.priceImpactUsd == Quot((r.value.executionPrice - base) * sizeUsd, mid);
    ImpactUsdSign(r.value.executionPrice, base, sizeUsd, mid);
  }

  /** `quote`: the config and the pool must exist (in that order), then the
      mid and the spread of the market's price key. */
  function Quote(markets: map<Name, Market>, configs: map<Name, MarketConfig>, pools: map<Name, Pool>,
                 oracle: Oracle.OracleState, market: Name, side: OrderSide, sizeUsd: u128, isIncrease: bool)
    : (r: Result<QuoteResult>)
    ensures market !in configs || market !in pools ==> r == Err(MarketNotFound)
    ensures (market in configs && market in pools && Utils.PriceKey(markets, market) !in oracle.prices)
              ==> r == Err(PriceNotAvailable)
    ensures r.Ok? ==> market in configs && market in pools && Oracle.Mid(oracle, Utils.PriceKey(markets, market)).Ok?
                      && var mid := Oracle.Mid(oracle, Utils.PriceKey(markets, market)).value;
                      mid - mid / 10 <= r.value.executionPrice <= mid + mid / 10
  {
    if market !in configs then Err(MarketNotFound)
    else if market !in pools then Err(MarketNotFound)
    else
      var key := Utils.PriceKey(markets, market);
      match Oracle.Mid(oracle, key)
      case Err(e) => Err(e)
      case Ok(mid) =>
        match Oracle.Spread(oracle, key)
        case Err(e) => Err(e)
        case Ok(spread) => QuoteAt(pools[market], configs[market], side, sizeUsd, isIncrease, mid, spread)
  }

  /** `quote_increase`. */
  function QuoteIncrease(markets: map<Name, Market>, configs: map<Name, MarketConfig>, pools: map<Name, Pool>,
                         oracle: Oracle.OracleState, market: Name, side: OrderSide, sizeUsd: u128): Result<QuoteResult>
  {
    Quote(markets, configs, pools, oracle, market, side, sizeUsd, true)
  }

  /** `quote_decrease`. */
  function QuoteDecrease(markets: map<Name, Market>, configs: map<Name, MarketConfig>, pools: map<Name, Pool>,
                         oracle: Oracle.OracleState, market: Name, side: OrderSide, sizeUsd: u128): Result<QuoteResult>
  {
    Quote(markets, configs, pools, oracle, market, side, sizeUsd, false)
  }
}
