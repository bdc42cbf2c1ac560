/** Fee and risk arithmetic of `risk.rs`: the funding rate, the borrowing
    rates and fees, the pool accrual step, per-position fee settlement and the
    liquidation test. Every Rust `saturating_*` is the matching clamp of
    `Arith`, every `as i128` of a u128 is `ToI128`, every i128 `/` is `Quot`. */
module Risk {
  import opened Arith
  import opened Types

  /** `365 * 24 * 60 * 60 * 10_000`, the divisor of the per-position fee. */
  const YEAR_BPS: int := SECONDS_PER_YEAR * BPS

  // ---------------------------------------------------------------- funding

  /** `funding_rate`: the imbalance in bps of total OI, scaled by the factor,
      multiplied (not raised) by the exponent, prorated over the year and
      capped at 10 per whole hour of `dt`. */
  function FundingRate(pool: Pool, cfg: MarketConfig, dt: u64): (r: i128)
    ensures SatAdd(pool.longOiUsd, pool.shortOiUsd) == 0 ==> r == 0
    ensures Abs(r) <= 10 * (dt / 3600)
    ensures dt < 3600 ==> r == 0
  {
    var totalOi := SatAdd(pool.longOiUsd, pool.shortOiUsd);
    if totalOi == 0 then 0
    else
      var imbalance := ToI128(pool.longOiUsd) - ToI128(pool.shortOiUsd);
      var ratioBps := ScaleDiv(imbalance, BPS, ToI128(totalOi));
      var base := ScaleDiv(ratioBps, ToI128(cfg.fundingFactor), BPS);
      var rate := ScaleDiv(base, ToI128(Max(cfg.fundingExponent, 1)), BPS);
      var timeAdj := ScaleDiv(rate, dt, SECONDS_PER_YEAR);
      var cap := SatMulI(10, dt / 3600);
      Min(Max(timeAdj, -cap), cap)
  }

  /** The funding rate has the sign of `long_oi − short_oi` (or is 0),
      as long as no `as i128` cast wraps. */
  lemma FundingRateSign(pool: Pool, cfg: MarketConfig, dt: u64)
    requires pool.longOiUsd + pool.shortOiUsd <= I128_MAX
    requires cfg.fundingFactor <= I128_MAX && cfg.fundingExponent <= I128_MAX
    ensures pool.longOiUsd >= pool.shortOiUsd ==> FundingRate(pool, cfg, dt) >= 0
    ensures pool.longOiUsd <= pool.shortOiUsd ==> FundingRate(pool, cfg, dt) <= 0
  {
    var totalOi := pool.longOiUsd + pool.shortOiUsd;
    if totalOi != 0 {
      var imbalance := pool.longOiUsd - pool.shortOiUsd;
      var ratioBps := ScaleDiv(imbalance, BPS, totalOi);
      ScaleDivSign(imbalance, BPS, totalOi);
      var base := ScaleDiv(ratioBps, cfg.fundingFactor, BPS);
      ScaleDivSign(ratioBps, cfg.fundingFactor, BPS);
      var exponent := Max(cfg.fundingExponent, 1);
      var rate := ScaleDiv(base, exponent, BPS);
      ScaleDivSign(base, exponent, BPS);
      var timeAdj := ScaleDiv(rate, dt, SECONDS_PER_YEAR);
      ScaleDivSign(rate, dt, SECONDS_PER_YEAR);
      var cap := SatMulI(10, dt / 3600);
      assert FundingRate(pool, cfg, dt) == Min(Max(timeAdj, -cap), cap);
    }
  }

  // ---------------------------------------------------------------- borrowing

  /** `borrowing_rate`: utilisation scaled by the exponent and the factor,
      capped at 10_000 (100% APR). */
  function BorrowingRate(utilBps: u128, cfg: MarketConfig): (r: u128)
    ensures r <= 10_000
    ensures utilBps == 0 ==> r == 0
  {
    var exponent := Max(cfg.borrowingExponent, 1);
    var utilExp := SatMul(utilBps, exponent) / BPS;
    var rate := SatMul(cfg.borrowingFactor, utilExp) / BPS;
    Min(rate, 10_000)
  }

  /** A higher utilisation never gives a lower borrowing rate. */
  lemma BorrowingRateMono(u1: u128, u2: u128, cfg: MarketConfig)
    requires u1 <= u2
    ensures BorrowingRate(u1, cfg) <= BorrowingRate(u2, cfg)
  {
    var exponent := Max(cfg.borrowingExponent, 1);
    SatMulMono(u1, u2, exponent);
    DivLe(SatMul(u1, exponent), SatMul(u2, exponent), BPS);
    var e1, e2 := SatMul(u1, exponent) / BPS, SatMul(u2, exponent) / BPS;
    SatMulMono(e1, e2, cfg.borrowingFactor);
    assert SatMul(cfg.borrowingFactor, e1) <= SatMul(cfg.borrowingFactor, e2);
    DivLe(SatMul(cfg.borrowingFactor, e1), SatMul(cfg.borrowingFactor, e2), BPS);
  }

  /** `oi * util / liquidity` in bps, 0 for an empty side. */
  function Utilisation(oi: u128, liquidity: u128): u128
  {
    if liquidity > 0 then SatMul(oi, BPS) / liquidity else 0
  }

  /** One side's yearly fee: `rate * oi / 10_000`. */
  function SideFee(rate: u128, oi: u128): u128
  {
    SatMul(rate, oi) / BPS
  }

  /** At a rate of at most 100% a side's fee is at most its OI. */
  lemma SideFeeCap(rate: u128, oi: u128)
    requires rate <= 10_000
    ensures SideFee(rate, oi) <= oi
  {
    MulLe(rate, BPS, oi);
    DivLe(SatMul(rate, oi), BPS * oi, BPS);
  }

  /** The yearly borrowing fee of both sides; with
      `skip_borrowing_for_smaller_side` only the side with the strictly larger
      OI pays (the short side on a tie). */
  function YearlyBorrowingFees(pool: Pool, cfg: MarketConfig): u128
  {
    var longRate := BorrowingRate(Utilisation(pool.longOiUsd, pool.longLiquidityUsd), cfg);
    var shortRate := BorrowingRate(Utilisation(pool.shortOiUsd, pool.shortLiquidityUsd), cfg);
    var longFee := if cfg.skipBorrowingForSmallerSide && pool.longOiUsd <= pool.shortOiUsd then 0
                   else SideFee(longRate, pool.longOiUsd);
    var shortFee := if cfg.skipBorrowingForSmallerSide && pool.longOiUsd > pool.shortOiUsd then 0
                    else SideFee(shortRate, pool.shortOiUsd);
    SatAdd(longFee, shortFee)
  }

  /** `pool_borrowing_fees`: the yearly fee prorated over `dt` seconds. */
  function PoolBorrowingFees(pool: Pool, cfg: MarketConfig, dt: u64): (r: u128)
    ensures dt == 0 ==> r == 0
  {
    SatMul(YearlyBorrowingFees(pool, cfg), dt) / SECONDS_PER_YEAR
  }

  /** No side pays more than 100% APR of its open interest, and a side that
      the skip rule exempts pays nothing. */
  lemma YearlyBorrowingFeesCap(pool: Pool, cfg: MarketConfig)
    ensures YearlyBorrowingFees(pool, cfg) <= pool.longOiUsd + pool.shortOiUsd
    ensures cfg.skipBorrowingForSmallerSide && pool.longOiUsd > pool.shortOiUsd ==>
              YearlyBorrowingFees(pool, cfg) <= pool.longOiUsd
    ensures cfg.skipBorrowingForSmallerSide && pool.longOiUsd <= pool.shortOiUsd ==>
              YearlyBorrowingFees(pool, cfg) <= pool.shortOiUsd
  {
    SideFeeCap(BorrowingRate(Utilisation(pool.longOiUsd, pool.longLiquidityUsd), cfg), pool.longOiUsd);
    SideFeeCap(BorrowingRate(Utilisation(pool.shortOiUsd, pool.shortLiquidityUsd), cfg), pool.shortOiUsd);
  }

  /** Prorating a yearly amount over `dt` is monotone in the amount. */
  lemma ProrateMono(a: u128, b: nat, dt: u64)
    requires a <= b
    ensures SatMul(a, dt) / SECONDS_PER_YEAR <= (b * dt) / SECONDS_PER_YEAR
  {
    MulLe(a, b, dt);
    DivLe(SatMul(a, dt), b * dt, SECONDS_PER_YEAR);
  }

  /** The pool's borrowing fee over `dt` never exceeds 100% APR of its total
      open interest; with no open interest it is 0. */
  lemma PoolBorrowingFeesCap(pool: Pool, cfg: MarketConfig, dt: u64)
    ensures PoolBorrowingFees(pool, cfg, dt) <= ((pool.longOiUsd + pool.shortOiUsd) * dt) / SECONDS_PER_YEAR
    ensures pool.longOiUsd == 0 && pool.shortOiUsd == 0 ==> PoolBorrowingFees(pool, cfg, dt) == 0
  {
    YearlyBorrowingFeesCap(pool, cfg);
    ProrateMono(YearlyBorrowingFees(pool, cfg), pool.longOiUsd + pool.shortOiUsd, dt);
  }

  /** `position_borrowing_fee`: the position's own utilisation of its side's
      liquidity sets the rate, charged on its size over `dt`. */
  function PositionBorrowingFee(pos: Position, pool: Pool, cfg: MarketConfig, dt: u64): (r: u128)
    ensures (if pos.isLong then pool.longLiquidityUsd else pool.shortLiquidityUsd) == 0 ==> r == 0
  {
    var liquidity := if pos.isLong then pool.longLiquidityUsd else pool.shortLiquidityUsd;
    if liquidity == 0 then 0
    else
      var rate := BorrowingRate(Utilisation(pos.sizeUsd, liquidity), cfg);
      SatMul(SatMul(rate, pos.sizeUsd), dt) / YEAR_BPS
  }

  /** The per-position fee formula charges at most 100% APR of the size. */
  lemma YearBpsCap(rate: u128, size: u128, dt: u64)
    requires rate <= 10_000
    ensures SatMul(SatMul(rate, size), dt) / YEAR_BPS <= (size * dt) / SECONDS_PER_YEAR
  {
    MulLe(rate, BPS, size);
    var a := SatMul(rate, size);
    MulLe(a, BPS * size, dt);
    assert SatMul(a, dt) <= BPS * (size * dt);
    DivLe(SatMul(a, dt), BPS * (size * dt), BPS * SECONDS_PER_YEAR);
    DivMulCancel(size * dt, BPS, SECONDS_PER_YEAR);
  }

  /** A position never pays more than 100% APR of its size. */
  lemma PositionBorrowingFeeCap(pos: Position, pool: Pool, cfg: MarketConfig, dt: u64)
    ensures PositionBorrowingFee(pos, pool, cfg, dt) <= (pos.sizeUsd * dt) / SECONDS_PER_YEAR
  {
    var liquidity := if pos.isLong then pool.longLiquidityUsd else pool.shortLiquidityUsd;
    if liquidity != 0 {
      YearBpsCap(BorrowingRate(Utilisation(pos.sizeUsd, liquidity), cfg), pos.sizeUsd, dt);
    }
  }

  // ---------------------------------------------------------------- accrual

  /** The pool after `accrue_pool` at time `now`. */
  function Accrue(pool: Pool, cfg: MarketConfig, now: u64): (r: Pool)
    ensures now <= pool.lastFundingUpdate ==> r == pool
    ensures now > pool.lastFundingUpdate ==> r.lastFundingUpdate == now
    ensures now > pool.lastFundingUpdate ==>
              var dt := now - pool.lastFundingUpdate;
              && r.accumulatedFundingLongPerUsd == SatAddI(pool.accumulatedFundingLongPerUsd, FundingRate(pool, cfg, dt))
              && r.accumulatedFundingShortPerUsd == SatSubI(pool.accumulatedFundingShortPerUsd, FundingRate(pool, cfg, dt))
              && r.totalBorrowingFeesUsd == SatAdd(pool.totalBorrowingFeesUsd, PoolBorrowingFees(pool, cfg, dt))
    ensures r.totalBorrowingFeesUsd >= pool.totalBorrowingFeesUsd
    ensures r.(accumulatedFundingLongPerUsd := pool.accumulatedFundingLongPerUsd,
               accumulatedFundingShortPerUsd := pool.accumulatedFundingShortPerUsd,
               totalBorrowingFeesUsd := pool.totalBorrowingFeesUsd,
               lastFundingUpdate := pool.lastFundingUpdate) == pool
  {
    var dt := SatSub64(now, pool.lastFundingUpdate);
    if dt == 0 then pool
    else
      var rate := FundingRate(pool, cfg, dt);
      var fees := PoolBorrowingFees(pool, cfg, dt);
      pool.(accumulatedFundingLongPerUsd := SatAddI(pool.accumulatedFundingLongPerUsd, rate),
            accumulatedFundingShortPerUsd := SatSubI(pool.accumulatedFundingShortPerUsd, rate),
            totalBorrowingFeesUsd := SatAdd(pool.totalBorrowingFeesUsd, fees),
            lastFundingUpdate := now)
  }

  /** The largest funding rate any `dt` can produce. */
  const MAX_FUNDING_STEP: int := 10 * (U64_MAX / 3600)

  /** Away from the i128 limits, one accrual step moves the long and the short
      funding index by the same amount in opposite directions, by one funding
      rate at most. */
  lemma AccrueZeroSum(pool: Pool, cfg: MarketConfig, now: u64)
    requires Abs(pool.accumulatedFundingLongPerUsd) <= I128_MAX - MAX_FUNDING_STEP
    requires Abs(pool.accumulatedFundingShortPerUsd) <= I128_MAX - MAX_FUNDING_STEP
    ensures var r := Accrue(pool, cfg, now);
            r.accumulatedFundingLongPerUsd + r.accumulatedFundingShortPerUsd
              == pool.accumulatedFundingLongPerUsd + pool.accumulatedFundingShortPerUsd
    ensures var r := Accrue(pool, cfg, now);
            Abs(r.accumulatedFundingLongPerUsd - pool.accumulatedFundingLongPerUsd) <= MAX_FUNDING_STEP
  {
    var dt := SatSub64(now, pool.lastFundingUpdate);
    if dt != 0 {
      DivLe(dt, U64_MAX, 3600);
    }
  }

  // ---------------------------------------------------------------- settlement

  datatype SettledFees = SettledFees(fundingFee: i128, borrowingFee: u128, totalFeeUsd: i128)

  /** The side's current funding index. */
  function FundingIndex(pool: Pool, isLong: bool): i128
  {
    if isLong then pool.accumulatedFundingLongPerUsd else pool.accumulatedFundingShortPerUsd
  }

  /** The fees `settle_position_fees` charges: funding on the index move since
      the checkpoint, borrowing since `last_fee_update`, and their net. */
  function SettlementFees(pos: Position, pool: Pool, cfg: MarketConfig, now: u64): (f: SettledFees)
    ensures FundingIndex(pool, pos.isLong) == pos.fundingFeePerUsd ==> f.fundingFee == 0
    ensures now <= pos.lastFeeUpdate ==> f.borrowingFee == 0
  {
    var fundingDelta := FundingIndex(pool, pos.isLong) - pos.fundingFeePerUsd;
    var fundingFee := ScaleDiv(ToI128(pos.sizeUsd), fundingDelta, USD_SCALE);
    QuotBound(SatMulI(ToI128(pos.sizeUsd), fundingDelta), USD_SCALE);
    var dt := SatSub64(now, pos.lastFeeUpdate);
    var borrowingFee := if dt > 0 && pos.sizeUsd > 0 then PositionBorrowingFee(pos, pool, cfg, dt) else 0;
    SettledFees(fundingFee, borrowingFee, SatAddI(fundingFee, ToI128(borrowingFee)))
  }

  /** `settle_position_fees` on a copy of `pos`: the updated copy and the
      outcome. The copy moves its funding checkpoint to the side's index, its
      `last_fee_update` to `now`, and its collateral by the net fee; a net fee
      above the collateral zeroes the copy's collateral and fails. */
  function Settle(pos: Position, pool: Pool, cfg: MarketConfig, now: u64): (r: (Position, Result<SettledFees>))
    ensures var fees := SettlementFees(pos, pool, cfg, now);
            && r.0 == pos.(fundingFeePerUsd := FundingIndex(pool, pos.isLong), lastFeeUpdate := now,
                           collateralUsd := r.0.collateralUsd)
            && (r.1.Err? <==> fees.totalFeeUsd > pos.collateralUsd)
            && (r.1.Err? ==> r.1.error == InsufficientCollateral && r.0.collateralUsd == 0)
            && (r.1.Ok? ==> r.1.value == fees && r.0.collateralUsd == ClampU(pos.collateralUsd - fees.totalFeeUsd))
  {
    var fees := SettlementFees(pos, pool, cfg, now);
    var p := pos.(fundingFeePerUsd := FundingIndex(pool, pos.isLong), lastFeeUpdate := now);
    if fees.totalFeeUsd > 0 then
      if fees.totalFeeUsd > p.collateralUsd then (p.(collateralUsd := 0), Err(InsufficientCollateral))
      else (p.(collateralUsd := SatSub(p.collateralUsd, fees.totalFeeUsd)), Ok(fees))
    else if fees.totalFeeUsd < 0 then
      (p.(collateralUsd := SatAdd(p.collateralUsd, -fees.totalFeeUsd)), Ok(fees))
    else (p, Ok(fees))
  }

  /** Without saturation, settlement changes collateral by exactly the
      negated net fee. */
  lemma SettleCollateralExact(pos: Position, pool: Pool, cfg: MarketConfig, now: u64)
    requires Settle(pos, pool, cfg, now).1.Ok?
    requires pos.collateralUsd - SettlementFees(pos, pool, cfg, now).totalFeeUsd <= U128_MAX
    ensures Settle(pos, pool, cfg, now).0.collateralUsd
              == pos.collateralUsd - Settle(pos, pool, cfg, now).1.value.totalFeeUsd
  {
  }

  /** Settling a second time at the same moment against the same pool charges
      nothing and changes nothing, whatever the first outcome was. */
  lemma SettleTwice(pos: Position, pool: Pool, cfg: MarketConfig, now: u64)
    ensures var p := Settle(pos, pool, cfg, now).0;
            Settle(p, pool, cfg, now) == (p, Ok(SettledFees(0, 0, 0)))
  {
    var p := Settle(pos, pool, cfg, now).0;
    assert SettlementFees(p, pool, cfg, now) == SettledFees(0, 0, 0);
  }

  /** A long whose side's index rose since its checkpoint pays funding (the
      fee is not negative), while its size fits an i128. */
  lemma SettleFundingSignLong(pos: Position, pool: Pool, cfg: MarketConfig, now: u64)
    requires pos.isLong && pos.sizeUsd <= I128_MAX
    requires pool.accumulatedFundingLongPerUsd >= pos.fundingFeePerUsd
    ensures SettlementFees(pos, pool, cfg, now).fundingFee >= 0
  {
    ScaleDivSign(pos.sizeUsd, pool.accumulatedFundingLongPerUsd - pos.fundingFeePerUsd, USD_SCALE);
  }

  // ---------------------------------------------------------------- liquidation

  /** The token amount `size * USD_SCALE / entry` the liquidation test
      values the position by. */
  function TokenAmount(sizeUsd: u128, entryPriceUsd: u128): (r: u128)
    requires entryPriceUsd > 0
    ensures sizeUsd * USD_SCALE <= U128_MAX ==> r <= sizeUsd * USD_SCALE
  {
    DivLeSelf(SatMul(sizeUsd, USD_SCALE), entryPriceUsd);
    SatMul(sizeUsd, USD_SCALE) / entryPriceUsd
  }

  /** `is_liquidatable`: the position's value at `price` (collateral plus PnL
      on its token amount) is at or below `liq_bps` of its collateral. */
  function IsLiquidatable(pos: Position, price: u128, liqBps: u16): (r: bool)
    ensures pos.sizeUsd == 0 || pos.entryPriceUsd == 0 ==> !r
    ensures pos.entryPriceUsd > 0 && TokenAmount(pos.sizeUsd, pos.entryPriceUsd) == 0 ==> !r
  {
    if pos.sizeUsd == 0 || pos.entryPriceUsd == 0 then false
    else
      var tokens := TokenAmount(pos.sizeUsd, pos.entryPriceUsd);
      if tokens == 0 then false
      else
        var priceDelta := if pos.isLong then ToI128(price) - ToI128(pos.entryPriceUsd)
                          else ToI128(pos.entryPriceUsd) - ToI128(price);
        var pnl := ScaleDiv(priceDelta, ToI128(tokens), USD_SCALE);
        var currentValue := SatAddI(ToI128(pos.collateralUsd), pnl);
        var threshold := ScaleDiv(ToI128(pos.collateralUsd), liqBps, BPS);
        currentValue <= threshold
  }

  /** For prices that fit an i128: a long liquidatable at some price is
      liquidatable at every lower price, a short at every higher price. */
  lemma IsLiquidatableMonotone(pos: Position, p1: u128, p2: u128, liqBps: u16)
    requires p1 <= p2 <= I128_MAX && pos.entryPriceUsd <= I128_MAX
    requires pos.sizeUsd * USD_SCALE <= I128_MAX
    ensures pos.isLong ==> (IsLiquidatable(pos, p2, liqBps) ==> IsLiquidatable(pos, p1, liqBps))
    ensures !pos.isLong ==> (IsLiquidatable(pos, p1, liqBps) ==> IsLiquidatable(pos, p2, liqBps))
  {
    if pos.sizeUsd != 0 && pos.entryPriceUsd != 0 {
      var tokens := TokenAmount(pos.sizeUsd, pos.entryPriceUsd);
      assert ToI128(tokens) == tokens;
      if pos.isLong {
        ScaleDivMono(p1 - pos.entryPriceUsd, p2 - pos.entryPriceUsd, tokens, USD_SCALE);
      } else {
        ScaleDivMono(pos.entryPriceUsd - p2, pos.entryPriceUsd - p1, tokens, USD_SCALE);
      }
    }
  }

  /** A threshold below 100% lies strictly below the collateral. */
  lemma ThresholdBelowCollateral(c: nat, liqBps: u16)
    requires 0 < c && liqBps < 10_000
    ensures ScaleDiv(c, liqBps, BPS) < c
  {
    MulLe(liqBps, BPS - 1, c);
    assert SatMulI(c, liqBps) <= c * liqBps < c * BPS;
    DivLtOfLtMul(SatMulI(c, liqBps), c, BPS);
  }

  /** At its entry price a position with collateral is liquidatable only
      when the threshold is the whole collateral or more. */
  lemma NotLiquidatableAtEntry(pos: Position, liqBps: u16)
    requires 0 < pos.collateralUsd <= I128_MAX && pos.entryPriceUsd <= I128_MAX
    requires liqBps < 10_000
    ensures !IsLiquidatable(pos, pos.entryPriceUsd, liqBps)
  {
    if pos.sizeUsd != 0 && pos.entryPriceUsd != 0 && TokenAmount(pos.sizeUsd, pos.entryPriceUsd) != 0 {
      var tokens := TokenAmount(pos.sizeUsd, pos.entryPriceUsd);
      assert ScaleDiv(0, ToI128(tokens), USD_SCALE) == 0;
      ThresholdBelowCollateral(pos.collateralUsd, liqBps);
    }
  }

  /** The worked case: collateral $1,000, size $10,000, entry $100, long,
      threshold 80%. The value reaches exactly $800 at $98. */
  lemma LiquidationWorkedExample()
    ensures var pos := Position(seq(32, _ => 0), seq(32, _ => 0), [], [], true,
                                10_000_000_000, 1_000_000_000, 100_000_000, 0, 0, 0, 0, 0);
            IsLiquidatable(pos, 98_000_000, 8000) && !IsLiquidatable(pos, 98_000_001, 8000)
  {
  }
}
