/** The arithmetic and the staging phase of `position.rs`: PnL, liquidation
    price, the size-weighted entry price, the PnL share and payout of a
    decrease, the leverage test, and the local position each operation
    builds before it writes anything. The writes themselves are the
    `Dex.Ledger` methods. */
module Positions {
  import opened Arith
  import opened Types
  import Risk

  // ---------------------------------------------------------------- PnL

  /** `calculate_pnl`: `size * (price − entry) / entry`, negated for a short;
      0 for an empty position or a zero entry price. */
  function CalcPnl(pos: Position, price: u128): (r: int)
    ensures pos.sizeUsd == 0 || pos.entryPriceUsd == 0 ==> r == 0
    ensures price == pos.entryPriceUsd ==> r == 0
  {
    if pos.sizeUsd == 0 || pos.entryPriceUsd == 0 then 0
    else
      var priceDiff := if pos.isLong then ToI128(price) - ToI128(pos.entryPriceUsd)
                       else ToI128(pos.entryPriceUsd) - ToI128(price);
      Quot(SatMulI(ToI128(pos.sizeUsd), priceDiff), ToI128(pos.entryPriceUsd))
  }

  /** While `size * (price − entry)` does not saturate, the long and the
      short PnL of the same position are exact negations. */
  lemma CalcPnlAntisymmetric(pos: Position, price: u128)
    requires Abs(ToI128(pos.sizeUsd) * (ToI128(price) - ToI128(pos.entryPriceUsd))) <= I128_MAX
    ensures CalcPnl(pos.(isLong := true), price) == -CalcPnl(pos.(isLong := false), price)
  {
    if pos.sizeUsd != 0 && pos.entryPriceUsd != 0 {
      var s, d := ToI128(pos.sizeUsd), ToI128(price) - ToI128(pos.entryPriceUsd);
      assert s * -d == -(s * d);
      QuotNeg(s * d, ToI128(pos.entryPriceUsd));
    }
  }

  /** When the product saturates the two results differ: i128's range is one
      wider below zero than above it. */
  lemma CalcPnlSaturationAsymmetry()
    ensures var pos := Position(seq(32, _ => 0), seq(32, _ => 0), [], [], true,
                                0x4000_0000_0000_0000_0000_0000_0000_0000, 0, 1, 0, 0, 0, 0, 0);
            CalcPnl(pos, 5) == I128_MAX && CalcPnl(pos.(isLong := false), 5) == I128_MIN
  {
  }

  // ---------------------------------------------------------------- liquidation price

  /** `calculate_liquidation_price`: the price at which the loss equals the
      part of the collateral above the `liq_bps` threshold. */
  function CalcLiqPrice(pos: Position, liqBps: u16): (r: u128)
    ensures pos.sizeUsd == 0 || pos.entryPriceUsd == 0 ==> r == 0
  {
    if pos.sizeUsd == 0 || pos.entryPriceUsd == 0 then 0
    else
      var thresholdUsd := SatMul(pos.collateralUsd, liqBps) / BPS;
      var lossAllowed := SatSub(pos.collateralUsd, thresholdUsd);
      var lossRatio := UDiv(SatMul(lossAllowed, USD_SCALE), pos.sizeUsd);
      var ratio := if pos.isLong then SatSub(USD_SCALE, lossRatio) else SatAdd(USD_SCALE, lossRatio);
      SatMul(pos.entryPriceUsd, ratio) / USD_SCALE
  }

  lemma ScaleBackExact(e: nat)
    ensures (e * USD_SCALE) / USD_SCALE == e
  {
    DivUnique(e * USD_SCALE, USD_SCALE, e, 0);
  }

  /** A long is liquidated at or below its entry price. */
  lemma LiqPriceLongAtMostEntry(pos: Position, liqBps: u16)
    requires pos.isLong
    ensures CalcLiqPrice(pos, liqBps) <= pos.entryPriceUsd
  {
    if pos.sizeUsd != 0 && pos.entryPriceUsd != 0 {
      var thresholdUsd := SatMul(pos.collateralUsd, liqBps) / BPS;
      var lossAllowed := SatSub(pos.collateralUsd, thresholdUsd);
      var ratio := SatSub(USD_SCALE, UDiv(SatMul(lossAllowed, USD_SCALE), pos.sizeUsd));
      MulLe(ratio, USD_SCALE, pos.entryPriceUsd);
      DivLe(SatMul(pos.entryPriceUsd, ratio), pos.entryPriceUsd * USD_SCALE, USD_SCALE);
      ScaleBackExact(pos.entryPriceUsd);
    }
  }

  /** A short is liquidated at or above its entry price, while
      `entry * USD_SCALE` fits a u128. */
  lemma LiqPriceShortAtLeastEntry(pos: Position, liqBps: u16)
    requires !pos.isLong && pos.sizeUsd > 0
    requires pos.entryPriceUsd * USD_SCALE <= U128_MAX
    ensures CalcLiqPrice(pos, liqBps) >= pos.entryPriceUsd
  {
    if pos.entryPriceUsd != 0 {
      var thresholdUsd := SatMul(pos.collateralUsd, liqBps) / BPS;
      var lossAllowed := SatSub(pos.collateralUsd, thresholdUsd);
      var ratio := SatAdd(USD_SCALE, UDiv(SatMul(lossAllowed, USD_SCALE), pos.sizeUsd));
      MulLe(USD_SCALE, ratio, pos.entryPriceUsd);
      assert pos.entryPriceUsd * USD_SCALE <= SatMul(pos.entryPriceUsd, ratio);
      DivLe(pos.entryPriceUsd * USD_SCALE, SatMul(pos.entryPriceUsd, ratio), USD_SCALE);
      ScaleBackExact(pos.entryPriceUsd);
    }
  }

  /** With a threshold of the whole collateral no loss is allowed, so the
      liquidation price is the entry price (while nothing saturates). */
  lemma LiqPriceAtFullThreshold(pos: Position, liqBps: u16)
    requires liqBps >= 10_000 && pos.sizeUsd > 0
    requires pos.collateralUsd * liqBps <= U128_MAX && pos.entryPriceUsd * USD_SCALE <= U128_MAX
    ensures CalcLiqPrice(pos, liqBps) == pos.entryPriceUsd
  {
    if pos.entryPriceUsd != 0 {
      MulLe(BPS, liqBps, pos.collateralUsd);
      DivLe(pos.collateralUsd * BPS, pos.collateralUsd * liqBps, BPS);
      DivUnique(pos.collateralUsd * BPS, BPS, pos.collateralUsd, 0);
      assert SatSub(pos.collateralUsd, SatMul(pos.collateralUsd, liqBps) / BPS) == 0;
      ScaleBackExact(pos.entryPriceUsd);
    }
  }

  // ---------------------------------------------------------------- increase

  /** The size-weighted entry price after adding `delta` at `exec` to a
      position of `size` at `entry`; a position without size takes `exec`. */
  function NewEntryPrice(size: u128, entry: u128, delta: u128, exec: u128): u128
  {
    if size > 0 then
      var totalSize := SatAdd(size, delta);
      UDiv(SatAdd(SatMul(size, entry), SatMul(delta, exec)), totalSize)
    else exec
  }

  lemma LeDivOfMulLe(q: nat, t: int, n: nat)
    requires t > 0 && q * t <= n
    ensures q <= n / t
  {
    if n / t < q {
      MulLe(n / t + 1, q, t);
    }
  }

  /** The weighted mean lies between its two points. */
  lemma WeightedMeanBounds(a: nat, x: nat, b: nat, y: nat)
    ensures Min(x, y) * (a + b) <= a * x + b * y <= Max(x, y) * (a + b)
  {
    MulLe(Min(x, y), x, a);
    MulLe(Min(x, y), y, b);
    MulLe(x, Max(x, y), a);
    MulLe(y, Max(x, y), b);
  }

  /** Without saturation the new entry price lies between the old entry and
      the execution price. */
  lemma NewEntryPriceBetween(size: u128, entry: u128, delta: u128, exec: u128)
    requires size > 0
    requires size + delta <= U128_MAX && size * entry + delta * exec <= U128_MAX
    ensures Min(entry, exec) <= NewEntryPrice(size, entry, delta, exec) <= Max(entry, exec)
  {
    var t := size + delta;
    var num := size * entry + delta * exec;
    WeightedMeanBounds(size, entry, delta, exec);
    LeDivOfMulLe(Min(entry, exec), t, num);
    DivLtOfLtMul(num, Max(entry, exec) + 1, t);
  }

  /** The position `increase_position` creates when none is stored under the
      key: no size or collateral yet, a zero funding checkpoint. */
  function NewPosition(key: PositionKey, account: ActorId, market: Name, collateralToken: Name, isLong: bool,
                       exec: u128, block: u32, now: u64): (p: Position)
    ensures p.sizeUsd == 0 && p.collateralUsd == 0 && p.fundingFeePerUsd == 0 && p.lastFeeUpdate == now
  {
    Position(key, account, market, collateralToken, isLong, 0, 0, exec, 0, 0, block, 0, now)
  }

  /** The first settlement of a newly created position charges funding on
      the side's whole index, as its checkpoint starts at 0. */
  lemma NewPositionFundingFromZero(key: PositionKey, account: ActorId, market: Name, collateralToken: Name,
                                   isLong: bool, exec: u128, block: u32, now: u64,
                                   size: u128, pool: Pool, cfg: MarketConfig)
    ensures var p := NewPosition(key, account, market, collateralToken, isLong, exec, block, now).(sizeUsd := size);
            Risk.SettlementFees(p, pool, cfg, now).fundingFee
              == ScaleDiv(ToI128(size), Risk.FundingIndex(pool, isLong), USD_SCALE)
  {
  }

  /** Steps 69-88 of `increase_position` on the (settled or new) local
      position: new entry price, added size and collateral, the block. */
  function ApplyIncrease(pos: Position, sizeDelta: u128, collateralDelta: u128, exec: u128, block: u32): (p: Position)
    ensures p == pos.(entryPriceUsd := p.entryPriceUsd, sizeUsd := SatAdd(pos.sizeUsd, sizeDelta),
                      collateralUsd := SatAdd(pos.collateralUsd, collateralDelta), increasedAtBlock := block)
    ensures pos.sizeUsd == 0 ==> p.entryPriceUsd == exec
    ensures p.entryPriceUsd == NewEntryPrice(pos.sizeUsd, pos.entryPriceUsd, sizeDelta, exec)
  {
    pos.(entryPriceUsd := NewEntryPrice(pos.sizeUsd, pos.entryPriceUsd, sizeDelta, exec),
         sizeUsd := SatAdd(pos.sizeUsd, sizeDelta),
         collateralUsd := SatAdd(pos.collateralUsd, collateralDelta),
         increasedAtBlock := block)
  }

  /** Two copies of a position under the same key, owner, market,
      collateral token and side. */
  predicate SameIdentity(p: Position, q: Position)
  {
    p.key == q.key && p.account == q.account && p.market == q.market
    && p.collateralToken == q.collateralToken && p.isLong == q.isLong
  }

  /** The read-only phase of `increase_position`: the config must exist, the
      balance must cover the collateral, a stored position is settled (which
      needs the pool), a missing one is created. The result is the staged
      position and whether it is new. */
  function StagedIncrease(configs: map<Name, MarketConfig>, pools: map<Name, Pool>, balances: map<ActorId, u128>,
                          positions: map<PositionKey, Position>, key: PositionKey, account: ActorId,
                          market: Name, collateralToken: Name, isLong: bool,
                          sizeDelta: u128, collateralDelta: u128, exec: u128, now: u64, block: u32)
    : (r: Result<(Position, bool)>)
    ensures market !in configs ==> r == Err(MarketNotFound)
    ensures market in configs && BalanceOf(balances, account) < collateralDelta ==> r == Err(InsufficientBalance)
    ensures r.Ok? ==> market in configs && BalanceOf(balances, account) >= collateralDelta
                      && (r.value.1 <==> key !in positions)
                      && r.value.0.sizeUsd == if key in positions then SatAdd(positions[key].sizeUsd, sizeDelta) else sizeDelta
    ensures r.Ok? && key in positions ==> SameIdentity(r.value.0, positions[key])
    ensures r.Ok? && key in positions ==>
              && market in pools
              && Risk.Settle(positions[key], pools[market], configs[market], now).1.Ok?
              && r.value.0 == ApplyIncrease(Risk.Settle(positions[key], pools[market], configs[market], now).0,
                                            sizeDelta, collateralDelta, exec, block)
    ensures r.Ok? && key !in positions ==>
              SameIdentity(r.value.0, NewPosition(key, account, market, collateralToken, isLong, exec, block, now))
              && r.value.0.collateralUsd == collateralDelta && r.value.0.entryPriceUsd == exec
    ensures r.Err? ==> r.error in {MarketNotFound, InsufficientBalance, InsufficientCollateral}
  {
    if market !in configs then Err(MarketNotFound)
    else if BalanceOf(balances, account) < collateralDelta then Err(InsufficientBalance)
    else if key in positions then
      if market !in pools then Err(MarketNotFound)
      else
        var (p, res) := Risk.Settle(positions[key], pools[market], configs[market], now);
        if res.Err? then Err(res.error)
        else Ok((ApplyIncrease(p, sizeDelta, collateralDelta, exec, block), false))
    else
      var p := NewPosition(key, account, market, collateralToken, isLong, exec, block, now);
      Ok((ApplyIncrease(p, sizeDelta, collateralDelta, exec, block), true))
  }

  /** The pool after an increase has passed the OI check: the side's OI is
      the new OI, the side's liquidity grows by the collateral. */
  function IncreasePool(pool: Pool, isLong: bool, sizeDelta: u128, collateralDelta: u128): (r: Pool)
    ensures isLong ==> r == pool.(longOiUsd := SatAdd(pool.longOiUsd, sizeDelta),
                                  longLiquidityUsd := SatAdd(pool.longLiquidityUsd, collateralDelta))
    ensures !isLong ==> r == pool.(shortOiUsd := SatAdd(pool.shortOiUsd, sizeDelta),
                                   shortLiquidityUsd := SatAdd(pool.shortLiquidityUsd, collateralDelta))
  {
    if isLong then
      pool.(longOiUsd := SatAdd(pool.longOiUsd, sizeDelta),
            longLiquidityUsd := SatAdd(pool.longLiquidityUsd, collateralDelta))
    else
      pool.(shortOiUsd := SatAdd(pool.shortOiUsd, sizeDelta),
            shortLiquidityUsd := SatAdd(pool.shortLiquidityUsd, collateralDelta))
  }

  /** The OI limit: the side's new OI may equal but not exceed its cap. */
  predicate ExceedsMaxOi(pool: Pool, cfg: MarketConfig, isLong: bool, sizeDelta: u128)
  {
    if isLong then SatAdd(pool.longOiUsd, sizeDelta) > cfg.maxLongOi
    else SatAdd(pool.shortOiUsd, sizeDelta) > cfg.maxShortOi
  }

  /** The leverage test, made only when both size and collateral are
      positive: `size * 10_000 / collateral > max_leverage * 10_000`. */
  predicate ExceedsMaxLeverage(sizeUsd: u128, collateralUsd: u128, maxLeverage: u8)
  {
    collateralUsd > 0 && sizeUsd > 0 && SatMul(sizeUsd, BPS) / collateralUsd > SatMul(maxLeverage, BPS)
  }

  /** Without saturation the test fails exactly when the size reaches
      `max_leverage + 1/10_000` times the collateral: a size up to
      `max_leverage * collateral` always passes. */
  lemma MaxLeverageExact(sizeUsd: u128, collateralUsd: u128, maxLeverage: u8)
    requires collateralUsd > 0 && sizeUsd > 0 && sizeUsd * BPS <= U128_MAX
    ensures (ExceedsMaxLeverage(sizeUsd, collateralUsd, maxLeverage)
             <==> sizeUsd * BPS >= (maxLeverage * BPS + 1) * collateralUsd)
  {
    var a, m := sizeUsd * BPS, maxLeverage * BPS;
    if a >= (m + 1) * collateralUsd {
      LeDivOfMulLe(m + 1, collateralUsd, a);
    } else {
      DivLtOfLtMul(a, m + 1, collateralUsd);
    }
  }

  /** $10,000 on $1,000 of collateral at 10x passes; $10,001 fails. */
  lemma MaxLeverageExample()
    ensures !ExceedsMaxLeverage(10_000_000_000, 1_000_000_000, 10)
    ensures ExceedsMaxLeverage(10_001_000_000, 1_000_000_000, 10)
  {
  }

  /** The staged position as stored: the liquidation price is recomputed
      only when both size and collateral are positive. */
  function WithLiqPrice(pos: Position, liqBps: u16): (p: Position)
    ensures p == pos.(liquidationPriceUsd := p.liquidationPriceUsd)
    ensures pos.collateralUsd > 0 && pos.sizeUsd > 0 ==> p.liquidationPriceUsd == CalcLiqPrice(pos, liqBps)
  {
    if pos.collateralUsd > 0 && pos.sizeUsd > 0 then pos.(liquidationPriceUsd := CalcLiqPrice(pos, liqBps)) else pos
  }

  // ---------------------------------------------------------------- decrease

  /** The share of the whole position's PnL a decrease of `sizeDelta`
      realises, truncated toward zero. */
  function PnlShare(totalPnl: int, sizeDelta: u128, sizeUsd: u128): int
  {
    if sizeUsd == 0 then 0 else Quot(SatMulI(totalPnl, ToI128(sizeDelta)), ToI128(sizeUsd))
  }

  lemma QuotMulCancel(t: int, s: int)
    requires s > 0
    ensures Quot(t * s, s) == t
  {
    if t >= 0 {
      DivUnique(t * s, s, t, 0);
    } else {
      assert -(t * s) == (-t) * s;
      DivUnique((-t) * s, s, -t, 0);
    }
  }

  /** Closing the whole position realises its whole PnL (while the product
      does not saturate). */
  lemma PnlShareFull(totalPnl: int, sizeUsd: u128)
    requires 0 < sizeUsd <= I128_MAX && Abs(totalPnl * sizeUsd) <= I128_MAX
    ensures PnlShare(totalPnl, sizeUsd, sizeUsd) == totalPnl
  {
    QuotMulCancel(totalPnl, sizeUsd);
  }

  lemma QuotAbsLe(m: int, k: nat, s: int)
    requires s > 0 && Abs(m) <= k * s
    ensures Abs(Quot(m, s)) <= k
  {
    assert Abs(Quot(m, s)) == Abs(m) / s;
    DivLe(Abs(m), k * s, s);
    DivUnique(k * s, s, k, 0);
  }

  lemma AbsMul(t: int, d: nat)
    ensures Abs(t * d) == Abs(t) * d
  {
    if t < 0 {
      assert t * d == -((-t) * d);
    }
  }

  /** A partial decrease never realises more than the whole PnL. */
  lemma PnlShareBound(totalPnl: int, sizeDelta: u128, sizeUsd: u128)
    requires sizeDelta <= sizeUsd <= I128_MAX
    ensures Abs(PnlShare(totalPnl, sizeDelta, sizeUsd)) <= Abs(totalPnl)
  {
    if sizeUsd > 0 {
      AbsMul(totalPnl, sizeDelta);
      MulLe(sizeDelta, sizeUsd, Abs(totalPnl));
      QuotAbsLe(SatMulI(totalPnl, sizeDelta), Abs(totalPnl), sizeUsd);
    }
  }

  /** The decrease payout: the withdrawn collateral plus a profit, or minus a
      loss, floored at 0. */
  function Payout(collateralDelta: u128, pnlShare: int): (r: u128)
    ensures pnlShare >= 0 ==> r == ClampU(collateralDelta + pnlShare)
    ensures pnlShare < 0 ==> r == Max(0, collateralDelta + pnlShare)
  {
    if pnlShare >= 0 then SatAdd(collateralDelta, pnlShare)
    else collateralDelta - Min(collateralDelta, Abs(pnlShare))
  }

  /** The read-only phase of `decrease_position`: config, stored position,
      fee settlement (which needs the pool), then the two size checks. The
      result is the reduced position (before its liquidation price) and the
      payout. */
  function StagedDecrease(configs: map<Name, MarketConfig>, pools: map<Name, Pool>,
                          positions: map<PositionKey, Position>, key: PositionKey, market: Name,
                          sizeDelta: u128, collateralDelta: u128, exec: u128, now: u64, block: u32)
    : (r: Result<(Position, u128)>)
    ensures market !in configs ==> r == Err(MarketNotFound)
    ensures market in configs && key !in positions ==> r == Err(PositionNotFound)
    ensures r.Ok? ==> market in configs && market in pools && key in positions
                      && var s := Risk.Settle(positions[key], pools[market], configs[market], now);
                      && s.1.Ok? && sizeDelta <= s.0.sizeUsd && collateralDelta <= s.0.collateralUsd
                      && r.value.0 == s.0.(sizeUsd := s.0.sizeUsd - sizeDelta,
                                           collateralUsd := s.0.collateralUsd - collateralDelta,
                                           decreasedAtBlock := block)
                      && r.value.1 == Payout(collateralDelta, PnlShare(CalcPnl(s.0, exec), sizeDelta, s.0.sizeUsd))
    ensures r.Err? ==> r.error in {MarketNotFound, PositionNotFound, InsufficientCollateral, InsufficientPositionSize}
  {
    if market !in configs then Err(MarketNotFound)
    else if key !in positions then Err(PositionNotFound)
    else if market !in pools then Err(MarketNotFound)
    else
      var (p, res) := Risk.Settle(positions[key], pools[market], configs[market], now);
      if res.Err? then Err(res.error)
      else if sizeDelta > p.sizeUsd then Err(InsufficientPositionSize)
      else if collateralDelta > p.collateralUsd then Err(InsufficientCollateral)
      else
        var totalPnl := CalcPnl(p, exec);
        var pnlPartial := PnlShare(totalPnl, sizeDelta, p.sizeUsd);
        var reduced := p.(sizeUsd := p.sizeUsd - sizeDelta,
                          collateralUsd := p.collateralUsd - collateralDelta,
                          decreasedAtBlock := block);
        Ok((reduced, Payout(collateralDelta, pnlPartial)))
  }

  /** The pool after a decrease: the side's OI and liquidity drop,
      saturating at 0; `liquidity_usd` is not touched. */
  function DecreasePool(pool: Pool, isLong: bool, sizeDelta: u128, collateralDelta: u128): (r: Pool)
    ensures isLong ==> r == pool.(longOiUsd := SatSub(pool.longOiUsd, sizeDelta),
                                  longLiquidityUsd := SatSub(pool.longLiquidityUsd, collateralDelta))
    ensures !isLong ==> r == pool.(shortOiUsd := SatSub(pool.shortOiUsd, sizeDelta),
                                   shortLiquidityUsd := SatSub(pool.shortLiquidityUsd, collateralDelta))
  {
    if isLong then
      pool.(longOiUsd := SatSub(pool.longOiUsd, sizeDelta),
            longLiquidityUsd := SatSub(pool.longLiquidityUsd, collateralDelta))
    else
      pool.(shortOiUsd := SatSub(pool.shortOiUsd, sizeDelta),
            shortLiquidityUsd := SatSub(pool.shortLiquidityUsd, collateralDelta))
  }

  /** Without saturation, a decrease undoes the OI and liquidity an increase
      of the same amounts added. */
  lemma DecreaseUndoesIncrease(pool: Pool, isLong: bool, sizeDelta: u128, collateralDelta: u128)
    requires pool.longOiUsd + sizeDelta <= U128_MAX && pool.shortOiUsd + sizeDelta <= U128_MAX
    requires pool.longLiquidityUsd + collateralDelta <= U128_MAX && pool.shortLiquidityUsd + collateralDelta <= U128_MAX
    ensures DecreasePool(IncreasePool(pool, isLong, sizeDelta, collateralDelta), isLong, sizeDelta, collateralDelta) == pool
  {
  }
}
