/** The exchange ledger as one mutable object (`PerpetualDEXState`,
    `lib.rs`): every table is a field, and every call the modules and
    services serve is a method that updates those fields step by step, in
    the source's order. Each method is proved to leave the ledger in the
    state, and to return the result, that the matching `Exchange` transition
    prescribes; the properties of the transitions are proved there. */
module Dex {
  import opened Arith
  import opened Types
  import Utils
  import Oracle
  import Risk
  import Pricing
  import Positions
  import Liquidity
  import Orders
  import Exchange

  /** The bytes of a request key: a zeroed 32-byte buffer whose first eight
      bytes receive the counter in little-endian order. */
  method RequestKeyBytes(id: u64) returns (key: RequestKey)
    ensures key == Utils.RequestKeyOf(id)
    ensures Exchange.KeyId(key) == id
  {
    var bytes := new u8[32](_ => 0);
    var x: nat := id;
    var i := 0;
    while i < 8
      invariant 0 <= i <= 8
      invariant bytes[..i] + Utils.LeBytes(x, 8 - i) == Utils.LeBytes(id, 8)
      invariant forall j :: i <= j < 32 ==> bytes[j] == 0
    {
      ghost var before := bytes[..i];
      bytes[i] := x % 256;
      assert bytes[..i + 1] == before + [x % 256];
      x := x / 256;
      i := i + 1;
    }
    assert bytes[..8] == Utils.LeBytes(id, 8);
    assert bytes[..] == bytes[..8] + bytes[8..];
    assert bytes[8..] == seq(24, _ => 0);
    key := bytes[..];
    Exchange.KeyIdOf(id);
  }

  class Ledger {
    var markets: map<Name, Market>
    var configs: map<Name, MarketConfig>
    var pools: map<Name, Pool>
    var tokens: map<Name, TokenInfo>
    var positions: map<PositionKey, Position>
    var accountPositions: map<ActorId, seq<PositionKey>>
    var orders: map<RequestKey, Order>
    var accountOrders: map<ActorId, seq<RequestKey>>
    var orderCounter: u64
    var oracle: Oracle.OracleState
    var admin: ActorId
    var keepers: seq<ActorId>
    var liquidators: seq<ActorId>
    var nextRequestId: u64
    var balances: map<ActorId, u128>
    /** `keccak_256`, which turns a position preimage into its key. */
    const keccak: Hasher

    /** The ledger's tables as one value. */
    function State(): Exchange.DexState
      reads this
    {
      Exchange.DexState(markets, configs, pools, tokens, positions, accountPositions, orders, accountOrders,
                        orderCounter, oracle, admin, keepers, liquidators, nextRequestId, balances)
    }

    /** `PerpetualDEXState::new`. */
    constructor (admin: ActorId, keccak: Hasher)
      ensures State() == Exchange.NewState(admin) && this.keccak == keccak
      ensures Exchange.Valid(State(), keccak)
    {
      markets := map[];
      configs := map[];
      pools := map[];
      tokens := map[];
      positions := map[];
      accountPositions := map[];
      orders := map[];
      accountOrders := map[];
      orderCounter := 0;
      oracle := Oracle.NewOracleState();
      this.admin := admin;
      keepers := [];
      liquidators := [];
      nextRequestId := 1;
      balances := map[];
      this.keccak := keccak;
      new;
      Exchange.NewStateValid(admin, keccak);
    }

    // -------------------------------------------------------------- lib.rs

    /** `generate_request_key`: the key for the current counter, then the
        counter moves on (an overflow there traps and discards the call). */
    method GenerateRequestKey() returns (r: Result<RequestKey>)
      modifies this
      ensures var o := Exchange.GenerateRequestKey(old(State()));
              State() == o.state && r == o.result
    {
      if nextRequestId == U64_MAX {
        return Err(Trap);
      }
      var key := RequestKeyBytes(nextRequestId);
      nextRequestId := nextRequestId + 1;
      return Ok(key);
    }

    // -------------------------------------------------------------- oracle.rs

    /** `set_prices`: the batch in order; a stale entry ends the call with
        `PriceStale`, the entries before it staying written. */
    method SetPrices(batch: seq<Oracle.SignedPrice>, now: u64) returns (r: Result<()>)
      modifies this
      ensures var o := Exchange.SetPrices(old(State()), batch, now);
              State() == o.state && r == o.result
    {
      var i := 0;
      while i < |batch|
        invariant 0 <= i <= |batch|
        invariant forall j :: 0 <= j < i ==> !Oracle.IsStale(now, batch[j].timestamp, old(oracle).config.maxAgeSeconds)
        invariant oracle == Oracle.ApplyPrices(old(oracle), batch[..i])
        invariant State() == old(State()).(oracle := oracle)
      {
        var sp := batch[i];
        if Oracle.IsStale(now, sp.timestamp, oracle.config.maxAgeSeconds) {
          assert Oracle.FirstStale(batch, now, old(oracle).config.maxAgeSeconds) == i;
          return Err(PriceStale);
        }
        Oracle.SignatureCheckNeverFails(sp);
        assert batch[..i + 1][..i] == batch[..i];
        oracle := oracle.(prices := oracle.prices[sp.token := sp.price]);
        oracle := oracle.(timestamps := oracle.timestamps[sp.token := sp.timestamp]);
        oracle := oracle.(lastSigner := oracle.lastSigner[sp.token := sp.signer]);
        i := i + 1;
      }
      assert batch[..i] == batch;
      return Ok(());
    }

    /** `set_config`. */
    method SetOracleConfig(caller: ActorId, cfg: Oracle.OracleConfig) returns (r: Result<()>)
      modifies this
      ensures var o := Exchange.SetOracleConfig(old(State()), caller, cfg);
              State() == o.state && r == o.result
    {
      if caller != admin {
        return Err(Unauthorized);
      }
      oracle := oracle.(config := cfg);
      return Ok(());
    }

    // -------------------------------------------------------------- risk.rs

    /** `accrue_pool`: the market's pool brought forward in place. */
    method AccruePool(market: Name, now: u64) returns (r: Result<()>)
      modifies this
      ensures var o := Exchange.AccruePool(old(State()), market, now);
              State() == o.state && r == o.result
    {
      if market !in configs || market !in pools {
        return Err(MarketNotFound);
      }
      pools := pools[market := Risk.Accrue(pools[market], configs[market], now)];
      return Ok(());
    }

    // -------------------------------------------------------------- position.rs

    /** `increase_position`: the read-only phase on a snapshot, then the
        write phase. */
    method IncreasePosition(account: ActorId, market: Name, collateralToken: Name, isLong: bool, sizeDelta: u128,
                            collateralDelta: u128, exec: u128, now: u64, block: u32) returns (r: Result<PositionKey>)
      modifies this
      ensures var o := Exchange.IncreasePosition(old(State()), keccak, account, market, collateralToken, isLong,
                                                 sizeDelta, collateralDelta, exec, now, block);
              State() == o.state && r == o.result
    {
      var key := Utils.PositionKey(keccak, account, market, collateralToken, isLong);
      var staged := Positions.StagedIncrease(configs, pools, balances, positions, key, account, market, collateralToken,
                                             isLong, sizeDelta, collateralDelta, exec, now, block);
      if staged.Err? {
        return Err(staged.error);
      }
      var (pos, isNew) := staged.value;
      r := IncreaseWrites(key, account, market, isLong, sizeDelta, collateralDelta, pos, isNew);
    }

    /** The writes of an increase, in order: the pool entry, the OI check,
        OI, side liquidity and the balance, the leverage check, the owner's
        key list and the position. */
    method IncreaseWrites(key: PositionKey, account: ActorId, market: Name, isLong: bool, sizeDelta: u128,
                          collateralDelta: u128, pos: Position, isNew: bool) returns (r: Result<PositionKey>)
      requires market in configs
      modifies this
      ensures var o := Exchange.IncreaseWrites(old(State()), key, account, market, isLong, sizeDelta, collateralDelta,
                                               pos, isNew);
              State() == o.state && r == o.result
    {
      var cfg := configs[market];
      // `entry(market).or_insert_with(PoolAmounts::default)`: the entry is
      // written even when the OI check then fails.
      var pool := Exchange.PoolOrDefault(pools, market);
      if Positions.ExceedsMaxOi(pool, cfg, isLong, sizeDelta) {
        pools := pools[market := pool];
        return Err(MaxOpenInterestExceeded);
      }
      Grow(account, market, isLong, sizeDelta, collateralDelta);
      if Positions.ExceedsMaxLeverage(pos.sizeUsd, pos.collateralUsd, cfg.maxLeverage) {
        return Err(MaxLeverageExceeded);
      }
      if isNew {
        ListPosition(account, key);
      }
      positions := positions[key := Positions.WithLiqPrice(pos, cfg.liquidationThresholdBps)];
      return Ok(key);
    }

    /** OI and liquidity of the position's side grow, and the collateral
        leaves the owner's balance (an entry of 0 is created if missing). */
    method Grow(account: ActorId, market: Name, isLong: bool, sizeDelta: u128, collateralDelta: u128)
      modifies this
      ensures State() == Exchange.Grown(old(State()), account, market, isLong, sizeDelta, collateralDelta)
    {
      var pool := Exchange.PoolOrDefault(pools, market);
      pools := pools[market := Positions.IncreasePool(pool, isLong, sizeDelta, collateralDelta)];
      balances := balances[account := SatSub(BalanceOf(balances, account), collateralDelta)];
    }

    /** `entry(account).or_insert_with(Vec::new).push(key)`. */
    method ListPosition(account: ActorId, key: PositionKey)
      modifies this
      ensures State() == old(State()).(accountPositions := old(accountPositions)[account := Exchange.KeysOf(old(accountPositions), account) + [key]])
    {
      accountPositions := accountPositions[account := Exchange.KeysOf(accountPositions, account) + [key]];
    }

    /** `decrease_position`: the read-only phase, then the write phase. */
    method DecreasePosition(account: ActorId, market: Name, collateralToken: Name, isLong: bool, sizeDelta: u128,
                            collateralDelta: u128, exec: u128, now: u64, block: u32) returns (r: Result<PositionKey>)
      modifies this
      ensures var o := Exchange.DecreasePosition(old(State()), keccak, account, market, collateralToken, isLong,
                                                 sizeDelta, collateralDelta, exec, now, block);
              State() == o.state && r == o.result
    {
      var key := Utils.PositionKey(keccak, account, market, collateralToken, isLong);
      var staged := Positions.StagedDecrease(configs, pools, positions, key, market, sizeDelta, collateralDelta,
                                             exec, now, block);
      if staged.Err? {
        return Err(staged.error);
      }
      var (reduced, payout) := staged.value;
      r := DecreaseWrites(key, account, market, isLong, sizeDelta, collateralDelta, reduced, payout);
    }

    /** The writes of a decrease: OI, side liquidity and the payout, then the
        position stored again or removed with its key. */
    method DecreaseWrites(key: PositionKey, account: ActorId, market: Name, isLong: bool, sizeDelta: u128,
                          collateralDelta: u128, reduced: Position, payout: u128) returns (r: Result<PositionKey>)
      requires market in configs && market in pools
      modifies this
      ensures var o := Exchange.DecreaseWrites(old(State()), key, account, market, isLong, sizeDelta, collateralDelta,
                                               reduced, payout);
              State() == o.state && r == o.result
    {
      var cfg := configs[market];
      Shrink(account, market, isLong, sizeDelta, collateralDelta, payout);
      if reduced.sizeUsd > 0 {
        positions := positions[key := reduced.(liquidationPriceUsd := Positions.CalcLiqPrice(reduced, cfg.liquidationThresholdBps))];
      } else {
        positions := positions - {key};
        UnlistPosition(account, key);
      }
      return Ok(key);
    }

    /** OI and liquidity of the position's side shrink, saturating, and the
        payout is credited to the owner. */
    method Shrink(account: ActorId, market: Name, isLong: bool, sizeDelta: u128, collateralDelta: u128, payout: u128)
      requires market in pools
      modifies this
      ensures State() == Exchange.Shrunk(old(State()), account, market, isLong, sizeDelta, collateralDelta, payout)
    {
      pools := pools[market := Positions.DecreasePool(pools[market], isLong, sizeDelta, collateralDelta)];
      balances := balances[account := SatAdd(BalanceOf(balances, account), payout)];
    }

    /** `iter().position` of the key in the owner's list, then `swap_remove`
        there; nothing happens without a list or without the key in it. */
    method UnlistPosition(account: ActorId, key: PositionKey)
      modifies this
      ensures State() == old(State()).(accountPositions := Exchange.RemoveKey(old(accountPositions), account, key))
    {
      if account in accountPositions {
        var found := Utils.IndexOf(accountPositions[account], key);
        if found.Some? {
          accountPositions := accountPositions[account := Utils.SwapRemove(accountPositions[account], found.value)];
        }
      }
    }

    // -------------------------------------------------------------- market.rs

    /** `create_market`. */
    method CreateMarket(caller: ActorId, id: Name, indexToken: Name, longToken: Name, shortToken: Name,
                        marketToken: ActorId, cfg: MarketConfig) returns (r: Result<()>)
      modifies this
      ensures var o := Exchange.CreateMarket(old(State()), caller, id, indexToken, longToken, shortToken, marketToken, cfg);
              State() == o.state && r == o.result
    {
      if caller != admin {
        return Err(Unauthorized);
      }
      if id in markets {
        return Err(MarketAlreadyExists);
      }
      InsertMarket(id, Market(marketToken, indexToken, longToken, shortToken), cfg);
      InsertEmptyPool(id);
      return Ok(());
    }

    /** The first two inserts of `create_market`: the market and its config. */
    method InsertMarket(id: Name, m: Market, cfg: MarketConfig)
      modifies this
      ensures State() == old(State()).(markets := old(markets)[id := m], configs := old(configs)[id := cfg])
    {
      markets := markets[id := m];
      configs := configs[id := cfg];
    }

    /** The last two inserts of `create_market`: an empty pool and an empty
        token ledger. */
    method InsertEmptyPool(id: Name)
      modifies this
      ensures State() == old(State()).(pools := old(pools)[id := EmptyPool], tokens := old(tokens)[id := EmptyTokenInfo])
    {
      pools := pools[id := EmptyPool];
      tokens := tokens[id := EmptyTokenInfo];
    }

    /** `set_market_config`. */
    method SetMarketConfig(caller: ActorId, id: Name, cfg: MarketConfig) returns (r: Result<()>)
      modifies this
      ensures var o := Exchange.SetMarketConfig(old(State()), caller, id, cfg);
              State() == o.state && r == o.result
    {
      if caller != admin {
        return Err(Unauthorized);
      }
      if id !in markets {
        return Err(MarketNotFound);
      }
      configs := configs[id := cfg];
      return Ok(());
    }

    /** `MarketModule::add_liquidity`: prices and snapshots, the mint and its
        floor, then the pool and the token ledger taken out of their maps,
        updated and inserted again. */
    method AddLiquidity(lp: ActorId, id: Name, longAmount: u128, shortAmount: u128, minMint: u128)
      returns (r: Result<u128>)
      modifies this
      ensures var o := Exchange.AddLiquidity(old(State()), lp, id, longAmount, shortAmount, minMint);
              State() == o.state && r == o.result
    {
      if id !in markets {
        return Err(MarketNotFound);
      }
      var m := markets[id];
      var longPrice := Oracle.Mid(oracle, m.longToken);
      if longPrice.Err? {
        return Err(longPrice.error);
      }
      var shortPrice := Oracle.Mid(oracle, m.shortToken);
      if shortPrice.Err? {
        return Err(shortPrice.error);
      }
      // `get(..).unwrap()` on the pool and the token ledger.
      if id !in pools || id !in tokens {
        return Err(Trap);
      }
      var pool := pools[id];
      var mt := tokens[id];
      var longUsd := Liquidity.TokenUsd(longAmount, longPrice.value);
      var shortUsd := Liquidity.TokenUsd(shortAmount, shortPrice.value);
      var mint := Liquidity.MintAmount(mt.totalSupply, pool.liquidityUsd, SatAdd(longUsd, shortUsd));
      if mint.Err? {
        return Err(mint.error);
      }
      if mint.value < minMint {
        return Err(SlippageExceeded);
      }
      TakeOut(id);
      pool := pool.(liquidityUsd := SatAdd(SatAdd(pool.liquidityUsd, longUsd), shortUsd));
      mt := TokenInfo(SatAdd(mt.totalSupply, mint.value), Liquidity.CreditLp(mt.balances, lp, mint.value));
      PutBack(id, pool, mt);
      return Ok(mint.value);
    }

    /** `MarketModule::remove_liquidity`: the quote and both minimums, then
        pool and ledger taken out of their maps, the LP's balance checked
        (an early return leaves them out), and both written back reduced. */
    method RemoveLiquidity(lp: ActorId, id: Name, amount: u128, minLongOut: u128, minShortOut: u128)
      returns (r: Result<(u128, u128)>)
      modifies this
      ensures var o := Exchange.RemoveLiquidity(old(State()), lp, id, amount, minLongOut, minShortOut);
              State() == o.state && r == o.result
    {
      if id !in markets {
        return Err(MarketNotFound);
      }
      var m := markets[id];
      var longPrice := Oracle.Mid(oracle, m.longToken);
      if longPrice.Err? {
        return Err(longPrice.error);
      }
      var shortPrice := Oracle.Mid(oracle, m.shortToken);
      if shortPrice.Err? {
        return Err(shortPrice.error);
      }
      if id !in pools || id !in tokens {
        return Err(Trap);
      }
      var pool := pools[id];
      var mt := tokens[id];
      if mt.totalSupply == 0 {
        return Err(InsufficientLiquidity);
      }
      var quote := Liquidity.WithdrawalQuote(pool.liquidityUsd, pool.claimableFeeUsdLong, pool.claimableFeeUsdShort,
                                             mt.totalSupply, amount, longPrice.value, shortPrice.value);
      if quote.Err? {
        return Err(quote.error);
      }
      var w := quote.value;
      if w.longOut < minLongOut || w.shortOut < minShortOut {
        return Err(SlippageExceeded);
      }
      TakeOut(id);
      if Liquidity.FindLp(mt.balances, lp).None? || Liquidity.LpBalance(mt.balances, lp) < amount {
        return Err(InsufficientMarketTokens);
      }
      var balances' := Liquidity.DebitLp(mt.balances, lp, amount);
      pool := pool.(liquidityUsd := SatSub(pool.liquidityUsd, w.liqUsd));
      pool := pool.(claimableFeeUsdLong := SatSub(pool.claimableFeeUsdLong, w.feeLongUsd),
                    claimableFeeUsdShort := SatSub(pool.claimableFeeUsdShort, w.feeShortUsd));
      PutBack(id, pool, TokenInfo(SatSub(mt.totalSupply, amount), balances'));
      return Ok((w.longOut, w.shortOut));
    }

    /** `remove(&market_id)` on the pool table and the token-ledger table. */
    method TakeOut(id: Name)
      modifies this
      ensures State() == old(State()).(pools := old(pools) - {id}, tokens := old(tokens) - {id})
    {
      pools := pools - {id};
      tokens := tokens - {id};
    }

    /** `insert(market_id, ..)` of the rewritten pool and token ledger into
        the tables they were taken from. */
    method PutBack(id: Name, pool: Pool, mt: TokenInfo)
      requires id !in pools && id !in tokens
      modifies this
      ensures State() == old(State()).(pools := old(pools)[id := pool], tokens := old(tokens)[id := mt])
    {
      pools := pools[id := pool];
      tokens := tokens[id := mt];
    }

    // -------------------------------------------------------------- market_service.rs

    /** The service's `add_liquidity`: the module call, then the minted amount
        credited to the LP a second time. */
    method AddLiquidityService(lp: ActorId, id: Name, longAmount: u128, shortAmount: u128, minMint: u128)
      returns (r: Result<u128>)
      modifies this
      ensures var o := Exchange.AddLiquidityService(old(State()), lp, id, longAmount, shortAmount, minMint);
              State() == o.state && r == o.result
    {
      r := AddLiquidity(lp, id, longAmount, shortAmount, minMint);
      if r.Err? {
        return;
      }
      // The module call has just written the ledger, so `get_mut` finds it.
      var mt := tokens[id];
      tokens := tokens[id := mt.(balances := Liquidity.CreditLp(mt.balances, lp, r.value))];
    }

    /** The service's `remove_liquidity`: its own balance check and debit,
        then the module call; a trap in the module discards the debit with
        the rest of the message. */
    method RemoveLiquidityService(lp: ActorId, id: Name, amount: u128, minLongOut: u128, minShortOut: u128)
      returns (r: Result<(u128, u128)>)
      modifies this
      ensures var o := Exchange.RemoveLiquidityService(old(State()), lp, id, amount, minLongOut, minShortOut);
              State() == o.state && r == o.result
    {
      if id !in tokens {
        return Err(MarketNotFound);
      }
      var mt := tokens[id];
      if Liquidity.FindLp(mt.balances, lp).None? || Liquidity.LpBalance(mt.balances, lp) < amount {
        return Err(InsufficientMarketTokens);
      }
      var saved := tokens;
      tokens := tokens[id := mt.(balances := Liquidity.DebitLp(mt.balances, lp, amount))];
      r := RemoveLiquidity(lp, id, amount, minLongOut, minShortOut);
      if r == Err(Trap) {
        tokens := saved;
      }
    }

    // -------------------------------------------------------------- wallet_service.rs

    /** `deposit`. */
    method Deposit(caller: ActorId, amount: u128) returns (r: Result<u128>)
      modifies this
      ensures var o := Exchange.Deposit(old(State()), caller, amount);
              State() == o.state && r == o.result
    {
      if amount == 0 {
        return Err(InvalidParameter);
      }
      var b := SatAdd(BalanceOf(balances, caller), amount);
      balances := balances[caller := b];
      return Ok(b);
    }

    /** `withdraw`. */
    method Withdraw(caller: ActorId, amount: u128) returns (r: Result<u128>)
      modifies this
      ensures var o := Exchange.Withdraw(old(State()), caller, amount);
              State() == o.state && r == o.result
    {
      if amount == 0 {
        return Err(InvalidParameter);
      }
      if caller !in balances || balances[caller] < amount {
        return Err(InsufficientBalance);
      }
      var b := SatSub(balances[caller], amount);
      balances := balances[caller := b];
      return Ok(b);
    }

    // -------------------------------------------------------------- trading.rs

    /** `execute_position_change`. */
    method PositionChange(caller: ActorId, p: OrderParams, price: u128, now: u64, block: u32)
      returns (r: Result<PositionKey>)
      modifies this
      ensures var o := Exchange.PositionChange(old(State()), keccak, caller, p, price, now, block);
              State() == o.state && r == o.result
    {
      var accrued := AccruePool(p.market, now);
      if accrued.Err? {
        return Err(accrued.error);
      }
      if Orders.IsIncreaseType(p.orderType) {
        r := IncreasePosition(caller, p.market, p.collateralToken, p.side == Long, p.sizeDeltaUsd,
                              p.collateralDeltaAmount, price, now, block);
      } else if Orders.IsDecreaseType(p.orderType) {
        r := DecreasePosition(caller, p.market, p.collateralToken, p.side == Long, p.sizeDeltaUsd,
                              p.collateralDeltaAmount, price, now, block);
      } else {
        r := Err(UnsupportedOrderType);
      }
    }

    /** `execute_market_order` and `execute_limit_order`. */
    method ExecuteNow(caller: ActorId, p: OrderParams, now: u64, block: u32) returns (r: Result<ExecutionResult>)
      modifies this
      ensures var o := Exchange.ExecuteNow(old(State()), keccak, caller, p, now, block);
              State() == o.state && r == o.result
    {
      if !Orders.IsMarketType(p.orderType) && !Orders.IsLimitType(p.orderType) {
        return Err(UnsupportedOrderType);
      }
      var q := Pricing.Quote(markets, configs, pools, oracle, p.market, p.side, p.sizeDeltaUsd,
                             Orders.IsIncreaseType(p.orderType));
      if q.Err? {
        return Err(q.error);
      }
      var accepted := Orders.ValidateExecutionPrice(p, q.value.executionPrice);
      if accepted.Err? {
        return Err(accepted.error);
      }
      var changed := PositionChange(caller, p, q.value.executionPrice, now, block);
      if changed.Err? {
        return Err(changed.error);
      }
      return Ok(PositionChanged(changed.value, q.value.executionPrice));
    }

    /** `save_order`. */
    method SaveOrder(caller: ActorId, p: OrderParams, now: u64, block: u32) returns (r: Result<ExecutionResult>)
      modifies this
      ensures var o := Exchange.SaveOrder(old(State()), caller, p, now, block);
              State() == o.state && r == o.result
    {
      var g := GenerateRequestKey();
      if g.Err? {
        return Err(g.error);
      }
      var key := g.value;
      orders := orders[key := Orders.NewOrder(key, caller, p, block, now)];
      accountOrders := accountOrders[caller := Exchange.KeysOf(accountOrders, caller) + [key]];
      return Ok(OrderSaved(key));
    }

    /** `create_order`, with the borrow conflict described at `Exchange.CreateOrder` abstracted away. */
    method CreateOrder(caller: ActorId, p: OrderParams, now: u64, block: u32) returns (r: Result<ExecutionResult>)
      modifies this
      ensures var o := Exchange.CreateOrder(old(State()), keccak, caller, p, now, block);
              State() == o.state && r == o.result
    {
      if p.market !in markets || p.market !in configs {
        return Err(MarketNotFound);
      }
      var valid := Orders.ValidateOrderParams(p);
      if valid.Err? {
        return Err(valid.error);
      }
      var pk := Utils.PriceKey(markets, p.market);
      var recent := Oracle.EnsureFresh(oracle, pk, now);
      if recent.Err? {
        return Err(recent.error);
      }
      if Orders.IsMarketType(p.orderType) {
        r := ExecuteNow(caller, p, now, block);
      } else if Orders.IsLimitType(p.orderType) {
        var mid := Oracle.Mid(oracle, pk);
        if mid.Err? {
          return Err(mid.error);
        }
        if Orders.CanExecuteLimitOrder(p, mid.value) {
          r := ExecuteNow(caller, p, now, block);
        } else {
          r := SaveOrder(caller, p, now, block);
        }
      } else {
        r := Err(UnsupportedOrderType);
      }
    }

    /** `execute_saved_order`: the read-only checks, the position change for
        the order's owner, the execution fee, and the order marked
        `Executed`. */
    method ExecuteSavedOrder(executor: ActorId, key: RequestKey, now: u64, block: u32) returns (r: Result<ExecutionResult>)
      modifies this
      ensures var o := Exchange.ExecuteSavedOrder(old(State()), keccak, executor, key, now, block);
              State() == o.state && r == o.result
    {
      var checked := Exchange.SavedOrderCheck(State(), key, now);
      if checked.Err? {
        return Err(checked.error);
      }
      var (order, exec) := checked.value;
      var changed := PositionChange(order.account, Orders.OrderToParams(order), exec, now, block);
      if changed.Err? {
        return Err(changed.error);
      }
      PayExecutionFee(order.account, executor, order.executionFee);
      // A position change never writes the order book, so the order is
      // still stored and still `Created` here.
      orders := orders[key := orders[key].(status := Executed, updatedAtBlock := block, updatedAtTime := now)];
      return Ok(PositionChanged(changed.value, exec));
    }

    /** The fee transfer of `execute_saved_order`. */
    method PayExecutionFee(owner: ActorId, executor: ActorId, fee: u128)
      modifies this
      ensures State() == old(State()).(balances := Orders.PayExecutionFee(old(balances), owner, executor, fee))
    {
      if executor != owner && fee > 0 {
        if owner in balances {
          var b := balances[owner];
          if b >= fee {
            balances := balances[owner := SatSub(b, fee)];
            balances := balances[executor := SatAdd(BalanceOf(balances, executor), fee)];
          }
        }
      }
    }

    /** `update_order`. */
    method UpdateOrder(caller: ActorId, key: RequestKey, u: UpdateParams, now: u64, block: u32) returns (r: Result<()>)
      modifies this
      ensures var o := Exchange.UpdateOrder(old(State()), caller, key, u, now, block);
              State() == o.state && r == o.result
    {
      if key !in orders {
        return Err(OrderNotFound);
      }
      var o := orders[key];
      if o.account != caller {
        return Err(Unauthorized);
      }
      if o.status != Created {
        return Err(OrderAlreadyProcessed);
      }
      if u.sizeDeltaUsd.Some? {
        o := o.(sizeDeltaUsd := u.sizeDeltaUsd.value);
      }
      if u.triggerPrice.Some? {
        o := o.(triggerPrice := u.triggerPrice.value);
      }
      if u.acceptablePrice.Some? {
        o := o.(acceptablePrice := u.acceptablePrice.value);
      }
      orders := orders[key := o.(updatedAtBlock := block, updatedAtTime := now)];
      return Ok(());
    }

    /** `cancel_order`. */
    method CancelOrder(caller: ActorId, key: RequestKey, now: u64, block: u32) returns (r: Result<()>)
      modifies this
      ensures var o := Exchange.CancelOrder(old(State()), caller, key, now, block);
              State() == o.state && r == o.result
    {
      if key !in orders {
        return Err(OrderNotFound);
      }
      var o := orders[key];
      if o.account != caller {
        return Err(Unauthorized);
      }
      if o.status != Created {
        return Err(OrderAlreadyProcessed);
      }
      orders := orders[key := o.(status := Cancelled, updatedAtBlock := block, updatedAtTime := now)];
      return Ok(());
    }

    // -------------------------------------------------------------- executor_service.rs

    /** `liquidate_position`, with the borrow conflict described at `Exchange.Liquidate` abstracted away. */
    method Liquidate(liquidator: ActorId, key: PositionKey, now: u64, block: u32) returns (r: Result<()>)
      modifies this
      ensures var o := Exchange.Liquidate(old(State()), keccak, liquidator, key, now, block);
              State() == o.state && r == o.result
    {
      if liquidator !in keepers && liquidator !in liquidators {
        return Err(NotLiquidator);
      }
      if key !in positions {
        return Err(PositionNotFound);
      }
      var pos := positions[key];
      var price := Oracle.Mid(oracle, pos.market);
      if price.Err? {
        return Err(price.error);
      }
      if pos.market !in configs {
        return Err(MarketNotFound);
      }
      if !Risk.IsLiquidatable(pos, price.value, configs[pos.market].liquidationThresholdBps) {
        return Err(PositionNotLiquidatable);
      }
      var closed := DecreasePosition(pos.account, pos.market, pos.collateralToken, pos.isLong, pos.sizeUsd,
                                     pos.collateralUsd, price.value, now, block);
      if closed.Err? {
        return Err(closed.error);
      }
      return Ok(());
    }

    /** `get_liquidatable_positions`: every stored position is visited once
        (in the map's own order, which the model leaves open) and reported
        when its market id has a price and a config and it is liquidatable
        there. */
    method GetLiquidatablePositions() returns (keys: seq<PositionKey>)
      ensures forall k :: k in keys <==> k in positions && Exchange.LiquidatableNow(State(), k)
      ensures forall i, j :: 0 <= i < j < |keys| ==> keys[i] != keys[j]
    {
      keys := [];
      var rest := positions.Keys;
      while rest != {}
        invariant rest <= positions.Keys
        invariant forall k :: k in keys <==> k in positions && k !in rest && Exchange.LiquidatableNow(State(), k)
        invariant forall i, j :: 0 <= i < j < |keys| ==> keys[i] != keys[j]
        decreases |rest|
      {
        var k :| k in rest;
        var pos := positions[k];
        var price := Oracle.Mid(oracle, pos.market);
        if price.Ok? && pos.market in configs
           && Risk.IsLiquidatable(pos, price.value, configs[pos.market].liquidationThresholdBps) {
          keys := keys + [k];
        }
        rest := rest - {k};
      }
    }

    /** `get_executable_orders`: the pending orders, each reported when its
        market id has a price and its trigger holds at that mid. */
    method GetExecutableOrders() returns (keys: seq<RequestKey>)
      ensures forall k :: k in keys <==> k in orders && Exchange.ExecutableNow(State(), k)
      ensures forall i, j :: 0 <= i < j < |keys| ==> keys[i] != keys[j]
    {
      keys := [];
      var rest := Exchange.PendingOrders(State());
      while rest != {}
        invariant rest <= Exchange.PendingOrders(State())
        invariant forall k :: k in keys <==> k in orders && k !in rest && Exchange.ExecutableNow(State(), k)
        invariant forall i, j :: 0 <= i < j < |keys| ==> keys[i] != keys[j]
        decreases |rest|
      {
        var k :| k in rest;
        var order := orders[k];
        var mid := Oracle.Mid(oracle, order.market);
        if mid.Ok? && Orders.Triggered(order.orderType, order.isLong, order.triggerPrice, mid.value) {
          keys := keys + [k];
        }
        rest := rest - {k};
      }
    }
  }
}
