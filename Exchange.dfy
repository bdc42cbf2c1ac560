/** The exchange's whole state (`PerpetualDEXState`, `lib.rs`) as a value,
    and every call the ledger serves as a transition from that value to the
    next one together with the call's result. Each transition writes what
    the source writes, in the source's order, including the writes that
    stay in place when the call ends in an error. `Dex.Ledger` performs the
    same steps on its fields. */
module Exchange {
  import opened Arith
  import opened Types
  import Utils
  import Oracle
  import Risk
  import Pricing
  import Positions
  import Liquidity
  import Orders

  datatype DexState = DexState(
    markets: map<Name, Market>,
    configs: map<Name, MarketConfig>,
    pools: map<Name, Pool>,
    tokens: map<Name, TokenInfo>,
    positions: map<PositionKey, Position>,
    accountPositions: map<ActorId, seq<PositionKey>>,
    orders: map<RequestKey, Order>,
    accountOrders: map<ActorId, seq<RequestKey>>,
    orderCounter: u64,
    oracle: Oracle.OracleState,
    admin: ActorId,
    keepers: seq<ActorId>,
    liquidators: seq<ActorId>,
    nextRequestId: u64,
    balances: map<ActorId, u128>)

  /** The state after a call and the call's result. */
  datatype Outcome<T> = Outcome(state: DexState, result: Result<T>)

  /** `PerpetualDEXState::new`. */
  function NewState(admin: ActorId): (s: DexState)
    ensures s.markets == map[] && s.configs == map[] && s.pools == map[] && s.tokens == map[]
    ensures s.positions == map[] && s.accountPositions == map[] && s.orders == map[] && s.accountOrders == map[]
    ensures s.balances == map[] && s.keepers == [] && s.liquidators == []
    ensures s.orderCounter == 0 && s.nextRequestId == 1 && s.admin == admin
    ensures s.oracle == Oracle.NewOracleState()
  {
    DexState(map[], map[], map[], map[], map[], map[], map[], map[], 0, Oracle.NewOracleState(),
             admin, [], [], 1, map[])
  }

  predicate IsAdmin(s: DexState, actor: ActorId) { s.admin == actor }
  predicate IsKeeper(s: DexState, actor: ActorId) { actor in s.keepers }
  predicate IsLiquidator(s: DexState, actor: ActorId) { actor in s.liquidators }

  /** An account's key list, empty when it has none. */
  function KeysOf<K>(m: map<ActorId, seq<K>>, account: ActorId): seq<K>
  {
    if account in m then m[account] else []
  }

  /** `entry(market).or_insert_with(PoolAmounts::default)`. */
  function PoolOrDefault(pools: map<Name, Pool>, market: Name): Pool
  {
    if market in pools then pools[market] else EmptyPool
  }

  // ---------------------------------------------------------------- invariant

  /** The counter value a request key encodes in its first eight bytes. */
  function KeyId(k: RequestKey): nat
  {
    Utils.FromLe(k[..8])
  }

  lemma KeyIdOf(id: u64)
    ensures KeyId(Utils.RequestKeyOf(id)) == id
  {
    Utils.U64BelowPow256(id);
    Utils.FromLeOfLeBytes(id, 8);
  }

  /** A position is stored under the key its own identity hashes to. */
  predicate StoredUnderOwnKey(hash: Hasher, k: PositionKey, p: Position)
  {
    p.key == k && k == Utils.PositionKey(hash, p.account, p.market, p.collateralToken, p.isLong)
  }

  /** What every reachable state satisfies: the request counter is positive,
      every order is keyed by a request key already issued, and every
      position sits under its own key. */
  predicate Valid(s: DexState, hash: Hasher)
  {
    && s.nextRequestId >= 1
    && (forall k :: k in s.orders ==> 1 <= KeyId(k) < s.nextRequestId)
    && (forall k :: k in s.positions ==> StoredUnderOwnKey(hash, k, s.positions[k]))
  }

  lemma NewStateValid(admin: ActorId, hash: Hasher)
    ensures Valid(NewState(admin), hash)
  {
  }

  // ---------------------------------------------------------------- lib.rs

  /** `generate_request_key`: the counter's little-endian bytes, zero padded,
      then the counter moves on. At `u64::MAX` the increment overflows and
      the call traps. */
  function GenerateRequestKey(s: DexState): (o: Outcome<RequestKey>)
    ensures o.result.Ok? <==> s.nextRequestId < U64_MAX
    ensures o.result.Ok? ==> o.result.value == Utils.RequestKeyOf(s.nextRequestId)
                             && KeyId(o.result.value) == s.nextRequestId
                             && o.state == s.(nextRequestId := s.nextRequestId + 1)
    ensures o.result.Err? ==> o == Outcome(s, Err(Trap))
  {
    if s.nextRequestId == U64_MAX then Outcome(s, Err(Trap))
    else
      KeyIdOf(s.nextRequestId);
      Outcome(s.(nextRequestId := s.nextRequestId + 1), Ok(Utils.RequestKeyOf(s.nextRequestId)))
  }

  /** Two keys issued one after the other differ, and neither is the
      all-zero key. */
  lemma SuccessiveRequestKeysDistinct(s: DexState)
    requires s.nextRequestId >= 1
    requires GenerateRequestKey(s).result.Ok?
    requires GenerateRequestKey(GenerateRequestKey(s).state).result.Ok?
    ensures var k1 := GenerateRequestKey(s).result.value;
            var k2 := GenerateRequestKey(GenerateRequestKey(s).state).result.value;
            k1 != k2 && k1 != seq(32, _ => 0) && k2 != seq(32, _ => 0)
  {
    Utils.RequestKeyNonZero(s.nextRequestId);
    Utils.RequestKeyNonZero(s.nextRequestId + 1);
  }

  /** In a valid state the next request key names no stored order. */
  lemma FreshRequestKey(s: DexState, hash: Hasher)
    requires Valid(s, hash) && GenerateRequestKey(s).result.Ok?
    ensures GenerateRequestKey(s).result.value !in s.orders
  {
  }

  // ---------------------------------------------------------------- oracle.rs

  /** `set_prices`: the entries before the first stale one are written in
      order, each overwriting its token's price, timestamp and signer; a
      stale entry stops the batch with `PriceStale` and the earlier writes
      stay. (`verify_signature` accepts every entry.) */
  function SetPrices(s: DexState, batch: seq<Oracle.SignedPrice>, now: u64): (o: Outcome<()>)
    ensures o.state == s.(oracle := o.state.oracle)
    ensures o.result.Ok? <==> forall i :: 0 <= i < |batch| ==> !Oracle.IsStale(now, batch[i].timestamp, s.oracle.config.maxAgeSeconds)
    ensures o.result.Err? ==> o.result.error == PriceStale
  {
    var k := Oracle.FirstStale(batch, now, s.oracle.config.maxAgeSeconds);
    Outcome(s.(oracle := Oracle.ApplyPrices(s.oracle, batch[..k])), if k == |batch| then Ok(()) else Err(PriceStale))
  }

  /** Publishing prices never changes the oracle's configuration. */
  lemma SetPricesKeepsConfig(s: DexState, batch: seq<Oracle.SignedPrice>, now: u64)
    ensures SetPrices(s, batch, now).state.oracle.config == s.oracle.config
  {
    var k := Oracle.FirstStale(batch, now, s.oracle.config.maxAgeSeconds);
    assert SetPrices(s, batch, now).state.oracle == Oracle.ApplyPrices(s.oracle, batch[..k]);
  }

  /** A batch whose second entry is stale still writes its first entry. */
  lemma SetPricesNotAtomic(s: DexState, batch: seq<Oracle.SignedPrice>, now: u64)
    requires |batch| >= 2
    requires !Oracle.IsStale(now, batch[0].timestamp, s.oracle.config.maxAgeSeconds)
    requires Oracle.IsStale(now, batch[1].timestamp, s.oracle.config.maxAgeSeconds)
    ensures var o := SetPrices(s, batch, now);
            o.result == Err(PriceStale)
            && batch[0].token in o.state.oracle.prices && o.state.oracle.prices[batch[0].token] == batch[0].price
  {
    assert Oracle.FirstStale(batch, now, s.oracle.config.maxAgeSeconds) == 1;
    Oracle.ApplyPricesLastWins(s.oracle, batch[..1], 0);
  }

  /** `set_config`: admin only; replaces the oracle's configuration. */
  function SetOracleConfig(s: DexState, caller: ActorId, cfg: Oracle.OracleConfig): (o: Outcome<()>)
    ensures !IsAdmin(s, caller) ==> o == Outcome(s, Err(Unauthorized))
    ensures IsAdmin(s, caller) ==> o == Outcome(s.(oracle := s.oracle.(config := cfg)), Ok(()))
  {
    if !IsAdmin(s, caller) then Outcome(s, Err(Unauthorized))
    else Outcome(s.(oracle := s.oracle.(config := cfg)), Ok(()))
  }

  // ---------------------------------------------------------------- risk.rs

  /** `accrue_pool`: the config, then the pool, must exist; the pool is then
      brought forward to `now`. */
  function AccruePool(s: DexState, market: Name, now: u64): (o: Outcome<()>)
    ensures o.result.Ok? <==> market in s.configs && market in s.pools
    ensures o.result.Err? ==> o == Outcome(s, Err(MarketNotFound))
    ensures o.result.Ok? ==> o.state == s.(pools := s.pools[market := Risk.Accrue(s.pools[market], s.configs[market], now)])
    ensures SameOrderBook(s, o.state)
  {
    if market !in s.configs || market !in s.pools then Outcome(s, Err(MarketNotFound))
    else Outcome(s.(pools := s.pools[market := Risk.Accrue(s.pools[market], s.configs[market], now)]), Ok(()))
  }

  // ---------------------------------------------------------------- position.rs

  /** The state once an increase has passed the OI check: the side's OI and
      liquidity have grown and the collateral has left the owner's balance. */
  function Grown(s: DexState, account: ActorId, market: Name, isLong: bool, sizeDelta: u128, collateralDelta: u128)
    : DexState
  {
    s.(pools := s.pools[market := Positions.IncreasePool(PoolOrDefault(s.pools, market), isLong, sizeDelta, collateralDelta)],
       balances := s.balances[account := SatSub(BalanceOf(s.balances, account), collateralDelta)])
  }

  /** The write phase of `increase_position`, for the position `pos` the
      read-only phase produced (`isNew` when it was created): the pool entry
      is created if missing, the OI limit is checked, OI, side liquidity and
      the balance are written, and only then is the leverage limit checked;
      the position is stored with its liquidation price and, when new,
      listed for its owner. */
  function IncreaseWrites(s: DexState, key: PositionKey, account: ActorId, market: Name, isLong: bool,
                          sizeDelta: u128, collateralDelta: u128, pos: Position, isNew: bool): (o: Outcome<PositionKey>)
    requires market in s.configs
    ensures o.result.Err? ==> o.result.error in {MaxOpenInterestExceeded, MaxLeverageExceeded}
    ensures o.result == Err(MaxOpenInterestExceeded) <==>
              Positions.ExceedsMaxOi(PoolOrDefault(s.pools, market), s.configs[market], isLong, sizeDelta)
    ensures o.result == Err(MaxOpenInterestExceeded) ==>
              o.state == s.(pools := s.pools[market := PoolOrDefault(s.pools, market)])
    ensures o.result == Err(MaxLeverageExceeded) ==>
              o.state == Grown(s, account, market, isLong, sizeDelta, collateralDelta)
              && Positions.ExceedsMaxLeverage(pos.sizeUsd, pos.collateralUsd, s.configs[market].maxLeverage)
    ensures o.result.Ok? ==>
              var g := Grown(s, account, market, isLong, sizeDelta, collateralDelta);
              && o.result.value == key
              && !Positions.ExceedsMaxLeverage(pos.sizeUsd, pos.collateralUsd, s.configs[market].maxLeverage)
              && o.state == g.(positions := s.positions[key := Positions.WithLiqPrice(pos, s.configs[market].liquidationThresholdBps)],
                               accountPositions := if isNew then s.accountPositions[account := KeysOf(s.accountPositions, account) + [key]]
                                                   else s.accountPositions)
  {
    var cfg := s.configs[market];
    var pool := PoolOrDefault(s.pools, market);
    if Positions.ExceedsMaxOi(pool, cfg, isLong, sizeDelta) then
      Outcome(s.(pools := s.pools[market := pool]), Err(MaxOpenInterestExceeded))
    else
      var s1 := Grown(s, account, market, isLong, sizeDelta, collateralDelta);
      if Positions.ExceedsMaxLeverage(pos.sizeUsd, pos.collateralUsd, cfg.maxLeverage) then
        Outcome(s1, Err(MaxLeverageExceeded))
      else
        var stored := Positions.WithLiqPrice(pos, cfg.liquidationThresholdBps);
        var ap := if isNew then s1.accountPositions[account := KeysOf(s1.accountPositions, account) + [key]]
                  else s1.accountPositions;
        Outcome(s1.(positions := s1.positions[key := stored], accountPositions := ap), Ok(key))
  }

  /** `increase_position`: the read-only phase (config, balance, settlement
      of a stored position) fails without writing; the write phase may
      still fail after the pool entry, or the pool and the balance, have
      been written. */
  function IncreasePosition(s: DexState, hash: Hasher, account: ActorId, market: Name, collateralToken: Name,
                            isLong: bool, sizeDelta: u128, collateralDelta: u128, exec: u128, now: u64, block: u32)
    : (o: Outcome<PositionKey>)
    ensures o.result.Err? ==> o.result.error in {MarketNotFound, InsufficientBalance, InsufficientCollateral,
                                                MaxOpenInterestExceeded, MaxLeverageExceeded}
    ensures o.result.Err? && o.result.error in {MarketNotFound, InsufficientBalance, InsufficientCollateral} ==>
              o.state == s
    ensures o.result == Err(MaxOpenInterestExceeded) ==>
              o.state == s.(pools := s.pools[market := PoolOrDefault(s.pools, market)])
    ensures o.result == Err(MaxLeverageExceeded) ==>
              o.state == Grown(s, account, market, isLong, sizeDelta, collateralDelta)
    ensures o.result.Ok? ==> o.result.value == Utils.PositionKey(hash, account, market, collateralToken, isLong)
    ensures SameOrderBook(s, o.state)
  {
    var key := Utils.PositionKey(hash, account, market, collateralToken, isLong);
    match Positions.StagedIncrease(s.configs, s.pools, s.balances, s.positions, key, account, market, collateralToken,
                                   isLong, sizeDelta, collateralDelta, exec, now, block)
    case Err(e) => Outcome(s, Err(e))
    case Ok((pos, isNew)) => IncreaseWrites(s, key, account, market, isLong, sizeDelta, collateralDelta, pos, isNew)
  }

  /** What a successful increase checked and wrote: the market's pool grew
      on the position's side, the collateral left the owner's balance, and
      the position is stored under its key with its new size (a new one
      with the given collateral and entry price), listed for its owner when
      new, within the leverage limit. */
  lemma IncreasePositionWrites(s: DexState, hash: Hasher, account: ActorId, market: Name, collateralToken: Name,
                               isLong: bool, sizeDelta: u128, collateralDelta: u128, exec: u128, now: u64, block: u32)
    requires IncreasePosition(s, hash, account, market, collateralToken, isLong, sizeDelta, collateralDelta,
                              exec, now, block).result.Ok?
    ensures var o := IncreasePosition(s, hash, account, market, collateralToken, isLong, sizeDelta, collateralDelta,
                                      exec, now, block);
            var key := Utils.PositionKey(hash, account, market, collateralToken, isLong);
            var pool := PoolOrDefault(s.pools, market);
            var grown := Grown(s, account, market, isLong, sizeDelta, collateralDelta);
                  && o.result.value == key
                  && market in s.configs && BalanceOf(s.balances, account) >= collateralDelta
                  && !Positions.ExceedsMaxOi(pool, s.configs[market], isLong, sizeDelta)
                  && key in o.state.positions
                  && o.state == grown.(positions := s.positions[key := o.state.positions[key]],
                                        accountPositions := if key in s.positions then s.accountPositions
                                                            else s.accountPositions[account := KeysOf(s.accountPositions, account) + [key]])
                  && var p := o.state.positions[key];
                  && !Positions.ExceedsMaxLeverage(p.sizeUsd, p.collateralUsd, s.configs[market].maxLeverage)
                  && p.sizeUsd == (if key in s.positions then SatAdd(s.positions[key].sizeUsd, sizeDelta) else sizeDelta)
                  && (key in s.positions ==> Positions.SameIdentity(p, s.positions[key]))
                  && (key !in s.positions ==> p.collateralUsd == collateralDelta && p.entryPriceUsd == exec
                                              && p.account == account && p.market == market && p.key == key
                                              && p.collateralToken == collateralToken && p.isLong == isLong)
  {
    var key := Utils.PositionKey(hash, account, market, collateralToken, isLong);
    var r := Positions.StagedIncrease(s.configs, s.pools, s.balances, s.positions, key, account, market, collateralToken,
                                      isLong, sizeDelta, collateralDelta, exec, now, block);
    assert r.Ok?;
    var (pos, isNew) := r.value;
    assert IncreaseWrites(s, key, account, market, isLong, sizeDelta, collateralDelta, pos, isNew).result.Ok?;
  }

  /** The position a successful increase stores: an existing one is first
      settled (checkpoint at the side's index, fee time at `now`), then gains
      the collateral and takes the size-weighted entry price; either way the
      cached liquidation price is recomputed when size and collateral are
      positive. */
  lemma IncreaseStoresPosition(s: DexState, hash: Hasher, account: ActorId, market: Name, collateralToken: Name,
                               isLong: bool, sizeDelta: u128, collateralDelta: u128, exec: u128, now: u64, block: u32)
    requires IncreasePosition(s, hash, account, market, collateralToken, isLong, sizeDelta, collateralDelta,
                              exec, now, block).result.Ok?
    ensures var o := IncreasePosition(s, hash, account, market, collateralToken, isLong, sizeDelta, collateralDelta,
                                      exec, now, block);
            var key := Utils.PositionKey(hash, account, market, collateralToken, isLong);
            && market in s.configs && key in o.state.positions
            && var p := o.state.positions[key];
            && (key in s.positions ==>
                  && market in s.pools
                  && var st := Risk.Settle(s.positions[key], s.pools[market], s.configs[market], now).0;
                  && p.sizeUsd == SatAdd(st.sizeUsd, sizeDelta)
                  && p.collateralUsd == SatAdd(st.collateralUsd, collateralDelta)
                  && p.entryPriceUsd == Positions.NewEntryPrice(st.sizeUsd, st.entryPriceUsd, sizeDelta, exec)
                  && p.fundingFeePerUsd == Risk.FundingIndex(s.pools[market], s.positions[key].isLong)
                  && p.lastFeeUpdate == now)
            && (p.collateralUsd > 0 && p.sizeUsd > 0 ==>
                  p.liquidationPriceUsd == Positions.CalcLiqPrice(p, s.configs[market].liquidationThresholdBps))
  {
    var key := Utils.PositionKey(hash, account, market, collateralToken, isLong);
    var r := Positions.StagedIncrease(s.configs, s.pools, s.balances, s.positions, key, account, market, collateralToken,
                                      isLong, sizeDelta, collateralDelta, exec, now, block);
    assert r.Ok?;
    var (pos, isNew) := r.value;
    var o := IncreaseWrites(s, key, account, market, isLong, sizeDelta, collateralDelta, pos, isNew);
    assert o.result.Ok?;
    var p := Positions.WithLiqPrice(pos, s.configs[market].liquidationThresholdBps);
    assert o.state.positions[key] == p;
    if key in s.positions {
      var settled := Risk.Settle(s.positions[key], s.pools[market], s.configs[market], now);
      var st := settled.0;
      assert pos == Positions.ApplyIncrease(st, sizeDelta, collateralDelta, exec, block);
      assert p.sizeUsd == pos.sizeUsd == SatAdd(st.sizeUsd, sizeDelta);
      assert p.collateralUsd == pos.collateralUsd == SatAdd(st.collateralUsd, collateralDelta);
      assert p.entryPriceUsd == pos.entryPriceUsd == Positions.NewEntryPrice(st.sizeUsd, st.entryPriceUsd, sizeDelta, exec);
    }
  }

  /** `swap_remove` of the first occurrence of `key` from the account's list,
      when the account has one and the key is in it. */
  function RemoveKey(m: map<ActorId, seq<PositionKey>>, account: ActorId, key: PositionKey)
    : (r: map<ActorId, seq<PositionKey>>)
    ensures r.Keys == m.Keys
    ensures forall a :: a in m && a != account ==> r[a] == m[a]
    ensures account in m ==> multiset(r[account]) == multiset(m[account]) - multiset{key}
  {
    if account !in m then m
    else match Utils.IndexOf(m[account], key)
      case None => m
      case Some(i) =>
        Utils.SwapRemoveMultiset(m[account], i);
        m[account := Utils.SwapRemove(m[account], i)]
  }

  /** `decrease_position`. Every error precedes every write. On success the
      side's OI and liquidity drop, the payout is credited (`liquidity_usd`
      is not touched), and the position is stored with a new liquidation
      price, or removed with its key when no size remains, any remaining
      collateral being dropped. */
  function DecreasePosition(s: DexState, hash: Hasher, account: ActorId, market: Name, collateralToken: Name,
                            isLong: bool, sizeDelta: u128, collateralDelta: u128, exec: u128, now: u64, block: u32)
    : (o: Outcome<PositionKey>)
    ensures o.result.Err? ==> o.state == s
    ensures o.result.Err? ==> o.result.error in {MarketNotFound, PositionNotFound, InsufficientCollateral, InsufficientPositionSize}
    ensures o.result.Ok? ==> o.result.value == Utils.PositionKey(hash, account, market, collateralToken, isLong)
    ensures SameOrderBook(s, o.state)
  {
    var key := Utils.PositionKey(hash, account, market, collateralToken, isLong);
    match Positions.StagedDecrease(s.configs, s.pools, s.positions, key, market, sizeDelta, collateralDelta, exec, now, block)
    case Err(e) => Outcome(s, Err(e))
    case Ok((reduced, payout)) => DecreaseWrites(s, key, account, market, isLong, sizeDelta, collateralDelta, reduced, payout)
  }

  /** The state once a decrease has passed its checks: the side's OI and
      liquidity have shrunk and the payout has been credited. */
  function Shrunk(s: DexState, account: ActorId, market: Name, isLong: bool, sizeDelta: u128, collateralDelta: u128,
                  payout: u128): DexState
    requires market in s.pools
  {
    s.(pools := s.pools[market := Positions.DecreasePool(s.pools[market], isLong, sizeDelta, collateralDelta)],
       balances := s.balances[account := SatAdd(BalanceOf(s.balances, account), payout)])
  }

  /** The write phase of `decrease_position` for the reduced position and
      the payout the read-only phase produced. */
  function DecreaseWrites(s: DexState, key: PositionKey, account: ActorId, market: Name, isLong: bool,
                          sizeDelta: u128, collateralDelta: u128, reduced: Position, payout: u128): (o: Outcome<PositionKey>)
    requires market in s.configs && market in s.pools
    ensures o.result == Ok(key) && SameOrderBook(s, o.state)
  {
    var cfg := s.configs[market];
    var s1 := Shrunk(s, account, market, isLong, sizeDelta, collateralDelta, payout);
    if reduced.sizeUsd > 0 then
      var stored := reduced.(liquidationPriceUsd := Positions.CalcLiqPrice(reduced, cfg.liquidationThresholdBps));
      Outcome(s1.(positions := s1.positions[key := stored]), Ok(key))
    else
      Outcome(s1.(positions := s1.positions - {key}, accountPositions := RemoveKey(s1.accountPositions, account, key)),
              Ok(key))
  }

  /** What a successful decrease writes: the settled position loses the
      requested size and collateral, the pool's side shrinks, the payout is
      credited, and the position stays (same identity) or, at zero size, is
      removed together with its key in the owner's list. */
  lemma DecreasePositionWrites(s: DexState, hash: Hasher, account: ActorId, market: Name, collateralToken: Name,
                               isLong: bool, sizeDelta: u128, collateralDelta: u128, exec: u128, now: u64, block: u32)
    requires DecreasePosition(s, hash, account, market, collateralToken, isLong, sizeDelta, collateralDelta,
                              exec, now, block).result.Ok?
    ensures var o := DecreasePosition(s, hash, account, market, collateralToken, isLong, sizeDelta, collateralDelta,
                                      exec, now, block);
            var key := Utils.PositionKey(hash, account, market, collateralToken, isLong);
              && o.result.value == key
              && key in s.positions && market in s.configs && market in s.pools
              && var st := Risk.Settle(s.positions[key], s.pools[market], s.configs[market], now).0;
              && sizeDelta <= st.sizeUsd && collateralDelta <= st.collateralUsd
              && o.state == s.(pools := s.pools[market := Positions.DecreasePool(s.pools[market], isLong, sizeDelta, collateralDelta)],
                               balances := o.state.balances, positions := o.state.positions,
                               accountPositions := o.state.accountPositions)
              && o.state.balances == s.balances[account := SatAdd(BalanceOf(s.balances, account),
                   Positions.Payout(collateralDelta, Positions.PnlShare(Positions.CalcPnl(st, exec), sizeDelta, st.sizeUsd)))]
              && (sizeDelta < st.sizeUsd ==>
                    && o.state.accountPositions == s.accountPositions
                    && o.state.positions == s.positions[key := o.state.positions[key]]
                    && Positions.SameIdentity(o.state.positions[key], s.positions[key])
                    && o.state.positions[key].sizeUsd == st.sizeUsd - sizeDelta
                    && o.state.positions[key].collateralUsd == st.collateralUsd - collateralDelta
                    && o.state.positions[key].entryPriceUsd == st.entryPriceUsd
                    && o.state.positions[key].liquidationPriceUsd
                         == Positions.CalcLiqPrice(o.state.positions[key], s.configs[market].liquidationThresholdBps))
              && (sizeDelta == st.sizeUsd ==>
                    o.state.positions == s.positions - {key}
                    && o.state.accountPositions == RemoveKey(s.accountPositions, account, key))
  {
    var key := Utils.PositionKey(hash, account, market, collateralToken, isLong);
    var r := Positions.StagedDecrease(s.configs, s.pools, s.positions, key, market, sizeDelta, collateralDelta, exec, now, block);
    assert r.Ok?;
  }

  /** The four tables a position change writes, the rest of `a` unchanged. */
  predicate SameExceptPositionTables(a: DexState, b: DexState)
  {
    a == b.(pools := a.pools, positions := a.positions, balances := a.balances, accountPositions := a.accountPositions)
  }

  /** A successful increase of a position that did not exist stores a fresh
      position: the requested size and collateral, the execution price as
      entry, its funding checkpoint at 0 and its fees settled up to `now`. */
  lemma IncreaseOpensFresh(s: DexState, hash: Hasher, account: ActorId, market: Name, collateralToken: Name,
                           isLong: bool, sizeDelta: u128, collateralDelta: u128, exec: u128, now: u64, block: u32)
    requires Utils.PositionKey(hash, account, market, collateralToken, isLong) !in s.positions
    requires IncreasePosition(s, hash, account, market, collateralToken, isLong, sizeDelta, collateralDelta,
                              exec, now, block).result.Ok?
    ensures var i := IncreasePosition(s, hash, account, market, collateralToken, isLong, sizeDelta, collateralDelta,
                                      exec, now, block);
            var key := Utils.PositionKey(hash, account, market, collateralToken, isLong);
            && key in i.state.positions && market in i.state.configs
            && var p := i.state.positions[key];
            && p.sizeUsd == sizeDelta && p.collateralUsd == collateralDelta && p.entryPriceUsd == exec
            && p.fundingFeePerUsd == 0 && p.lastFeeUpdate == now && p.isLong == isLong && p.market == market
            && i.state.pools == s.pools[market := Positions.IncreasePool(PoolOrDefault(s.pools, market), isLong,
                                                                       sizeDelta, collateralDelta)]
            && i.state.balances == s.balances[account := BalanceOf(s.balances, account) - collateralDelta]
            && i.state.positions == s.positions[key := p]
            && i.state.accountPositions == s.accountPositions[account := KeysOf(s.accountPositions, account) + [key]]
            && SameExceptPositionTables(i.state, s)
  {
    var key := Utils.PositionKey(hash, account, market, collateralToken, isLong);
    IncreasePositionWrites(s, hash, account, market, collateralToken, isLong, sizeDelta, collateralDelta, exec, now, block);
    var r := Positions.StagedIncrease(s.configs, s.pools, s.balances, s.positions, key, account, market,
                                      collateralToken, isLong, sizeDelta, collateralDelta, exec, now, block);
    assert r.Ok?;
  }

  /** A position whose checkpoint is the side's index and whose fees are
      settled up to `now` owes nothing at `now`: settlement leaves it as it
      is. */
  lemma SettledPositionOwesNothing(p: Position, pool: Pool, cfg: MarketConfig, now: u64)
    requires p.fundingFeePerUsd == Risk.FundingIndex(pool, p.isLong) && p.lastFeeUpdate == now
    ensures Risk.Settle(p, pool, cfg, now).1.Ok? && Risk.Settle(p, pool, cfg, now).0 == p
  {
    assert Risk.SettlementFees(p, pool, cfg, now).totalFeeUsd == 0;
  }

  /** Closing a position that owes nothing, in full and at its entry price,
      pays back exactly its collateral, shrinks the pool's side, and removes
      the position and its key. */
  lemma CloseAtEntryReturnsCollateral(t: DexState, hash: Hasher, account: ActorId, market: Name, collateralToken: Name,
                                      isLong: bool, sizeDelta: u128, collateralDelta: u128, exec: u128, now: u64, block: u32)
    requires var key := Utils.PositionKey(hash, account, market, collateralToken, isLong);
             key in t.positions && market in t.configs && market in t.pools
             && var p := t.positions[key];
             && p.isLong == isLong && p.fundingFeePerUsd == Risk.FundingIndex(t.pools[market], isLong) && p.lastFeeUpdate == now
             && p.sizeUsd == sizeDelta && p.collateralUsd == collateralDelta && p.entryPriceUsd == exec
    ensures var key := Utils.PositionKey(hash, account, market, collateralToken, isLong);
            var d := DecreasePosition(t, hash, account, market, collateralToken, isLong, sizeDelta, collateralDelta,
                                      exec, now, block);
            && d.result.Ok?
            && d.state.pools == t.pools[market := Positions.DecreasePool(t.pools[market], isLong, sizeDelta, collateralDelta)]
            && d.state.balances == t.balances[account := SatAdd(BalanceOf(t.balances, account), collateralDelta)]
            && d.state.positions == t.positions - {key}
            && d.state.accountPositions == RemoveKey(t.accountPositions, account, key)
            && SameExceptPositionTables(d.state, t)
  {
    var key := Utils.PositionKey(hash, account, market, collateralToken, isLong);
    var p := t.positions[key];
    SettledPositionOwesNothing(p, t.pools[market], t.configs[market], now);
    assert Positions.StagedDecrease(t.configs, t.pools, t.positions, key, market, sizeDelta, collateralDelta,
                                    exec, now, block).Ok?;
    DecreasePositionWrites(t, hash, account, market, collateralToken, isLong, sizeDelta, collateralDelta,
                           exec, now, block);
    assert Positions.PnlShare(0, sizeDelta, sizeDelta) == 0;
  }

  /** The requirements of the round trip below: a new position on a side
      whose funding index is 0, with no OI or liquidity sum saturating, that
      the increase opens. */
  predicate RoundTripCase(s: DexState, hash: Hasher, account: ActorId, market: Name, collateralToken: Name,
                          isLong: bool, sizeDelta: u128, collateralDelta: u128, exec: u128, now: u64, block: u32)
  {
    && Utils.PositionKey(hash, account, market, collateralToken, isLong) !in s.positions
    && market in s.pools && Risk.FundingIndex(s.pools[market], isLong) == 0
    && var pool := s.pools[market];
    && pool.longOiUsd + sizeDelta <= U128_MAX && pool.shortOiUsd + sizeDelta <= U128_MAX
    && pool.longLiquidityUsd + collateralDelta <= U128_MAX && pool.shortLiquidityUsd + collateralDelta <= U128_MAX
    && IncreasePosition(s, hash, account, market, collateralToken, isLong, sizeDelta, collateralDelta,
                        exec, now, block).result.Ok?
  }

  /** The table-level arithmetic of the round trip: an open that added
      `sizeDelta` and `collateralDelta` to an unsaturated side and took the
      collateral from the balance, followed by a close that undoes both and
      removes the key it added, leaves every table as it was (the owner's key
      list up to order). */
  lemma RoundTripTables(s: DexState, t: DexState, d: DexState, key: PositionKey, account: ActorId, market: Name,
                        isLong: bool, sizeDelta: u128, collateralDelta: u128, p: Position)
    requires key !in s.positions && market in s.pools
    requires var pool := s.pools[market];
             pool.longOiUsd + sizeDelta <= U128_MAX && pool.shortOiUsd + sizeDelta <= U128_MAX
             && pool.longLiquidityUsd + collateralDelta <= U128_MAX && pool.shortLiquidityUsd + collateralDelta <= U128_MAX
    requires BalanceOf(s.balances, account) >= collateralDelta
    requires t.pools == s.pools[market := Positions.IncreasePool(s.pools[market], isLong, sizeDelta, collateralDelta)]
    requires t.balances == s.balances[account := BalanceOf(s.balances, account) - collateralDelta]
    requires t.positions == s.positions[key := p]
    requires t.accountPositions == s.accountPositions[account := KeysOf(s.accountPositions, account) + [key]]
    requires SameExceptPositionTables(t, s)
    requires d.pools == t.pools[market := Positions.DecreasePool(t.pools[market], isLong, sizeDelta, collateralDelta)]
    requires d.balances == t.balances[account := SatAdd(BalanceOf(t.balances, account), collateralDelta)]
    requires d.positions == t.positions - {key}
    requires d.accountPositions == RemoveKey(t.accountPositions, account, key)
    requires SameExceptPositionTables(d, t)
    ensures d.pools == s.pools && d.positions == s.positions
    ensures d.balances == s.balances[account := BalanceOf(s.balances, account)]
    ensures multiset(KeysOf(d.accountPositions, account)) == multiset(KeysOf(s.accountPositions, account))
    ensures forall a :: a in s.accountPositions && a != account ==>
              a in d.accountPositions && d.accountPositions[a] == s.accountPositions[a]
    ensures SameExceptPositionTables(d, s)
  {
    RoundTripPools(s.pools, t.pools, d.pools, market, isLong, sizeDelta, collateralDelta);
    RoundTripBalances(s.balances, t.balances, d.balances, account, collateralDelta);
    RoundTripKeys(s.accountPositions, t.accountPositions, d.accountPositions, account, key);
    assert d.positions == s.positions;
  }

  lemma RoundTripPools(sp: map<Name, Pool>, tp: map<Name, Pool>, dp: map<Name, Pool>, market: Name,
                       isLong: bool, sizeDelta: u128, collateralDelta: u128)
    requires market in sp
    requires var pool := sp[market];
             pool.longOiUsd + sizeDelta <= U128_MAX && pool.shortOiUsd + sizeDelta <= U128_MAX
             && pool.longLiquidityUsd + collateralDelta <= U128_MAX && pool.shortLiquidityUsd + collateralDelta <= U128_MAX
    requires tp == sp[market := Positions.IncreasePool(sp[market], isLong, sizeDelta, collateralDelta)]
    requires dp == tp[market := Positions.DecreasePool(tp[market], isLong, sizeDelta, collateralDelta)]
    ensures dp == sp
  {
    Positions.DecreaseUndoesIncrease(sp[market], isLong, sizeDelta, collateralDelta);
  }

  lemma RoundTripBalances(sb: map<ActorId, u128>, tb: map<ActorId, u128>, db: map<ActorId, u128>, account: ActorId,
                          collateralDelta: u128)
    requires BalanceOf(sb, account) >= collateralDelta
    requires tb == sb[account := BalanceOf(sb, account) - collateralDelta]
    requires db == tb[account := SatAdd(BalanceOf(tb, account), collateralDelta)]
    ensures db == sb[account := BalanceOf(sb, account)]
  {
  }

  lemma RoundTripKeys(sa: map<ActorId, seq<PositionKey>>, ta: map<ActorId, seq<PositionKey>>,
                      da: map<ActorId, seq<PositionKey>>, account: ActorId, key: PositionKey)
    requires ta == sa[account := KeysOf(sa, account) + [key]]
    requires da == RemoveKey(ta, account, key)
    ensures multiset(KeysOf(da, account)) == multiset(KeysOf(sa, account))
    ensures forall a :: a in sa && a != account ==> a in da && da[a] == sa[a]
  {
    var before := KeysOf(sa, account);
    assert account in ta && ta[account] == before + [key];
    assert account in da && multiset(da[account]) == multiset(before + [key]) - multiset{key};
    assert multiset(before + [key]) == multiset(before) + multiset{key};
  }

  /** The state after opening the position and closing it again at once. */
  function OpenThenClose(s: DexState, hash: Hasher, account: ActorId, market: Name, collateralToken: Name,
                         isLong: bool, sizeDelta: u128, collateralDelta: u128, exec: u128, now: u64,
                         block: u32, block2: u32): Outcome<PositionKey>
  {
    var i := IncreasePosition(s, hash, account, market, collateralToken, isLong, sizeDelta, collateralDelta, exec, now, block);
    DecreasePosition(i.state, hash, account, market, collateralToken, isLong, sizeDelta, collateralDelta, exec, now, block2)
  }

  /** Opening a new position and closing it in full at the same price and
      the same moment, while the side's funding index is 0 and no OI or
      liquidity sum saturates, restores the pools, the positions and every
      balance, and leaves the owner's key list as it was (as a multiset:
      `swap_remove` may reorder it). */
  lemma IncreaseDecreaseRoundTrip(s: DexState, hash: Hasher, account: ActorId, market: Name, collateralToken: Name,
                                  isLong: bool, sizeDelta: u128, collateralDelta: u128, exec: u128, now: u64,
                                  block: u32, block2: u32)
    requires RoundTripCase(s, hash, account, market, collateralToken, isLong, sizeDelta, collateralDelta, exec, now, block)
    ensures var d := OpenThenClose(s, hash, account, market, collateralToken, isLong, sizeDelta, collateralDelta,
                                   exec, now, block, block2);
            && d.result.Ok?
            && d.state.pools == s.pools && d.state.positions == s.positions
            && d.state.balances == s.balances[account := BalanceOf(s.balances, account)]
            && multiset(KeysOf(d.state.accountPositions, account)) == multiset(KeysOf(s.accountPositions, account))
            && (forall a :: a in s.accountPositions && a != account ==>
                  a in d.state.accountPositions && d.state.accountPositions[a] == s.accountPositions[a])
            && SameExceptPositionTables(d.state, s)
  {
    var key := Utils.PositionKey(hash, account, market, collateralToken, isLong);
    IncreaseOpensFresh(s, hash, account, market, collateralToken, isLong, sizeDelta, collateralDelta, exec, now, block);
    var t := IncreasePosition(s, hash, account, market, collateralToken, isLong, sizeDelta, collateralDelta, exec, now, block).state;
    CloseAtEntryReturnsCollateral(t, hash, account, market, collateralToken, isLong, sizeDelta, collateralDelta, exec, now, block2);
    var d := DecreasePosition(t, hash, account, market, collateralToken, isLong, sizeDelta, collateralDelta, exec, now, block2);
    RoundTripTables(s, t, d.state, key, account, market, isLong, sizeDelta, collateralDelta, t.positions[key]);
  }

  /** `get_position`. */
  function GetPosition(s: DexState, key: PositionKey): (r: Result<Position>)
    ensures r.Ok? <==> key in s.positions
    ensures r.Ok? ==> r.value == s.positions[key]
    ensures r.Err? ==> r.error == PositionNotFound
  {
    if key in s.positions then Ok(s.positions[key]) else Err(PositionNotFound)
  }

  /** `get_position_pnl`: the stored position's PnL at `price`. */
  function GetPositionPnl(s: DexState, key: PositionKey, price: u128): (r: Result<int>)
    ensures r.Ok? <==> key in s.positions
    ensures r.Ok? && price == s.positions[key].entryPriceUsd ==> r.value == 0
    ensures r.Err? ==> r.error == PositionNotFound
  {
    match GetPosition(s, key)
    case Err(e) => Err(e)
    case Ok(p) => Ok(Positions.CalcPnl(p, price))
  }

  /** Increase and decrease preserve the invariant. */
  lemma IncreasePreservesValid(s: DexState, hash: Hasher, account: ActorId, market: Name, collateralToken: Name,
                               isLong: bool, sizeDelta: u128, collateralDelta: u128, exec: u128, now: u64, block: u32)
    requires Valid(s, hash)
    ensures Valid(IncreasePosition(s, hash, account, market, collateralToken, isLong, sizeDelta, collateralDelta,
                                   exec, now, block).state, hash)
  {
    var o := IncreasePosition(s, hash, account, market, collateralToken, isLong, sizeDelta, collateralDelta, exec, now, block);
    var key := Utils.PositionKey(hash, account, market, collateralToken, isLong);
    if o.result.Ok? {
      IncreasePositionWrites(s, hash, account, market, collateralToken, isLong, sizeDelta, collateralDelta, exec, now, block);
      forall k | k in o.state.positions
        ensures StoredUnderOwnKey(hash, k, o.state.positions[k])
      {
        if k == key && key in s.positions {
          assert StoredUnderOwnKey(hash, k, s.positions[k]);
        }
      }
    }
  }

  lemma DecreasePreservesValid(s: DexState, hash: Hasher, account: ActorId, market: Name, collateralToken: Name,
                               isLong: bool, sizeDelta: u128, collateralDelta: u128, exec: u128, now: u64, block: u32)
    requires Valid(s, hash)
    ensures Valid(DecreasePosition(s, hash, account, market, collateralToken, isLong, sizeDelta, collateralDelta,
                                   exec, now, block).state, hash)
  {
    var o := DecreasePosition(s, hash, account, market, collateralToken, isLong, sizeDelta, collateralDelta, exec, now, block);
    var key := Utils.PositionKey(hash, account, market, collateralToken, isLong);
    if o.result.Ok? {
      DecreasePositionWrites(s, hash, account, market, collateralToken, isLong, sizeDelta, collateralDelta, exec, now, block);
      forall k | k in o.state.positions
        ensures StoredUnderOwnKey(hash, k, o.state.positions[k])
      {
        assert StoredUnderOwnKey(hash, k, s.positions[k]);
      }
    }
  }

  // ---------------------------------------------------------------- market.rs

  /** `create_market`: admin only, a new id only; inserts the market, its
      config, an empty pool and an empty LP token ledger. */
  function CreateMarket(s: DexState, caller: ActorId, id: Name, indexToken: Name, longToken: Name, shortToken: Name,
                        marketToken: ActorId, cfg: MarketConfig): (o: Outcome<()>)
    ensures !IsAdmin(s, caller) ==> o == Outcome(s, Err(Unauthorized))
    ensures IsAdmin(s, caller) && id in s.markets ==> o == Outcome(s, Err(MarketAlreadyExists))
    ensures o.result.Ok? <==> IsAdmin(s, caller) && id !in s.markets
    ensures o.result.Ok? ==>
              o.state == s.(markets := s.markets[id := Market(marketToken, indexToken, longToken, shortToken)],
                            configs := s.configs[id := cfg], pools := s.pools[id := EmptyPool],
                            tokens := s.tokens[id := EmptyTokenInfo])
  {
    if !IsAdmin(s, caller) then Outcome(s, Err(Unauthorized))
    else if id in s.markets then Outcome(s, Err(MarketAlreadyExists))
    else Outcome(s.(markets := s.markets[id := Market(marketToken, indexToken, longToken, shortToken)],
                    configs := s.configs[id := cfg], pools := s.pools[id := EmptyPool],
                    tokens := s.tokens[id := EmptyTokenInfo]), Ok(()))
  }

  /** `set_market_config`: admin only, known markets only; replaces that
      market's config and nothing else. */
  function SetMarketConfig(s: DexState, caller: ActorId, id: Name, cfg: MarketConfig): (o: Outcome<()>)
    ensures !IsAdmin(s, caller) ==> o == Outcome(s, Err(Unauthorized))
    ensures IsAdmin(s, caller) && id !in s.markets ==> o == Outcome(s, Err(MarketNotFound))
    ensures o.result.Ok? <==> IsAdmin(s, caller) && id in s.markets
    ensures o.result.Ok? ==> o.state == s.(configs := s.configs[id := cfg])
  {
    if !IsAdmin(s, caller) then Outcome(s, Err(Unauthorized))
    else if id !in s.markets then Outcome(s, Err(MarketNotFound))
    else Outcome(s.(configs := s.configs[id := cfg]), Ok(()))
  }

  /** The LP's balance in a market's token ledger, 0 without ledger or entry. */
  function LpBalanceIn(s: DexState, id: Name, lp: ActorId): u128
  {
    if id in s.tokens then Liquidity.LpBalance(s.tokens[id].balances, lp) else 0
  }

  /** `MarketModule::add_liquidity`. The market must exist and both of its
      tokens must have a price (no freshness check); a missing pool or token
      ledger traps. The deposit's USD value is minted pro rata (or 1:1 for
      the first deposit), the slippage floor is checked, and only then are
      liquidity, supply and the LP's balance written. */
  function AddLiquidity(s: DexState, lp: ActorId, id: Name, longAmount: u128, shortAmount: u128, minMint: u128)
    : (o: Outcome<u128>)
    ensures id !in s.markets ==> o == Outcome(s, Err(MarketNotFound))
    ensures o.result.Err? ==> o.state == s
    ensures o.result.Err? ==> o.result.error in {MarketNotFound, PriceNotAvailable, Trap, InsufficientLiquidity, SlippageExceeded}
    ensures o.result.Ok? ==>
              && id in s.markets && id in s.pools && id in s.tokens
              && var m := s.markets[id];
              && m.longToken in s.oracle.prices && m.shortToken in s.oracle.prices
              && var longUsd := Liquidity.TokenUsd(longAmount, Oracle.Mid(s.oracle, m.longToken).value);
              && var shortUsd := Liquidity.TokenUsd(shortAmount, Oracle.Mid(s.oracle, m.shortToken).value);
              && var mint := o.result.value;
              && mint >= minMint
              && Liquidity.MintAmount(s.tokens[id].totalSupply, s.pools[id].liquidityUsd, SatAdd(longUsd, shortUsd)) == Ok(mint)
              && o.state == s.(pools := s.pools[id := s.pools[id].(liquidityUsd := SatAdd(SatAdd(s.pools[id].liquidityUsd, longUsd), shortUsd))],
                               tokens := s.tokens[id := TokenInfo(SatAdd(s.tokens[id].totalSupply, mint),
                                                                 Liquidity.CreditLp(s.tokens[id].balances, lp, mint))])
  {
    if id !in s.markets then Outcome(s, Err(MarketNotFound))
    else
      var m := s.markets[id];
      match Oracle.Mid(s.oracle, m.longToken)
      case Err(e) => Outcome(s, Err(e))
      case Ok(longPrice) =>
        match Oracle.Mid(s.oracle, m.shortToken)
        case Err(e) => Outcome(s, Err(e))
        case Ok(shortPrice) =>
          if id !in s.pools || id !in s.tokens then Outcome(s, Err(Trap))
          else
            var pool := s.pools[id];
            var mt := s.tokens[id];
            var longUsd := Liquidity.TokenUsd(longAmount, longPrice);
            var shortUsd := Liquidity.TokenUsd(shortAmount, shortPrice);
            match Liquidity.MintAmount(mt.totalSupply, pool.liquidityUsd, SatAdd(longUsd, shortUsd))
            case Err(e) => Outcome(s, Err(e))
            case Ok(mint) =>
              if mint < minMint then Outcome(s, Err(SlippageExceeded))
              else
                var pool' := pool.(liquidityUsd := SatAdd(SatAdd(pool.liquidityUsd, longUsd), shortUsd));
                var mt' := TokenInfo(SatAdd(mt.totalSupply, mint), Liquidity.CreditLp(mt.balances, lp, mint));
                Outcome(s.(pools := s.pools[id := pool'], tokens := s.tokens[id := mt']), Ok(mint))
  }

  /** A burn can be quoted: market, pool and ledger exist, the supply is
      positive and both of the market's tokens have a price. */
  predicate Quotable(s: DexState, id: Name)
  {
    Priced(s, id) && s.tokens[id].totalSupply > 0
  }

  /** Market, pool and ledger exist and both of the market's tokens have a
      price: the snapshot phase of a deposit or a burn gets this far. */
  predicate Priced(s: DexState, id: Name)
  {
    id in s.markets && id in s.pools && id in s.tokens
    && s.markets[id].longToken in s.oracle.prices && s.markets[id].shortToken in s.oracle.prices
  }

  /** The withdrawal a burn of `amount` is quoted at, from the both tokens'
      mid prices. */
  function BurnQuote(s: DexState, id: Name, amount: u128): Result<Liquidity.Withdrawal>
    requires Quotable(s, id)
  {
    var pool := s.pools[id];
    Liquidity.WithdrawalQuote(pool.liquidityUsd, pool.claimableFeeUsdLong, pool.claimableFeeUsdShort,
                              s.tokens[id].totalSupply, amount, Oracle.Mid(s.oracle, s.markets[id].longToken).value,
                              Oracle.Mid(s.oracle, s.markets[id].shortToken).value)
  }

  /** `MarketModule::remove_liquidity`. Market, prices, pool and ledger as
      for a deposit; an empty supply is refused; the withdrawal is quoted
      and checked against both minimums. Then the pool and the ledger are
      taken out of their maps BEFORE the LP's balance is checked: a missing
      entry or a short balance returns `InsufficientMarketTokens` and leaves
      the market without pool and without token ledger. */
  function RemoveLiquidity(s: DexState, lp: ActorId, id: Name, amount: u128, minLongOut: u128, minShortOut: u128)
    : (o: Outcome<(u128, u128)>)
    ensures id !in s.markets ==> o == Outcome(s, Err(MarketNotFound))
    ensures o.result.Err? && o.result.error != InsufficientMarketTokens ==> o.state == s
    ensures o.result == Err(InsufficientMarketTokens) ==>
              o.state == s.(pools := s.pools - {id}, tokens := s.tokens - {id})
              && id in s.tokens && (Liquidity.FindLp(s.tokens[id].balances, lp).None?
                                    || Liquidity.LpBalance(s.tokens[id].balances, lp) < amount)
    ensures o.result == Err(InsufficientLiquidity) <==>
              Priced(s, id) && s.tokens[id].totalSupply == 0
    ensures o.result == Err(SlippageExceeded) <==>
              Quotable(s, id) && BurnQuote(s, id, amount).Ok?
              && (BurnQuote(s, id, amount).value.longOut < minLongOut
                  || BurnQuote(s, id, amount).value.shortOut < minShortOut)
    ensures o.result.Ok? ==> Quotable(s, id) && BurnQuote(s, id, amount).Ok?
  {
    if id !in s.markets then Outcome(s, Err(MarketNotFound))
    else
      var m := s.markets[id];
      match Oracle.Mid(s.oracle, m.longToken)
      case Err(e) => Outcome(s, Err(e))
      case Ok(longPrice) =>
        match Oracle.Mid(s.oracle, m.shortToken)
        case Err(e) => Outcome(s, Err(e))
        case Ok(shortPrice) =>
          if id !in s.pools || id !in s.tokens then Outcome(s, Err(Trap))
          else
            var pool := s.pools[id];
            var mt := s.tokens[id];
            if mt.totalSupply == 0 then Outcome(s, Err(InsufficientLiquidity))
            else
              match Liquidity.WithdrawalQuote(pool.liquidityUsd, pool.claimableFeeUsdLong, pool.claimableFeeUsdShort,
                                              mt.totalSupply, amount, longPrice, shortPrice)
              case Err(e) => Outcome(s, Err(e))
              case Ok(w) =>
                if w.longOut < minLongOut || w.shortOut < minShortOut then Outcome(s, Err(SlippageExceeded))
                else
                  var taken := s.(pools := s.pools - {id}, tokens := s.tokens - {id});
                  if Liquidity.FindLp(mt.balances, lp).None? then Outcome(taken, Err(InsufficientMarketTokens))
                  else if Liquidity.LpBalance(mt.balances, lp) < amount then Outcome(taken, Err(InsufficientMarketTokens))
                  else
                    var pool' := pool.(liquidityUsd := SatSub(pool.liquidityUsd, w.liqUsd),
                                       claimableFeeUsdLong := SatSub(pool.claimableFeeUsdLong, w.feeLongUsd),
                                       claimableFeeUsdShort := SatSub(pool.claimableFeeUsdShort, w.feeShortUsd));
                    var mt' := TokenInfo(SatSub(mt.totalSupply, amount), Liquidity.DebitLp(mt.balances, lp, amount));
                    Outcome(taken.(pools := taken.pools[id := pool'], tokens := taken.tokens[id := mt']), Ok((w.longOut, w.shortOut)))
  }

  /** What a successful burn checked and wrote: the quote at both mid
      prices, both minimums, an LP entry covering the amount, then the pool
      and the ledger reduced by what the quote pays out. */
  lemma RemoveLiquidityWrites(s: DexState, lp: ActorId, id: Name, amount: u128, minLongOut: u128, minShortOut: u128)
    requires RemoveLiquidity(s, lp, id, amount, minLongOut, minShortOut).result.Ok?
    ensures var o := RemoveLiquidity(s, lp, id, amount, minLongOut, minShortOut);
            var w := BurnQuote(s, id, amount).value;
            var pool := s.pools[id];
            var mt := s.tokens[id];
            && o.result.value == (w.longOut, w.shortOut)
            && w.longOut >= minLongOut && w.shortOut >= minShortOut
            && Liquidity.FindLp(mt.balances, lp).Some? && Liquidity.LpBalance(mt.balances, lp) >= amount
            && o.state == s.(pools := s.pools[id := pool.(liquidityUsd := SatSub(pool.liquidityUsd, w.liqUsd),
                                                          claimableFeeUsdLong := SatSub(pool.claimableFeeUsdLong, w.feeLongUsd),
                                                          claimableFeeUsdShort := SatSub(pool.claimableFeeUsdShort, w.feeShortUsd))],
                             tokens := s.tokens[id := TokenInfo(SatSub(mt.totalSupply, amount),
                                                               Liquidity.DebitLp(mt.balances, lp, amount))])
  {
    var o := RemoveLiquidity(s, lp, id, amount, minLongOut, minShortOut);
    ReinsertTaken(s.pools, id, o.state.pools[id]);
    ReinsertTaken(s.tokens, id, o.state.tokens[id]);
  }

  /** Taking an entry out and inserting it again is one overwrite. */
  lemma ReinsertTaken<K, V>(m: map<K, V>, k: K, v: V)
    ensures (m - {k})[k := v] == m[k := v]
  {
  }

  /** A successful burn of at most the supply lowers liquidity and both fee
      buckets by exactly the amounts it pays out, and the supply and the
      LP's balance by exactly the burned amount. */
  lemma RemoveLiquidityExact(s: DexState, lp: ActorId, id: Name, amount: u128, minLongOut: u128, minShortOut: u128)
    requires RemoveLiquidity(s, lp, id, amount, minLongOut, minShortOut).result.Ok?
    requires amount <= s.tokens[id].totalSupply
    ensures var o := RemoveLiquidity(s, lp, id, amount, minLongOut, minShortOut);
            var w := BurnQuote(s, id, amount).value;
            && o.state.pools[id].liquidityUsd == s.pools[id].liquidityUsd - w.liqUsd
            && o.state.pools[id].claimableFeeUsdLong == s.pools[id].claimableFeeUsdLong - w.feeLongUsd
            && o.state.pools[id].claimableFeeUsdShort == s.pools[id].claimableFeeUsdShort - w.feeShortUsd
            && o.state.tokens[id].totalSupply == s.tokens[id].totalSupply - amount
            && LpBalanceIn(o.state, id, lp) == LpBalanceIn(s, id, lp) - amount
  {
    RemoveLiquidityWrites(s, lp, id, amount, minLongOut, minShortOut);
    var m := s.markets[id];
    var pool := s.pools[id];
    Liquidity.WithdrawalWithinPool(pool.liquidityUsd, pool.claimableFeeUsdLong, pool.claimableFeeUsdShort,
                                   s.tokens[id].totalSupply, amount, Oracle.Mid(s.oracle, m.longToken).value,
                                   Oracle.Mid(s.oracle, m.shortToken).value);
    Liquidity.DebitLpBalance(s.tokens[id].balances, lp, amount, lp);
  }

  /** `get_pool`. */
  function GetPool(s: DexState, id: Name): (r: Result<Pool>)
    ensures r.Ok? <==> id in s.pools
    ensures r.Ok? ==> r.value == s.pools[id]
    ensures r.Err? ==> r.error == MarketNotFound
  {
    if id in s.pools then Ok(s.pools[id]) else Err(MarketNotFound)
  }

  // ---------------------------------------------------------------- market_service.rs

  /** The service's `add_liquidity`: the module call, then a second credit
      of the minted amount to the LP's entry. */
  function AddLiquidityService(s: DexState, lp: ActorId, id: Name, longAmount: u128, shortAmount: u128, minMint: u128)
    : (o: Outcome<u128>)
    ensures var a := AddLiquidity(s, lp, id, longAmount, shortAmount, minMint);
            && (a.result.Err? ==> o == a)
            && (a.result.Ok? ==> o.result == a.result && id in a.state.tokens
                                 && o.state == a.state.(tokens := a.state.tokens[id := a.state.tokens[id].(
                                      balances := Liquidity.CreditLp(a.state.tokens[id].balances, lp, a.result.value))]))
  {
    var a := AddLiquidity(s, lp, id, longAmount, shortAmount, minMint);
    if a.result.Err? then a
    else
      assert id in a.state.tokens;
      var mt := a.state.tokens[id];
      Outcome(a.state.(tokens := a.state.tokens[id := mt.(balances := Liquidity.CreditLp(mt.balances, lp, a.result.value))]),
              a.result)
  }

  /** Through the service, a deposit raises the supply by the minted amount
      but the LP's balance by twice that amount. */
  lemma AddLiquidityCreditsTwice(s: DexState, lp: ActorId, id: Name, longAmount: u128, shortAmount: u128, minMint: u128)
    requires AddLiquidityService(s, lp, id, longAmount, shortAmount, minMint).result.Ok?
    ensures var o := AddLiquidityService(s, lp, id, longAmount, shortAmount, minMint);
            var minted := o.result.value;
            && o.state.tokens[id].totalSupply == SatAdd(s.tokens[id].totalSupply, minted)
            && LpBalanceIn(o.state, id, lp) == SatAdd(SatAdd(LpBalanceIn(s, id, lp), minted), minted)
  {
    var a := AddLiquidity(s, lp, id, longAmount, shortAmount, minMint);
    var minted := a.result.value;
    Liquidity.CreditLpBalance(s.tokens[id].balances, lp, minted, lp);
    Liquidity.CreditLpBalance(a.state.tokens[id].balances, lp, minted, lp);
  }

  /** The state after the service's own debit of `amount` from the LP. */
  function DebitedForBurn(s: DexState, lp: ActorId, id: Name, amount: u128): DexState
    requires id in s.tokens && Liquidity.FindLp(s.tokens[id].balances, lp).Some?
  {
    s.(tokens := s.tokens[id := s.tokens[id].(balances := Liquidity.DebitLp(s.tokens[id].balances, lp, amount))])
  }

  /** The service's `remove_liquidity`: the LP's entry must exist and cover
      `amount`; it is debited, then the module call runs (and checks and
      debits again). A module error leaves the wrapper's debit in place; a
      module trap discards the whole call. The service still holds its
      mutable borrow of the state when it calls the module, whose own borrow
      would panic; that borrow conflict is abstracted away here, so this is
      the sequence of writes the code performs without it. */
  function RemoveLiquidityService(s: DexState, lp: ActorId, id: Name, amount: u128, minLongOut: u128, minShortOut: u128)
    : (o: Outcome<(u128, u128)>)
    ensures id !in s.tokens ==> o == Outcome(s, Err(MarketNotFound))
    ensures id in s.tokens && Liquidity.LpBalance(s.tokens[id].balances, lp) < amount ==> o == Outcome(s, Err(InsufficientMarketTokens))
    ensures id in s.tokens && Liquidity.FindLp(s.tokens[id].balances, lp).None? ==> o == Outcome(s, Err(InsufficientMarketTokens))
    ensures o.result == Err(Trap) ==> o.state == s
    ensures id in s.tokens && Liquidity.FindLp(s.tokens[id].balances, lp).Some? && Liquidity.LpBalance(s.tokens[id].balances, lp) >= amount ==>
              var r := RemoveLiquidity(DebitedForBurn(s, lp, id, amount), lp, id, amount, minLongOut, minShortOut);
              o == if r.result == Err(Trap) then Outcome(s, Err(Trap)) else r
  {
    if id !in s.tokens then Outcome(s, Err(MarketNotFound))
    else
      var mt := s.tokens[id];
      if Liquidity.FindLp(mt.balances, lp).None? then Outcome(s, Err(InsufficientMarketTokens))
      else if Liquidity.LpBalance(mt.balances, lp) < amount then Outcome(s, Err(InsufficientMarketTokens))
      else
        var r := RemoveLiquidity(DebitedForBurn(s, lp, id, amount), lp, id, amount, minLongOut, minShortOut);
        if r.result == Err(Trap) then Outcome(s, Err(Trap)) else r
  }

  /** Through the service, a withdrawal succeeds only when the LP held at
      least twice the amount; the balance then falls by twice the amount
      while the supply falls by the amount once. */
  lemma RemoveLiquidityDebitsTwice(s: DexState, lp: ActorId, id: Name, amount: u128, minLongOut: u128, minShortOut: u128)
    requires RemoveLiquidityService(s, lp, id, amount, minLongOut, minShortOut).result.Ok?
    ensures var o := RemoveLiquidityService(s, lp, id, amount, minLongOut, minShortOut);
            && LpBalanceIn(s, id, lp) >= 2 * amount
            && LpBalanceIn(o.state, id, lp) == LpBalanceIn(s, id, lp) - 2 * amount
            && id in s.tokens && id in o.state.tokens
            && o.state.tokens[id].totalSupply == SatSub(s.tokens[id].totalSupply, amount)
  {
    var mt := s.tokens[id];
    var b1 := Liquidity.DebitLp(mt.balances, lp, amount);
    var debited := DebitedForBurn(s, lp, id, amount);
    assert RemoveLiquidity(debited, lp, id, amount, minLongOut, minShortOut).result.Ok?;
    RemoveLiquidityWrites(debited, lp, id, amount, minLongOut, minShortOut);
    Liquidity.DebitLpBalance(mt.balances, lp, amount, lp);
    Liquidity.DebitLpBalance(b1, lp, amount, lp);
  }

  /** When the module call fails with an ordinary error, the wrapper's debit
      is not undone: the LP loses `amount` from its balance for nothing. */
  lemma RemoveLiquidityServiceKeepsDebit(s: DexState, lp: ActorId, id: Name, amount: u128, minLongOut: u128, minShortOut: u128)
    requires id in s.tokens && Liquidity.FindLp(s.tokens[id].balances, lp).Some?
    requires Liquidity.LpBalance(s.tokens[id].balances, lp) >= amount
    requires var o := RemoveLiquidityService(s, lp, id, amount, minLongOut, minShortOut);
             o.result.Err? && o.result.error !in {Trap, InsufficientMarketTokens}
    ensures var o := RemoveLiquidityService(s, lp, id, amount, minLongOut, minShortOut);
            id in o.state.tokens && LpBalanceIn(o.state, id, lp) == LpBalanceIn(s, id, lp) - amount
            && o.state.tokens[id].totalSupply == s.tokens[id].totalSupply
  {
    Liquidity.DebitLpBalance(s.tokens[id].balances, lp, amount, lp);
  }

  // ---------------------------------------------------------------- wallet_service.rs

  /** `deposit`: a zero amount is refused; otherwise the caller's balance
      (0 without an entry) grows, saturating, and is returned. */
  function Deposit(s: DexState, caller: ActorId, amount: u128): (o: Outcome<u128>)
    ensures amount == 0 ==> o == Outcome(s, Err(InvalidParameter))
    ensures amount > 0 ==> o.result == Ok(SatAdd(BalanceOf(s.balances, caller), amount))
                           && o.state == s.(balances := s.balances[caller := o.result.value])
  {
    if amount == 0 then Outcome(s, Err(InvalidParameter))
    else
      var b := SatAdd(BalanceOf(s.balances, caller), amount);
      Outcome(s.(balances := s.balances[caller := b]), Ok(b))
  }

  /** `withdraw`: a zero amount is refused, so is an amount above the
      caller's balance (or a caller without an entry); otherwise the balance
      shrinks and is returned. */
  function Withdraw(s: DexState, caller: ActorId, amount: u128): (o: Outcome<u128>)
    ensures amount == 0 ==> o == Outcome(s, Err(InvalidParameter))
    ensures amount > 0 && (caller !in s.balances || s.balances[caller] < amount) ==> o == Outcome(s, Err(InsufficientBalance))
    ensures o.result.Ok? ==> caller in s.balances && s.balances[caller] >= amount
                             && o.result.value == s.balances[caller] - amount
                             && o.state == s.(balances := s.balances[caller := o.result.value])
  {
    if amount == 0 then Outcome(s, Err(InvalidParameter))
    else if caller !in s.balances || s.balances[caller] < amount then Outcome(s, Err(InsufficientBalance))
    else
      var b := SatSub(s.balances[caller], amount);
      Outcome(s.(balances := s.balances[caller := b]), Ok(b))
  }

  /** A deposit followed by a withdrawal of the same amount succeeds and
      gives every account back its balance. */
  lemma DepositWithdrawRoundTrip(s: DexState, caller: ActorId, amount: u128, who: ActorId)
    requires amount > 0 && BalanceOf(s.balances, caller) + amount <= U128_MAX
    ensures var d := Deposit(s, caller, amount);
            var w := Withdraw(d.state, caller, amount);
            w.result == Ok(BalanceOf(s.balances, caller))
            && BalanceOf(w.state.balances, who) == BalanceOf(s.balances, who)
            && w.state == s.(balances := w.state.balances)
  {
  }

  // ---------------------------------------------------------------- trading.rs

  /** The parts of the state a position change never writes. */
  predicate SameOrderBook(a: DexState, b: DexState)
  {
    a.orders == b.orders && a.accountOrders == b.accountOrders && a.nextRequestId == b.nextRequestId
  }

  /** `execute_position_change`: the market's pool is accrued first, then the
      increase or the decrease runs on the accrued state. */
  function PositionChange(s: DexState, hash: Hasher, caller: ActorId, p: OrderParams, price: u128, now: u64, block: u32)
    : (o: Outcome<PositionKey>)
    ensures AccruePool(s, p.market, now).result.Err? ==> o == Outcome(s, Err(MarketNotFound))
    ensures SameOrderBook(s, o.state)
    ensures var a := AccruePool(s, p.market, now);
            a.result.Ok? && !Orders.IsIncreaseType(p.orderType) && !Orders.IsDecreaseType(p.orderType) ==>
              o == Outcome(a.state, Err(UnsupportedOrderType))
  {
    var a := AccruePool(s, p.market, now);
    if a.result.Err? then Outcome(s, Err(a.result.error))
    else if Orders.IsIncreaseType(p.orderType) then
      IncreasePosition(a.state, hash, caller, p.market, p.collateralToken, p.side == Long, p.sizeDeltaUsd,
                       p.collateralDeltaAmount, price, now, block)
    else if Orders.IsDecreaseType(p.orderType) then
      DecreasePosition(a.state, hash, caller, p.market, p.collateralToken, p.side == Long, p.sizeDeltaUsd,
                       p.collateralDeltaAmount, price, now, block)
    else Outcome(a.state, Err(UnsupportedOrderType))
  }

  /** A position change that fails in the read-only phase of the position
      engine still leaves the market's pool accrued to `now`. */
  lemma FailedChangeStillAccrues(s: DexState, hash: Hasher, caller: ActorId, p: OrderParams, price: u128, now: u64, block: u32)
    requires p.market in s.configs && p.market in s.pools
    requires var o := PositionChange(s, hash, caller, p, price, now, block);
             o.result.Err? && o.result.error in {InsufficientBalance, InsufficientCollateral, PositionNotFound, InsufficientPositionSize}
    ensures var o := PositionChange(s, hash, caller, p, price, now, block);
            o.state == s.(pools := s.pools[p.market := Risk.Accrue(s.pools[p.market], s.configs[p.market], now)])
  {
  }

  lemma PositionChangePreservesValid(s: DexState, hash: Hasher, caller: ActorId, p: OrderParams, price: u128, now: u64, block: u32)
    requires Valid(s, hash)
    ensures Valid(PositionChange(s, hash, caller, p, price, now, block).state, hash)
  {
    var a := AccruePool(s, p.market, now);
    if a.result.Ok? {
      IncreasePreservesValid(a.state, hash, caller, p.market, p.collateralToken, p.side == Long, p.sizeDeltaUsd,
                             p.collateralDeltaAmount, price, now, block);
      DecreasePreservesValid(a.state, hash, caller, p.market, p.collateralToken, p.side == Long, p.sizeDeltaUsd,
                             p.collateralDeltaAmount, price, now, block);
    }
  }

  /** `execute_market_order` and `execute_limit_order`: quote the increase or
      the decrease, check the trader's acceptable price, then change the
      position at the quoted price. */
  function ExecuteNow(s: DexState, hash: Hasher, caller: ActorId, p: OrderParams, now: u64, block: u32)
    : (o: Outcome<ExecutionResult>)
    ensures !Orders.IsMarketType(p.orderType) && !Orders.IsLimitType(p.orderType) ==> o == Outcome(s, Err(UnsupportedOrderType))
    ensures o.result.Ok? ==>
              var q := Pricing.Quote(s.markets, s.configs, s.pools, s.oracle, p.market, p.side, p.sizeDeltaUsd,
                                     Orders.IsIncreaseType(p.orderType));
              q.Ok? && Orders.ValidateExecutionPrice(p, q.value.executionPrice).Ok?
              && o.result.value.PositionChanged? && o.result.value.executionPrice == q.value.executionPrice
  {
    if !Orders.IsMarketType(p.orderType) && !Orders.IsLimitType(p.orderType) then Outcome(s, Err(UnsupportedOrderType))
    else
      match Pricing.Quote(s.markets, s.configs, s.pools, s.oracle, p.market, p.side, p.sizeDeltaUsd,
                          Orders.IsIncreaseType(p.orderType))
      case Err(e) => Outcome(s, Err(e))
      case Ok(q) =>
        match Orders.ValidateExecutionPrice(p, q.executionPrice)
        case Err(e) => Outcome(s, Err(e))
        case Ok(_) =>
          var c := PositionChange(s, hash, caller, p, q.executionPrice, now, block);
          match c.result
          case Err(e) => Outcome(c.state, Err(e))
          case Ok(key) => Outcome(c.state, Ok(PositionChanged(key, q.executionPrice)))
  }

  /** `save_order`: a fresh request key, the order stored under it with
      status `Created`, and the key appended to the caller's order list.
      Its only caller, `create_order`, still holds its shared borrow of the
      state, so the mutable borrow taken here would panic; that borrow
      conflict is abstracted away, and this is the sequence of writes the
      code performs without it. */
  function SaveOrder(s: DexState, caller: ActorId, p: OrderParams, now: u64, block: u32): (o: Outcome<ExecutionResult>)
    ensures var g := GenerateRequestKey(s);
            && (g.result.Err? ==> o == Outcome(s, Err(Trap)))
            && (g.result.Ok? ==>
                  var key := g.result.value;
                  o.result == Ok(OrderSaved(key))
                  && o.state == g.state.(orders := s.orders[key := Orders.NewOrder(key, caller, p, block, now)],
                                         accountOrders := s.accountOrders[caller := KeysOf(s.accountOrders, caller) + [key]]))
  {
    var g := GenerateRequestKey(s);
    match g.result
    case Err(e) => Outcome(s, Err(e))
    case Ok(key) =>
      var st := g.state;
      Outcome(st.(orders := st.orders[key := Orders.NewOrder(key, caller, p, block, now)],
                  accountOrders := st.accountOrders[caller := KeysOf(st.accountOrders, caller) + [key]]),
              Ok(OrderSaved(key)))
  }

  lemma SaveOrderPreservesValid(s: DexState, hash: Hasher, caller: ActorId, p: OrderParams, now: u64, block: u32)
    requires Valid(s, hash)
    ensures Valid(SaveOrder(s, caller, p, now, block).state, hash)
  {
  }

  /** In a valid state a saved order never overwrites a stored one, and it
      gives back the parameters it was saved from. */
  lemma SaveOrderFresh(s: DexState, hash: Hasher, caller: ActorId, p: OrderParams, now: u64, block: u32)
    requires Valid(s, hash) && SaveOrder(s, caller, p, now, block).result.Ok?
    ensures var o := SaveOrder(s, caller, p, now, block);
            var key := o.result.value.orderKey;
            key !in s.orders && o.state.orders == s.orders[key := o.state.orders[key]]
            && Orders.OrderToParams(o.state.orders[key]) == p
  {
    FreshRequestKey(s, hash);
    Orders.OrderParamsRoundTrip(GenerateRequestKey(s).result.value, caller, p, block, now);
  }

  /** `create_order`: market and config, parameters, price freshness (of the
      market's price key), then: market orders execute at once, limit and
      stop orders execute at once when their trigger holds at the mid price
      and are saved otherwise, and swap orders are refused. The shared
      borrow taken at the start lives to the end of the call, so as written
      every path that reaches `accrue_pool` or `save_order` panics at their
      mutable borrow; that borrow conflict is abstracted away here. */
  function CreateOrder(s: DexState, hash: Hasher, caller: ActorId, p: OrderParams, now: u64, block: u32)
    : (o: Outcome<ExecutionResult>)
    ensures p.market !in s.markets || p.market !in s.configs ==> o == Outcome(s, Err(MarketNotFound))
    ensures p.market in s.markets && p.market in s.configs && Orders.ValidateOrderParams(p).Err? ==>
              o == Outcome(s, Err(Orders.ValidateOrderParams(p).error))
    ensures var pk := Utils.PriceKey(s.markets, p.market);
            p.market in s.markets && p.market in s.configs && Orders.ValidateOrderParams(p).Ok?
            && Oracle.EnsureFresh(s.oracle, pk, now).Err? ==>
              o == Outcome(s, Err(Oracle.EnsureFresh(s.oracle, pk, now).error))
    ensures var pk := Utils.PriceKey(s.markets, p.market);
            p.market in s.markets && p.market in s.configs && Orders.ValidateOrderParams(p).Ok?
            && Oracle.EnsureFresh(s.oracle, pk, now).Ok? && !Orders.IsMarketType(p.orderType) && !Orders.IsLimitType(p.orderType) ==>
              o == Outcome(s, Err(UnsupportedOrderType))
    ensures o.result.Ok? && o.result.value.OrderSaved? ==>
              var pk := Utils.PriceKey(s.markets, p.market);
              Orders.IsLimitType(p.orderType) && pk in s.oracle.prices
              && !Orders.CanExecuteLimitOrder(p, Oracle.Mid(s.oracle, pk).value)
              && o == SaveOrder(s, caller, p, now, block)
  {
    if p.market !in s.markets || p.market !in s.configs then Outcome(s, Err(MarketNotFound))
    else match Orders.ValidateOrderParams(p)
      case Err(e) => Outcome(s, Err(e))
      case Ok(_) =>
        var pk := Utils.PriceKey(s.markets, p.market);
        match Oracle.EnsureFresh(s.oracle, pk, now)
        case Err(e) => Outcome(s, Err(e))
        case Ok(_) =>
          if Orders.IsMarketType(p.orderType) then ExecuteNow(s, hash, caller, p, now, block)
          else if Orders.IsLimitType(p.orderType) then
            match Oracle.Mid(s.oracle, pk)
            case Err(e) => Outcome(s, Err(e))
            case Ok(mid) =>
              if Orders.CanExecuteLimitOrder(p, mid) then ExecuteNow(s, hash, caller, p, now, block)
              else SaveOrder(s, caller, p, now, block)
          else Outcome(s, Err(UnsupportedOrderType))
  }

  lemma ExecuteNowPreservesValid(s: DexState, hash: Hasher, caller: ActorId, p: OrderParams, now: u64, block: u32)
    requires Valid(s, hash)
    ensures Valid(ExecuteNow(s, hash, caller, p, now, block).state, hash)
  {
    var q := Pricing.Quote(s.markets, s.configs, s.pools, s.oracle, p.market, p.side, p.sizeDeltaUsd,
                           Orders.IsIncreaseType(p.orderType));
    if (Orders.IsMarketType(p.orderType) || Orders.IsLimitType(p.orderType)) && q.Ok?
       && Orders.ValidateExecutionPrice(p, q.value.executionPrice).Ok? {
      PositionChangePreservesValid(s, hash, caller, p, q.value.executionPrice, now, block);
      assert ExecuteNow(s, hash, caller, p, now, block).state
          == PositionChange(s, hash, caller, p, q.value.executionPrice, now, block).state;
    } else {
      assert ExecuteNow(s, hash, caller, p, now, block).state == s;
    }
  }

  lemma CreateOrderPreservesValid(s: DexState, hash: Hasher, caller: ActorId, p: OrderParams, now: u64, block: u32)
    requires Valid(s, hash)
    ensures Valid(CreateOrder(s, hash, caller, p, now, block).state, hash)
  {
    ExecuteNowPreservesValid(s, hash, caller, p, now, block);
    SaveOrderPreservesValid(s, hash, caller, p, now, block);
  }

  /** The read-only checks of `execute_saved_order`: the stored order must
      exist and still be `Created`, its price must be fresh, its trigger
      must still hold at the mid price, and the quote for it must pass its
      acceptable price. The result is the order and its execution price. */
  function SavedOrderCheck(s: DexState, key: RequestKey, now: u64): (r: Result<(Order, u128)>)
    ensures key !in s.orders ==> r == Err(OrderNotFound)
    ensures key in s.orders && s.orders[key].status != Created ==> r == Err(OrderAlreadyProcessed)
    ensures key in s.orders && s.orders[key].status == Created ==>
              var order := s.orders[key];
              var pk := Utils.PriceKey(s.markets, order.market);
              (Oracle.EnsureFresh(s.oracle, pk, now).Ok? && pk in s.oracle.prices
               && !Orders.CanExecuteLimitOrder(Orders.OrderToParams(order), Oracle.Mid(s.oracle, pk).value)) ==>
                r == Err(OrderCannotBeExecutedYet)
    ensures r.Ok? ==>
              && key in s.orders && r.value.0 == s.orders[key]
              && r.value.0.status == Created && Orders.IsLimitType(r.value.0.orderType)
              && var pk := Utils.PriceKey(s.markets, r.value.0.market);
              && Oracle.EnsureFresh(s.oracle, pk, now).Ok? && pk in s.oracle.prices
              && Orders.CanExecuteLimitOrder(Orders.OrderToParams(r.value.0), Oracle.Mid(s.oracle, pk).value)
              && Orders.ValidateExecutionPrice(Orders.OrderToParams(r.value.0), r.value.1).Ok?
  {
    if key !in s.orders then Err(OrderNotFound)
    else
      var order := s.orders[key];
      if order.status != Created then Err(OrderAlreadyProcessed)
      else
        var pk := Utils.PriceKey(s.markets, order.market);
        match Oracle.EnsureFresh(s.oracle, pk, now)
        case Err(e) => Err(e)
        case Ok(_) =>
          match Oracle.Mid(s.oracle, pk)
          case Err(e) => Err(e)
          case Ok(mid) =>
            var p := Orders.OrderToParams(order);
            if !Orders.CanExecuteLimitOrder(p, mid) then Err(OrderCannotBeExecutedYet)
            else
              match Pricing.Quote(s.markets, s.configs, s.pools, s.oracle, order.market, p.side, p.sizeDeltaUsd,
                                  order.orderType == LimitIncrease)
              case Err(e) => Err(e)
              case Ok(q) =>
                match Orders.ValidateExecutionPrice(p, q.executionPrice)
                case Err(e) => Err(e)
                case Ok(_) => Ok((order, q.executionPrice))
  }

  /** `execute_saved_order`: the checks above, then the position change for
      the order's owner at the quoted price; the execution fee moves from
      owner to executor when the owner can pay it, and the order becomes
      `Executed`. A failed check writes nothing; a failed position change
      keeps the pool accrual it made. */
  function ExecuteSavedOrder(s: DexState, hash: Hasher, executor: ActorId, key: RequestKey, now: u64, block: u32)
    : (o: Outcome<ExecutionResult>)
    ensures SavedOrderCheck(s, key, now).Err? ==> o == Outcome(s, Err(SavedOrderCheck(s, key, now).error))
    ensures SavedOrderCheck(s, key, now).Ok? ==>
              var (order, exec) := SavedOrderCheck(s, key, now).value;
              var c := PositionChange(s, hash, order.account, Orders.OrderToParams(order), exec, now, block);
              && (c.result.Err? ==> o == Outcome(c.state, Err(c.result.error)))
              && (c.result.Ok? ==>
                    && o.result == Ok(PositionChanged(c.result.value, exec))
                    && o.state == c.state.(balances := Orders.PayExecutionFee(c.state.balances, order.account, executor,
                                                                             order.executionFee),
                                           orders := s.orders[key := order.(status := Executed, updatedAtBlock := block,
                                                                            updatedAtTime := now)]))
  {
    match SavedOrderCheck(s, key, now)
    case Err(e) => Outcome(s, Err(e))
    case Ok((order, exec)) =>
      var c := PositionChange(s, hash, order.account, Orders.OrderToParams(order), exec, now, block);
      match c.result
      case Err(e) => Outcome(c.state, Err(e))
      case Ok(positionKey) =>
        var st := c.state.(balances := Orders.PayExecutionFee(c.state.balances, order.account, executor, order.executionFee));
        assert key in st.orders && st.orders[key].status == Created;
        var done := order.(status := Executed, updatedAtBlock := block, updatedAtTime := now);
        Outcome(st.(orders := st.orders[key := done]), Ok(PositionChanged(positionKey, exec)))
  }

  /** `update_order`: the order must exist, belong to the caller and still be
      `Created`; only the supplied fields are overwritten. */
  function UpdateOrder(s: DexState, caller: ActorId, key: RequestKey, u: UpdateParams, now: u64, block: u32): (o: Outcome<()>)
    ensures key !in s.orders ==> o == Outcome(s, Err(OrderNotFound))
    ensures key in s.orders && s.orders[key].account != caller ==> o == Outcome(s, Err(Unauthorized))
    ensures key in s.orders && s.orders[key].account == caller && s.orders[key].status != Created ==>
              o == Outcome(s, Err(OrderAlreadyProcessed))
    ensures o.result.Ok? ==> key in s.orders && s.orders[key].status == Created
                             && o.state == s.(orders := s.orders[key := Orders.ApplyUpdate(s.orders[key], u, block, now)])
  {
    if key !in s.orders then Outcome(s, Err(OrderNotFound))
    else if s.orders[key].account != caller then Outcome(s, Err(Unauthorized))
    else if s.orders[key].status != Created then Outcome(s, Err(OrderAlreadyProcessed))
    else Outcome(s.(orders := s.orders[key := Orders.ApplyUpdate(s.orders[key], u, block, now)]), Ok(()))
  }

  /** `cancel_order`: the same three checks; the order becomes `Cancelled`. */
  function CancelOrder(s: DexState, caller: ActorId, key: RequestKey, now: u64, block: u32): (o: Outcome<()>)
    ensures key !in s.orders ==> o == Outcome(s, Err(OrderNotFound))
    ensures key in s.orders && s.orders[key].account != caller ==> o == Outcome(s, Err(Unauthorized))
    ensures key in s.orders && s.orders[key].account == caller && s.orders[key].status != Created ==>
              o == Outcome(s, Err(OrderAlreadyProcessed))
    ensures o.result.Ok? ==> key in s.orders && s.orders[key].status == Created
                             && o.state == s.(orders := s.orders[key := s.orders[key].(status := Cancelled,
                                                                  updatedAtBlock := block, updatedAtTime := now)])
  {
    if key !in s.orders then Outcome(s, Err(OrderNotFound))
    else if s.orders[key].account != caller then Outcome(s, Err(Unauthorized))
    else if s.orders[key].status != Created then Outcome(s, Err(OrderAlreadyProcessed))
    else Outcome(s.(orders := s.orders[key := s.orders[key].(status := Cancelled, updatedAtBlock := block,
                                                              updatedAtTime := now)]), Ok(()))
  }

  /** `Created` is the only status an order leaves: once executed or
      cancelled, every update, cancel or execution of it fails and changes
      nothing. */
  lemma ProcessedOrderIsFinal(s: DexState, hash: Hasher, actor: ActorId, key: RequestKey, u: UpdateParams, now: u64, block: u32)
    requires key in s.orders && s.orders[key].status != Created
    ensures UpdateOrder(s, actor, key, u, now, block).state == s && UpdateOrder(s, actor, key, u, now, block).result.Err?
    ensures CancelOrder(s, actor, key, now, block).state == s && CancelOrder(s, actor, key, now, block).result.Err?
    ensures ExecuteSavedOrder(s, hash, actor, key, now, block) == Outcome(s, Err(OrderAlreadyProcessed))
  {
  }

  /** A cancelled order can never be executed, and an executed one never
      cancelled. */
  lemma CancelAndExecuteExclusive(s: DexState, hash: Hasher, owner: ActorId, executor: ActorId, key: RequestKey,
                                  now: u64, block: u32, now2: u64, block2: u32)
    ensures var c := CancelOrder(s, owner, key, now, block);
            c.result.Ok? ==> ExecuteSavedOrder(c.state, hash, executor, key, now2, block2).result == Err(OrderAlreadyProcessed)
    ensures var e := ExecuteSavedOrder(s, hash, executor, key, now, block);
            e.result.Ok? ==> CancelOrder(e.state, owner, key, now2, block2).result.Err?
  {
    var c := CancelOrder(s, owner, key, now, block);
    if c.result.Ok? {
      ProcessedOrderIsFinal(c.state, hash, executor, key, UpdateParams(None, None, None), now2, block2);
    }
    var e := ExecuteSavedOrder(s, hash, executor, key, now, block);
    if e.result.Ok? {
      assert e.state.orders[key].status == Executed;
      ProcessedOrderIsFinal(e.state, hash, owner, key, UpdateParams(None, None, None), now2, block2);
    }
  }

  /** `get_pending_orders`: the keys of the orders still `Created`. */
  function PendingOrders(s: DexState): (r: set<RequestKey>)
    ensures forall k :: k in r <==> k in s.orders && s.orders[k].status == Created
  {
    set k | k in s.orders && s.orders[k].status == Created
  }

  // ---------------------------------------------------------------- executor_service.rs

  /** `liquidate_position`: keepers and liquidators only; the position must
      exist, its market id must have a price (looked up by market id, not
      through the price key) and a config, and the position must be
      liquidatable at that mid. It is then closed through
      `decrease_position` with its whole size and its whole stored
      collateral, at the mid; the liquidator is paid nothing. The shared
      borrow taken at the start is still held when `decrease_position`
      takes its mutable borrow, which as written panics; that borrow
      conflict is abstracted away, so this is the sequence of writes the
      code performs without it. */
  function Liquidate(s: DexState, hash: Hasher, liquidator: ActorId, key: PositionKey, now: u64, block: u32)
    : (o: Outcome<()>)
    ensures !IsKeeper(s, liquidator) && !IsLiquidator(s, liquidator) ==> o == Outcome(s, Err(NotLiquidator))
    ensures (IsKeeper(s, liquidator) || IsLiquidator(s, liquidator)) && key !in s.positions ==> o == Outcome(s, Err(PositionNotFound))
    ensures o.result.Err? ==> o.state == s
    ensures o.result.Err? ==> o.result.error in {NotLiquidator, PositionNotFound, PriceNotAvailable, MarketNotFound,
                                                PositionNotLiquidatable, InsufficientCollateral, InsufficientPositionSize}
    ensures o.result.Ok? ==>
              && key in s.positions
              && var pos := s.positions[key];
              && pos.market in s.oracle.prices && pos.market in s.configs
              && Risk.IsLiquidatable(pos, Oracle.Mid(s.oracle, pos.market).value, s.configs[pos.market].liquidationThresholdBps)
              && o.state == DecreasePosition(s, hash, pos.account, pos.market, pos.collateralToken, pos.isLong,
                                             pos.sizeUsd, pos.collateralUsd, Oracle.Mid(s.oracle, pos.market).value,
                                             now, block).state
  {
    if !IsKeeper(s, liquidator) && !IsLiquidator(s, liquidator) then Outcome(s, Err(NotLiquidator))
    else match GetPosition(s, key)
      case Err(e) => Outcome(s, Err(e))
      case Ok(pos) =>
        match Oracle.Mid(s.oracle, pos.market)
        case Err(e) => Outcome(s, Err(e))
        case Ok(price) =>
          if pos.market !in s.configs then Outcome(s, Err(MarketNotFound))
          else if !Risk.IsLiquidatable(pos, price, s.configs[pos.market].liquidationThresholdBps) then
            Outcome(s, Err(PositionNotLiquidatable))
          else
            var d := DecreasePosition(s, hash, pos.account, pos.market, pos.collateralToken, pos.isLong,
                                      pos.sizeUsd, pos.collateralUsd, price, now, block);
            match d.result
            case Err(e) => Outcome(d.state, Err(e))
            case Ok(_) => Outcome(d.state, Ok(()))
  }

  /** In a valid state a successful liquidation closes the position: its
      key is gone. */
  lemma LiquidationClosesPosition(s: DexState, hash: Hasher, liquidator: ActorId, key: PositionKey, now: u64, block: u32)
    requires Valid(s, hash)
    requires Liquidate(s, hash, liquidator, key, now, block).result.Ok?
    ensures key !in Liquidate(s, hash, liquidator, key, now, block).state.positions
  {
    var pos := s.positions[key];
    assert StoredUnderOwnKey(hash, key, pos);
    DecreasePositionWrites(s, hash, pos.account, pos.market, pos.collateralToken, pos.isLong, pos.sizeUsd,
                           pos.collateralUsd, Oracle.Mid(s.oracle, pos.market).value, now, block);
  }

  /** In a valid state, a liquidatable position that owes a positive net fee
      cannot be liquidated: settlement inside the decrease lowers its
      collateral below the stored amount the liquidation asks to withdraw,
      so the decrease fails with `InsufficientCollateral` and nothing
      changes. */
  lemma LiquidationFailsWhenFeesOwed(s: DexState, hash: Hasher, liquidator: ActorId, key: PositionKey, now: u64, block: u32)
    requires Valid(s, hash)
    requires IsKeeper(s, liquidator) || IsLiquidator(s, liquidator)
    requires key in s.positions && var pos := s.positions[key];
             pos.market in s.oracle.prices && pos.market in s.configs && pos.market in s.pools
             && Risk.IsLiquidatable(pos, Oracle.Mid(s.oracle, pos.market).value, s.configs[pos.market].liquidationThresholdBps)
             && Risk.SettlementFees(pos, s.pools[pos.market], s.configs[pos.market], now).totalFeeUsd > 0
    ensures Liquidate(s, hash, liquidator, key, now, block) == Outcome(s, Err(InsufficientCollateral))
  {
    assert StoredUnderOwnKey(hash, key, s.positions[key]);
  }

  lemma LiquidatePreservesValid(s: DexState, hash: Hasher, liquidator: ActorId, key: PositionKey, now: u64, block: u32)
    requires Valid(s, hash)
    ensures Valid(Liquidate(s, hash, liquidator, key, now, block).state, hash)
  {
    if key in s.positions {
      var pos := s.positions[key];
      if pos.market in s.oracle.prices {
        DecreasePreservesValid(s, hash, pos.account, pos.market, pos.collateralToken, pos.isLong, pos.sizeUsd,
                               pos.collateralUsd, Oracle.Mid(s.oracle, pos.market).value, now, block);
      }
    }
  }

  /** `can_liquidate`: the liquidation test for the stored position at its
      market id's mid price. */
  function CanLiquidate(s: DexState, key: PositionKey): (r: Result<bool>)
    ensures key !in s.positions ==> r == Err(PositionNotFound)
    ensures r.Ok? ==> key in s.positions && s.positions[key].market in s.oracle.prices
                      && s.positions[key].market in s.configs
                      && r.value == Risk.IsLiquidatable(s.positions[key], Oracle.Mid(s.oracle, s.positions[key].market).value,
                                                        s.configs[s.positions[key].market].liquidationThresholdBps)
    ensures key in s.positions && s.positions[key].market in s.oracle.prices && s.positions[key].market in s.configs ==> r.Ok?
  {
    match GetPosition(s, key)
    case Err(e) => Err(e)
    case Ok(pos) =>
      match Oracle.Mid(s.oracle, pos.market)
      case Err(e) => Err(e)
      case Ok(price) =>
        if pos.market !in s.configs then Err(MarketNotFound)
        else Ok(Risk.IsLiquidatable(pos, price, s.configs[pos.market].liquidationThresholdBps))
  }

  /** Whether the keeper scan reports position `k`: its market id has a price
      and a config, and it is liquidatable there. */
  predicate LiquidatableNow(s: DexState, k: PositionKey)
    requires k in s.positions
  {
    var pos := s.positions[k];
    pos.market in s.oracle.prices && pos.market in s.configs
    && Risk.IsLiquidatable(pos, Oracle.Mid(s.oracle, pos.market).value, s.configs[pos.market].liquidationThresholdBps)
  }

  /** The keeper scan agrees with `can_liquidate` key by key. */
  lemma ScanAgreesWithCanLiquidate(s: DexState, k: PositionKey)
    requires k in s.positions
    ensures LiquidatableNow(s, k) <==> CanLiquidate(s, k) == Ok(true)
  {
  }

  /** Whether the keeper scan reports order `k`: it is still `Created`, its
      market id has a price, and its trigger holds at that mid. */
  predicate ExecutableNow(s: DexState, k: RequestKey)
    requires k in s.orders
  {
    var order := s.orders[k];
    order.status == Created && order.market in s.oracle.prices
    && Orders.Triggered(order.orderType, order.isLong, order.triggerPrice, Oracle.Mid(s.oracle, order.market).value)
  }
}
