/** The ledger's records, built from the fields the modules actually read
    and write, and the error values the modules return. */
module Types {
  import opened Arith

  type Bytes = seq<u8>
  /** A 32-byte value: an actor id or a 256-bit hash. */
  type Bytes32 = s: Bytes | |s| == 32 witness seq(32, _ => 0)
  type ActorId = Bytes32
  type H256 = Bytes32
  type RequestKey = H256
  type PositionKey = H256
  /** A Rust `String` (market ids and token names), as its UTF-8 bytes. */
  type Name = Bytes
  /** The hash that turns a position preimage into a key; it is fixed for the
      life of a ledger and nothing else is known about it. */
  type Hasher = Bytes -> Bytes32

  datatype Option<T> = None | Some(value: T)

  datatype Error =
    | Unauthorized
    | NotLiquidator
    | MarketNotFound
    | MarketAlreadyExists
    | PositionNotFound
    | PositionNotLiquidatable
    | InsufficientCollateral
    | InsufficientLiquidity
    | InsufficientPositionSize
    | MaxOpenInterestExceeded
    | MaxLeverageExceeded
    | SlippageExceeded
    | PriceStale
    | PriceNotAvailable
    | PriceNotAcceptable
    | InvalidOracleSignature
    | InvalidTriggerPrice
    | InvalidPrice
    | InvalidOrderSize
    | InvalidCollateralAmount
    | InvalidParameter
    | InsufficientBalance
    | InsufficientMarketTokens
    | OrderNotFound
    | OrderAlreadyProcessed
    | OrderCannotBeExecutedYet
    | UnsupportedOrderType
    | MathOverflow
      /** The source panics here (a division by zero, an `unwrap` of a
          missing entry, a counter overflow); the runtime then discards every
          write the call made. */
    | Trap

  datatype Result<T> = Ok(value: T) | Err(error: Error)

  datatype Market = Market(marketToken: ActorId, indexToken: Name, longToken: Name, shortToken: Name)

  /** The risk parameters the modules read. */
  datatype MarketConfig = MarketConfig(
    piFactorPositive: u128,
    piFactorNegative: u128,
    piExponent: u128,
    fundingFactor: u128,
    fundingExponent: u128,
    borrowingFactor: u128,
    borrowingExponent: u128,
    skipBorrowingForSmallerSide: bool,
    maxLeverage: u8,
    liquidationThresholdBps: u16,
    maxLongOi: u128,
    maxShortOi: u128)

  /** USD-denominated amounts of one market's pool. */
  datatype Pool = Pool(
    liquidityUsd: u128,
    longLiquidityUsd: u128,
    shortLiquidityUsd: u128,
    longOiUsd: u128,
    shortOiUsd: u128,
    claimableFeeUsdLong: u128,
    claimableFeeUsdShort: u128,
    accumulatedFundingLongPerUsd: i128,
    accumulatedFundingShortPerUsd: i128,
    totalBorrowingFeesUsd: u128,
    lastFundingUpdate: u64)

  /** `PoolAmounts::default()`. */
  const EmptyPool: Pool := Pool(0, 0, 0, 0, 0, 0, 0, 0, 0, 0, 0)

  /** LP-share ledger of one market: the supply and one (account, balance)
      entry per LP, in insertion order. */
  datatype TokenInfo = TokenInfo(totalSupply: u128, balances: seq<(ActorId, u128)>)

  const EmptyTokenInfo: TokenInfo := TokenInfo(0, [])

  datatype Position = Position(
    key: PositionKey,
    account: ActorId,
    market: Name,
    collateralToken: Name,
    isLong: bool,
    sizeUsd: u128,
    collateralUsd: u128,
    entryPriceUsd: u128,
    liquidationPriceUsd: u128,
    fundingFeePerUsd: i128,
    increasedAtBlock: u32,
    decreasedAtBlock: u32,
    lastFeeUpdate: u64)

  datatype OrderSide = Long | Short

  datatype OrderType =
    | MarketIncrease
    | LimitIncrease
    | MarketDecrease
    | LimitDecrease
    | StopLossDecrease
    | MarketSwap
    | LimitSwap

  /** `Created` is the only status from which an order may change. */
  datatype OrderStatus = Created | Executed | Cancelled | Frozen

  datatype Order = Order(
    key: RequestKey,
    account: ActorId,
    receiver: ActorId,
    market: Name,
    collateralToken: Name,
    orderType: OrderType,
    sizeDeltaUsd: u128,
    collateralDeltaAmount: u128,
    triggerPrice: u128,
    acceptablePrice: u128,
    isLong: bool,
    status: OrderStatus,
    executionFee: u128,
    createdAtBlock: u32,
    createdAtTime: u64,
    updatedAtBlock: u32,
    updatedAtTime: u64)

  /** A trader's order request. */
  datatype OrderParams = OrderParams(
    market: Name,
    collateralToken: Name,
    orderType: OrderType,
    side: OrderSide,
    sizeDeltaUsd: u128,
    collateralDeltaAmount: u128,
    triggerPrice: u128,
    acceptablePrice: u128,
    executionFee: u128)

  /** The fields an owner may overwrite on a saved order. */
  datatype UpdateParams = UpdateParams(
    sizeDeltaUsd: Option<u128>,
    triggerPrice: Option<u128>,
    acceptablePrice: Option<u128>)

  datatype ExecutionResult =
    | PositionChanged(positionKey: PositionKey, executionPrice: u128)
    | OrderSaved(orderKey: RequestKey)

  /** An account's USD balance; an account with no entry holds 0. */
  function BalanceOf(balances: map<ActorId, u128>, account: ActorId): u128
  {
    if account in balances then balances[account] else 0
  }
}
