# perp-dex ledger model

A Dafny model of the core of a perpetual-futures exchange written in Rust for
the Gear/Vara platform. Traders keep an internal micro-USD balance and open
long or short positions against a per-market liquidity pool. Liquidity
providers mint and burn market tokens against that pool. Orders are executed
at an oracle mid price shifted by a spread and by an open-interest price
impact, or they are saved until their trigger holds. Funding and borrowing
fees accrue per pool and are settled per position. Keepers execute saved
orders and liquidate positions that are under water.

The model has three layers.

- **Pure modules**, one per part of the source. They hold the arithmetic and
  the decisions:
  - `Arith`: u128/i128 ranges, saturating operations as clamps, the wrapping
    `as i128` cast, and truncating signed division.
  - `Types`: the records of `types.rs` as datatypes.
  - `Utils`: request and position keys, the price key, `swap_remove`.
  - `Oracle`: prices, freshness, batches of signed prices.
  - `Risk`: funding, borrowing, fee settlement, the liquidation test.
  - `Pricing`: price impact and quotes.
  - `Positions`: PnL, liquidation price, entry-price averaging, the staged
    increase and decrease.
  - `Liquidity`: the LP balance list, mint and burn arithmetic.
  - `Orders`: validation, triggers, the acceptable-price rule, saved orders,
    updates, the execution fee.
- **`Exchange`**: the whole ledger (`PerpetualDEXState`) as a value
  `DexState`. Every entry point of the modules and services is a transition
  `DexState -> Outcome(state, result)`. Each transition performs the source's
  writes in the source's order, including writes that stay in place when the
  call then fails. The properties of the system are lemmas about these
  transitions. `Exchange.Valid` is the invariant every modelled operation
  preserves:
  - the request counter is positive;
  - every stored order is keyed by a request key already issued;
  - every position is stored under the hash of its own identity.
- **`Dex.Ledger`**: a class whose fields are the tables of
  `PerpetualDEXState`. Every entry point is a method that changes those
  fields the way the Rust code does:
  - inserts and removals on the maps;
  - `push` and a `swap_remove` found by linear search on the key lists;
  - the batch loop of `set_prices`;
  - the byte buffer of `generate_request_key`.

  Each method is proved to leave exactly the state, and return exactly the
  result, of the matching `Exchange` transition. The two keeper queries are
  loops over the position and order tables, proved to return the right
  elements without duplicates.

Rust's fixed widths are explicit:
- u128 amounts are a subset type;
- `saturating_*` operations clamp;
- `as i128` wraps;
- i128 division truncates toward zero.

A panic that can happen before any write aborts a Gear message and discards
its writes. Such panics are modelled as the result `Err(Trap)` with an
unchanged state. They are:
- a zero mid price dividing in a quote;
- a zero single-token price when removing liquidity;
- an `unwrap` of a missing pool or token entry;
- an overflow of the request counter.

Behaviours of the code that the model keeps as it is, each proved by a lemma
named in the table:
- Add liquidity through the market service credits the minted amount to the
  LP twice (`Exchange.AddLiquidityCreditsTwice`).
- Remove liquidity through the service debits the LP twice
  (`Exchange.RemoveLiquidityDebitsTwice`). If the module call then fails, the
  service's own debit stays (`Exchange.RemoveLiquidityServiceKeepsDebit`).
  Both hold only because the model abstracts the nested borrow away: as
  written, the service still holds the state's mutable borrow
  (`market_service.rs:40`) when it calls the module (`:46`), whose own
  borrow at `market.rs:140` panics, so the message reverts and no double
  debit is ever committed.
- `remove_liquidity` takes the pool and the token record out of their maps
  before the LP-balance check. Failing that check loses both entries
  (`Exchange.RemoveLiquidity`).
- `increase_position` writes the pool's side OI, the side liquidity and the
  balance debit before the leverage check. A `MaxLeverageExceeded` failure
  keeps those writes (`Exchange.IncreasePosition`).
- A liquidation asks `decrease_position` for the position's stored
  collateral. If settlement then charges any net fee, the decrease fails, so
  the liquidation fails with nothing changed
  (`Exchange.LiquidationFailsWhenFeesOwed`).
- The position key's preimage has no length prefixes, so two different
  market/collateral pairs can share a key (`Utils.PositionKeyCollision`).
- An order update is not re-validated and can set the size to 0
  (`Orders.UpdateCanZeroSize`).

Where the repository's written design and its code disagree, the model
follows the code:
- price impact is clamped to ±500 bps of price, not ±10% of size;
- impact is computed once, from the current open interest, and ignores the
  trade's size;
- there is no reserve-factor cap on open interest;
- `MaxOpenInterestExceeded` is detected after the pool entry is created, and
  `MaxLeverageExceeded` after the pool and balance writes;
- realised PnL is not moved into or out of `liquidity_usd`;
- settled fees are not credited to the claimable-fee buckets;
- a liquidation pays the liquidator nothing;
- the funding rate multiplies by its exponent rather than raising a power;
- funding indices do not sum to zero in absolute terms; only their sum is
  preserved, and only away from saturation.

## Model

| member | source | states |
|---|---|---|
| Utils.PositionKeyPreimage | app/src/utils.rs:19-23 | the preimage starts with the 32 account bytes, is as long as account, market, collateral and one more byte together, and ends with the side byte (1 long, 0 short) |
| Utils.SidePreimagesDifferInLastByte | app/src/utils.rs:23 | for the same account, market and collateral, the long and short preimages agree everywhere except their last byte |
| Utils.PreimageIgnoresSplit | app/src/utils.rs:20-22 | pairs whose concatenations are equal give the same preimage, and therefore the same key under any hash |
| Utils.PositionKeyCollision | app/src/utils.rs:20-22 | market "ab" with collateral "c" and market "a" with collateral "bc" give one and the same position key |
| Utils.PriceKey | app/src/utils.rs:41-48 | a market id resolves to its index token; any other name is returned unchanged (a definition by lookup; its use at `trading.rs:24` against the market-id lookup of liquidations is stated by `Exchange.Liquidate` and `Exchange.CanLiquidate`) |
| Utils.FromLeOfLeBytes | app/src/lib.rs:92 | reading back the little-endian bytes of a number below 256^n gives the number |
| Utils.RequestKeyOf | app/src/lib.rs:91-93 | a request key is the counter's 8 little-endian bytes followed by 24 zero bytes |
| Utils.RequestKeyInjective | app/src/lib.rs:90-96 | distinct counter values give distinct request keys |
| Utils.RequestKeyNonZero | app/src/lib.rs:63 | a counter of at least 1 never gives the all-zero key |
| Utils.IndexOf | app/src/modules/position.rs:230 | finds the first position of a key in a list, or reports that the key is absent |
| Utils.SwapRemoveMultiset | app/src/modules/position.rs:231 | `swap_remove` shortens the list by one and removes exactly one occurrence of the element at the index |
| Oracle.NewOracleState | app/src/modules/oracle.rs:19-28 | a new oracle has no prices, timestamps or signers, and a maximum age of 60 seconds |
| Oracle.GetPrice | app/src/modules/oracle.rs:70-73 | returns the stored price iff the token has one, else `PriceNotAvailable` |
| Oracle.Mid | app/src/modules/oracle.rs:76-79 | defined iff the token has a price; the mid lies between min and max |
| Oracle.Spread | app/src/modules/oracle.rs:82-85 | the spread is max − min, or 0 when max < min; `PriceNotAvailable` without a price |
| Oracle.EnsureFresh | app/src/modules/oracle.rs:88-98 | `PriceNotAvailable` without a timestamp; `PriceStale` exactly when the saturating age exceeds the maximum |
| Oracle.FreshAtBoundary | app/src/modules/oracle.rs:93 | an age of exactly the maximum, or a timestamp in the future, is fresh |
| Oracle.LastUpdate | app/src/modules/oracle.rs:101-104 | the token's timestamp if it has one |
| Oracle.LastSigner | app/src/modules/oracle.rs:107-110 | the token's last signer if it has one |
| Oracle.Accept | app/src/modules/oracle.rs:61-63 | one accepted entry: price, timestamp and signer of its token overwritten, the config untouched (a definition field by field; what a whole batch leaves is stated by `Oracle.ApplyPricesLastWins` and `Oracle.ApplyPricesUntouched`) |
| Oracle.ApplyPrices | app/src/modules/oracle.rs:49-64 | applying a batch never changes the oracle config |
| Oracle.FirstStale | app/src/modules/oracle.rs:49-53 | the index of the first stale entry: every earlier entry is fresh, and the entry at the index is stale |
| Oracle.ApplyPricesUntouched | app/src/modules/oracle.rs:61-63 | a token that no batch entry names keeps its price, timestamp and signer (or their absence) |
| Oracle.ApplyPricesLastWins | app/src/modules/oracle.rs:49-64 | after a batch, a token holds the price, timestamp and signer of its last entry |
| Oracle.SignatureCheckNeverFails | app/src/utils.rs:27-37 | the signature check accepts every entry, so `InvalidOracleSignature` cannot occur |
| Risk.FundingRate | app/src/modules/risk.rs:77-95 | the rate is 0 with no open interest; its magnitude is at most 10 per elapsed whole hour, so it is 0 within the first hour |
| Risk.FundingRateSign | app/src/modules/risk.rs:81-94 | the rate is ≥ 0 when longs dominate and ≤ 0 when shorts dominate |
| Risk.BorrowingRate | app/src/modules/risk.rs:127-132 | the APR never exceeds 10_000 bps (100%) and is 0 at zero utilisation |
| Risk.BorrowingRateMono | app/src/modules/risk.rs:127-132 | the rate is monotone non-decreasing in utilisation |
| Risk.SideFeeCap | app/src/modules/risk.rs:111-118 | a side's yearly borrowing fee at a rate of at most 100% is at most that side's open interest |
| Risk.PoolBorrowingFees | app/src/modules/risk.rs:97-125 | no time elapsed means no borrowing fees |
| Risk.YearlyBorrowingFeesCap | app/src/modules/risk.rs:109-122 | a year's fees are at most the total open interest; with the smaller side skipped, at most the larger side's open interest |
| Risk.PoolBorrowingFeesCap | app/src/modules/risk.rs:97-125 | fees over dt are at most the total open interest prorated over dt, and 0 with no open interest |
| Risk.PositionBorrowingFee | app/src/modules/risk.rs:134-145 | the fee is 0 when the position's side has no liquidity |
| Risk.PositionBorrowingFeeCap | app/src/modules/risk.rs:134-145 | a position never pays more than 100% APR of its size prorated over dt |
| Risk.Accrue | app/src/modules/risk.rs:22-34 | a no-op when no time has passed; otherwise the long index gains `FundingRate` over the elapsed time and the short index loses that same rate (saturating), the borrowing total gains `PoolBorrowingFees` over the elapsed time, and the current time is stamped; nothing else changes. With `FundingRateSign`, `FundingRate`'s hourly cap and `PoolBorrowingFeesCap` this says that the dominant side pays and how much |
| Risk.AccrueZeroSum | app/src/modules/risk.rs:26-28 | away from saturation, accrual keeps the sum of the long and short funding indices and moves each by at most one capped step |
| Risk.SettlementFees | app/src/modules/risk.rs:49-62 | no funding is owed when the checkpoint equals the side's index, and no borrowing fee when no time has elapsed |
| Risk.Settle | app/src/modules/risk.rs:38-75 | the checkpoint becomes the side's index and the fee time becomes now; fails with `InsufficientCollateral` exactly when the net fee exceeds collateral, zeroing that copy's collateral; otherwise collateral becomes collateral − net fee (clamped) |
| Risk.SettleCollateralExact | app/src/modules/risk.rs:64-72 | without saturation, a successful settlement changes collateral by exactly −(net fee) |
| Risk.SettleTwice | app/src/modules/risk.rs:38-75 | settling a settled position again at the same time owes nothing and changes nothing |
| Risk.SettleFundingSignLong | app/src/modules/risk.rs:50-52 | a long whose checkpoint is at or below the long index owes non-negative funding |
| Risk.IsLiquidatable | app/src/modules/risk.rs:147-164 | never true when size or entry price is 0, or when the token amount rounds to 0 |
| Risk.IsLiquidatableMonotone | app/src/modules/risk.rs:154-163 | while both prices, the entry price and size·USD_SCALE fit an i128: a long that is liquidatable stays so at any lower price; a short stays so at any higher price |
| Risk.NotLiquidatableAtEntry | app/src/modules/risk.rs:147-164 | a position with collateral is not liquidatable at its entry price when the threshold is below 100% |
| Risk.LiquidationWorkedExample | app/src/modules/risk.rs:147-164 | $10,000 long at $100 with $1,000 collateral and an 80% threshold: liquidatable at 98_000_000, not at 98_000_001 |
| Pricing.ImpactExponent | app/src/modules/pricing.rs:93 | the exponent is clamped into 1..=8 |
| Pricing.ImpactPowLe | app/src/modules/pricing.rs:94-100 | repeated multiplication by a ratio of at most 10_000 bps never exceeds that ratio |
| Pricing.ImpactPowZero | app/src/modules/pricing.rs:94-100 | a zero ratio powers to 0 |
| Pricing.PriceImpact | app/src/modules/pricing.rs:78-127 | the impact always lies within ±500 bps |
| Pricing.CalculatePriceImpact | app/src/modules/pricing.rs:78-127 | the loop computes the same impact as the reference definition `PriceImpact` |
| Pricing.PriceImpactZero | app/src/modules/pricing.rs:85-98 | no impact when the pool has no liquidity or when long and short open interest are equal |
| Pricing.PriceImpactIgnoresSize | app/src/modules/pricing.rs:82 | the impact does not depend on the trade size |
| Pricing.RawImpactFits | app/src/modules/pricing.rs:117-118 | the raw impact always fits in i128, so its cast never wraps |
| Pricing.PriceImpactSignIncrease | app/src/modules/pricing.rs:102-124 | for an increase, trading on the heavier side gives a non-negative (adverse) impact, and on the lighter side a non-positive one |
| Pricing.BasePrice | app/src/modules/pricing.rs:38-46 | long increase and short decrease pay the ask (≥ mid); long decrease and short increase get the bid (≤ mid) |
| Pricing.UnclampedPriceDirection | app/src/modules/pricing.rs:48-62 | for an increase, an adverse impact moves the price against the trader (up for longs, down for shorts) and a favourable one moves it the other way |
| Pricing.IncreasePriceDirection | app/src/modules/pricing.rs:48-62 | for an increase, the unclamped price is worse than base on the heavier side and better on the lighter side |
| Pricing.QuoteAt | app/src/modules/pricing.rs:38-75 | succeeds iff the mid is non-zero (else traps); the execution price lies within mid ± mid/10; the reported impact is `PriceImpact` |
| Pricing.QuoteImpactUsdSign | app/src/modules/pricing.rs:69 | the USD impact has the sign of execution price − base |
| Pricing.Quote | app/src/modules/pricing.rs:30-76 | `MarketNotFound` without a config or pool; `PriceNotAvailable` without a price for the price key; on success the execution price lies within ±10% of that mid |
| Positions.CalcPnl | app/src/modules/position.rs:239-250 | PnL is 0 when size or entry is 0, and 0 at the entry price |
| Positions.CalcPnlAntisymmetric | app/src/modules/position.rs:243-249 | without saturation, long and short PnL for the same inputs are exact negations |
| Positions.CalcPnlSaturationAsymmetry | app/src/modules/position.rs:245-248 | when the product saturates, long and short PnL are I128_MAX and I128_MIN, which are not negations |
| Positions.CalcLiqPrice | app/src/modules/position.rs:252-266 | 0 for a position without size or without entry price; its bounds against the entry are `Positions.LiqPriceLongAtMostEntry`, `Positions.LiqPriceShortAtLeastEntry` and `Positions.LiqPriceAtFullThreshold` |
| Positions.LiqPriceLongAtMostEntry | app/src/modules/position.rs:252-266 | a long's liquidation price is at most its entry price |
| Positions.LiqPriceShortAtLeastEntry | app/src/modules/position.rs:252-266 | a short's liquidation price is at least its entry price |
| Positions.LiqPriceAtFullThreshold | app/src/modules/position.rs:256-264 | with a 100% threshold the liquidation price equals the entry price |
| Positions.NewEntryPriceBetween | app/src/modules/position.rs:69-80 | without saturation, the size-weighted average entry lies between the old entry and the execution price |
| Positions.NewPosition | app/src/modules/position.rs:50-65 | a new position starts with size, collateral and funding checkpoint 0, and its fee time is now |
| Positions.NewPositionFundingFromZero | app/src/modules/position.rs:60 | a new position's first settlement charges funding on the side's whole index, because its checkpoint starts at 0 |
| Positions.ApplyIncrease | app/src/modules/position.rs:69-88 | size and collateral grow by their (saturating) deltas, the increase block is stamped, and the entry becomes `NewEntryPrice` of the old size and entry and the delta at the execution price (the execution price itself for a position of size 0), which `Positions.NewEntryPriceBetween` places between the old entry and the execution price |
| Positions.StagedIncrease | app/src/modules/position.rs:22-88 | `MarketNotFound` without a config, `InsufficientBalance` below the collateral delta, and otherwise only the settlement's `InsufficientCollateral`; on success the staged size is the old size plus delta; a stored position is settled successfully and then increased by `ApplyIncrease`; a new position keeps its identity, the collateral delta and the execution price |
| Positions.IncreasePool | app/src/modules/position.rs:103-117 | the trader's side gains the size delta in open interest and the collateral delta in liquidity, saturating; the other side is untouched (a definition; `Positions.DecreaseUndoesIncrease` and `Exchange.RoundTripPools` state that a decrease of the same amounts restores the pool) |
| Positions.MaxLeverageExact | app/src/modules/position.rs:133-135 | the leverage test fails exactly when size·10_000 ≥ (max leverage·10_000 + 1)·collateral |
| Positions.MaxLeverageExample | app/src/modules/position.rs:133-135 | $10,000 on $1,000 passes at 10× and $10,001 fails |
| Positions.WithLiqPrice | app/src/modules/position.rs:129-130 | only the cached liquidation price changes, and it is recomputed when size and collateral are positive |
| Positions.PnlShareFull | app/src/modules/position.rs:183-187 | closing the whole size realises the whole PnL |
| Positions.PnlShareBound | app/src/modules/position.rs:183-187 | a partial close realises at most the whole PnL in magnitude |
| Positions.Payout | app/src/modules/position.rs:193-199 | a gain adds to the withdrawn collateral (saturating); a loss reduces it, down to 0 at most |
| Positions.StagedDecrease | app/src/modules/position.rs:157-199 | `MarketNotFound`, then `PositionNotFound`; on success settlement succeeded, both deltas fit the settled position, size and collateral drop by them, and the payout is the withdrawn collateral adjusted by the pro-rata PnL |
| Positions.DecreasePool | app/src/modules/position.rs:210-216 | the trader's side loses the size delta in open interest and the collateral delta in liquidity, saturating at 0 (a definition; its partner is `Positions.DecreaseUndoesIncrease`) |
| Positions.DecreaseUndoesIncrease | app/src/modules/position.rs:103-117 | without saturation, decreasing a pool by the deltas it was increased by restores it |
| Liquidity.FindLp | app/src/modules/market.rs:118 | finds the first entry of the LP in the balance list, or reports that it has none |
| Liquidity.CreditLp | app/src/modules/market.rs:118-123 | an LP without an entry is appended once, otherwise the list keeps its length |
| Liquidity.DebitLp | app/src/modules/market.rs:198-207 | a debit keeps the list's length |
| Liquidity.FindLpAppend | app/src/modules/market.rs:122 | appending an entry changes no existing LP's lookup and makes a new LP findable at the end |
| Liquidity.CreditLpBalance | app/src/modules/market.rs:118-123 | a credit adds to the LP's balance (saturating), leaves every other LP's balance alone, and leaves the LP with an entry |
| Liquidity.DebitLpBalance | app/src/modules/market.rs:207 | a debit subtracts from the LP's balance (saturating) and leaves every other LP's balance alone |
| Liquidity.CreditThenDebit | app/src/modules/market.rs:118-123 | crediting and then debiting the same amount restores the LP's balance |
| Liquidity.MintAmount | app/src/modules/market.rs:91-101 | the first deposit mints its USD value; later deposits into a pool with no liquidity fail with `InsufficientLiquidity` |
| Liquidity.MintNoDilution | app/src/modules/market.rs:100 | a pro-rata mint never gives the new LP a larger share of supply than its share of the pool value |
| Liquidity.ProRataBound | app/src/modules/market.rs:166 | burning at most the supply takes at most the pooled quantity |
| Liquidity.ProRataAll | app/src/modules/market.rs:166 | burning the whole supply takes exactly the pooled quantity |
| Liquidity.LongPartBound | app/src/modules/market.rs:174-175 | the long part is at most the liquidity share, and the long and short parts add up to it exactly |
| Liquidity.WithdrawalQuote | app/src/modules/market.rs:165-186 | `InvalidPrice` when the prices sum to 0; a trap when exactly one price is 0; otherwise the liquidity and fee shares are pro rata to the burned amount, and the paid-out token amounts are the long part (`LongPart`) plus the long fee share at the long price and the rest of the liquidity share plus the short fee share at the short price; `Liquidity.LongPartBound` states that the two parts add up to the liquidity share |
| Liquidity.WithdrawalWithinPool | app/src/modules/market.rs:165-186 | a burn within supply never takes more liquidity or fees than the pool holds |
| Orders.ValidateOrderParams | app/src/modules/trading.rs:235-255 | errors in order: zero size, zero acceptable price, zero trigger for limit/stop types, zero collateral for increase types; success exactly when none applies |
| Orders.CanExecuteLimitOrder | app/src/modules/trading.rs:257-283 | limit increase and stop loss fire for a long at mid ≤ trigger (short ≥); limit decrease fires for a long at mid ≥ trigger (short ≤); other types never fire |
| Orders.TriggerInclusive | app/src/modules/trading.rs:257-283 | every limit or stop order can execute when the mid equals its trigger |
| Orders.TakeProfitStopLossDisjoint | app/src/modules/trading.rs:267-280 | a take-profit and a stop-loss with the same side and trigger both fire only at the trigger |
| Orders.ValidateExecutionPrice | app/src/modules/trading.rs:285-298 | buyers (long increase, short decrease) need price ≤ acceptable, sellers need price ≥ acceptable; otherwise `PriceNotAcceptable` |
| Orders.AcceptablePriceAccepted | app/src/modules/trading.rs:285-298 | the acceptable price itself always passes |
| Orders.NewOrder | app/src/modules/trading.rs:86-108 | a saved order belongs to and pays out to the caller, is `Created`, and is long iff the side is long |
| Orders.OrderToParams | app/src/modules/trading.rs:300-312 | the parameters keep the order's market, type and size, and the side is long iff the order is |
| Orders.OrderParamsRoundTrip | app/src/modules/trading.rs:86-108 | a saved order gives back exactly the parameters it was created from |
| Orders.KeeperTriggerTableAgrees | app/src/services/executor_service.rs:116-127 | the keeper query's trigger table is `can_execute_limit_order` applied to the order's parameters |
| Orders.ApplyUpdate | app/src/modules/trading.rs:202-213 | only supplied size, trigger and acceptable price fields are overwritten, and the update stamps move; nothing else changes |
| Orders.UpdateCanZeroSize | app/src/modules/trading.rs:202-204 | an update can set a saved order's size to 0, which validation would refuse |
| Orders.PayExecutionFee | app/src/modules/trading.rs:160-168 | no balance changes unless the executor differs from the owner, the fee is positive and the owner's entry covers it; then the owner is debited and the executor credited |
| Orders.PayExecutionFeeConserves | app/src/modules/trading.rs:160-168 | without saturation, owner plus executor balance is unchanged, and every other account is untouched |
| Exchange.NewState | app/src/lib.rs:46-66 | every table is empty, the order counter is 0, the request counter is 1, the admin is set, and the oracle is new |
| Exchange.NewStateValid | app/src/lib.rs:46-66 | the initial state satisfies the ledger invariant |
| Exchange.KeyIdOf | app/src/lib.rs:90-96 | a request key's first eight bytes decode to the counter it was issued for |
| Exchange.GenerateRequestKey | app/src/lib.rs:90-96 | issues the key of the current counter and increments the counter by one; traps, changing nothing, when the counter would overflow |
| Exchange.SuccessiveRequestKeysDistinct | app/src/lib.rs:63 | two successive keys differ, and neither is the all-zero key |
| Exchange.FreshRequestKey | app/src/lib.rs:90-96 | in a valid state, the next key names no stored order |
| Exchange.SetPrices | app/src/modules/oracle.rs:45-67 | only the oracle changes; the call succeeds iff no entry is stale, and otherwise fails with `PriceStale` |
| Exchange.SetPricesKeepsConfig | app/src/modules/oracle.rs:45-67 | a batch never changes the oracle config |
| Exchange.SetPricesNotAtomic | app/src/modules/oracle.rs:49-64 | a fresh first entry followed by a stale second one fails, yet the first price stays written |
| Exchange.SetOracleConfig | app/src/modules/oracle.rs:113-120 | non-admins get `Unauthorized` and change nothing; the admin replaces only the config |
| Exchange.AccruePool | app/src/modules/risk.rs:17-36 | `MarketNotFound`, with no change, without a config and pool; otherwise only that market's pool is accrued; orders are untouched |
| Exchange.IncreaseWrites | app/src/modules/position.rs:94-145 | the open-interest cap fails, creating only the pool entry; a leverage failure keeps the pool and balance writes; success also stores the position with its liquidation price and lists a new key |
| Exchange.IncreasePosition | app/src/modules/position.rs:8-146 | market, balance and settlement errors change nothing; `MaxOpenInterestExceeded` creates only the pool entry; `MaxLeverageExceeded` keeps the pool and balance writes; success returns the position key; orders are untouched |
| Exchange.IncreasePositionWrites | app/src/modules/position.rs:86-145 | a successful increase passed the balance and cap checks, grew the pool side and debited the balance by the collateral, stored the position within the leverage bound, and listed the key only if it was new |
| Exchange.IncreaseStoresPosition | app/src/modules/position.rs:44-88 | the stored position after a successful increase of an existing one is its settled copy (checkpoint at its side's funding index, fee time now) with size and collateral grown by the deltas and the size-weighted `NewEntryPrice`; the cached liquidation price is `CalcLiqPrice` of it whenever size and collateral are positive |
| Exchange.RemoveKey | app/src/modules/position.rs:229-233 | only the account's key list changes, losing exactly one occurrence of the key |
| Exchange.DecreasePosition | app/src/modules/position.rs:148-237 | every error changes nothing; success returns the position key; orders are untouched |
| Exchange.DecreaseWrites | app/src/modules/position.rs:202-234 | the write phase always succeeds with the key and leaves the orders alone |
| Exchange.DecreasePositionWrites | app/src/modules/position.rs:173-234 | the deltas fit the settled position; the pool side shrinks; the payout is credited; a partial close keeps the identity and the entry price, reduces size and collateral, and stores the recomputed `CalcLiqPrice`; a full close removes the position and its listed key |
| Exchange.IncreaseOpensFresh | app/src/modules/position.rs:35-145 | opening a new position stores exactly the deltas at the execution price with a zero checkpoint, grows the pool side, debits the balance, lists the key, and changes nothing else |
| Exchange.SettledPositionOwesNothing | app/src/modules/risk.rs:38-75 | a position settled at the current index and time settles again to itself |
| Exchange.CloseAtEntryReturnsCollateral | app/src/modules/position.rs:182-234 | fully closing a settled position at its entry price returns exactly its collateral, shrinks the pool side and removes the position and its key |
| Exchange.RoundTripPools | app/src/modules/position.rs:103-117 | without saturation, the close's pool write undoes the open's |
| Exchange.RoundTripBalances | app/src/modules/position.rs:119-126 | debiting the collateral and crediting it back restores the balance |
| Exchange.RoundTripKeys | app/src/modules/position.rs:139-141 | pushing a key and swap-removing it restores the account's list as a multiset, and every other list exactly |
| Exchange.RoundTripTables | app/src/modules/position.rs:103-234 | an open followed by its close restores pools, positions and balances, and the key lists up to order |
| Exchange.IncreaseDecreaseRoundTrip | app/src/modules/position.rs:8-237 | opening a new position and closing it at once at the same price restores pools, positions, balances and other lists, and the owner's list up to order |
| Exchange.GetPosition | app/src/modules/position.rs:268-271 | the stored position, or `PositionNotFound` |
| Exchange.GetPositionPnl | app/src/modules/position.rs:282-285 | the PnL of a stored position, 0 at its entry price; `PositionNotFound` otherwise |
| Exchange.IncreasePreservesValid | app/src/modules/position.rs:8-146 | every increase, successful or not, preserves the ledger invariant |
| Exchange.DecreasePreservesValid | app/src/modules/position.rs:148-237 | every decrease preserves the ledger invariant |
| Exchange.CreateMarket | app/src/modules/market.rs:8-38 | `Unauthorized`, then `MarketAlreadyExists`, both changing nothing; success inserts the market, its config, an empty pool and an empty token record |
| Exchange.SetMarketConfig | app/src/modules/market.rs:41-53 | `Unauthorized`, then `MarketNotFound`; success replaces that market's config only |
| Exchange.AddLiquidity | app/src/modules/market.rs:57-129 | errors change nothing; success means both prices exist, the mint meets its minimum and follows the mint rule, the liquidity grows by the deposit's USD, the supply by the mint, and the LP is credited the mint |
| Exchange.RemoveLiquidity | app/src/modules/market.rs:133-222 | `MarketNotFound` when unknown; `InsufficientLiquidity` exactly when the market is priced and its supply is 0; `SlippageExceeded` exactly when the burn quote pays less than either minimum; these and the other errors except one change nothing; `InsufficientMarketTokens` loses that market's pool and token record; success requires the burn quote |
| Exchange.RemoveLiquidityWrites | app/src/modules/market.rs:188-221 | a successful burn met both minimums and the LP's balance; liquidity and both fee buckets shrink by the quoted shares; supply and the LP balance shrink by the amount |
| Exchange.RemoveLiquidityExact | app/src/modules/market.rs:204-216 | within supply, liquidity, fee buckets, supply and the LP's balance drop by exactly the quoted amounts |
| Exchange.GetPool | app/src/modules/market.rs:225-228 | the stored pool, or `MarketNotFound` |
| Exchange.AddLiquidityService | app/src/services/market_service.rs:11-28 | module errors pass through; on success the LP is credited the minted amount a second time |
| Exchange.AddLiquidityCreditsTwice | app/src/services/market_service.rs:19-26 | a successful service deposit raises supply by the mint but the LP's balance by twice the mint |
| Exchange.RemoveLiquidityService | app/src/services/market_service.rs:31-48 | `MarketNotFound` and `InsufficientMarketTokens` change nothing; otherwise the module runs on the already-debited ledger, and only a trap discards the debit (with the nested borrow abstracted away; as written the module call panics and the message reverts) |
| Exchange.RemoveLiquidityDebitsTwice | app/src/services/market_service.rs:40-46 | success needs twice the amount; the LP's balance falls by twice the amount while supply falls by the amount (holds only with the nested borrow abstracted away; as written the module call panics) |
| Exchange.RemoveLiquidityServiceKeepsDebit | app/src/services/market_service.rs:44-46 | when the module call then fails for another reason, the service's debit stays and supply is unchanged (holds only with the nested borrow abstracted away; as written the module call panics) |
| Exchange.Deposit | app/src/services/wallet_service.rs:18-27 | a zero amount is `InvalidParameter`; otherwise the caller's balance, 0 if absent, grows by the amount (saturating), and the new balance is returned |
| Exchange.Withdraw | app/src/services/wallet_service.rs:29-42 | a zero amount is `InvalidParameter`; no entry or too small a balance is `InsufficientBalance`; otherwise the balance drops by the amount and is returned |
| Exchange.DepositWithdrawRoundTrip | app/src/services/wallet_service.rs:18-42 | depositing then withdrawing the same amount restores every account's balance and changes nothing else |
| Exchange.PositionChange | app/src/modules/trading.rs:314-342 | accrual comes first, and its `MarketNotFound` changes nothing; unsupported types fail after accruing; orders are untouched |
| Exchange.FailedChangeStillAccrues | app/src/modules/trading.rs:314-342 | an increase or decrease that fails its checks still leaves the pool accrued |
| Exchange.PositionChangePreservesValid | app/src/modules/trading.rs:314-342 | every position change preserves the ledger invariant |
| Exchange.ExecuteNow | app/src/modules/trading.rs:41-77 | unsupported types fail with no change; success means the quote passed the acceptable-price rule and the position changed at the quoted price |
| Exchange.SaveOrder | app/src/modules/trading.rs:79-114 | takes the next request key, stores the new order under it and appends the key to the caller's orders; a counter overflow traps (with the nested borrow abstracted away; as written every path that reaches the writes panics at the mutable borrow and the message reverts) |
| Exchange.SaveOrderPreservesValid | app/src/modules/trading.rs:79-114 | saving an order preserves the ledger invariant |
| Exchange.SaveOrderFresh | app/src/modules/trading.rs:84-110 | in a valid state the saved order's key was unused, only that key is added, and the order gives back its parameters |
| Exchange.CreateOrder | app/src/modules/trading.rs:13-39 | checks in order: market and config, parameters, freshness, order type; each failure changes nothing; saving happens only for a limit type whose trigger does not hold (with the nested borrow abstracted away; as written every path that reaches the writes panics at the mutable borrow and the message reverts) |
| Exchange.ExecuteNowPreservesValid | app/src/modules/trading.rs:41-77 | immediate execution preserves the ledger invariant |
| Exchange.CreateOrderPreservesValid | app/src/modules/trading.rs:13-39 | creating an order preserves the ledger invariant |
| Exchange.SavedOrderCheck | app/src/modules/trading.rs:118-149 | `OrderNotFound`, then `OrderAlreadyProcessed`, then `OrderCannotBeExecutedYet` when a fresh price shows the trigger does not hold; success means a `Created` limit order whose trigger holds and whose quoted price is acceptable |
| Exchange.ExecuteSavedOrder | app/src/modules/trading.rs:116-187 | check failures change nothing; a failing position change keeps its accrual; success pays the execution fee and marks the order `Executed` |
| Exchange.UpdateOrder | app/src/modules/trading.rs:189-215 | `OrderNotFound`, then `Unauthorized`, then `OrderAlreadyProcessed`; success overwrites only that order, by the update rule |
| Exchange.CancelOrder | app/src/modules/trading.rs:217-233 | the same three errors; success marks only that order `Cancelled` and stamps it |
| Exchange.ProcessedOrderIsFinal | app/src/modules/trading.rs:123-125 | an order that is no longer `Created` can be neither updated, cancelled nor executed, and those attempts change nothing |
| Exchange.CancelAndExecuteExclusive | app/src/modules/trading.rs:116-233 | after a cancel the order cannot execute, and after an execution it cannot be cancelled |
| Exchange.PendingOrders | app/src/modules/trading.rs:361-368 | exactly the keys of the orders still `Created` |
| Exchange.Liquidate | app/src/services/executor_service.rs:34-74 | non-keepers get `NotLiquidator`, a missing position `PositionNotFound`; every error changes nothing; success means the position was liquidatable at its market id's mid and the state is a full decrease of its stored size and collateral at that mid (with the nested borrow abstracted away; as written every path that reaches the writes panics at the mutable borrow and the message reverts) |
| Exchange.LiquidationClosesPosition | app/src/services/executor_service.rs:60-68 | in a valid state a successful liquidation removes the position (with the nested borrow abstracted away; as written every path that reaches the writes panics at the mutable borrow and the message reverts) |
| Exchange.LiquidationFailsWhenFeesOwed | app/src/services/executor_service.rs:60-68 | a liquidatable position that owes any net fee cannot be liquidated: the call fails with `InsufficientCollateral` and changes nothing |
| Exchange.LiquidatePreservesValid | app/src/services/executor_service.rs:34-74 | liquidation preserves the ledger invariant |
| Exchange.CanLiquidate | app/src/services/executor_service.rs:78-86 | `PositionNotFound` for an unknown key; otherwise exactly the liquidation test at its market id's mid, whenever the price and config exist |
| Exchange.ScanAgreesWithCanLiquidate | app/src/services/executor_service.rs:90-105 | the keeper scan reports a position iff `can_liquidate` answers true for it |
| Dex.RequestKeyBytes | app/src/lib.rs:91-93 | the byte loop over a zeroed 32-byte buffer builds the request key of the counter, which decodes back to the counter |
| Dex.Ledger.constructor | app/src/lib.rs:46-66 | the new ledger is `Exchange.NewState` and satisfies the invariant |
| Dex.Ledger.GenerateRequestKey | app/src/lib.rs:90-96 | ledger and result are those of `Exchange.GenerateRequestKey` |
| Dex.Ledger.SetPrices | app/src/modules/oracle.rs:45-67 | the batch loop leaves the ledger and result of `Exchange.SetPrices` |
| Dex.Ledger.SetOracleConfig | app/src/modules/oracle.rs:113-120 | ledger and result are those of `Exchange.SetOracleConfig` |
| Dex.Ledger.AccruePool | app/src/modules/risk.rs:17-36 | ledger and result are those of `Exchange.AccruePool` |
| Dex.Ledger.IncreasePosition | app/src/modules/position.rs:8-146 | the snapshot and write phases leave the ledger and result of `Exchange.IncreasePosition` |
| Dex.Ledger.IncreaseWrites | app/src/modules/position.rs:94-145 | the write phase in the source's order gives `Exchange.IncreaseWrites` |
| Dex.Ledger.Grow | app/src/modules/position.rs:97-126 | the pool side and balance writes give `Exchange.Grown` |
| Dex.Ledger.ListPosition | app/src/modules/position.rs:139-141 | only the account's key list changes: the key is pushed |
| Dex.Ledger.DecreasePosition | app/src/modules/position.rs:148-237 | ledger and result are those of `Exchange.DecreasePosition` |
| Dex.Ledger.DecreaseWrites | app/src/modules/position.rs:202-234 | the write phase gives `Exchange.DecreaseWrites` |
| Dex.Ledger.Shrink | app/src/modules/position.rs:205-222 | the pool side and payout writes give `Exchange.Shrunk` |
| Dex.Ledger.UnlistPosition | app/src/modules/position.rs:229-233 | linear search then `swap_remove` give `Exchange.RemoveKey` |
| Dex.Ledger.CreateMarket | app/src/modules/market.rs:8-38 | ledger and result are those of `Exchange.CreateMarket` |
| Dex.Ledger.InsertMarket | app/src/modules/market.rs:33-34 | only the market and its config are inserted |
| Dex.Ledger.InsertEmptyPool | app/src/modules/market.rs:35-36 | only an empty pool and an empty token record are inserted |
| Dex.Ledger.SetMarketConfig | app/src/modules/market.rs:41-53 | ledger and result are those of `Exchange.SetMarketConfig` |
| Dex.Ledger.AddLiquidity | app/src/modules/market.rs:57-129 | the take-out, update and reinsert steps give `Exchange.AddLiquidity` |
| Dex.Ledger.RemoveLiquidity | app/src/modules/market.rs:133-222 | the take-out, checks, update and reinsert steps give `Exchange.RemoveLiquidity`, including the lost entries on `InsufficientMarketTokens` |
| Dex.Ledger.TakeOut | app/src/modules/market.rs:194-195 | only the market's pool and token record are removed |
| Dex.Ledger.PutBack | app/src/modules/market.rs:218-219 | only the given pool and token record are inserted |
| Dex.Ledger.AddLiquidityService | app/src/services/market_service.rs:11-28 | ledger and result are those of `Exchange.AddLiquidityService` |
| Dex.Ledger.RemoveLiquidityService | app/src/services/market_service.rs:31-48 | ledger and result are those of `Exchange.RemoveLiquidityService` |
| Dex.Ledger.Deposit | app/src/services/wallet_service.rs:18-27 | ledger and result are those of `Exchange.Deposit` |
| Dex.Ledger.Withdraw | app/src/services/wallet_service.rs:29-42 | ledger and result are those of `Exchange.Withdraw` |
| Dex.Ledger.PositionChange | app/src/modules/trading.rs:314-342 | ledger and result are those of `Exchange.PositionChange` |
| Dex.Ledger.ExecuteNow | app/src/modules/trading.rs:41-77 | ledger and result are those of `Exchange.ExecuteNow` |
| Dex.Ledger.SaveOrder | app/src/modules/trading.rs:79-114 | ledger and result are those of `Exchange.SaveOrder` (with the nested borrow abstracted away; as written every path that reaches the writes panics at the mutable borrow and the message reverts) |
| Dex.Ledger.CreateOrder | app/src/modules/trading.rs:13-39 | ledger and result are those of `Exchange.CreateOrder` (with the nested borrow abstracted away; as written every path that reaches the writes panics at the mutable borrow and the message reverts) |
| Dex.Ledger.ExecuteSavedOrder | app/src/modules/trading.rs:116-187 | ledger and result are those of `Exchange.ExecuteSavedOrder` |
| Dex.Ledger.PayExecutionFee | app/src/modules/trading.rs:160-168 | the nested in-place updates give `Orders.PayExecutionFee` on the balances and change nothing else |
| Dex.Ledger.UpdateOrder | app/src/modules/trading.rs:189-215 | ledger and result are those of `Exchange.UpdateOrder` |
| Dex.Ledger.CancelOrder | app/src/modules/trading.rs:217-233 | ledger and result are those of `Exchange.CancelOrder` |
| Dex.Ledger.Liquidate | app/src/services/executor_service.rs:34-74 | ledger and result are those of `Exchange.Liquidate` (with the nested borrow abstracted away; as written every path that reaches the writes panics at the mutable borrow and the message reverts) |
| Dex.Ledger.GetLiquidatablePositions | app/src/services/executor_service.rs:90-105 | returns, without duplicates, exactly the stored positions whose market id has a price and a config and which are liquidatable there |
| Dex.Ledger.GetExecutableOrders | app/src/services/executor_service.rs:109-136 | returns, without duplicates, exactly the `Created` orders whose market id has a price at which their trigger holds |

## Left out

- Overflow panics of the non-saturating operations are not modelled: those
  intermediates are computed exactly. The operations are:
  - the funding delta (`risk.rs:51`);
  - the funding imbalance `long_oi − short_oi` (`risk.rs:81`);
  - the price difference of the liquidation test (`risk.rs:155`, `:157`);
  - the mid sum (`oracle.rs:78`);
  - the price-impact product (`pricing.rs:69`);
  - the price-impact imbalance `long_oi − short_oi` (`pricing.rs:85`);
  - the PnL price difference (`position.rs:244`, `:247`).
  Only panics that can occur before any write are modelled, as `Err(Trap)`:
  - the zero-mid division at `pricing.rs:69`;
  - the zero single-token price at `market.rs:185-186`;
  - the `unwrap`s of missing pool and token entries in `market.rs`;
  - the counter increment at `lib.rs:94`.
- The global `RefCell` singleton, `init` and its double-initialisation
  panic, and the program's service wiring are replaced by the `Dex.Ledger`
  object. Borrow conflicts between nested `get()`/`get_mut()` calls are
  plumbing and are not modelled; each call is modelled as the intended
  sequence of reads and writes. Where such a conflict would panic and revert
  the whole message, the model instead commits the intended writes. Three
  operations are affected visibly:
  - the service's `remove_liquidity` (`market_service.rs:40-46`):
    `Exchange.RemoveLiquidityService`, `Exchange.RemoveLiquidityDebitsTwice`
    and `Exchange.RemoveLiquidityServiceKeepsDebit` describe the double debit
    that the code would commit without the borrow panic;
  - `create_order` holds the shared borrow taken at `trading.rs:14` to the
    end of the function, so every path past the freshness check reaches a
    mutable borrow that panics: `accrue_pool` at `risk.rs:18` for market
    orders and triggered limit orders, `save_order` at `trading.rs:83` for
    untriggered ones. As written, `create_order` only ever returns one of its
    errors raised before dispatch (or a quote or price error) or reverts; no
    order is ever saved and no position changes through it, so
    `execute_order`, `update_order` and `cancel_order` can only answer
    `OrderNotFound`. `Exchange.CreateOrder`, `Exchange.SaveOrder`,
    `Exchange.SaveOrderFresh`, `Exchange.CreateOrderPreservesValid` and
    `Dex.Ledger.CreateOrder` describe the writes without the panic;
  - `liquidate_position` holds the shared borrow taken at
    `executor_service.rs:39` across `decrease_position`, whose write phase
    takes a mutable borrow (`position.rs:202`) that panics. As written, a
    liquidation only returns one of its check errors or reverts.
    `Exchange.Liquidate`, `Exchange.LiquidationClosesPosition`,
    `Exchange.LiquidatePreservesValid` and `Dex.Ledger.Liquidate` describe
    the writes without the panic.
- The unused `deposit_requests` and `withdrawal_requests` tables are not
  part of the state.
- Not part of this model:
  - event emission;
  - the thin service wrappers in `trading_service.rs` and `oracle_service.rs`;
  - the placeholder admin and view services.
- Nothing modelled adds keepers or liquidators: the lists start empty, and
  the admin service that would fill them is a placeholder. `Exchange.Liquidate`
  is specified for any state.
- Environment inputs are parameters of every operation: `exec::block_timestamp`
  (`now`), `exec::block_height` (`block`) and `msg::source` (`caller`,
  `account`, `lp`, `executor`, `liquidator`).
- `keccak_256` is an arbitrary function `Hasher` fixed when the ledger is
  built. No collision resistance is assumed.
- Signature verification is the source's stub, which accepts everything.
- The keeper queries are specified by which keys they return. The order in
  which Rust's `HashMap` iterates is not modelled.
- `get_account_positions`, `get_order` and `get_account_orders` are not part
  of this model. They are plain reads of the tables.
- `execute_order` (`executor_service.rs:27-30`) is `Dex.Ledger.ExecuteSavedOrder`
  with the caller as executor.
- Some operations are definitions rather than members with a contract of
  their own; their properties are used through the lemmas above:
  - `balance_of`/`my_balance` are `Types.BalanceOf` (0 for an account with
    no entry);
  - `is_admin`/`is_keeper`/`is_liquidator` are the predicates
    `Exchange.IsAdmin`/`IsKeeper`/`IsLiquidator`;
  - `get_position_key` is `Utils.PositionKey`;
  - `quote_increase`/`quote_decrease` are `Pricing.QuoteIncrease`/`QuoteDecrease`.
- `execute_market_order` and `execute_limit_order` have the same body. Both
  are `Exchange.ExecuteNow` (`Dex.Ledger.ExecuteNow`).
- The field names `size_in_usd` and `collateral_amount` at
  `executor_service.rs:65-66` are read as the position's `size_usd` and
  `collateral_usd`.
- Positions.LiqPriceShortAtLeastEntry: stated only while entry·USD_SCALE
  does not saturate, because above that the saturated product can put the
  price below entry.
- Positions.NewEntryPriceBetween: stated only while no sum or product of the
  average saturates.
- Positions.CalcPnlAntisymmetric: stated only while the size × difference
  product fits i128. `Positions.CalcPnlSaturationAsymmetry` shows that it
  fails otherwise.
- Risk.IsLiquidatableMonotone: stated only while both prices, the entry
  price and size·USD_SCALE fit an i128, because beyond that the `as i128`
  casts of `risk.rs:155-159` wrap and the test is no longer monotone.
- Risk.FundingRateSign: stated only while both open interests and the config
  factors fit i128, so that the casts do not wrap.
- Risk.AccrueZeroSum: stated only while both funding indices are one capped
  step away from saturation.
- Exchange.IncreaseDecreaseRoundTrip: stated for a new position on a side
  whose funding index is 0, with no OI or liquidity sum saturating. Other
  indices make the first settlement charge funding; saturation breaks the
  undo.
- Exchange.RemoveLiquidity: for success it states only that a burn quote
  exists. The written state is in `Exchange.RemoveLiquidityWrites`, the
  exact decrements in `Exchange.RemoveLiquidityExact`.
- Exchange.PositionChange and Exchange.ExecuteNow: their own contracts state
  the error cases and the price only. The resulting state follows from
  `Exchange.IncreasePositionWrites` and `Exchange.DecreasePositionWrites`.
