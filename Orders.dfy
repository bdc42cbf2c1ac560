/** The pure parts of the order machinery of `trading.rs`: parameter
    validation, the trigger table, the acceptable-price rule, the saved order
    record and its round trip back to parameters, in-place updates, and the
    execution-fee transfer. The stateful steps are `Dex.Ledger` methods. */
module Orders {
  import opened Arith
  import opened Types

  predicate IsLimitType(t: OrderType)
  {
    t == LimitIncrease || t == LimitDecrease || t == StopLossDecrease
  }

  predicate IsMarketType(t: OrderType)
  {
    t == MarketIncrease || t == MarketDecrease
  }

  /** The order types that shrink or close a position. */
  predicate IsDecreaseType(t: OrderType)
  {
    t == MarketDecrease || t == LimitDecrease || t == StopLossDecrease
  }

  /** The order types that open or grow a position. */
  predicate IsIncreaseType(t: OrderType)
  {
    t == MarketIncrease || t == LimitIncrease
  }

  /** `validate_order_params`: size, acceptable price, trigger (limit and
      stop types), collateral (increase types), in that order. */
  function ValidateOrderParams(p: OrderParams): (r: Result<()>)
    ensures p.sizeDeltaUsd == 0 ==> r == Err(InvalidOrderSize)
    ensures p.sizeDeltaUsd > 0 && p.acceptablePrice == 0 ==> r == Err(InvalidPrice)
    ensures p.sizeDeltaUsd > 0 && p.acceptablePrice > 0 && IsLimitType(p.orderType) && p.triggerPrice == 0
            ==> r == Err(InvalidTriggerPrice)
    ensures r.Ok? <==> (p.sizeDeltaUsd > 0 && p.acceptablePrice > 0
                        && (IsLimitType(p.orderType) ==> p.triggerPrice > 0)
                        && (IsIncreaseType(p.orderType) ==> p.collateralDeltaAmount > 0))
    ensures r.Err? ==> r.error in {InvalidOrderSize, InvalidPrice, InvalidTriggerPrice, InvalidCollateralAmount}
  {
    if p.sizeDeltaUsd == 0 then Err(InvalidOrderSize)
    else if p.acceptablePrice == 0 then Err(InvalidPrice)
    else if IsLimitType(p.orderType) && p.triggerPrice == 0 then Err(InvalidTriggerPrice)
    else if IsIncreaseType(p.orderType) && p.collateralDeltaAmount == 0 then Err(InvalidCollateralAmount)
    else Ok(())
  }

  /** Whether the trigger of a limit or stop order holds at `price`. */
  function Triggered(orderType: OrderType, isLong: bool, triggerPrice: u128, price: u128): bool
  {
    match orderType
    case LimitIncrease => if isLong then price <= triggerPrice else price >= triggerPrice
    case LimitDecrease => if isLong then price >= triggerPrice else price <= triggerPrice
    case StopLossDecrease => if isLong then price <= triggerPrice else price >= triggerPrice
    case _ => false
  }

  /** `can_execute_limit_order`. */
  function CanExecuteLimitOrder(p: OrderParams, price: u128): (r: bool)
    ensures !IsLimitType(p.orderType) ==> !r
    ensures (p.orderType == LimitIncrease || p.orderType == StopLossDecrease) ==>
              (r <==> if p.side == Long then price <= p.triggerPrice else price >= p.triggerPrice)
    ensures p.orderType == LimitDecrease ==>
              (r <==> if p.side == Long then price >= p.triggerPrice else price <= p.triggerPrice)
  {
    Triggered(p.orderType, p.side == Long, p.triggerPrice, price)
  }

  /** Every trigger is inclusive: an order whose trigger equals the price can
      execute. */
  lemma TriggerInclusive(p: OrderParams)
    requires IsLimitType(p.orderType)
    ensures CanExecuteLimitOrder(p, p.triggerPrice)
  {
  }

  /** A take-profit and a stop-loss on the same side and trigger both hold
      only at the trigger itself. */
  lemma TakeProfitStopLossDisjoint(p: OrderParams, price: u128)
    requires p.orderType == LimitDecrease
    requires CanExecuteLimitOrder(p, price) && CanExecuteLimitOrder(p.(orderType := StopLossDecrease), price)
    ensures price == p.triggerPrice
  {
  }

  /** The side the trader's price limit protects: buyers (long increase,
      short decrease) need a low price, sellers a high one. */
  predicate IsBuy(side: OrderSide, isIncrease: bool)
  {
    (side == Long) == isIncrease
  }

  /** `validate_execution_price`. */
  function ValidateExecutionPrice(p: OrderParams, executionPrice: u128): (r: Result<()>)
    ensures r.Err? ==> r.error == PriceNotAcceptable
    ensures IsBuy(p.side, IsIncreaseType(p.orderType)) ==> (r.Ok? <==> executionPrice <= p.acceptablePrice)
    ensures !IsBuy(p.side, IsIncreaseType(p.orderType)) ==> (r.Ok? <==> executionPrice >= p.acceptablePrice)
  {
    var isLong := p.side == Long;
    var isIncrease := IsIncreaseType(p.orderType);
    var ok := if isLong && isIncrease then executionPrice <= p.acceptablePrice
              else if isLong then executionPrice >= p.acceptablePrice
              else if isIncrease then executionPrice >= p.acceptablePrice
              else executionPrice <= p.acceptablePrice;
    if ok then Ok(()) else Err(PriceNotAcceptable)
  }

  /** The acceptable price itself is always accepted. */
  lemma AcceptablePriceAccepted(p: OrderParams)
    ensures ValidateExecutionPrice(p, p.acceptablePrice) == Ok(())
  {
  }

  /** The order `save_order` stores: owner and receiver are the caller, the
      status is `Created`, created and updated at the current block and time. */
  function NewOrder(key: RequestKey, caller: ActorId, p: OrderParams, block: u32, time: u64): (o: Order)
    ensures o.key == key && o.account == caller && o.receiver == caller && o.status == Created
    ensures o.isLong <==> p.side == Long
  {
    Order(key, caller, caller, p.market, p.collateralToken, p.orderType, p.sizeDeltaUsd,
          p.collateralDeltaAmount, p.triggerPrice, p.acceptablePrice, p.side == Long, Created,
          p.executionFee, block, time, block, time)
  }

  /** `order_to_params`. */
  function OrderToParams(o: Order): (p: OrderParams)
    ensures p.market == o.market && p.orderType == o.orderType && p.sizeDeltaUsd == o.sizeDeltaUsd
    ensures p.side == Long <==> o.isLong
  {
    OrderParams(o.market, o.collateralToken, o.orderType, if o.isLong then Long else Short,
                o.sizeDeltaUsd, o.collateralDeltaAmount, o.triggerPrice, o.acceptablePrice, o.executionFee)
  }

  /** A saved order gives back exactly the parameters it was created from. */
  lemma OrderParamsRoundTrip(key: RequestKey, caller: ActorId, p: OrderParams, block: u32, time: u64)
    ensures OrderToParams(NewOrder(key, caller, p, block, time)) == p
  {
  }

  /** The trigger test the keeper query applies to a stored order is the one
      `can_execute_limit_order` applies to its parameters. */
  lemma KeeperTriggerTableAgrees(o: Order, price: u128)
    ensures Triggered(o.orderType, o.isLong, o.triggerPrice, price) == CanExecuteLimitOrder(OrderToParams(o), price)
  {
  }

  /** `update_order`'s overwrite: only the supplied fields change, with no
      re-validation, and the update stamp moves. */
  function ApplyUpdate(o: Order, u: UpdateParams, block: u32, time: u64): (r: Order)
    ensures r == o.(sizeDeltaUsd := r.sizeDeltaUsd, triggerPrice := r.triggerPrice,
                    acceptablePrice := r.acceptablePrice, updatedAtBlock := block, updatedAtTime := time)
    ensures r.sizeDeltaUsd == (if u.sizeDeltaUsd.Some? then u.sizeDeltaUsd.value else o.sizeDeltaUsd)
    ensures r.triggerPrice == (if u.triggerPrice.Some? then u.triggerPrice.value else o.triggerPrice)
    ensures r.acceptablePrice == (if u.acceptablePrice.Some? then u.acceptablePrice.value else o.acceptablePrice)
  {
    var o1 := if u.sizeDeltaUsd.Some? then o.(sizeDeltaUsd := u.sizeDeltaUsd.value) else o;
    var o2 := if u.triggerPrice.Some? then o1.(triggerPrice := u.triggerPrice.value) else o1;
    var o3 := if u.acceptablePrice.Some? then o2.(acceptablePrice := u.acceptablePrice.value) else o2;
    o3.(updatedAtBlock := block, updatedAtTime := time)
  }

  /** An update is not re-validated: it can set the size of a saved order
      to 0, which `create_order` would have refused. */
  lemma UpdateCanZeroSize(o: Order, block: u32, time: u64)
    ensures var r := ApplyUpdate(o, UpdateParams(Some(0), None, None), block, time);
            r.sizeDeltaUsd == 0 && ValidateOrderParams(OrderToParams(r)) == Err(InvalidOrderSize)
  {
  }

  /** The execution-fee transfer: it happens only when the executor is not the
      owner, the fee is positive and the owner's entry covers it. */
  predicate FeeTransfers(balances: map<ActorId, u128>, owner: ActorId, executor: ActorId, fee: u128)
  {
    executor != owner && fee > 0 && owner in balances && balances[owner] >= fee
  }

  function PayExecutionFee(balances: map<ActorId, u128>, owner: ActorId, executor: ActorId, fee: u128)
    : (r: map<ActorId, u128>)
    ensures !FeeTransfers(balances, owner, executor, fee) ==> r == balances
    ensures FeeTransfers(balances, owner, executor, fee) ==>
              r == balances[owner := balances[owner] - fee][executor := SatAdd(BalanceOf(balances, executor), fee)]
  {
    if FeeTransfers(balances, owner, executor, fee) then
      var b := balances[owner := SatSub(balances[owner], fee)];
      b[executor := SatAdd(BalanceOf(b, executor), fee)]
    else balances
  }

  /** The fee moves from the owner to the executor: their combined balance
      is unchanged (while the executor's does not saturate) and no other
      account changes. */
  lemma PayExecutionFeeConserves(balances: map<ActorId, u128>, owner: ActorId, executor: ActorId, fee: u128,
                                 other: ActorId)
    requires BalanceOf(balances, executor) + fee <= U128_MAX
    ensures var r := PayExecutionFee(balances, owner, executor, fee);
            BalanceOf(r, owner) + BalanceOf(r, executor) == BalanceOf(balances, owner) + BalanceOf(balances, executor)
    ensures other != owner && other != executor ==>
              BalanceOf(PayExecutionFee(balances, owner, executor, fee), other) == BalanceOf(balances, other)
  {
  }
}
