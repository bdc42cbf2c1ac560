/** LP-share arithmetic of `market.rs`: the mint amount of a deposit, the
    token amounts of a withdrawal, and the per-market LP balance list, a
    vector of (account, balance) entries searched front to back. */
module Liquidity {
  import opened Arith
  import opened Types

  // ---------------------------------------------------------------- LP balance list

  /** The index of `lp`'s first entry (`iter_mut().find`). */
  function FindLp(balances: seq<(ActorId, u128)>, lp: ActorId): (r: Option<nat>)
    ensures r.Some? ==> r.value < |balances| && balances[r.value].0 == lp
                        && forall j :: 0 <= j < r.value ==> balances[j].0 != lp
    ensures r.None? ==> forall j :: 0 <= j < |balances| ==> balances[j].0 != lp
  {
    if balances == [] then None
    else if balances[0].0 == lp then Some(0)
    else match FindLp(balances[1..], lp)
      case None => None
      case Some(i) => Some(i + 1)
  }

  /** The LP's balance: that of its first entry, or 0 without one. */
  function LpBalance(balances: seq<(ActorId, u128)>, lp: ActorId): u128
  {
    match FindLp(balances, lp)
    case None => 0
    case Some(i) => balances[i].1
  }

  /** Credit `amount` to `lp`'s first entry, or append a new entry. */
  function CreditLp(balances: seq<(ActorId, u128)>, lp: ActorId, amount: u128): (r: seq<(ActorId, u128)>)
    ensures FindLp(balances, lp).None? ==> r == balances + [(lp, amount)]
    ensures FindLp(balances, lp).Some? ==> |r| == |balances|
  {
    match FindLp(balances, lp)
    case None => balances + [(lp, amount)]
    case Some(i) => balances[i := (lp, SatAdd(balances[i].1, amount))]
  }

  /** Debit `amount` from `lp`'s first entry (which must exist), saturating. */
  function DebitLp(balances: seq<(ActorId, u128)>, lp: ActorId, amount: u128): (r: seq<(ActorId, u128)>)
    requires FindLp(balances, lp).Some?
    ensures |r| == |balances|
  {
    var i := FindLp(balances, lp).value;
    balances[i := (lp, SatSub(balances[i].1, amount))]
  }

  /** Replacing the value of `lp`'s first entry keeps every entry before it
      and every account's first-entry position. */
  lemma FindLpAfterUpdate(balances: seq<(ActorId, u128)>, lp: ActorId, i: nat, v: u128, who: ActorId)
    requires FindLp(balances, lp) == Some(i)
    ensures FindLp(balances[i := (lp, v)], who) == FindLp(balances, who)
  {
    var b2 := balances[i := (lp, v)];
    assert forall j :: 0 <= j < |b2| ==> b2[j].0 == balances[j].0;
    FindLpSameKeys(balances, b2, who);
  }

  lemma {:induction false} FindLpSameKeys(a: seq<(ActorId, u128)>, b: seq<(ActorId, u128)>, who: ActorId)
    requires |a| == |b| && forall j :: 0 <= j < |a| ==> a[j].0 == b[j].0
    ensures FindLp(a, who) == FindLp(b, who)
  {
    if a != [] {
      FindLpSameKeys(a[1..], b[1..], who);
    }
  }

  lemma {:induction false} FindLpAppend(balances: seq<(ActorId, u128)>, e: (ActorId, u128), who: ActorId)
    ensures FindLp(balances, who).Some? ==> FindLp(balances + [e], who) == FindLp(balances, who)
    ensures FindLp(balances, who).None? && e.0 == who ==> FindLp(balances + [e], who) == Some(|balances|)
    ensures FindLp(balances, who).None? && e.0 != who ==> FindLp(balances + [e], who).None?
  {
    if balances != [] {
      assert (balances + [e])[1..] == balances[1..] + [e];
      FindLpAppend(balances[1..], e, who);
    }
  }

  /** A credit raises the LP's balance by `amount` (saturating) and leaves
      every other account's balance as it was. */
  lemma CreditLpBalance(balances: seq<(ActorId, u128)>, lp: ActorId, amount: u128, who: ActorId)
    ensures LpBalance(CreditLp(balances, lp, amount), lp) == SatAdd(LpBalance(balances, lp), amount)
    ensures who != lp ==> LpBalance(CreditLp(balances, lp, amount), who) == LpBalance(balances, who)
    ensures FindLp(CreditLp(balances, lp, amount), lp).Some?
  {
    match FindLp(balances, lp)
    case None =>
      FindLpAppend(balances, (lp, amount), lp);
      FindLpAppend(balances, (lp, amount), who);
    case Some(i) =>
      var v := SatAdd(balances[i].1, amount);
      FindLpAfterUpdate(balances, lp, i, v, lp);
      FindLpAfterUpdate(balances, lp, i, v, who);
  }

  /** A debit lowers the LP's balance by `amount` (saturating) and leaves
      every other account's balance as it was. */
  lemma DebitLpBalance(balances: seq<(ActorId, u128)>, lp: ActorId, amount: u128, who: ActorId)
    requires FindLp(balances, lp).Some?
    ensures LpBalance(DebitLp(balances, lp, amount), lp) == SatSub(LpBalance(balances, lp), amount)
    ensures who != lp ==> LpBalance(DebitLp(balances, lp, amount), who) == LpBalance(balances, who)
    ensures FindLp(DebitLp(balances, lp, amount), lp).Some?
  {
    var i := FindLp(balances, lp).value;
    var v := SatSub(balances[i].1, amount);
    FindLpAfterUpdate(balances, lp, i, v, lp);
    FindLpAfterUpdate(balances, lp, i, v, who);
  }

  /** Debiting what was just credited restores the LP's balance (while the
      credit does not saturate). */
  lemma CreditThenDebit(balances: seq<(ActorId, u128)>, lp: ActorId, amount: u128)
    requires LpBalance(balances, lp) + amount <= U128_MAX
    ensures FindLp(CreditLp(balances, lp, amount), lp).Some?
    ensures LpBalance(DebitLp(CreditLp(balances, lp, amount), lp, amount), lp) == LpBalance(balances, lp)
  {
    CreditLpBalance(balances, lp, amount, lp);
    DebitLpBalance(CreditLp(balances, lp, amount), lp, amount, lp);
  }

  // ---------------------------------------------------------------- deposits

  /** A token amount at a mid price, in USD. */
  function TokenUsd(amount: u128, price: u128): u128
  {
    SatMul(amount, price) / USD_SCALE
  }

  /** The LP tokens a deposit of `addedUsd` mints: the USD value itself for
      the first deposit, otherwise the pro-rata share of the supply. A supply
      without liquidity behind it refuses the deposit. */
  function MintAmount(totalSupply: u128, liquidityUsd: u128, addedUsd: u128): (r: Result<u128>)
    ensures totalSupply == 0 ==> r == Ok(addedUsd)
    ensures totalSupply > 0 && liquidityUsd == 0 ==> r == Err(InsufficientLiquidity)
    ensures r.Ok? || r == Err(InsufficientLiquidity)
  {
    if totalSupply == 0 then Ok(addedUsd)
    else if liquidityUsd == 0 then Err(InsufficientLiquidity)
    else Ok(UDiv(SatMul(totalSupply, addedUsd), liquidityUsd))
  }

  /** Pro-rata minting never dilutes the existing LPs: the depositor's share
      of the new supply is at most its share of the new liquidity (while the
      product does not saturate). */
  lemma MintNoDilution(totalSupply: u128, liquidityUsd: u128, addedUsd: u128)
    requires totalSupply > 0 && liquidityUsd > 0 && totalSupply * addedUsd <= U128_MAX
    ensures var m := MintAmount(totalSupply, liquidityUsd, addedUsd).value;
            m * (liquidityUsd + addedUsd) <= addedUsd * (totalSupply + m)
  {
    var m := MintAmount(totalSupply, liquidityUsd, addedUsd).value;
    assert m == (totalSupply * addedUsd) / liquidityUsd;
    assert liquidityUsd * m <= totalSupply * addedUsd;
    assert m * (liquidityUsd + addedUsd) == m * liquidityUsd + m * addedUsd;
    assert addedUsd * (totalSupply + m) == addedUsd * totalSupply + addedUsd * m;
  }

  // ---------------------------------------------------------------- withdrawals

  datatype Withdrawal = Withdrawal(liqUsd: u128, feeLongUsd: u128, feeShortUsd: u128,
                                   longOut: u128, shortOut: u128)

  /** `amount` LP tokens' share of a pool quantity. */
  function ProRata(quantity: u128, amount: u128, totalSupply: u128): u128
    requires totalSupply > 0
  {
    UDiv(SatMul(quantity, amount), totalSupply)
  }

  /** A share of at most the whole supply is at most the whole quantity. */
  lemma ProRataBound(quantity: u128, amount: u128, totalSupply: u128)
    requires 0 < totalSupply && amount <= totalSupply
    ensures ProRata(quantity, amount, totalSupply) <= quantity
  {
    MulLe(amount, totalSupply, quantity);
    DivLe(SatMul(quantity, amount), quantity * totalSupply, totalSupply);
    DivUnique(quantity * totalSupply, totalSupply, quantity, 0);
  }

  /** Burning the whole supply takes the whole quantity (while the product
      fits a u128). */
  lemma ProRataAll(quantity: u128, totalSupply: u128)
    requires 0 < totalSupply && quantity * totalSupply <= U128_MAX
    ensures ProRata(quantity, totalSupply, totalSupply) == quantity
  {
    DivUnique(quantity * totalSupply, totalSupply, quantity, 0);
  }

  /** The long part of the withdrawn liquidity, by the long token's share of
      the two prices. */
  function LongPart(liqUsd: u128, longPrice: u128, shortPrice: u128): u128
    requires SatAdd(longPrice, shortPrice) > 0
  {
    UDiv(SatMul(liqUsd, longPrice), SatAdd(longPrice, shortPrice))
  }

  /** The long part never exceeds the whole, so the short part
      `liq − long` is exact and the two parts add up to the whole. */
  lemma LongPartBound(liqUsd: u128, longPrice: u128, shortPrice: u128)
    requires SatAdd(longPrice, shortPrice) > 0
    ensures LongPart(liqUsd, longPrice, shortPrice) <= liqUsd
    ensures LongPart(liqUsd, longPrice, shortPrice) + SatSub(liqUsd, LongPart(liqUsd, longPrice, shortPrice)) == liqUsd
  {
    var ps := SatAdd(longPrice, shortPrice);
    MulLe(longPrice, ps, liqUsd);
    DivLe(SatMul(liqUsd, longPrice), liqUsd * ps, ps);
    DivUnique(liqUsd * ps, ps, liqUsd, 0);
  }

  /** A USD amount in tokens at a non-zero price. */
  function UsdToTokens(usd: u128, price: u128): u128
    requires price > 0
  {
    UDiv(SatMul(usd, USD_SCALE), price)
  }

  /** The withdrawal `remove_liquidity` computes before any write: the
      pro-rata liquidity, split by price, plus the pro-rata fees, converted
      to tokens. A zero price sum is refused; a single zero price divides by
      zero and traps. */
  function WithdrawalQuote(liquidityUsd: u128, feeLong: u128, feeShort: u128, totalSupply: u128,
                           amount: u128, longPrice: u128, shortPrice: u128): (r: Result<Withdrawal>)
    requires totalSupply > 0
    ensures SatAdd(longPrice, shortPrice) == 0 ==> r == Err(InvalidPrice)
    ensures SatAdd(longPrice, shortPrice) > 0 && (longPrice == 0 || shortPrice == 0) ==> r == Err(Trap)
    ensures r.Ok? <==> longPrice > 0 && shortPrice > 0
    ensures r.Ok? ==> r.value.liqUsd == ProRata(liquidityUsd, amount, totalSupply)
                      && r.value.feeLongUsd == ProRata(feeLong, amount, totalSupply)
                      && r.value.feeShortUsd == ProRata(feeShort, amount, totalSupply)
    ensures r.Ok? ==> var longBase := LongPart(r.value.liqUsd, longPrice, shortPrice);
                      && r.value.longOut == UsdToTokens(SatAdd(longBase, r.value.feeLongUsd), longPrice)
                      && r.value.shortOut == UsdToTokens(SatAdd(SatSub(r.value.liqUsd, longBase), r.value.feeShortUsd), shortPrice)
  {
    var liqUsd := ProRata(liquidityUsd, amount, totalSupply);
    if SatAdd(longPrice, shortPrice) == 0 then Err(InvalidPrice)
    else
      var longBase := LongPart(liqUsd, longPrice, shortPrice);
      var shortBase := SatSub(liqUsd, longBase);
      var feeLongUsd := ProRata(feeLong, amount, totalSupply);
      var feeShortUsd := ProRata(feeShort, amount, totalSupply);
      var totalLong := SatAdd(longBase, feeLongUsd);
      var totalShort := SatAdd(shortBase, feeShortUsd);
      if longPrice == 0 || shortPrice == 0 then Err(Trap)
      else Ok(Withdrawal(liqUsd, feeLongUsd, feeShortUsd,
                         UsdToTokens(totalLong, longPrice), UsdToTokens(totalShort, shortPrice)))
  }

  /** A burn of at most the supply takes no more than the pool holds, so the
      pool's saturating decrements at removal are exact. */
  lemma WithdrawalWithinPool(liquidityUsd: u128, feeLong: u128, feeShort: u128, totalSupply: u128,
                             amount: u128, longPrice: u128, shortPrice: u128)
    requires 0 < totalSupply && amount <= totalSupply
    requires WithdrawalQuote(liquidityUsd, feeLong, feeShort, totalSupply, amount, longPrice, shortPrice).Ok?
    ensures var w := WithdrawalQuote(liquidityUsd, feeLong, feeShort, totalSupply, amount, longPrice, shortPrice).value;
            w.liqUsd <= liquidityUsd && w.feeLongUsd <= feeLong && w.feeShortUsd <= feeShort
  {
    ProRataBound(liquidityUsd, amount, totalSupply);
    ProRataBound(feeLong, amount, totalSupply);
    ProRataBound(feeShort, amount, totalSupply);
  }
}
