/** A liquidation redeems no more collateral than the reserve has liquidity for: the
    whole operation never fails for lack of liquidity, on any accounts. */
module LiquidationLiquidity {
  import opened Results
  import opened FixedPoint
  import opened CompoundInterest
  import opened Reserves
  import opened ReserveBooks
  import opened ReserveOperations
  import opened ExchangeRate
  import opened Markets
  import opened Obligations
  import opened Orders
  import opened Liquidation
  import opened MarketOperations

  predicate NotShort<T>(r: Result<T>) {
    r.Err? ==> r.error != InsufficientLiquidity
  }

  // ---- checks and amounts -------------------------------------------------

  lemma LtvRouteNotShort(i: Inputs)
    ensures NotShort(CheckLtv(i))
  {
    hide DivFloor, FromBps;
  }

  lemma IndividualRouteNotShort(i: Inputs)
    ensures NotShort(CheckIndividual(i))
  {
    hide DivFloor, MulFloor, FromBps;
  }

  lemma DeleveragingNotShort(r: Reserve, v: Values, secs: U64)
    ensures NotShort(DeleveragingParams(r, v, secs))
  {
    hide DivFloor, MulFloor, FromBps;
  }

  lemma MarketWideRouteNotShort(i: Inputs)
    ensures NotShort(CheckMarketWide(i))
  {
    hide DeleveragingParams, TotalSupply;
    forall r, v, secs ensures NotShort(DeleveragingParams(r, v, secs)) { DeleveragingNotShort(r, v, secs); }
    SupplyNotShort(i.collateral.liquidity);
  }

  lemma SupplyNotShort(l: Liquidity)
    ensures NotShort(TotalSupply(l))
  {
  }

  lemma EvaluateNotShort(collateralPrice: Fraction, debtPrice: Fraction, v: Values, order: Order)
    ensures NotShort(Evaluate(collateralPrice, debtPrice, v, order))
  {
    hide DivFloor, MulFloor;
  }

  lemma {:induction false} FirstApplicableNotShort(collateralPrice: Fraction, debtPrice: Fraction, v: Values, orders: seq<Order>, n: nat)
    requires n <= |orders|
    ensures NotShort(FirstApplicable(collateralPrice, debtPrice, v, orders, n))
    decreases |orders| - n
  {
    hide Evaluate;
    if n == |orders| {
    } else {
      EvaluateNotShort(collateralPrice, debtPrice, v, orders[n]);
      FirstApplicableNotShort(collateralPrice, debtPrice, v, orders, n + 1);
    }
  }

  lemma OrderRouteNotShort(i: Inputs)
    ensures NotShort(CheckOrder(i))
  {
    hide FirstApplicable, DivFloor, MulFloor, FromBps;
    FirstApplicableNotShort(i.collateral.liquidity.price, i.debt.liquidity.price, i.obligation.values, i.obligation.orders, 0);
  }

  lemma ParamsNotShort(i: Inputs, highest: bool, lowest: bool)
    ensures NotShort(LiquidationParams(i, highest, lowest))
  {
    hide CheckLtv, CheckIndividual, CheckMarketWide, CheckOrder;
    LtvRouteNotShort(i);
    IndividualRouteNotShort(i);
    MarketWideRouteNotShort(i);
    OrderRouteNotShort(i);
  }

  lemma DebtNotShort(m: Market, v: Values, orders: seq<Order>, b: Borrow, p: Params, offered: U64, small: bool)
    ensures NotShort(DebtToLiquidate(m, v, orders, b, p, offered, small))
  {
    hide DivFloor, MulFloor;
  }

  lemma AmountsNotShort(totalValue: Fraction, d: Deposit, debt: Fraction, small: bool)
    ensures NotShort(LiquidationAmounts(totalValue, d, debt, small))
  {
    hide DivFloor, MulFloor, Ceil, Floor;
  }

  lemma QuoteNotShort(m: Market, v: Values, orders: seq<Order>, p: Params, offered: U64, b: Borrow, d: Deposit)
    ensures NotShort(QuoteWith(m, v, orders, p, offered, b, d))
  {
    hide DebtToLiquidate, LiquidationAmounts, DivFloor, MulFloor;
    var small := !p.reason.ObligationOrder? && b.marketValue < FromInt(m.minFullLiquidationValue);
    DebtNotShort(m, v, orders, b, p, offered, small);
    forall t: Fraction, debt: Fraction ensures NotShort(LiquidationAmounts(t, d, debt, small)) { AmountsNotShort(t, d, debt, small); }
  }

  lemma LiquidationOfNotShort(m: Market, o: Obligation, debtKey: Key, debt: Reserve, collateralKey: Key, collateral: Reserve,
                             amount: U64, clock: Clock)
    ensures NotShort(LiquidationOf(m, o, debtKey, debt, collateralKey, collateral, amount, clock))
  {
    hide LiquidationParams, QuoteWith;
    forall i, h, l ensures NotShort(LiquidationParams(i, h, l)) { ParamsNotShort(i, h, l); }
    forall v, orders, p, b, d ensures NotShort(QuoteWith(m, v, orders, p, amount, b, d)) { QuoteNotShort(m, v, orders, p, amount, b, d); }
  }

  // ---- settling -----------------------------------------------------------

  lemma {:induction false} MoveNotShort(rs: Pool, ds: seq<Deposit>, index: nat, amount: U64, n: nat)
    requires n <= |ds|
    ensures NotShort(MoveDepositsUpTo(rs, ds, index, Less(amount), n))
  {
    if n == 0 {
    } else {
      MoveNotShort(rs, ds, index, amount, n - 1);
    }
  }

  lemma SettleNotShort(a: Accounts, debtKey: Key, l: Liquidated)
    requires l.borrowIndex < |a.o.borrows| && l.depositIndex < |a.o.deposits|
    ensures NotShort(SettleLiquidation(a, debtKey, l))
  {
    hide MoveDepositsUpTo;
    if a.o.group != ELEVATION_GROUP_NONE {
      MoveNotShort(a.reserves, a.o.deposits, a.o.group - 1, l.quote.amounts.repay, |a.o.deposits|);
    }
  }

  lemma OrdersNotShort(o: Obligation, reason: Reason, repay: U64)
    ensures NotShort(OrdersSettled(o, reason, repay))
  {
  }

  // ---- refreshing and redeeming -------------------------------------------

  lemma CurveNotShort(c: BorrowRateCurve.Curve, u: Fraction)
    ensures NotShort(BorrowRateCurve.GetBorrowRate(c, u))
  {
    hide BorrowRateCurve.FindSegment, FromBps, BorrowRateCurve.ToBps;
  }

  lemma CompoundedNotShort(l: Liquidity, variableRate: Fraction, fixedRate: Fraction, slots: U64, takeRate: Fraction, referralRate: Fraction)
    ensures NotShort(Compounded(l, variableRate, fixedRate, slots, takeRate, referralRate))
  {
    hide ApproximateCompoundedInterest, MulFloor;
    if variableRate + fixedRate < TWO_128 { OnlyOverflows(variableRate + fixedRate, slots); }
    OnlyOverflows(fixedRate, slots);
  }

  lemma RefreshNotShort(r: Reserve, clock: Clock, bps: U16)
    ensures NotShort(Refreshed(r, clock, None, bps))
  {
    hide Compounded, BorrowRateCurve.GetBorrowRate, TotalSupply, DivFloor, FromBps, FromPercent;
    SupplyNotShort(r.liquidity);
    forall u: Fraction ensures NotShort(BorrowRateCurve.GetBorrowRate(r.config.curve, u)) { CurveNotShort(r.config.curve, u); }
    forall v: Fraction, f: Fraction, n: U64, t: Fraction, b: Fraction ensures NotShort(Compounded(r.liquidity, v, f, n, t, b)) {
      CompoundedNotShort(r.liquidity, v, f, n, t, b);
    }
  }

  lemma RedeemableNotShort(r: Reserve, withdraw: U64)
    ensures NotShort(RedeemableNow(r, withdraw))
  {
    SupplyNotShort(r.liquidity);
  }

  lemma TrackNotShort(r: Reserve, group: nat, debt: U64)
    ensures NotShort(TrackFullWithdraw(r, group, debt))
    ensures TrackFullWithdraw(r, group, debt).Ok? ==>
      var r' := TrackFullWithdraw(r, group, debt).value;
      r'.liquidity == r.liquidity && r'.collateralSupply == r.collateralSupply
  {
  }

  /** The cap on what is redeemed at once suffices: no reserve lacks the liquidity for it. */
  lemma RedemptionNeverShort(r: Reserve, tracked: Reserve, clock: Clock, withdraw: U64)
    requires RedeemableNow(r, withdraw).Ok?
    requires tracked.liquidity == r.liquidity && tracked.collateralSupply == r.collateralSupply
    ensures NotShort(RedeemCollateral(tracked, clock, RedeemableNow(r, withdraw).value, false))
  {
    hide LiquidityToCollateral, CollateralToLiquidity, LimitsChecked;
    var redeem := RedeemableNow(r, withdraw).value;
    var rate := CurrentRate(r).value;
    OnlyShortOfLiquidity(tracked, clock, redeem);
    if CollateralToLiquidity(rate, redeem).Ok? {
      RedemptionCapSuffices(rate, r.liquidity.available, redeem);
    }
  }

  /** Apart from the withdrawal itself no step of a redemption asks for liquidity. */
  lemma OnlyShortOfLiquidity(r: Reserve, clock: Clock, redeem: U64)
    requires CurrentRate(r).Ok?
    ensures RedeemCollateral(r, clock, redeem, false) == Err(InsufficientLiquidity) ==>
      CollateralToLiquidity(CurrentRate(r).value, redeem).Ok?
      && CollateralToLiquidity(CurrentRate(r).value, redeem).value > r.liquidity.available
  {
    hide CurrentRate;
  }

  lemma FeeNotShort(amount: U64, bonus: Fraction, feePct: U8)
    ensures NotShort(ProtocolFee(amount, bonus, feePct))
  {
    hide DivFloor, MulFloor, Ceil, FromPercent;
  }

  lemma PayoutNotShort(r: Reserve, clock: Clock, q: Quote, redeem: U64, minReceived: U64)
    requires NotShort(RedeemCollateral(r, clock, redeem, false))
    ensures NotShort(RedeemForLiquidator(r, clock, q, redeem, minReceived))
  {
    hide RedeemCollateral, ProtocolFee, CollateralToLiquidity, TotalSupply;
    SupplyNotShort(r.liquidity);
    forall amount: U64, feePct: U8 ensures NotShort(ProtocolFee(amount, q.params.bonus, feePct)) {
      FeeNotShort(amount, q.params.bonus, feePct);
    }
    forall rate: Rate, c: U64 ensures NotShort(CollateralToLiquidity(rate, c)) { WorthNotShort(rate, c); }
  }

  lemma WorthNotShort(rate: Rate, collateral: U64)
    ensures NotShort(CollateralToLiquidity(rate, collateral))
  {
  }

  // ---- the operation ------------------------------------------------------

  lemma RedeemAfterSettlingNotShort(m: Market, group: nat, before: Reserve, whole: bool, groupDebt: U64, q: Quote, minReceived: U64,
                                   clock: Clock)
    requires Refreshed(before, clock, None, m.referralFeeBps).Ok?
    requires RedeemableNow(Refreshed(before, clock, None, m.referralFeeBps).value, q.amounts.withdraw).Ok?
    ensures var refreshed := Refreshed(before, clock, None, m.referralFeeBps).value;
      var tracked := if whole then TrackFullWithdraw(refreshed, group, groupDebt) else Ok(refreshed);
      && NotShort(tracked)
      && (tracked.Ok? ==>
            NotShort(RedeemForLiquidator(tracked.value, clock, q, RedeemableNow(refreshed, q.amounts.withdraw).value, minReceived)))
  {
    hide Refreshed, RedeemableNow, TrackFullWithdraw, RedeemForLiquidator, RedeemCollateral;
    var refreshed := Refreshed(before, clock, None, m.referralFeeBps).value;
    TrackNotShort(refreshed, group, groupDebt);
    var tracked := if whole then TrackFullWithdraw(refreshed, group, groupDebt) else Ok(refreshed);
    if tracked.Ok? {
      RedemptionNeverShort(refreshed, tracked.value, clock, q.amounts.withdraw);
      PayoutNotShort(tracked.value, clock, q, RedeemableNow(refreshed, q.amounts.withdraw).value, minReceived);
    }
  }

  /** Whatever the accounts, the two keys and the amounts: a liquidation, with the
      redemption that ends it, never fails for lack of liquidity. */
  lemma LiquidationNeverShort(m: Market, a: Accounts, debtKey: Key, collateralKey: Key, amount: U64, minReceived: U64, clock: Clock)
    ensures Liquidate(m, a, debtKey, collateralKey, amount, minReceived, clock) != Err(InsufficientLiquidity)
  {
    hide LiquidationOf, SettleLiquidation, Refreshed, RedeemableNow, TrackFullWithdraw, RedeemForLiquidator, OrdersSettled;
    if debtKey !in a.reserves || collateralKey !in a.reserves { return; }
    LiquidationOfNotShort(m, a.o, debtKey, a.reserves[debtKey], collateralKey, a.reserves[collateralKey], amount, clock);
    var quoted := LiquidationOf(m, a.o, debtKey, a.reserves[debtKey], collateralKey, a.reserves[collateralKey], amount, clock);
    if quoted.Err? { return; }
    var l := quoted.value;
    SettleNotShort(a, debtKey, l);
    if SettleLiquidation(a, debtKey, l).Err? { return; }
    var settled := SettleLiquidation(a, debtKey, l).value;
    OrdersNotShort(settled.accounts.o, l.quote.params.reason, l.quote.amounts.repay);
    if collateralKey !in settled.accounts.reserves { return; }
    var before := settled.accounts.reserves[collateralKey];
    RefreshNotShort(before, clock, m.referralFeeBps);
    if Refreshed(before, clock, None, m.referralFeeBps).Err? { return; }
    var refreshed := Refreshed(before, clock, None, m.referralFeeBps).value;
    RedeemableNotShort(refreshed, l.quote.amounts.withdraw);
    if RedeemableNow(refreshed, l.quote.amounts.withdraw).Err? { return; }
    RedeemAfterSettlingNotShort(m, a.o.group, before, a.o.deposits[l.depositIndex].amount == l.quote.amounts.withdraw,
                               settled.groupDebt, l.quote, minReceived, clock);
  }
}
