/** What accepted borrows and liquidations guarantee, as whole operations. */
module MarketOutcomes {
  import opened Results
  import opened Arithmetic
  import opened FixedPoint
  import opened WithdrawalCaps
  import opened Reserves
  import opened ReserveOperations
  import opened ExchangeRate
  import opened Fees
  import opened Markets
  import opened Obligations
  import opened Orders
  import opened Positions
  import opened Liquidation
  import opened LiquidationSafety
  import opened MarketOperations
  import opened PositionsKeep

  // ---- borrowing ----------------------------------------------------------

  /** Moving trackers touches nothing else of a reserve. */
  ghost predicate OnlyTrackers(r: Reserve, r': Reserve) {
    r' == r.(outsideDebt := r'.outsideDebt, groupDebts := r'.groupDebts)
  }

  lemma {:induction false} MovingTouchesTrackers(rs: Pool, ds: seq<Deposit>, index: nat, change: Change, n: nat)
    requires n <= |ds| && MoveDepositsUpTo(rs, ds, index, change, n).Ok?
    ensures var p := MoveDepositsUpTo(rs, ds, index, change, n).value;
      p.reserves.Keys == rs.Keys && forall k :: k in rs ==> OnlyTrackers(rs[k], p.reserves[k])
  {
    if n == 0 {
    } else {
      MovingTouchesTrackers(rs, ds, index, change, n - 1);
    }
  }

  lemma TrackMoreTouches(a: Accounts, k: Key, i: nat, g: Option<ElevationGroup>, amount: U64)
    requires i < |a.o.borrows| && k in a.reserves && TrackMore(a, k, i, g, amount).Ok?
    ensures var t := TrackMore(a, k, i, g, amount).value; k in t.reserves && OnlyTrackers(a.reserves[k], t.reserves[k])
  {
    hide MoveDepositsUpTo;
    if g.Some? {
      MovingTouchesTrackers(a.reserves, a.o.deposits, g.value.id - 1, More(amount), |a.o.deposits|);
    }
  }

  /** What a debt is worth depends on the reserve's price and configuration only. */
  lemma SameValuation(r: Reserve, r': Reserve, amount: Fraction, inGroup: bool)
    requires r'.config == r.config && r'.liquidity.price == r.liquidity.price && r'.liquidity.decimals == r.liquidity.decimals
    ensures AdjustedValue(r', amount, inGroup) == AdjustedValue(r, amount, inGroup)
  {
  }

  lemma LendOutKeepsPrice(r: Reserve, clock: Clock, quote: BorrowQuote, referrer: Option<nat>, bps: U16)
    requires LendOut(r, clock, quote, referrer, bps).Ok?
    ensures var r' := LendOut(r, clock, quote, referrer, bps).value;
      r'.config == r.config && r'.liquidity.price == r.liquidity.price && r'.liquidity.decimals == r.liquidity.decimals
  {
    hide Accumulate, Credited;
  }

  lemma PostBorrowValues(v: Values, r: Reserve, amount: Fraction, inGroup: bool, slotValue: Fraction, minNet: Fraction)
    requires PostBorrow(v, r, amount, inGroup, slotValue, minNet).Ok?
    ensures AdjustedValue(r, amount, inGroup).Ok?
  {
    hide MarketValue, BorrowFactor, Mul, Div;
  }

  /** Every accepted borrow, in both the exact and the maximum path, leaves the recorded
      adjusted debt plus the adjusted value of the new debt within the allowed borrow value. */
  lemma AcceptedBorrowWithinLimit(m: Market, a: Accounts, k: Key, amount: U64, clock: Clock)
    requires BorrowLiquidity(m, a, k, amount, clock).Ok?
    ensures k in a.reserves && BorrowQuoteOf(m, a, a.reserves[k], amount, clock.slot).Ok?
    ensures var q := BorrowQuoteOf(m, a, a.reserves[k], amount, clock.slot).value;
      var value := AdjustedValue(a.reserves[k], q.borrowAmount, a.o.group != ELEVATION_GROUP_NONE);
      value.Ok? && a.o.values.adjustedDebt + value.value <= a.o.values.allowedBorrow
  {
    hide BorrowQuoteOf, LendOut, WithNewDebt, TrackMore, PostBorrow, AdjustedValue, CalculateBorrow, NeedOrdersSupported,
         NeedBelowUtilizationLimit, OnlyTrackers;
    var r := a.reserves[k];
    var q := BorrowQuoteOf(m, a, r, amount, clock.slot).value;
    var inGroup := a.o.group != ELEVATION_GROUP_NONE;
    var r' := LendOut(r, clock, q, a.o.referrer, m.referralFeeBps).value;
    var place := WithNewDebt(a.o, k, r'.liquidity.cumulativeRate, q.borrowAmount).value;
    NewDebtLeaves(a.o, k, r'.liquidity.cumulativeRate, q.borrowAmount);
    var before := Accounts(a.reserves[k := r'], place.1);
    var g := ElevationGroupOf(m, place.1.group).value;
    var whole := ToCeil(q.borrowAmount).value;
    var tracked := TrackMore(before, k, place.0, g, whole).value;
    TrackMoreTouches(before, k, place.0, g, whole);
    LendOutKeepsPrice(r, clock, q, a.o.referrer, m.referralFeeBps);
    PostBorrowValues(place.1.values, tracked.reserves[k], q.borrowAmount, inGroup, tracked.o.borrows[place.0].marketValue, m.minNetValue);
    assert OnlyTrackers(r', tracked.reserves[k]);
    TrackersDoNotPrice(r, r', tracked.reserves[k], q.borrowAmount, inGroup);
    AcceptedBorrowWithinValue(r, amount, a.o.values.allowedBorrow - a.o.values.adjustedDebt,
                              SatSub(FromInt(r.config.borrowLimit), r.liquidity.borrowed), m.referralFeeBps, inGroup, a.o.referrer.Some?);
  }

  /** An accepted borrow leaves the obligation solvent, and its adjusted debt above the
      unhealthy value by less than one ulp of its deposits at most: with the new debt, debt
      is below deposits and the floored loan-to-value at most the floored unhealthy one. */
  lemma AcceptedBorrowIsHealthy(m: Market, a: Accounts, k: Key, amount: U64, clock: Clock)
    requires BorrowLiquidity(m, a, k, amount, clock).Ok?
    ensures k in a.reserves && BorrowQuoteOf(m, a, a.reserves[k], amount, clock.slot).Ok?
    ensures var q := BorrowQuoteOf(m, a, a.reserves[k], amount, clock.slot).value; var v := a.o.values;
      var value := MarketValue(a.reserves[k].liquidity, q.borrowAmount);
      var adjusted := AdjustedValue(a.reserves[k], q.borrowAmount, a.o.group != ELEVATION_GROUP_NONE);
      && value.Ok? && v.debt + value.value < v.deposited
      && adjusted.Ok? && (v.adjustedDebt + adjusted.value - v.unhealthyBorrow) * ONE < v.deposited
  {
    hide BorrowQuoteOf, LendOut, WithNewDebt, TrackMore, PostBorrow, AdjustedValue, MarketValue, NeedOrdersSupported,
         NeedBelowUtilizationLimit, OnlyTrackers;
    var r := a.reserves[k];
    var q := BorrowQuoteOf(m, a, r, amount, clock.slot).value;
    var inGroup := a.o.group != ELEVATION_GROUP_NONE;
    var r' := LendOut(r, clock, q, a.o.referrer, m.referralFeeBps).value;
    var place := WithNewDebt(a.o, k, r'.liquidity.cumulativeRate, q.borrowAmount).value;
    NewDebtLeaves(a.o, k, r'.liquidity.cumulativeRate, q.borrowAmount);
    var before := Accounts(a.reserves[k := r'], place.1);
    var g := ElevationGroupOf(m, place.1.group).value;
    var whole := ToCeil(q.borrowAmount).value;
    var tracked := TrackMore(before, k, place.0, g, whole).value;
    TrackMoreTouches(before, k, place.0, g, whole);
    LendOutKeepsPrice(r, clock, q, a.o.referrer, m.referralFeeBps);
    PostBorrowMeans(a.o.values, tracked.reserves[k], q.borrowAmount, inGroup, tracked.o.borrows[place.0].marketValue, m.minNetValue);
    assert OnlyTrackers(r', tracked.reserves[k]);
    TrackersDoNotPrice(r, r', tracked.reserves[k], q.borrowAmount, inGroup);
  }

  lemma PostBorrowMeans(v: Values, r: Reserve, amount: Fraction, inGroup: bool, slotValue: Fraction, minNet: Fraction)
    requires PostBorrow(v, r, amount, inGroup, slotValue, minNet).Ok?
    ensures MarketValue(r.liquidity, amount).Ok? && v.debt + MarketValue(r.liquidity, amount).value < v.deposited
    ensures AdjustedValue(r, amount, inGroup).Ok?
    ensures (v.adjustedDebt + AdjustedValue(r, amount, inGroup).value - v.unhealthyBorrow) * ONE < v.deposited
  {
    hide MarketValue, BorrowFactor, Mul, DivFloor;
    var debt := v.adjustedDebt + AdjustedValue(r, amount, inGroup).value;
    DivFloorBounds(debt, v.deposited);
    DivFloorBounds(v.unhealthyBorrow, v.deposited);
    RatioOvershoot(debt, v.unhealthyBorrow, v.deposited, DivFloor(debt, v.deposited), DivFloor(v.unhealthyBorrow, v.deposited), ONE);
  }

  lemma RatioOvershoot(debt: nat, limit: nat, deposits: nat, q: nat, p: nat, o: nat)
    requires q <= p && debt * o < q * deposits + deposits && p * deposits <= limit * o
    ensures (debt - limit) * o < deposits
  {
    MulLeft(deposits, q, p);
    assert (debt - limit) * o == debt * o - limit * o;
  }

  lemma TrackersDoNotPrice(r: Reserve, r': Reserve, r'': Reserve, amount: Fraction, inGroup: bool)
    requires r'.config == r.config && r'.liquidity.price == r.liquidity.price && r'.liquidity.decimals == r.liquidity.decimals
    requires OnlyTrackers(r', r'')
    ensures AdjustedValue(r'', amount, inGroup) == AdjustedValue(r, amount, inGroup)
    ensures MarketValue(r''.liquidity, amount) == MarketValue(r.liquidity, amount)
  {
    SameValuation(r, r'', amount, inGroup);
  }

  lemma NewDebtLeaves(o: Obligation, k: Key, rate: U256, debt: Fraction)
    requires WithNewDebt(o, k, rate, debt).Ok?
    ensures var n := WithNewDebt(o, k, rate, debt).value.1; n.values == o.values && n.group == o.group
  {
  }

  // ---- liquidation --------------------------------------------------------

  /** What a liquidator can rely on. */
  predicate Honoured(receipt: Receipt, deposited: U64, after: Reserve, offered: U64, minReceived: U64) {
    && receipt.repay <= offered
    && (deposited > 0 ==> receipt.withdraw <= deposited)
    && receipt.redeemed <= receipt.withdraw
    && receipt.fee <= receipt.liquidity
    && (receipt.redeemed > 0 ==> receipt.liquidity - receipt.fee >= minReceived)
    && (receipt.redeemed == 0 ==>
          && CurrentRate(after).Ok? && CollateralToLiquidity(CurrentRate(after).value, receipt.withdraw).Ok?
          && CollateralToLiquidity(CurrentRate(after).value, receipt.withdraw).value >= minReceived)
  }

  /** The liquidator pays at most what was offered, so the check after the transfers never
      fires, gets at most the deposit, and redeems at most what was seized. What is redeemed
      leaves at least the minimum asked for after the fee; when nothing can be redeemed, the
      collateral handed out is worth that minimum at the reserve's exchange rate. */
  lemma LiquidationReceipt(m: Market, a: Accounts, debtKey: Key, collateralKey: Key, amount: U64, minReceived: U64, clock: Clock)
    requires Liquidate(m, a, debtKey, collateralKey, amount, minReceived, clock).Ok?
    ensures var out := Liquidate(m, a, debtKey, collateralKey, amount, minReceived, clock).value;
      && debtKey in a.reserves && collateralKey in a.reserves && collateralKey in out.0.reserves
      && LiquidationOf(m, a.o, debtKey, a.reserves[debtKey], collateralKey, a.reserves[collateralKey], amount, clock).Ok?
      && var l := LiquidationOf(m, a.o, debtKey, a.reserves[debtKey], collateralKey, a.reserves[collateralKey], amount, clock).value;
         Honoured(out.1, a.o.deposits[l.depositIndex].amount, out.0.reserves[collateralKey], amount, minReceived)
  {
    hide LiquidationOf, SettleLiquidation, Refreshed, RedeemableNow, TrackFullWithdraw, RedeemForLiquidator, OrdersSettled;
    LiquidationMeans(m, a.o, debtKey, a.reserves[debtKey], collateralKey, a.reserves[collateralKey], amount, clock);
    var l := LiquidationOf(m, a.o, debtKey, a.reserves[debtKey], collateralKey, a.reserves[collateralKey], amount, clock).value;
    var settled := SettleLiquidation(a, debtKey, l).value;
    var refreshed := Refreshed(settled.accounts.reserves[collateralKey], clock, None, m.referralFeeBps).value;
    var redeem := RedeemableNow(refreshed, l.quote.amounts.withdraw).value;
    RedeemableWithin(refreshed, l.quote.amounts.withdraw);
    var tracked := if a.o.deposits[l.depositIndex].amount == l.quote.amounts.withdraw
                   then TrackFullWithdraw(refreshed, a.o.group, settled.groupDebt).value else refreshed;
    ReceiptMeans(tracked, clock, l.quote, redeem, minReceived);
  }

  lemma RedeemableWithin(r: Reserve, withdraw: U64)
    requires RedeemableNow(r, withdraw).Ok?
    ensures RedeemableNow(r, withdraw).value <= withdraw
  {
    hide CurrentRate, LiquidityToCollateral;
  }

  lemma ReceiptMeans(r: Reserve, clock: Clock, q: Quote, redeem: U64, minReceived: U64)
    requires RedeemForLiquidator(r, clock, q, redeem, minReceived).Ok?
    ensures var receipt := RedeemForLiquidator(r, clock, q, redeem, minReceived).value.1;
      && receipt.repay == q.amounts.repay && receipt.withdraw == q.amounts.withdraw && receipt.redeemed == redeem
      && receipt.fee <= receipt.liquidity && (redeem > 0 ==> receipt.liquidity - receipt.fee >= minReceived)
      && (redeem == 0 ==>
            && RedeemForLiquidator(r, clock, q, redeem, minReceived).value.0 == r
            && CurrentRate(r).Ok? && CollateralToLiquidity(CurrentRate(r).value, receipt.withdraw).Ok?
            && CollateralToLiquidity(CurrentRate(r).value, receipt.withdraw).value >= minReceived)
  {
    hide RedeemCollateral, ProtocolFee, CurrentRate, CollateralToLiquidity;
  }

  /** When the collateral does not cover the seizure the whole deposit goes. A forced full
      liquidation settles the whole debt, so the ratio of debt to deposits is not raised;
      otherwise it is not raised by more than scaling the settlement down rounds away. */
  lemma ExhaustedCollateral(i: Inputs, offered: U64, b: Borrow, d: Deposit, highestBf: bool, lowestLtv: bool)
    requires CalculateLiquidation(i, offered, b, d, highestBf, lowestLtv).Ok?
    requires NoBfLoanToValue(i.obligation.values).Ok? && NoBfLoanToValue(i.obligation.values).value < BAD_DEBT_LTV
    requires CalculateLiquidation(i, offered, b, d, highestBf, lowestLtv).value.totalValue > d.marketValue
    ensures var q := CalculateLiquidation(i, offered, b, d, highestBf, lowestLtv).value; var v := i.obligation.values;
      && q.amounts.withdraw == d.amount
      && (q.small ==>
            q.amounts.settle == q.debt && d.marketValue * (v.debt * b.borrowed) <= v.deposited * (b.marketValue * q.amounts.settle))
      && (!q.small ==>
            (d.marketValue * ONE) * (v.debt * b.borrowed) <= (q.amounts.settle * ONE + ONE + q.debt) * (b.marketValue * v.deposited))
  {
    hide DebtToLiquidate, LiquidationParams, MulFloor, DivFloor;
    var q := CalculateLiquidation(i, offered, b, d, highestBf, lowestLtv).value;
    var v := i.obligation.values;
    LiquidationDoesNotWorsen(i, offered, b, d, highestBf, lowestLtv);
    SettledWorthRepaid(b.marketValue, q.debt, b.borrowed);
    if q.small {
      SeizureAgainstDebt(q.totalValue, v.debt, v.deposited, q.repaidValue, b.borrowed, b.marketValue * q.debt);
      MulLeft(v.debt * b.borrowed, d.marketValue, q.totalValue);
    } else {
      ExhaustedCollateralBound(d.marketValue, q.totalValue, q.debt, q.repaidValue, v.debt, v.deposited, b.borrowed, b.marketValue);
    }
  }

  // ---- orders -------------------------------------------------------------

  /** One execution of a single-debt order settles at most what the order has left and
      repays at least what it settles: executions of the same order are those of
      `Orders.Executes`. */
  lemma OrderExecution(i: Inputs, offered: U64, b: Borrow, d: Deposit, highestBf: bool, lowestLtv: bool)
    requires CalculateLiquidation(i, offered, b, d, highestBf, lowestLtv).Ok?
    requires var q := CalculateLiquidation(i, offered, b, d, highestBf, lowestLtv).value;
      && q.params.reason.ObligationOrder? && q.params.reason.index < |i.obligation.orders|
      && i.obligation.orders[q.params.reason.index].opportunity == DELEVERAGE_SINGLE_DEBT_AMOUNT
    ensures var q := CalculateLiquidation(i, offered, b, d, highestBf, lowestLtv).value;
      var order := i.obligation.orders[q.params.reason.index];
      && q.amounts.settle <= order.opportunityParameter
      && q.amounts.settle <= FromInt(q.amounts.repay)
      && (order.condition != NEVER ==> Executes(order, [Execution(q.amounts.settle, q.amounts.repay)]))
  {
    hide LiquidationParams, LiquidationAmounts, MulFloor, DivFloor;
    var q := CalculateLiquidation(i, offered, b, d, highestBf, lowestLtv).value;
    AmountsWithinBounds(q.totalValue, d, q.debt, q.small);
    FloorCeil(q.amounts.settle);
    OrderLimit(i.market, i.obligation.values, i.obligation.orders, b, q.params, offered);
    assert [Execution(q.amounts.settle, q.amounts.repay)][1..] == [];
  }

  lemma OrderLimit(m: Market, v: Values, orders: seq<Order>, b: Borrow, p: Params, offered: U64)
    requires p.reason.ObligationOrder? && p.reason.index < |orders|
    requires orders[p.reason.index].opportunity == DELEVERAGE_SINGLE_DEBT_AMOUNT
    requires DebtToLiquidate(m, v, orders, b, p, offered, false).Ok?
    ensures DebtToLiquidate(m, v, orders, b, p, offered, false).value <= orders[p.reason.index].opportunityParameter
  {
  }

  // ---- withdrawing --------------------------------------------------------

  /** An accepted withdrawal against open borrows stays within the headroom in both the
      exact and the maximum path, and what is left keeps the recorded debt strictly below
      the reduced unhealthy value, unless the new loan-to-value floors to zero or no
      deposits remain. */
  lemma AcceptedWithdrawal(m: Market, a: Accounts, k: Key, amount: U64, slot: U64, check: WithdrawalCheck)
    requires WithdrawCollateral(m, a, k, amount, slot, check).Ok? && !NoActiveBorrows(a.o.borrows)
    ensures k in a.reserves && WithdrawalOf(m, a, a.reserves[k], k, amount, slot, check).Ok?
    ensures UsableElevationGroup(m, a.o.group).Ok?
    ensures var out := WithdrawCollateral(m, a, k, amount, slot, check).value;
      var w := WithdrawalOf(m, a, a.reserves[k], k, amount, slot, check).value;
      var d, v, r := a.o.deposits[w.index], a.o.values, a.reserves[k];
      var g := UsableElevationGroup(m, a.o.group).value;
      var thresholdPct := LiquidationThresholdPct(r.config, g);
      var pct := if check == LiquidationThreshold then thresholdPct else MaxLtvPct(r.config, g);
      && d.reserve == k && 0 < out.1 <= d.amount && v.adjustedDebt < HighestAllowedDebt(v, check)
      && (pct > 0 ==>
            (out.1 * d.marketValue) * pct <= d.amount * (100 * (HighestAllowedDebt(v, check) - v.adjustedDebt) + pct))
      && CollateralValue(r, out.1).Ok?
      && var value := CollateralValue(r, out.1).value;
         && value <= v.deposited
         && (value == v.deposited ==> v.adjustedDebt == 0)
         && (value < v.deposited ==> v.debt < v.deposited - value)
         && (value < v.deposited && DivFloor(v.adjustedDebt, v.deposited - value) > 0 ==>
               v.adjustedDebt < v.unhealthyBorrow - MulFloor(value, FromPercent(thresholdPct)))
  {
    hide WithdrawalOf, WithdrawSize, WithdrawnSlot, TrackFullWithdraw, PostWithdraw, LiquidityOf, MarketValue, MulFloor, DivFloor;
    var r := a.reserves[k];
    var w := WithdrawalOf(m, a, r, k, amount, slot, check).value;
    SizedAndChecked(m, a, r, k, amount, slot, check);
    var g := UsableElevationGroup(m, a.o.group).value;
    var d := a.o.deposits[w.index];
    WithdrawalRespectsHeadroom(a.o.values, d, amount, MaxLtvPct(r.config, g), LiquidationThresholdPct(r.config, g), check);
    var d' := WithdrawnSlot(d, w.amount).value;
    var r' := WithdrawCollateral(m, a, k, amount, slot, check).value.0.reserves[k];
    FullWithdrawTouches(r, a.o.group, d.groupDebt);
    SameCollateralValue(r, r', w.amount);
    AcceptedWithdrawalIsHealthy(a.o.values, r', LiquidityOf(r', w.amount).value, w.thresholdPct, d'.marketValue, m.minNetValue);
  }

  lemma SizedAndChecked(m: Market, a: Accounts, r: Reserve, k: Key, amount: U64, slot: U64, check: WithdrawalCheck)
    requires WithdrawalOf(m, a, r, k, amount, slot, check).Ok? && !NoActiveBorrows(a.o.borrows)
    ensures UsableElevationGroup(m, a.o.group).Ok?
    ensures var w := WithdrawalOf(m, a, r, k, amount, slot, check).value; var g := UsableElevationGroup(m, a.o.group).value;
      && w.thresholdPct == LiquidationThresholdPct(r.config, g)
      && WithdrawSize(a.o.values, a.o.deposits[w.index], false, amount, MaxLtvPct(r.config, g), w.thresholdPct, check) == Ok(w.amount)
  {
    hide WithdrawSize, PositionOfDeposit;
  }

  lemma FullWithdrawTouches(r: Reserve, group: nat, debt: U64)
    ensures TrackFullWithdraw(r, group, debt).Ok? ==> OnlyTrackers(r, TrackFullWithdraw(r, group, debt).value)
  {
  }

  lemma SameCollateralValue(r: Reserve, r': Reserve, amount: U64)
    requires r'.liquidity == r.liquidity && r'.collateralSupply == r.collateralSupply
    ensures LiquidityOf(r', amount) == LiquidityOf(r, amount) && CollateralValue(r', amount) == CollateralValue(r, amount)
  {
    hide TotalSupply, FractionCollateralToLiquidity;
  }
}
