/** Obligation orders over whole runs of a market: how much debt is settled through one
    order, whatever happens between its executions. */
module OrderRuns {
  import opened Results
  import opened Arithmetic
  import opened FixedPoint
  import opened Reserves
  import opened ReserveOperations
  import opened Fees
  import opened Markets
  import opened Obligations
  import opened Orders
  import opened Positions
  import opened Liquidation
  import opened MarketOperations
  import opened MarketOutcomes
  import opened MarketRuns
  import Single = ReserveRuns

  /** What a liquidation settles through the order in slot `n`. */
  function SettledByOrder(m: Market, a: Accounts, debtKey: Key, collateralKey: Key, amount: U64, clock: Clock, n: nat): nat {
    hide LiquidationOf;
    if debtKey !in a.reserves || collateralKey !in a.reserves then 0
    else
      var l := LiquidationOf(m, a.o, debtKey, a.reserves[debtKey], collateralKey, a.reserves[collateralKey], amount, clock);
      if l.Ok? && l.value.quote.params.reason == ObligationOrder(n) then l.value.quote.amounts.settle else 0
  }

  /** What an event settles through slot `n` of obligation `i`. */
  function SettledThrough(s: State, e: Event, i: nat, n: nat): nat {
    hide SettledByOrder;
    if e.step.OnObligation? && e.step.i == i < |s.obligations| && e.step.action.LiquidateWith? then
      SettledByOrder(e.market, Accounts(s.reserves, s.obligations[i]), e.step.action.debtKey, e.step.action.collateralKey,
                     e.step.action.amount, e.clock, n)
    else 0
  }

  function TotalSettled(s: State, es: seq<Event>, i: nat, n: nat): nat {
    hide Run, SettledThrough;
    if es == [] then 0
    else
      var front := es[..|es| - 1];
      var before := Run(s, front);
      TotalSettled(s, front, i, n) + if before.Ok? then SettledThrough(before.value, es[|es| - 1], i, n) else 0
  }

  /** The owner puts an order into the slot. */
  predicate Replaces(e: Event, i: nat, n: nat) {
    e.step.OnObligation? && e.step.i == i && e.step.action.PlaceOrder? && e.step.action.index == n
  }

  // ---- what leaves orders alone -------------------------------------------

  lemma RefreshLeavesOrders(m: Market, a: Accounts, slot: U64, check: bool)
    requires RefreshObligation(m, a, slot, check).Ok?
    ensures RefreshObligation(m, a, slot, check).value.o.orders == a.o.orders
  {
    hide RefreshBorrows, RefreshDeposits, RefreshedValues, UsableElevationGroup;
  }

  lemma RequestLeavesOrders(m: Market, a: Accounts, group: nat, slot: U64)
    requires RequestElevationGroup(m, a, group, slot).Ok?
    ensures RequestElevationGroup(m, a, group, slot).value.o.orders == a.o.orders
  {
    hide RefreshBorrows, RefreshDeposits, ResetTrackers, NeedGroupLimits, LoanToValue, UsableElevationGroup;
  }

  lemma DepositLeavesOrders(m: Market, a: Accounts, k: Key, amount: U64, slot: U64, check: bool)
    requires DepositCollateral(m, a, k, amount, slot, check).Ok?
    ensures DepositCollateral(m, a, k, amount, slot, check).value.o.orders == a.o.orders
  {
    hide NeedOrdersSupported, LiquidityOf, PostDeposit, SingleTokenDebt, UsableElevationGroup, SlotForDeposit;
  }

  lemma WithdrawLeavesOrders(m: Market, a: Accounts, k: Key, amount: U64, slot: U64, check: WithdrawalCheck)
    requires WithdrawCollateral(m, a, k, amount, slot, check).Ok?
    ensures WithdrawCollateral(m, a, k, amount, slot, check).value.0.o.orders == a.o.orders
  {
    hide WithdrawalOf, LiquidityOf, PostWithdraw;
  }

  lemma TrackingLeavesOrders(a: Accounts, k: Key, i: nat, g: Option<ElevationGroup>, amount: U64)
    requires i < |a.o.borrows|
    ensures TrackMore(a, k, i, g, amount).Ok? ==> TrackMore(a, k, i, g, amount).value.o.orders == a.o.orders
    ensures TrackLess(a, k, i, amount).Ok? ==> TrackLess(a, k, i, amount).value.o.orders == a.o.orders
  {
    hide MoveDepositsUpTo;
  }

  lemma NewDebtLeavesOrders(o: Obligation, k: Key, rate: U256, debt: Fraction)
    requires WithNewDebt(o, k, rate, debt).Ok?
    ensures WithNewDebt(o, k, rate, debt).value.1.orders == o.orders
  {
  }

  lemma BorrowLeavesOrders(m: Market, a: Accounts, k: Key, amount: U64, clock: Clock)
    requires BorrowLiquidity(m, a, k, amount, clock).Ok?
    ensures BorrowLiquidity(m, a, k, amount, clock).value.o.orders == a.o.orders
  {
    hide BorrowQuoteOf, LendOut, WithNewDebt, TrackMore, NeedOrdersSupported, NeedBelowUtilizationLimit, PostBorrow, ElevationGroupOf;
    var r := a.reserves[k];
    var quote := BorrowQuoteOf(m, a, r, amount, clock.slot).value;
    var r' := LendOut(r, clock, quote, a.o.referrer, m.referralFeeBps).value;
    var place := WithNewDebt(a.o, k, r'.liquidity.cumulativeRate, quote.borrowAmount).value;
    NewDebtLeavesOrders(a.o, k, r'.liquidity.cumulativeRate, quote.borrowAmount);
    TrackingLeavesOrders(Accounts(a.reserves[k := r'], place.1), k, place.0, ElevationGroupOf(m, place.1.group).value,
                         ToCeil(quote.borrowAmount).value);
  }

  lemma RepayLeavesOrders(m: Market, a: Accounts, k: Key, amount: U64, clock: Clock)
    requires RepayLiquidity(m, a, k, amount, clock).Ok?
    ensures RepayLiquidity(m, a, k, amount, clock).value.0.o.orders == a.o.orders
  {
    hide TakeBack, TrackLess, NeedOrdersSupported, PostRepay, CalculateRepay, AccruedDebt, PositionOfBorrow, RepaidSlot;
    var r := a.reserves[k];
    var i := PositionOfBorrow(a.o.borrows, k).value;
    var accrued := AccruedDebt(a.o.borrows[i], r.liquidity.cumulativeRate).value;
    var quote := CalculateRepay(amount, accrued.borrowed).value;
    TrackingLeavesOrders(Accounts(a.reserves[k := TakeBack(r, clock, quote).value], a.o.(borrows := a.o.borrows[i := accrued])), k, i,
                         None, quote.repay);
  }

  // ---- what touches them --------------------------------------------------

  /** An order of a single debt goes on with what is left of it, or is gone. */
  predicate Continues(order: Order, order': Order, settled: nat) {
    order'.opportunity == DELEVERAGE_SINGLE_DEBT_AMOUNT && settled + order'.opportunityParameter <= order.opportunityParameter
  }

  lemma SocializeContinues(a: Accounts, k: Key, amount: U64, slot: U64, n: nat)
    requires n < |a.o.orders| && a.o.orders[n].opportunity == DELEVERAGE_SINGLE_DEBT_AMOUNT && SocializeLoss(a, k, amount, slot).Ok?
    ensures var orders := SocializeLoss(a, k, amount, slot).value.o.orders;
      |orders| == |a.o.orders| && Continues(a.o.orders[n], orders[n], 0)
  {
    hide TrackLess, Forgive, PositionOfBorrow, RepaidSlot;
    var i := PositionOfBorrow(a.o.borrows, k).value;
    TrackingLeavesOrders(a, k, i, None, ToCeil(Min(FromInt(amount), a.o.borrows[i].borrowed)).value);
  }

  lemma SettlingLeavesOrders(a: Accounts, debtKey: Key, l: Liquidated)
    requires l.borrowIndex < |a.o.borrows| && l.depositIndex < |a.o.deposits| && SettleLiquidation(a, debtKey, l).Ok?
    ensures SettleLiquidation(a, debtKey, l).value.accounts.o.orders == a.o.orders
  {
    hide TrackLess, TakeBackInLiquidation, RepaidSlot, WithdrawnSlot;
    TrackingLeavesOrders(a, debtKey, l.borrowIndex, None, l.quote.amounts.repay);
  }

  lemma SettledOrdersContinue(o: Obligation, reason: Reason, repay: U64, settle: Fraction, n: nat)
    requires n < |o.orders| && o.orders[n].opportunity == DELEVERAGE_SINGLE_DEBT_AMOUNT && OrdersSettled(o, reason, repay).Ok?
    requires reason == ObligationOrder(n) ==> settle <= o.orders[n].opportunityParameter && settle <= FromInt(repay)
    ensures var orders := OrdersSettled(o, reason, repay).value.orders;
      && |orders| == |o.orders|
      && Continues(o.orders[n], orders[n], if reason == ObligationOrder(n) then settle else 0)
  {
  }

  /** What a liquidation settles through an order is within the order and within the repay. */
  lemma SettledWithinOrder(m: Market, o: Obligation, debtKey: Key, debt: Reserve, collateralKey: Key, collateral: Reserve,
                           amount: U64, clock: Clock, n: nat)
    requires n < |o.orders| && o.orders[n].opportunity == DELEVERAGE_SINGLE_DEBT_AMOUNT
    requires LiquidationOf(m, o, debtKey, debt, collateralKey, collateral, amount, clock).Ok?
    ensures var q := LiquidationOf(m, o, debtKey, debt, collateralKey, collateral, amount, clock).value.quote;
      q.params.reason == ObligationOrder(n) ==>
        q.amounts.settle <= o.orders[n].opportunityParameter && q.amounts.settle <= FromInt(q.amounts.repay)
  {
    hide CalculateLiquidation, UsableElevationGroup, PositionOfBorrow, PositionOfDeposit, NeedLiquidatable, Executes;
    var l := LiquidationOf(m, o, debtKey, debt, collateralKey, collateral, amount, clock).value;
    if l.quote.params.reason == ObligationOrder(n) {
      var g := UsableElevationGroup(m, o.group).value;
      OrderExecution(Inputs(m, collateral, debt, o, clock.timestamp), amount, o.borrows[l.borrowIndex], o.deposits[l.depositIndex],
                     debt.config.borrowFactorPct >= o.values.highestBorrowFactorPct,
                     LiquidationThresholdPct(collateral.config, g) <= o.values.lowestLiquidationLtvPct);
    }
  }

  lemma LiquidateContinues(m: Market, a: Accounts, debtKey: Key, collateralKey: Key, amount: U64, minReceived: U64, clock: Clock, n: nat)
    requires n < |a.o.orders| && a.o.orders[n].opportunity == DELEVERAGE_SINGLE_DEBT_AMOUNT
    requires Liquidate(m, a, debtKey, collateralKey, amount, minReceived, clock).Ok?
    ensures var orders := Liquidate(m, a, debtKey, collateralKey, amount, minReceived, clock).value.0.o.orders;
      && |orders| == |a.o.orders|
      && Continues(a.o.orders[n], orders[n], SettledByOrder(m, a, debtKey, collateralKey, amount, clock, n))
  {
    hide LiquidationOf, SettleLiquidation, Refreshed, RedeemableNow, TrackFullWithdraw, RedeemForLiquidator, OrdersSettled, Continues;
    var l := LiquidationOf(m, a.o, debtKey, a.reserves[debtKey], collateralKey, a.reserves[collateralKey], amount, clock).value;
    SettledWithinOrder(m, a.o, debtKey, a.reserves[debtKey], collateralKey, a.reserves[collateralKey], amount, clock, n);
    SettlingLeavesOrders(a, debtKey, l);
    var o := SettleLiquidation(a, debtKey, l).value.accounts.o;
    SettledOrdersContinue(o, l.quote.params.reason, l.quote.amounts.repay, l.quote.amounts.settle, n);
  }

  // ---- runs ---------------------------------------------------------------

  lemma ActContinues(m: Market, a: Accounts, clock: Clock, action: Action, a': Accounts, n: nat)
    requires Act(m, a, clock, action) == Ok(a') && !(action.PlaceOrder? && action.index == n)
    requires n < |a.o.orders| && a.o.orders[n].opportunity == DELEVERAGE_SINGLE_DEBT_AMOUNT
    ensures |a'.o.orders| == |a.o.orders|
    ensures Continues(a.o.orders[n], a'.o.orders[n],
                      if action.LiquidateWith? then SettledByOrder(m, a, action.debtKey, action.collateralKey, action.amount, clock, n) else 0)
  {
    hide RefreshObligation, DepositCollateral, WithdrawCollateral, BorrowLiquidity, RepayLiquidity, RequestElevationGroup, Liquidate,
         SocializeLoss, ValidateOrder, Supported, SettledByOrder;
    match action {
      case Refresh(check) => RefreshLeavesOrders(m, a, clock.slot, check);
      case DepositInto(k, amount, check) => DepositLeavesOrders(m, a, k, amount, clock.slot, check);
      case WithdrawFrom(k, amount, check) => WithdrawLeavesOrders(m, a, k, amount, clock.slot, check);
      case BorrowFrom(k, amount) => BorrowLeavesOrders(m, a, k, amount, clock);
      case RepayTo(k, amount) => RepayLeavesOrders(m, a, k, amount, clock);
      case RequestGroup(group) => RequestLeavesOrders(m, a, group, clock.slot);
      case LiquidateWith(debtKey, collateralKey, amount, minReceived) =>
        LiquidateContinues(m, a, debtKey, collateralKey, amount, minReceived, clock, n);
      case Socialize(k, amount) => SocializeContinues(a, k, amount, clock.slot, n);
      case PlaceOrder(_, _) =>
      case Mark(_) =>
    }
  }

  lemma StepContinues(s: State, e: Event, s': State, i: nat, n: nat)
    requires Next(s, e) == Ok(s') && !Replaces(e, i, n)
    requires i < |s.obligations| && n < |s.obligations[i].orders|
    requires s.obligations[i].orders[n].opportunity == DELEVERAGE_SINGLE_DEBT_AMOUNT
    ensures i < |s'.obligations| && |s'.obligations[i].orders| == |s.obligations[i].orders|
    ensures Continues(s.obligations[i].orders[n], s'.obligations[i].orders[n], SettledThrough(s, e, i, n))
  {
    hide Act, Single.Perform, NewObligation, SettledByOrder;
    if e.step.OnObligation? && e.step.i == i {
      var a := Accounts(s.reserves, s.obligations[i]);
      var a' := Act(e.market, a, e.clock, e.step.action).value;
      ActContinues(e.market, a, e.clock, e.step.action, a', n);
    }
  }

  /** Over every run of a market, as long as the owner does not replace it, a single-debt
      order settles in total at most the amount it was placed for, and what has been
      settled plus what the order has left never exceeds that amount. */
  lemma {:induction false} RunsNeverOverspendOrders(s: State, es: seq<Event>, t: State, i: nat, n: nat)
    requires Run(s, es) == Ok(t) && i < |s.obligations| && n < |s.obligations[i].orders|
    requires s.obligations[i].orders[n].opportunity == DELEVERAGE_SINGLE_DEBT_AMOUNT
    requires forall j :: 0 <= j < |es| ==> !Replaces(es[j], i, n)
    ensures i < |t.obligations| && |t.obligations[i].orders| == |s.obligations[i].orders|
    ensures Continues(s.obligations[i].orders[n], t.obligations[i].orders[n], TotalSettled(s, es, i, n))
    ensures TotalSettled(s, es, i, n) <= s.obligations[i].orders[n].opportunityParameter
  {
    hide Next, SettledThrough;
    if es == [] {
    } else {
      var front := es[..|es| - 1];
      var mid := Run(s, front).value;
      RunsNeverOverspendOrders(s, front, mid, i, n);
      StepContinues(mid, es[|es| - 1], t, i, n);
    }
  }
}
