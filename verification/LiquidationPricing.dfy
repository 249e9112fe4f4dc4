/** What a liquidation pays: when each route is open, the bonus of each, the debt taken,
    the collateral given for it and the protocol's fee, each from both sides. */
module LiquidationPricing {
  import opened Results
  import opened Arithmetic
  import opened FixedPoint
  import opened Reserves
  import opened Markets
  import opened Obligations
  import opened Orders
  import opened Liquidation
  import opened LiquidationSafety

  // ---- the seizure --------------------------------------------------------

  /** The value to be seized is the repaid value with the whole bonus, rounded down, and the
      repaid value is the liquidated share of the debt's value, rounded down twice. */
  lemma SeizurePaysBonus(i: Inputs, offered: U64, b: Borrow, d: Deposit, highestBf: bool, lowestLtv: bool)
    requires CalculateLiquidation(i, offered, b, d, highestBf, lowestLtv).Ok?
    ensures b.borrowed > 0
    ensures var q := CalculateLiquidation(i, offered, b, d, highestBf, lowestLtv).value;
      && q.totalValue * ONE <= q.repaidValue * (ONE + q.params.bonus) < (q.totalValue + 1) * ONE
      && q.repaidValue * b.borrowed <= b.marketValue * q.debt
      && b.marketValue * q.debt * ONE < ((q.repaidValue + 1) * ONE + b.marketValue) * b.borrowed
  {
    hide LiquidationParams, DebtToLiquidate, LiquidationAmounts, MulFloor, DivFloor;
    var q := CalculateLiquidation(i, offered, b, d, highestBf, lowestLtv).value;
    MulBounds(q.repaidValue, ONE + q.params.bonus);
    ShareOfValue(b.marketValue, q.debt, b.borrowed);
  }

  /** Taking a ratio and then its share rounds down twice. */
  lemma ShareOfValue(value: nat, part: nat, whole: nat)
    requires whole > 0
    ensures var share := MulFloor(value, DivFloor(part, whole));
      && share * whole <= value * part
      && value * part * ONE < ((share + 1) * ONE + value) * whole
  {
    hide MulFloor, DivFloor;
    var ratio := DivFloor(part, whole);
    RatioOfRatio(MulFloor(value, ratio), value, part, whole);
    DivFloorBounds(part, whole);
    MulBounds(value, ratio);
    ShareAbove(value, part, whole, ratio, MulFloor(value, ratio));
  }

  // ---- tokens -------------------------------------------------------------

  /** How many collateral tokens go: the whole deposit when it is worth no more than the
      seizure, one token by the dust override, and otherwise the seizure's share of the
      deposit, rounded down at most twice. */
  lemma WithdrawnTokens(totalValue: Fraction, d: Deposit, debt: Fraction, small: bool)
    requires LiquidationAmounts(totalValue, d, debt, small).Ok?
    ensures var w := LiquidationAmounts(totalValue, d, debt, small).value.withdraw;
      && (d.marketValue <= totalValue ==> w == d.amount)
      && (DustToken(totalValue, d, small) ==> w == 1)
      && (totalValue < d.marketValue && !DustToken(totalValue, d, small) ==>
            && w * d.marketValue <= d.amount * totalValue
            && (w + 1) * ONE * d.marketValue > d.amount * (totalValue * ONE - d.marketValue))
  {
    hide MulFloor, DivFloor, Floor;
    if totalValue < d.marketValue && !DustToken(totalValue, d, small) {
      WithdrawnWorthAtMost(totalValue, d, debt, small);
      var share := DivFloor(totalValue, d.marketValue);
      var f := MulFloor(FromInt(d.amount), share);
      DivFloorBounds(totalValue, d.marketValue);
      MulBounds(FromInt(d.amount), share);
      FloorCeil(f);
      WithdrawnAbove(Floor(f), f, d.amount, share, totalValue, d.marketValue);
    }
  }

  lemma WithdrawnAbove(w: nat, f: nat, amount: nat, share: nat, total: nat, value: nat)
    requires value > 0 && f < w * ONE + ONE && amount * ONE * share < f * ONE + ONE && total * ONE < share * value + value
    ensures (w + 1) * ONE * value > amount * (total * ONE - value)
  {
    assert amount * ONE * share == ONE * (amount * share);
    MulLeft(amount, total * ONE - value, share * value);
    MulLeft(value, amount * share + 1, (w + 1) * ONE);
    MulSwap(amount, share, value);
    assert value * (amount * share + 1) == value * (amount * share) + value;
    MulSwap(value, amount, share);
    assert share * value == value * share;
  }

  /** What is settled: the debt to be liquidated, scaled down to the collateral only when
      that runs out and no full liquidation is forced. */
  lemma SettledDebt(totalValue: Fraction, d: Deposit, debt: Fraction, small: bool)
    requires LiquidationAmounts(totalValue, d, debt, small).Ok?
    ensures var settle := LiquidationAmounts(totalValue, d, debt, small).value.settle;
      && (totalValue <= d.marketValue || small ==> settle == debt)
      && (totalValue > d.marketValue && !small ==>
            && settle * totalValue <= debt * d.marketValue
            && debt * d.marketValue * ONE < ((settle + 1) * ONE + debt) * totalValue)
  {
    hide MulFloor, DivFloor, Floor, Ceil;
    if totalValue > d.marketValue { ShareOfValue(debt, d.marketValue, totalValue); }
  }

  // ---- how much debt ------------------------------------------------------

  /** The most value that may be liquidated at once is one of the three limits and within
      all of them: the close factor's share of all debt (all of it above the insolvency
      threshold), this debt's value, and the market's cap. */
  lemma LiquidatableValue(m: Market, v: Values, b: Borrow, userLtv: Fraction)
    requires MaxLiquidatableValue(m, v, b, userLtv).Ok?
    ensures var value := MaxLiquidatableValue(m, v, b, userLtv).value;
      var factor := if userLtv > FromPercent(m.insolvencyRiskLtvPct) then ONE else FromPercent(m.closeFactorPct);
      && value * ONE <= v.debt * factor && value <= b.marketValue && value <= m.maxLiquidatableValueAtOnce * ONE
      && (v.debt * factor < (value + 1) * ONE || value == b.marketValue || value == m.maxLiquidatableValueAtOnce * ONE)
  {
    hide FromPercent, MulFloor;
    var factor := if userLtv > FromPercent(m.insolvencyRiskLtvPct) then ONE else FromPercent(m.closeFactorPct);
    MulBounds(v.debt, factor);
  }

  /** A forced full liquidation takes the whole debt, which the offer must cover. Otherwise
      offer, debt and limit bound what is taken, and one of them stops it: the order's
      amount, or the largest liquidatable value's share of the debt, rounded down twice. */
  lemma LiquidatedDebt(m: Market, v: Values, orders: seq<Order>, b: Borrow, p: Params, offered: U64, small: bool)
    requires DebtToLiquidate(m, v, orders, b, p, offered, small).Ok?
    ensures var debt := DebtToLiquidate(m, v, orders, b, p, offered, small).value;
      && debt <= b.borrowed && debt <= offered * ONE
      && (small ==> debt == b.borrowed)
      && (!small && p.reason.ObligationOrder? ==>
            && p.reason.index < |orders|
            && var order := orders[p.reason.index];
               && (debt == b.borrowed || debt == offered * ONE
                   || (order.opportunity == DELEVERAGE_SINGLE_DEBT_AMOUNT && debt == order.opportunityParameter)))
      && (!small && !p.reason.ObligationOrder? ==>
            && MaxLiquidatableValue(m, v, b, p.userLtv).Ok?
            && var value := MaxLiquidatableValue(m, v, b, p.userLtv).value;
               && debt * b.marketValue <= b.borrowed * value
               && (debt == b.borrowed || debt == offered * ONE
                   || b.borrowed * value * ONE < ((debt + 1) * ONE + b.borrowed) * b.marketValue))
  {
    hide MaxLiquidatableValue, MulFloor, DivFloor;
    if !small && !p.reason.ObligationOrder? {
      var value := MaxLiquidatableValue(m, v, b, p.userLtv).value;
      ShareOfValue(b.borrowed, value, b.marketValue);
      var debt := DebtToLiquidate(m, v, orders, b, p, offered, small).value;
      MulLeft(b.marketValue, debt, MulFloor(b.borrowed, DivFloor(value, b.marketValue)));
    }
  }

  /** A full liquidation is forced exactly for debts below the market's minimum, except in
      the execution of an order. */
  lemma FullLiquidationForced(i: Inputs, offered: U64, b: Borrow, d: Deposit, highestBf: bool, lowestLtv: bool)
    requires CalculateLiquidation(i, offered, b, d, highestBf, lowestLtv).Ok?
    ensures var q := CalculateLiquidation(i, offered, b, d, highestBf, lowestLtv).value;
      && (q.small <==> !q.params.reason.ObligationOrder? && b.marketValue < i.market.minFullLiquidationValue * ONE)
      && LiquidationParams(i, highestBf, lowestLtv) == Ok(q.params)
      && DebtToLiquidate(i.market, i.obligation.values, i.obligation.orders, b, q.params, offered, q.small) == Ok(q.debt)
      && LiquidationAmounts(q.totalValue, d, q.debt, q.small) == Ok(q.amounts)
  {
    hide LiquidationParams, DebtToLiquidate, LiquidationAmounts, Mul, Div;
  }

  // ---- when each route is open --------------------------------------------

  /** An obligation marked for deleveraging whose margin call has run out and whose
      loan-to-value is still above the target. */
  predicate IndividualDue(i: Inputs, userLtv: Fraction) {
    && i.market.autodeleverageEnabled && i.obligation.marginCallStartedAt != 0 && i.market.individualMarginCallPeriodSecs != 0
    && userLtv > FromPercent(i.obligation.autodeleverageTargetLtvPct)
    && i.timestamp >= i.obligation.marginCallStartedAt + i.market.individualMarginCallPeriodSecs
  }

  /** A reserve past its limit since `since` whose margin call has run out, for an
      obligation at or above the threshold, which falls from 100% day by day. */
  predicate ReserveDue(i: Inputs, r: Reserve, crossed: bool, since: U64, userLtv: Fraction) {
    && i.market.autodeleverageEnabled && r.config.autodeleverageEnabled && crossed && since != 0
    && SatSub(i.timestamp, since) >= r.config.deleveragingMarginCallPeriodSecs
    && var secs := SatSub(i.timestamp, since) - r.config.deleveragingMarginCallPeriodSecs;
       userLtv + MulFloor(FromBps(r.config.deleveragingThresholdDecreaseBpsPerDay), secs * ONE / 86_400) >= ONE
  }

  predicate DepositLimitDue(i: Inputs, userLtv: Fraction) {
    ReserveDue(i, i.collateral, NetSupply(i.collateral.liquidity) > i.collateral.config.depositLimit * ONE,
               i.collateral.liquidity.depositLimitCrossedAt, userLtv)
  }

  predicate BorrowLimitDue(i: Inputs, userLtv: Fraction) {
    ReserveDue(i, i.debt, i.debt.liquidity.borrowed > i.debt.config.borrowLimit * ONE, i.debt.liquidity.borrowLimitCrossedAt, userLtv)
  }

  lemma IndividualRoute(i: Inputs)
    requires CheckIndividual(i).Ok? && LoanToValue(i.obligation.values).Ok?
    ensures CheckIndividual(i).value.Some? <==> IndividualDue(i, LoanToValue(i.obligation.values).value)
    ensures CheckIndividual(i).value.Some? ==> CheckIndividual(i).value.value.reason == IndividualDeleveraging
  {
    hide LoanToValue, NoBfLoanToValue, EmodeMaxBonus, FromPercent, AutodeleverageBonus;
  }

  lemma CrossedLimit(i: Inputs, r: Reserve, crossed: bool, since: U64)
    requires CheckCrossedLimit(r, crossed, since, i.obligation.values, i.timestamp).Ok? && LoanToValue(i.obligation.values).Ok?
    requires i.market.autodeleverageEnabled && r.config.autodeleverageEnabled
    ensures var route := CheckCrossedLimit(r, crossed, since, i.obligation.values, i.timestamp).value;
      && (route.Some? <==> ReserveDue(i, r, crossed, since, LoanToValue(i.obligation.values).value))
      && (route.Some? ==> route.value.reason == MarketWideDeleveraging)
  {
    hide LoanToValue, NoBfLoanToValue, FromBps, AutodeleverageBonus, MulFloor;
  }

  lemma MarketWideRoute(i: Inputs)
    requires CheckMarketWide(i).Ok? && LoanToValue(i.obligation.values).Ok?
    ensures CheckMarketWide(i).value.Some? <==>
      DepositLimitDue(i, LoanToValue(i.obligation.values).value) || BorrowLimitDue(i, LoanToValue(i.obligation.values).value)
    ensures CheckMarketWide(i).value.Some? ==> CheckMarketWide(i).value.value.reason == MarketWideDeleveraging
  {
    hide LoanToValue, CheckCrossedLimit, TotalSupply, NetSupply;
    TotalSupplyIsNet(i.collateral.liquidity);
    if i.market.autodeleverageEnabled {
      if i.collateral.config.autodeleverageEnabled {
        var supply := TotalSupply(i.collateral.liquidity).value;
        CrossedLimit(i, i.collateral, supply > FromInt(i.collateral.config.depositLimit), i.collateral.liquidity.depositLimitCrossedAt);
      }
      if i.debt.config.autodeleverageEnabled && CheckBorrowLimit(i).Ok? {
        CrossedLimit(i, i.debt, i.debt.liquidity.borrowed > FromInt(i.debt.config.borrowLimit), i.debt.liquidity.borrowLimitCrossedAt);
      }
    }
  }

  /** The four routes in their order: loan-to-value at the unhealthy one, a due margin call
      of this obligation, a due one of either reserve, and an order, of which the first
      whose condition is met counts. */
  lemma RoutesInOrder(i: Inputs)
    requires EligibleParams(i).Ok?
    ensures LoanToValue(i.obligation.values).Ok? && UnhealthyLoanToValue(i.obligation.values).Ok?
    ensures var p := EligibleParams(i).value; var v := i.obligation.values;
      var ltv := LoanToValue(v).value;
      var unhealthy := ltv >= UnhealthyLoanToValue(v).value;
      var individual := IndividualDue(i, ltv);
      var reserve := DepositLimitDue(i, ltv) || BorrowLimitDue(i, ltv);
      && p.userLtv == ltv
      && (p.reason == LtvExceeded <==> unhealthy)
      && (p.reason == IndividualDeleveraging <==> !unhealthy && individual)
      && (p.reason == MarketWideDeleveraging <==> !unhealthy && !individual && reserve)
      && (p.reason.ObligationOrder? <==> !unhealthy && !individual && !reserve)
      && (p.reason.ObligationOrder? ==> i.market.orderExecutionEnabled && OrderApplies(i, p.reason.index))
  {
    hide CheckLtv, CheckIndividual, CheckMarketWide, CheckOrder, LoanToValue, NoBfLoanToValue, UnhealthyLoanToValue,
         IndividualDue, DepositLimitDue, BorrowLimitDue, OrderApplies;
    LtvRoute(i);
    if CheckLtv(i).value.None? {
      IndividualRoute(i);
      RouteLtv(i);
      if CheckIndividual(i).value.None? {
        MarketWideRoute(i);
        if CheckMarketWide(i).value.None? { FirstOrder(i); }
      }
    }
  }

  /** The order in this slot is the first whose condition is met. */
  ghost predicate OrderApplies(i: Inputs, index: nat) {
    && index < |i.obligation.orders|
    && var prices := (i.collateral.liquidity.price, i.debt.liquidity.price);
       var hit := Evaluate(prices.0, prices.1, i.obligation.values, i.obligation.orders[index]);
       && hit.Ok? && hit.value.Some?
       && forall j :: 0 <= j < index ==> Evaluate(prices.0, prices.1, i.obligation.values, i.obligation.orders[j]) == Ok(None)
  }

  lemma RouteLtv(i: Inputs)
    ensures CheckIndividual(i).Ok? && CheckIndividual(i).value.Some? ==>
      LoanToValue(i.obligation.values) == Ok(CheckIndividual(i).value.value.userLtv)
    ensures CheckMarketWide(i).Ok? && CheckMarketWide(i).value.Some? ==>
      LoanToValue(i.obligation.values) == Ok(CheckMarketWide(i).value.value.userLtv)
  {
    hide LoanToValue, NoBfLoanToValue, EmodeMaxBonus, FromPercent, FromBps, AutodeleverageBonus, MulFloor, TotalSupply;
  }

  lemma FirstOrder(i: Inputs)
    requires CheckOrder(i).Ok? && CheckOrder(i).value.Some?
    ensures var p := CheckOrder(i).value.value;
      && p.reason.ObligationOrder? && LoanToValue(i.obligation.values) == Ok(p.userLtv)
      && i.market.orderExecutionEnabled && OrderApplies(i, p.reason.index)
  {
    hide LoanToValue, NoBfLoanToValue, OrderBonus, Evaluate;
  }

  /** An obligation counts as healthy only if no route is open at all. */
  lemma HealthyMeansNoRoute(i: Inputs)
    requires EligibleParams(i) == Err(ObligationHealthy)
    ensures LoanToValue(i.obligation.values).Ok? && UnhealthyLoanToValue(i.obligation.values).Ok?
    ensures var v := i.obligation.values; var ltv := LoanToValue(v).value;
      && ltv < UnhealthyLoanToValue(v).value
      && !IndividualDue(i, ltv) && !DepositLimitDue(i, ltv) && !BorrowLimitDue(i, ltv)
      && (i.market.orderExecutionEnabled ==>
            forall j :: 0 <= j < |i.obligation.orders| ==>
              Evaluate(i.collateral.liquidity.price, i.debt.liquidity.price, v, i.obligation.orders[j]) == Ok(None))
  {
    hide CheckLtv, CheckIndividual, CheckMarketWide, CheckOrder, LoanToValue, UnhealthyLoanToValue, IndividualDue, DepositLimitDue,
         BorrowLimitDue, Evaluate;
    RoutesReportOtherErrors(i);
    LtvRoute(i);
    IndividualRoute(i);
    MarketWideRoute(i);
    if i.market.orderExecutionEnabled { NoOrderMet(i); }
  }

  lemma NoOrderMet(i: Inputs)
    requires CheckOrder(i) == Ok(None) && i.market.orderExecutionEnabled
    ensures forall j :: 0 <= j < |i.obligation.orders| ==>
      Evaluate(i.collateral.liquidity.price, i.debt.liquidity.price, i.obligation.values, i.obligation.orders[j]) == Ok(None)
  {
    hide Evaluate, LoanToValue, NoBfLoanToValue, OrderBonus;
  }

  lemma RoutesReportOtherErrors(i: Inputs)
    ensures CheckLtv(i) != Err(ObligationHealthy) && CheckIndividual(i) != Err(ObligationHealthy)
    ensures CheckMarketWide(i) != Err(ObligationHealthy) && CheckOrder(i) != Err(ObligationHealthy)
  {
    hide CheckLtv, CheckIndividual, CheckMarketWide, CheckOrder;
    LtvReportsOtherErrors(i);
    IndividualReportsOtherErrors(i);
    MarketWideReportsOtherErrors(i);
    OrderRouteReportsOtherErrors(i);
  }

  lemma LtvReportsOtherErrors(i: Inputs)
    ensures CheckLtv(i) != Err(ObligationHealthy)
  {
    hide DivFloor, MulFloor, FromBps, FromPercent;
  }

  lemma IndividualReportsOtherErrors(i: Inputs)
    ensures CheckIndividual(i) != Err(ObligationHealthy)
  {
    hide DivFloor, MulFloor, FromBps, FromPercent;
  }

  lemma MarketWideReportsOtherErrors(i: Inputs)
    ensures CheckMarketWide(i) != Err(ObligationHealthy)
  {
    hide DivFloor, MulFloor, FromBps, FromPercent;
  }

  lemma OrderRouteReportsOtherErrors(i: Inputs)
    ensures CheckOrder(i) != Err(ObligationHealthy)
  {
    hide DivFloor, MulFloor, FromBps, FromPercent, FirstApplicable;
    OrdersReportOtherErrors(i.collateral.liquidity.price, i.debt.liquidity.price, i.obligation.values, i.obligation.orders, 0);
  }

  lemma {:induction false} OrdersReportOtherErrors(collateralPrice: Fraction, debtPrice: Fraction, v: Values, orders: seq<Order>, from: nat)
    requires from <= |orders|
    ensures FirstApplicable(collateralPrice, debtPrice, v, orders, from) != Err(ObligationHealthy)
    decreases |orders| - from
  {
    hide Evaluate;
    if from == |orders| {
    } else {
      OrderReportsOtherErrors(collateralPrice, debtPrice, v, orders[from]);
      OrdersReportOtherErrors(collateralPrice, debtPrice, v, orders, from + 1);
    }
  }

  lemma OrderReportsOtherErrors(collateralPrice: Fraction, debtPrice: Fraction, v: Values, order: Order)
    ensures Evaluate(collateralPrice, debtPrice, v, order) != Err(ObligationHealthy)
  {
    hide DivFloor, MulFloor;
  }

  /** Priorities: a liquidation for loan-to-value takes the debt with the highest borrow
      factor, and one for loan-to-value or an order the collateral with the lowest threshold. */
  lemma PrioritiesRespected(i: Inputs, highestBf: bool, lowestLtv: bool)
    requires LiquidationParams(i, highestBf, lowestLtv).Ok?
    ensures EligibleParams(i) == LiquidationParams(i, highestBf, lowestLtv)
    ensures var reason := LiquidationParams(i, highestBf, lowestLtv).value.reason;
      && (reason == LtvExceeded ==> highestBf && lowestLtv)
      && (reason.ObligationOrder? ==> lowestLtv)
  {
    hide EligibleParams;
  }

  // ---- the bonus of each route --------------------------------------------

  /** Inside a group both reserves belong to, the group's bonus caps theirs, unless it is
      zero or higher than one of them. */
  lemma GroupBonusCap(m: Market, coll: ReserveConfig, debt: ReserveConfig, group: nat)
    requires ValidMarket(m) && EmodeMaxBonus(m, coll, debt, group).Ok?
    ensures var cap := EmodeMaxBonus(m, coll, debt, group).value;
      if 0 < group <= |m.groups| && group in coll.elevationGroups && group in debt.elevationGroups
         && 0 < m.groups[group - 1].maxLiquidationBonusBps <= Min(coll.maxLiquidationBonusBps, debt.maxLiquidationBonusBps)
      then cap == m.groups[group - 1].maxLiquidationBonusBps
      else cap == 0xFFFF
  {
  }

  /** What an unhealthy obligation pays: the excess over the unhealthy loan-to-value, between
      the larger minimum and the capped larger maximum, but not more than what is missing to
      insolvency; from 99% on the smaller bad-debt bonus, or what is missing to insolvency if
      that is more. */
  function UnhealthyBonus(coll: ReserveConfig, debt: ReserveConfig, groupCap: U16, excess: int, noBfLtv: Fraction): int {
    var missing := ONE - noBfLtv;
    if noBfLtv >= BAD_DEBT_LTV then Max(FromBps(Min(coll.badDebtLiquidationBonusBps, debt.badDebtLiquidationBonusBps)), missing)
    else
      var least := FromBps(Max(coll.minLiquidationBonusBps, debt.minLiquidationBonusBps));
      var most := FromBps(Min(Max(coll.maxLiquidationBonusBps, debt.maxLiquidationBonusBps), groupCap));
      Min(Min(Max(least, excess), most), missing)
  }

  lemma LtvBonusPaid(i: Inputs)
    requires CheckLtv(i).Ok? && CheckLtv(i).value.Some?
    ensures var v := i.obligation.values; var coll, debt := i.collateral.config, i.debt.config;
      && LoanToValue(v).Ok? && NoBfLoanToValue(v).Ok? && UnhealthyLoanToValue(v).Ok?
      && EmodeMaxBonus(i.market, coll, debt, i.obligation.group).Ok?
      && CheckLtv(i).value.value.bonus
         == UnhealthyBonus(coll, debt, EmodeMaxBonus(i.market, coll, debt, i.obligation.group).value,
                           LoanToValue(v).value - UnhealthyLoanToValue(v).value, NoBfLoanToValue(v).value)
  {
    hide LoanToValue, NoBfLoanToValue, UnhealthyLoanToValue, EmodeMaxBonus, FromBps;
  }

  /** What deleveraging pays: half a percent and an increase for each day since the margin
      call ran out, rounded down, capped by the reserve, the group and insolvency. */
  predicate PaysForDelay(bonus: Fraction, increaseBps: U64, maxBps: U16, groupCap: U16, secs: nat, noBfLtv: Fraction) {
    var cap := Min(FromBps(Min(maxBps, groupCap)), SatSub(ONE, noBfLtv));
    var grown := FromBps(50) * ONE + FromBps(increaseBps) * (secs * ONE / 86_400);
    bonus <= cap && bonus * ONE <= grown && (bonus == cap || grown < (bonus + 1) * ONE)
  }

  lemma AutodeleverageBonusPaid(increase: U64, reserveMax: U16, emodeMax: U16, secs: U64, noBfLtv: Fraction)
    requires AutodeleverageBonus(increase, reserveMax, emodeMax, Days(secs), noBfLtv).Ok?
    ensures PaysForDelay(AutodeleverageBonus(increase, reserveMax, emodeMax, Days(secs), noBfLtv).value, increase, reserveMax,
                         emodeMax, secs, noBfLtv)
  {
    hide FromBps, MulFloor;
    MulBounds(FromBps(increase), Days(secs));
  }

  /** The pacing reserve of a marked obligation: the one with the higher maximum bonus, then
      the one whose bonus grows faster, then the debt's. */
  function Pace(coll: ReserveConfig, debt: ReserveConfig): ReserveConfig {
    if coll.maxLiquidationBonusBps != debt.maxLiquidationBonusBps
    then (if coll.maxLiquidationBonusBps > debt.maxLiquidationBonusBps then coll else debt)
    else (if coll.deleveragingBonusIncreaseBpsPerDay > debt.deleveragingBonusIncreaseBpsPerDay then coll else debt)
  }

  lemma IndividualBonusPaid(i: Inputs)
    requires CheckIndividual(i).Ok? && CheckIndividual(i).value.Some?
    ensures var coll, debt := i.collateral.config, i.debt.config; var pace := Pace(coll, debt);
      var late := i.timestamp - i.obligation.marginCallStartedAt - i.market.individualMarginCallPeriodSecs;
      && EmodeMaxBonus(i.market, coll, debt, i.obligation.group).Ok? && NoBfLoanToValue(i.obligation.values).Ok? && late >= 0
      && PaysForDelay(CheckIndividual(i).value.value.bonus, pace.deleveragingBonusIncreaseBpsPerDay, pace.maxLiquidationBonusBps,
                      EmodeMaxBonus(i.market, coll, debt, i.obligation.group).value, late, NoBfLoanToValue(i.obligation.values).value)
  {
    hide LoanToValue, NoBfLoanToValue, EmodeMaxBonus, FromPercent, AutodeleverageBonus, PaysForDelay;
    var c := PacingConfig(i.collateral.config, i.debt.config);
    var secs := SecsSinceStarted(i.market.individualMarginCallPeriodSecs, SatSub(i.timestamp, i.obligation.marginCallStartedAt)).value;
    AutodeleverageBonusPaid(c.deleveragingBonusIncreaseBpsPerDay, c.maxLiquidationBonusBps,
                            EmodeMaxBonus(i.market, i.collateral.config, i.debt.config, i.obligation.group).value, secs,
                            NoBfLoanToValue(i.obligation.values).value);
  }

  /** The reserve that is past its limit sets the bonus itself; groups do not cap it. */
  predicate ReservePays(i: Inputs, bonus: Fraction, r: Reserve, since: U64, noBfLtv: Fraction) {
    var late := SatSub(i.timestamp, since) - r.config.deleveragingMarginCallPeriodSecs;
    late >= 0 && PaysForDelay(bonus, r.config.deleveragingBonusIncreaseBpsPerDay, r.config.maxLiquidationBonusBps, 0xFFFF, late, noBfLtv)
  }

  lemma CrossedLimitPays(i: Inputs, r: Reserve, crossed: bool, since: U64)
    requires CheckCrossedLimit(r, crossed, since, i.obligation.values, i.timestamp).Ok?
    requires CheckCrossedLimit(r, crossed, since, i.obligation.values, i.timestamp).value.Some?
    ensures NoBfLoanToValue(i.obligation.values).Ok?
    ensures ReservePays(i, CheckCrossedLimit(r, crossed, since, i.obligation.values, i.timestamp).value.value.bonus, r, since,
                        NoBfLoanToValue(i.obligation.values).value)
  {
    hide LoanToValue, NoBfLoanToValue, FromBps, AutodeleverageBonus, MulFloor, PaysForDelay;
    var secs := SatSub(i.timestamp, since) - r.config.deleveragingMarginCallPeriodSecs;
    AutodeleverageBonusPaid(r.config.deleveragingBonusIncreaseBpsPerDay, r.config.maxLiquidationBonusBps, NO_EMODE_CAP, secs,
                            NoBfLoanToValue(i.obligation.values).value);
  }

  lemma MarketWideBonusPaid(i: Inputs)
    requires CheckMarketWide(i).Ok? && CheckMarketWide(i).value.Some? && LoanToValue(i.obligation.values).Ok?
    ensures NoBfLoanToValue(i.obligation.values).Ok?
    ensures var bonus := CheckMarketWide(i).value.value.bonus; var n := NoBfLoanToValue(i.obligation.values).value;
      if DepositLimitDue(i, LoanToValue(i.obligation.values).value)
      then ReservePays(i, bonus, i.collateral, i.collateral.liquidity.depositLimitCrossedAt, n)
      else ReservePays(i, bonus, i.debt, i.debt.liquidity.borrowLimitCrossedAt, n)
  {
    hide LoanToValue, NoBfLoanToValue, CheckCrossedLimit, TotalSupply, NetSupply, ReservePays, ReserveDue;
    TotalSupplyIsNet(i.collateral.liquidity);
    var c := i.collateral;
    if c.config.autodeleverageEnabled {
      var crossed := TotalSupply(c.liquidity).value > FromInt(c.config.depositLimit);
      CrossedLimit(i, c, crossed, c.liquidity.depositLimitCrossedAt);
      if CheckDepositLimit(i).value.Some? { CrossedLimitPays(i, c, crossed, c.liquidity.depositLimitCrossedAt); }
    } else {
      NotDue(i, c, NetSupply(c.liquidity) > c.config.depositLimit * ONE, c.liquidity.depositLimitCrossedAt);
    }
    if CheckDepositLimit(i).value.None? {
      CrossedLimitPays(i, i.debt, i.debt.liquidity.borrowed > FromInt(i.debt.config.borrowLimit), i.debt.liquidity.borrowLimitCrossedAt);
    }
  }

  lemma NotDue(i: Inputs, r: Reserve, crossed: bool, since: U64)
    requires !r.config.autodeleverageEnabled
    ensures forall ltv: Fraction :: !ReserveDue(i, r, crossed, since, ltv)
  {
  }

  /** The bonus a liquidation pays, route by route. */
  lemma BonusPaid(i: Inputs)
    requires EligibleParams(i).Ok?
    ensures LoanToValue(i.obligation.values).Ok? && NoBfLoanToValue(i.obligation.values).Ok? && UnhealthyLoanToValue(i.obligation.values).Ok?
    ensures var p := EligibleParams(i).value; var v := i.obligation.values;
      var coll, debt := i.collateral.config, i.debt.config;
      var ltv, n := LoanToValue(v).value, NoBfLoanToValue(v).value;
      match p.reason
      case LtvExceeded =>
        && EmodeMaxBonus(i.market, coll, debt, i.obligation.group).Ok?
        && p.bonus == UnhealthyBonus(coll, debt, EmodeMaxBonus(i.market, coll, debt, i.obligation.group).value,
                                     ltv - UnhealthyLoanToValue(v).value, n)
      case IndividualDeleveraging =>
        && EmodeMaxBonus(i.market, coll, debt, i.obligation.group).Ok?
        && var late := i.timestamp - i.obligation.marginCallStartedAt - i.market.individualMarginCallPeriodSecs;
           && late >= 0
           && PaysForDelay(p.bonus, Pace(coll, debt).deleveragingBonusIncreaseBpsPerDay, Pace(coll, debt).maxLiquidationBonusBps,
                           EmodeMaxBonus(i.market, coll, debt, i.obligation.group).value, late, n)
      case MarketWideDeleveraging =>
        if DepositLimitDue(i, ltv) then ReservePays(i, p.bonus, i.collateral, i.collateral.liquidity.depositLimitCrossedAt, n)
        else ReservePays(i, p.bonus, i.debt, i.debt.liquidity.borrowLimitCrossedAt, n)
      case ObligationOrder(index) =>
        && OrderApplies(i, index)
        && var hit := Evaluate(i.collateral.liquidity.price, i.debt.liquidity.price, v, i.obligation.orders[index]).value.value;
           && InterpolatedBonus(i.obligation.orders[index], hit).Ok?
           && p.bonus == Min(InterpolatedBonus(i.obligation.orders[index], hit).value, SatSub(ONE, n))
  {
    hide CheckLtv, CheckIndividual, CheckMarketWide, CheckOrder, LoanToValue, NoBfLoanToValue, UnhealthyLoanToValue, EmodeMaxBonus,
         DepositLimitDue, ReservePays, PaysForDelay, UnhealthyBonus, OrderApplies, InterpolatedBonus, Evaluate;
    LtvRoute(i);
    if CheckLtv(i).value.Some? {
      LtvBonusPaid(i);
    } else if CheckIndividual(i).value.Some? {
      IndividualRoute(i);
      IndividualBonusPaid(i);
    } else if CheckMarketWide(i).value.Some? {
      MarketWideRoute(i);
      MarketWideBonusPaid(i);
    } else {
      FirstOrder(i);
      OrderBonusPaid(i);
    }
  }

  lemma OrderBonusPaid(i: Inputs)
    requires CheckOrder(i).Ok? && CheckOrder(i).value.Some? && CheckOrder(i).value.value.reason.ObligationOrder?
    requires OrderApplies(i, CheckOrder(i).value.value.reason.index)
    ensures NoBfLoanToValue(i.obligation.values).Ok?
    ensures var p := CheckOrder(i).value.value; var order := i.obligation.orders[p.reason.index];
      var hit := Evaluate(i.collateral.liquidity.price, i.debt.liquidity.price, i.obligation.values, order).value.value;
      && InterpolatedBonus(order, hit).Ok?
      && p.bonus == Min(InterpolatedBonus(order, hit).value, SatSub(ONE, NoBfLoanToValue(i.obligation.values).value))
  {
    hide LoanToValue, NoBfLoanToValue, InterpolatedBonus, Evaluate;
  }

  // ---- the protocol's fee -------------------------------------------------

  /** `fee` is the percentage of product / k, rounded up to whole tokens and at least one, up
      to the floors on the way. */
  predicate PercentageOf(fee: nat, feePct: U8, product: int, k: nat) {
    && fee >= 1
    && (fee > 1 ==> 100 * ((fee - 1) * ONE) * k < (product * ONE + k) * feePct)
    && product * (feePct * ONE - 100) < 100 * (fee * ONE + 1) * k
  }

  /** The protocol takes its percentage of the bonus part of what was redeemed, which is
      amount * bonus / (1 + bonus). */
  lemma FeeIsShareOfBonus(amount: U64, bonus: Fraction, feePct: U8)
    requires ProtocolFee(amount, bonus, feePct).Ok?
    ensures PercentageOf(ProtocolFee(amount, bonus, feePct).value, feePct, amount * bonus, ONE + bonus)
  {
    hide MulFloor, DivFloor, Ceil, FromPercent, PercentageOf;
    var principal := DivFloor(FromInt(amount), bonus + ONE);
    DivFloorBounds(FromInt(amount), bonus + ONE);
    GainIsBonusPart(amount, bonus, ONE + bonus, principal);
    FeeOfGain(amount * bonus, ONE + bonus, FromInt(amount) - principal, feePct, ProtocolFee(amount, bonus, feePct).value);
  }

  lemma FeeOfGain(ab: nat, k: nat, gain: nat, feePct: U8, fee: nat)
    requires k > 0 && ab * ONE <= gain * k < ab * ONE + k && fee == Max(Ceil(MulFloor(gain, FromPercent(feePct))), 1)
    ensures PercentageOf(fee, feePct, ab, k)
  {
    hide MulFloor, Ceil, FromPercent;
    var pct := FromPercent(feePct);
    var share := MulFloor(gain, pct);
    MulBounds(gain, pct);
    SharesOfOne(feePct);
    FloorCeil(share);
    if fee > 1 { FeeAtMost(ab, k, gain, pct, feePct, share, fee); }
    FeeAtLeast(ab, k, gain, pct, feePct, share, fee);
  }

  lemma GainIsBonusPart(amount: nat, bonus: nat, k: nat, principal: nat)
    requires k == ONE + bonus && principal * k <= amount * ONE * ONE < principal * k + k && principal <= amount * ONE
    ensures var gain := amount * ONE - principal; amount * bonus * ONE <= gain * k < amount * bonus * ONE + k
  {
    DifferenceTimes(amount * ONE, principal, k);
    WholeTimes(amount, bonus);
  }

  lemma DifferenceTimes(a: int, b: int, k: int)
    ensures (a - b) * k == a * k - b * k
  {
  }

  lemma WholeTimes(amount: nat, bonus: nat)
    ensures amount * ONE * (ONE + bonus) == amount * ONE * ONE + amount * bonus * ONE
  {
    MulSwap(amount, ONE, ONE + bonus);
    MulAssoc(amount, ONE, ONE + bonus);
    assert amount * (ONE + bonus) == amount * ONE + amount * bonus;
  }

  lemma FeeAtMost(ab: nat, k: nat, gain: nat, pct: nat, feePct: nat, share: nat, fee: nat)
    requires k > 0 && gain * k < ab * ONE + k && pct * 100 <= feePct * ONE && share * ONE <= gain * pct && fee * ONE < share + ONE
    requires fee > 1
    ensures 100 * ((fee - 1) * ONE) * k < (ab * ONE + k) * feePct
  {
    var n: nat := (fee - 1) * ONE;
    ScaledFee(n, k, gain, pct, ab * ONE + k);
    ScaledPct(ab * ONE + k, pct, feePct);
    assert 100 * n * k == 100 * (k * n);
  }

  lemma ScaledFee(n: nat, k: nat, gain: nat, pct: nat, whole: nat)
    requires (n + 1) * ONE <= gain * pct && gain * k <= whole
    ensures ONE * (k * n) + ONE * k <= whole * pct
  {
    MulLeft(k, (n + 1) * ONE, gain * pct);
    MulLeft(pct, gain * k, whole);
    MulSwap(k, gain, pct);
    MulSwap(pct, gain, k);
    assert k * pct == pct * k;
    assert k * ((n + 1) * ONE) == ONE * (k * n) + ONE * k;
  }

  lemma ScaledPct(whole: nat, pct: nat, feePct: nat)
    requires pct * 100 <= feePct * ONE
    ensures 100 * (whole * pct) <= ONE * (whole * feePct)
  {
    MulLeft(whole, pct * 100, feePct * ONE);
    assert whole * (pct * 100) == 100 * (whole * pct) && whole * (feePct * ONE) == ONE * (whole * feePct);
  }

  lemma FeeAtLeast(ab: nat, k: nat, gain: nat, pct: nat, feePct: nat, share: nat, fee: nat)
    requires k > 0 && ab * ONE <= gain * k && feePct * ONE < pct * 100 + 100 && gain * pct < share * ONE + ONE && share <= fee * ONE
    ensures ab * (feePct * ONE - 100) < 100 * (fee * ONE + 1) * k
  {
    FeeStep(ab, k, gain, pct, feePct * ONE - 100, fee * ONE + 1);
  }

  lemma FeeStep(ab: nat, k: nat, gain: nat, pct: nat, p: int, m: nat)
    requires k > 0 && ab * ONE <= gain * k && p <= pct * 100 && gain * pct + 1 <= m * ONE
    ensures ab * p < 100 * m * k
  {
    MulLeft(ab, p, pct * 100);
    MulLeft(pct, ab * ONE, gain * k);
    MulLeft(k, gain * pct + 1, m * ONE);
    FeeRest(ab, pct, gain, k, m);
  }

  lemma FeeRest(ab: nat, pct: nat, gain: nat, k: nat, m: nat)
    requires k > 0 && pct * (ab * ONE) <= pct * (gain * k) && k * (gain * pct + 1) <= k * (m * ONE)
    ensures ab * (pct * 100) < 100 * m * k
  {
    MulSwap(k, gain, pct);
    assert pct * (gain * k) == gain * (k * pct);
    assert k * (gain * pct + 1) == k * (gain * pct) + k;
    assert pct * (ab * ONE) == ONE * (ab * pct) && k * (m * ONE) == ONE * (k * m);
  }
}
