/** What a liquidation can and cannot do. */
module LiquidationSafety {
  import opened Results
  import opened Arithmetic
  import opened FixedPoint
  import opened Reserves
  import opened Markets
  import opened Obligations
  import opened Orders
  import opened Liquidation

  // ---- eligibility --------------------------------------------------------

  lemma LtvRoute(i: Inputs)
    requires CheckLtv(i).Ok?
    ensures var v := i.obligation.values;
      && LoanToValue(v).Ok? && NoBfLoanToValue(v).Ok? && UnhealthyLoanToValue(v).Ok?
      && (CheckLtv(i).value.Some? <==> LoanToValue(v).value >= UnhealthyLoanToValue(v).value)
      && (CheckLtv(i).value.Some? ==>
            && CheckLtv(i).value.value.reason == LtvExceeded
            && CheckLtv(i).value.value.userLtv == LoanToValue(v).value
            && (NoBfLoanToValue(v).value < BAD_DEBT_LTV ==>
                  CheckLtv(i).value.value.bonus <= ONE - NoBfLoanToValue(v).value))
  {
    hide LoanToValue, NoBfLoanToValue, UnhealthyLoanToValue, EmodeMaxBonus, FromBps;
  }

  lemma AutodeleverageBonusCapped(increase: U64, reserveMax: U16, emodeMax: U16, days: Fraction, noBfLtv: Fraction)
    requires AutodeleverageBonus(increase, reserveMax, emodeMax, days, noBfLtv).Ok?
    ensures AutodeleverageBonus(increase, reserveMax, emodeMax, days, noBfLtv).value <= SatSub(ONE, noBfLtv)
  {
    hide FromBps, Mul;
  }

  lemma DeleveragingRoutes(i: Inputs)
    ensures CheckIndividual(i).Ok? && CheckIndividual(i).value.Some? ==>
      && CheckIndividual(i).value.value.reason == IndividualDeleveraging
      && NoBfLoanToValue(i.obligation.values).Ok?
      && CheckIndividual(i).value.value.bonus <= SatSub(ONE, NoBfLoanToValue(i.obligation.values).value)
    ensures CheckMarketWide(i).Ok? && CheckMarketWide(i).value.Some? ==>
      && CheckMarketWide(i).value.value.reason == MarketWideDeleveraging
      && NoBfLoanToValue(i.obligation.values).Ok?
      && CheckMarketWide(i).value.value.bonus <= SatSub(ONE, NoBfLoanToValue(i.obligation.values).value)
  {
    hide LoanToValue, NoBfLoanToValue, EmodeMaxBonus, FromBps, FromPercent, Mul, TotalSupply, Days, AutodeleverageBonus;
    forall inc: U64, rm: U16, em: U16, days: Fraction, n: Fraction | AutodeleverageBonus(inc, rm, em, days, n).Ok?
      ensures AutodeleverageBonus(inc, rm, em, days, n).value <= SatSub(ONE, n)
    {
      AutodeleverageBonusCapped(inc, rm, em, days, n);
    }
  }

  lemma OrderRoute(i: Inputs)
    requires CheckOrder(i).Ok? && CheckOrder(i).value.Some?
    ensures var p := CheckOrder(i).value.value; var o := i.obligation;
      && p.reason.ObligationOrder? && p.reason.index < |o.orders| && i.market.orderExecutionEnabled
      && NoBfLoanToValue(o.values).Ok? && p.bonus <= SatSub(ONE, NoBfLoanToValue(o.values).value)
      && var hit := Evaluate(i.collateral.liquidity.price, i.debt.liquidity.price, o.values, o.orders[p.reason.index]);
         && hit.Ok? && hit.value.Some?
         && InterpolatedBonus(o.orders[p.reason.index], hit.value.value).Ok?
         && p.bonus <= InterpolatedBonus(o.orders[p.reason.index], hit.value.value).value
  {
    hide LoanToValue, NoBfLoanToValue, InterpolatedBonus, Evaluate, FirstApplicable;
  }

  /** An obligation is liquidated for its loan-to-value exactly if that has reached the
      unhealthy one; every other route is only taken below it. Below 99% the bonus never
      exceeds what is missing to insolvency; outside the first route it never does. */
  lemma RoutesAndBonuses(i: Inputs)
    requires EligibleParams(i).Ok?
    ensures var p := EligibleParams(i).value; var v := i.obligation.values;
      && LoanToValue(v).Ok? && UnhealthyLoanToValue(v).Ok? && NoBfLoanToValue(v).Ok?
      && (p.reason == LtvExceeded <==> LoanToValue(v).value >= UnhealthyLoanToValue(v).value)
      && (NoBfLoanToValue(v).value < BAD_DEBT_LTV ==> p.bonus <= ONE - NoBfLoanToValue(v).value)
      && (p.reason != LtvExceeded ==> p.bonus <= SatSub(ONE, NoBfLoanToValue(v).value))
  {
    hide CheckLtv, CheckIndividual, CheckMarketWide, CheckOrder, LoanToValue, NoBfLoanToValue, UnhealthyLoanToValue;
    LtvRoute(i);
    DeleveragingRoutes(i);
    if CheckOrder(i).Ok? && CheckOrder(i).value.Some? {
      OrderRoute(i);
    }
  }

  /** An obligation below its unhealthy loan-to-value, in a market without automatic
      deleveraging and order execution, cannot be liquidated. */
  lemma HealthyObligationsAreSafe(i: Inputs)
    requires LoanToValue(i.obligation.values).Ok? && UnhealthyLoanToValue(i.obligation.values).Ok?
    requires LoanToValue(i.obligation.values).value < UnhealthyLoanToValue(i.obligation.values).value
    requires !i.market.autodeleverageEnabled && !i.market.orderExecutionEnabled
    ensures EligibleParams(i).Err?
  {
    hide LoanToValue, UnhealthyLoanToValue, NoBfLoanToValue, FirstApplicable;
  }

  /** An order that was validated pays at most its configured maximum, a tenth at most: it is
      only reached below the unhealthy loan-to-value, where its distance is at most one. A
      stop-loss on the price ratio also needs the condition under which that is so. */
  lemma OrderPaysAtMostItsMaximum(i: Inputs)
    requires EligibleParams(i).Ok? && EligibleParams(i).value.reason.ObligationOrder?
    requires EligibleParams(i).value.reason.index < |i.obligation.orders|
    requires var order := i.obligation.orders[EligibleParams(i).value.reason.index];
      && ValidateOrder(order).Ok?
      && (order.condition == PRICE_RATIO_ABOVE ==>
            RatioStopLossFits(i.collateral.liquidity.price, i.debt.liquidity.price, i.obligation.values, order.conditionThreshold))
    ensures EligibleParams(i).value.bonus <= FromBps(i.obligation.orders[EligibleParams(i).value.reason.index].maxBonusBps)
      <= EXECUTION_BONUS_SANITY_LIMIT
  {
    hide LoanToValue, UnhealthyLoanToValue, NoBfLoanToValue, ValidateOrder, Evaluate, InterpolatedBonus, FromBps;
    RoutesAndBonuses(i);
    var o := i.obligation;
    assert CheckOrder(i).Ok? && CheckOrder(i).value == Some(EligibleParams(i).value) by {
      hide CheckOrder;
      LtvRoute(i);
      DeleveragingRoutes(i);
    }
    OrderRoute(i);
    var order := o.orders[EligibleParams(i).value.reason.index];
    var hit := Evaluate(i.collateral.liquidity.price, i.debt.liquidity.price, o.values, order).value.value;
    HitBelowOne(i.collateral.liquidity.price, i.debt.liquidity.price, o.values, order);
    BonusWithinRange(order, hit);
  }

  lemma HitBelowOne(collateralPrice: Fraction, debtPrice: Fraction, v: Values, order: Order)
    requires ValidateOrder(order).Ok?
    requires order.condition == PRICE_RATIO_ABOVE ==> RatioStopLossFits(collateralPrice, debtPrice, v, order.conditionThreshold)
    requires LoanToValue(v).Ok? && UnhealthyLoanToValue(v).Ok?
    requires LoanToValue(v).value < UnhealthyLoanToValue(v).value
    requires Evaluate(collateralPrice, debtPrice, v, order).Ok? && Evaluate(collateralPrice, debtPrice, v, order).value.Some?
    ensures order.condition != NEVER
    ensures Evaluate(collateralPrice, debtPrice, v, order).value.value <= ONE
  {
    hide DivFloor, Div, LoanToValue, UnhealthyLoanToValue, RatioStopLossFits, StopLoss, TakeProfit, LiquidationPriceRatio;
    HealthyOrderDistance(collateralPrice, debtPrice, v, order);
  }

  // ---- bonuses ------------------------------------------------------------

  /** Below 99% the bonus of the first route grows with the excess over the unhealthy
      loan-to-value, between the larger configured minimum and the larger configured
      maximum, the latter capped by the elevation group; only what is missing to insolvency
      can push it below the minimum. */
  lemma LtvBonusWithinConfig(coll: ReserveConfig, debt: ReserveConfig, maxAllowedLtv: Fraction, userLtv: Fraction,
                             noBfLtv: Fraction, emodeMaxBps: U16)
    requires maxAllowedLtv <= userLtv && noBfLtv < BAD_DEBT_LTV
    ensures LtvBonus(coll, debt, maxAllowedLtv, userLtv, noBfLtv, emodeMaxBps).Ok?
    ensures var bonus := LtvBonus(coll, debt, maxAllowedLtv, userLtv, noBfLtv, emodeMaxBps).value;
      var least := Max16(coll.minLiquidationBonusBps, debt.minLiquidationBonusBps);
      var most := Min16(Max16(coll.maxLiquidationBonusBps, debt.maxLiquidationBonusBps), emodeMaxBps);
      && bonus <= FromBps(most) && bonus <= ONE - noBfLtv
      && (bonus < FromBps(least) ==> bonus == FromBps(most) || bonus == ONE - noBfLtv)
      && (bonus < userLtv - maxAllowedLtv ==> bonus == FromBps(most) || bonus == ONE - noBfLtv)
      && (bonus > FromBps(least) ==> bonus <= userLtv - maxAllowedLtv)
  {
    hide FromBps;
  }

  /** The deleveraging bonus starts at the minimum, grows with time and stays within the
      reserve's and the group's maximum and what is missing to insolvency. */
  lemma AutodeleverageBonusGrows(increase: U64, reserveMax: U16, emodeMax: U16, days: Fraction, later: Fraction, noBfLtv: Fraction)
    requires days <= later && AutodeleverageBonus(increase, reserveMax, emodeMax, later, noBfLtv).Ok?
    ensures AutodeleverageBonus(increase, reserveMax, emodeMax, days, noBfLtv).Ok?
    ensures var early := AutodeleverageBonus(increase, reserveMax, emodeMax, days, noBfLtv).value;
      var late := AutodeleverageBonus(increase, reserveMax, emodeMax, later, noBfLtv).value;
      var cap := Min(FromBps(Min16(reserveMax, emodeMax)), SatSub(ONE, noBfLtv));
      && Min(FromBps(MIN_AUTODELEVERAGE_BONUS_BPS), cap) <= early <= late <= cap
  {
    hide MulFloor;
    MulFloorMono(FromBps(increase), FromBps(increase), days, later);
  }

  /** The bonus of an order lies within its range, unless insolvency is nearer. */
  lemma OrderBonusWithinRange(order: Order, distance: Fraction, noBfLtv: Fraction)
    requires order.condition != NEVER && ValidateOrder(order).Ok? && distance <= ONE
    ensures OrderBonus(order, distance, noBfLtv).Ok?
    ensures var bonus := OrderBonus(order, distance, noBfLtv).value;
      Min(FromBps(order.minBonusBps), SatSub(ONE, noBfLtv)) <= bonus <= Min(FromBps(order.maxBonusBps), SatSub(ONE, noBfLtv))
  {
    hide InterpolatedBonus, FromBps, ValidateOrder;
    BonusWithinRange(order, distance);
  }

  // ---- amounts ------------------------------------------------------------

  /** Forced full liquidations aside, the liquidated share of the debt respects the close
      factor, the value of this debt and the market's cap. */
  lemma CloseFactorRespected(m: Market, v: Values, orders: seq<Order>, b: Borrow, p: Params, offered: U64)
    requires !p.reason.ObligationOrder? && DebtToLiquidate(m, v, orders, b, p, offered, false).Ok?
    ensures MaxLiquidatableValue(m, v, b, p.userLtv).Ok?
    ensures DebtToLiquidate(m, v, orders, b, p, offered, false).value * b.marketValue
      <= b.borrowed * MaxLiquidatableValue(m, v, b, p.userLtv).value
    ensures MaxLiquidatableValue(m, v, b, p.userLtv).value <= FromInt(m.maxLiquidatableValueAtOnce)
    ensures p.userLtv <= FromPercent(m.insolvencyRiskLtvPct) ==>
      MaxLiquidatableValue(m, v, b, p.userLtv).value <= MulFloor(v.debt, FromPercent(m.closeFactorPct))
  {
    hide FromPercent, MulFloor, DivFloor;
    var value := MaxLiquidatableValue(m, v, b, p.userLtv).value;
    var debt := DebtToLiquidate(m, v, orders, b, p, offered, false).value;
    hide MaxLiquidatableValue;
    assert debt <= MulFloor(b.borrowed, DivFloor(value, b.marketValue));
    RatioOfRatio(debt, b.borrowed, value, b.marketValue);
  }

  lemma RatioOfRatio(part: nat, whole: nat, value: nat, total: nat)
    requires total > 0 && part <= MulFloor(whole, DivFloor(value, total))
    ensures part * total <= whole * value
  {
    var ratio := DivFloor(value, total);
    MulBounds(whole, ratio);
    DivFloorBounds(value, total);
    ScaledRatio(part, whole, ratio, value, total, ONE);
  }

  lemma ScaledRatio(part: nat, whole: nat, ratio: nat, value: nat, total: nat, o: nat)
    requires o > 0 && part * o <= whole * ratio && ratio * total <= value * o
    ensures part * total <= whole * value
  {
    MulLeft(total, part * o, whole * ratio);
    MulLeft(whole, ratio * total, value * o);
    assert total * (part * o) == o * (part * total);
    assert total * (whole * ratio) == whole * (ratio * total);
    assert whole * (value * o) == o * (whole * value);
    MulCancel(o, part * total, whole * value);
  }

  lemma DebtWithinOffer(m: Market, v: Values, orders: seq<Order>, b: Borrow, p: Params, offered: U64, small: bool)
    requires DebtToLiquidate(m, v, orders, b, p, offered, small).Ok?
    ensures DebtToLiquidate(m, v, orders, b, p, offered, small).value <= b.borrowed
    ensures DebtToLiquidate(m, v, orders, b, p, offered, small).value <= FromInt(offered)
  {
    hide MaxLiquidatableAmount;
  }

  /** The amounts: what is settled is within the liquidated debt and exactly covered by
      whole repaid tokens, and the collateral handed out is within the deposit. */
  lemma AmountsWithinBounds(totalValue: Fraction, d: Deposit, debt: Fraction, small: bool)
    requires LiquidationAmounts(totalValue, d, debt, small).Ok?
    ensures var a := LiquidationAmounts(totalValue, d, debt, small).value;
      && a.settle <= debt
      && a.repay == Ceil(a.settle)
      && (d.amount > 0 ==> a.withdraw <= d.amount)
      && (totalValue <= d.marketValue ==> a.settle == debt)
  {
    if totalValue > d.marketValue {
      DivFloorUnit(d.marketValue, totalValue);
      MulFloorUnit(debt, DivFloor(d.marketValue, totalValue));
    } else if totalValue < d.marketValue {
      DivFloorUnit(totalValue, d.marketValue);
      WholeShare(d.amount, DivFloor(totalValue, d.marketValue));
    }
  }

  lemma WholeShare(amount: U64, share: nat)
    requires share <= ONE
    ensures Floor(MulFloor(FromInt(amount), share)) <= amount
  {
    MulFloorUnit(FromInt(amount), share);
    FromIntExact(amount);
    DivMono(MulFloor(FromInt(amount), share), FromInt(amount), ONE);
  }

  /** The liquidator never repays more than offered (`post_liquidate_repay_amount_check`
      always passes), the settled debt is within the borrowed debt, repaying is settling
      rounded up, and no more collateral than deposited is handed out. */
  lemma QuoteWithinBounds(i: Inputs, offered: U64, b: Borrow, d: Deposit, highestBf: bool, lowestLtv: bool)
    requires CalculateLiquidation(i, offered, b, d, highestBf, lowestLtv).Ok?
    ensures var q := CalculateLiquidation(i, offered, b, d, highestBf, lowestLtv).value;
      && q.amounts.settle <= q.debt <= b.borrowed
      && q.amounts.repay == Ceil(q.amounts.settle) <= offered
      && (d.amount > 0 ==> q.amounts.withdraw <= d.amount)
  {
    hide LiquidationParams, DebtToLiquidate, LiquidationAmounts, MulFloor, DivFloor;
    var q := CalculateLiquidation(i, offered, b, d, highestBf, lowestLtv).value;
    DebtWithinOffer(i.market, i.obligation.values, i.obligation.orders, b, q.params, offered, q.small);
    AmountsWithinBounds(q.totalValue, d, q.debt, q.small);
    CeilMono(q.amounts.settle, FromInt(offered), ONE);
    FromIntExact(offered);
  }

  // ---- the effect on loan-to-value ----------------------------------------

  /** A bonus within the distance to insolvency, with the floored loan-to-value below 99%,
      leaves the seized value below the deposits: `(1 + bonus) * debt <= deposits`. */
  lemma BonusLeavesMargin(debt: nat, deposits: nat, bonus: nat)
    requires deposits > 0 && DivFloor(debt, deposits) < BAD_DEBT_LTV
    requires bonus <= ONE - DivFloor(debt, deposits)
    ensures (ONE + bonus) * debt <= deposits * ONE
  {
    var n := DivFloor(debt, deposits);
    var k := ONE - n;
    DivFloorBounds(debt, deposits);
    MulMono(2_000_000_000, k, 2_000_000_000, k);
    MarginSquare(ONE, k);
    assert debt * ONE <= (n + 1) * deposits;
    MarginScale(debt, deposits, ONE + k, n + 1, ONE);
    MulMono(ONE + bonus, ONE + k, debt, debt);
  }

  lemma MarginSquare(o: nat, k: nat)
    requires k <= o && 2 * o <= k * k
    ensures (o + k) * (o - k + 1) <= o * o
  {
    assert (o + k) * (o - k) == o * o - k * k;
    assert (o + k) * (o - k + 1) == (o + k) * (o - k) + o + k;
  }

  lemma MarginScale(debt: nat, deposits: nat, m: nat, n: nat, o: nat)
    requires o > 0 && debt * o <= n * deposits && m * n <= o * o
    ensures m * debt <= deposits * o
  {
    MulLeft(m, debt * o, n * deposits);
    MulLeft(deposits, m * n, o * o);
    assert m * (n * deposits) == deposits * (m * n);
    assert m * (debt * o) == o * (m * debt);
    assert deposits * (o * o) == o * (deposits * o);
    MulCancel(o, m * debt, deposits * o);
  }

  /** The seized value, with its bonus, is to the repaid value at most as the deposits are
      to the debt: `total * debt <= deposits * repaid`. */
  lemma SeizedAgainstRepaid(repaid: nat, bonus: nat, debt: nat, deposits: nat)
    requires (ONE + bonus) * debt <= deposits * ONE
    ensures MulFloor(repaid, ONE + bonus) * debt <= deposits * repaid
  {
    MulBounds(repaid, ONE + bonus);
    SeizedArithmetic(MulFloor(repaid, ONE + bonus), repaid, ONE + bonus, debt, deposits, ONE);
  }

  lemma SeizedArithmetic(total: nat, repaid: nat, multiplier: nat, debt: nat, deposits: nat, o: nat)
    requires o > 0 && total * o <= repaid * multiplier && multiplier * debt <= deposits * o
    ensures total * debt <= deposits * repaid
  {
    MulLeft(debt, total * o, repaid * multiplier);
    MulLeft(repaid, multiplier * debt, deposits * o);
    assert debt * (total * o) == o * (total * debt);
    assert debt * (repaid * multiplier) == repaid * (multiplier * debt);
    assert repaid * (deposits * o) == o * (deposits * repaid);
    MulCancel(o, total * debt, deposits * repaid);
  }

  /** The ratio form: taking `repaid` from the debt and `total` from the deposits does not
      raise debt over deposits. */
  lemma RatioNotWorse(debt: nat, deposits: nat, repaid: nat, total: nat)
    requires total * debt <= deposits * repaid
    ensures (debt - repaid) * deposits <= debt * (deposits - total)
  {
    assert (debt - repaid) * deposits == debt * deposits - deposits * repaid;
    assert debt * (deposits - total) == debt * deposits - total * debt;
  }

  /** In value terms: with a loan-to-value (without borrow factors) below 99%, whichever
      route made the obligation eligible, the value to be seized and the value repaid
      satisfy (D - d) / (V - T) <= D / V exactly, despite every floor. */
  lemma LiquidationDoesNotWorsen(i: Inputs, offered: U64, b: Borrow, d: Deposit, highestBf: bool, lowestLtv: bool)
    requires CalculateLiquidation(i, offered, b, d, highestBf, lowestLtv).Ok?
    requires NoBfLoanToValue(i.obligation.values).Ok? && NoBfLoanToValue(i.obligation.values).value < BAD_DEBT_LTV
    ensures var q := CalculateLiquidation(i, offered, b, d, highestBf, lowestLtv).value; var v := i.obligation.values;
      && q.totalValue * v.debt <= v.deposited * q.repaidValue
      && (v.debt - q.repaidValue) * v.deposited <= v.debt * (v.deposited - q.totalValue)
  {
    hide DebtToLiquidate, LiquidationAmounts, EligibleParams, MulFloor, DivFloor;
    var q := CalculateLiquidation(i, offered, b, d, highestBf, lowestLtv).value;
    var v := i.obligation.values;
    RoutesAndBonuses(i);
    BonusLeavesMargin(v.debt, v.deposited, q.params.bonus);
    SeizedAgainstRepaid(q.repaidValue, q.params.bonus, v.debt, v.deposited);
    RatioNotWorse(v.debt, v.deposited, q.repaidValue, q.totalValue);
  }

  /** What is settled is worth at least the repaid value the seizure was computed from. */
  lemma SettledWorthRepaid(marketValue: nat, settle: nat, borrowed: nat)
    requires borrowed > 0
    ensures MulFloor(marketValue, DivFloor(settle, borrowed)) * borrowed <= marketValue * settle
  {
    RatioOfRatio(MulFloor(marketValue, DivFloor(settle, borrowed)), marketValue, settle, borrowed);
  }

  /** The override of a forced full liquidation: a share below one token becomes one token. */
  predicate DustToken(totalValue: Fraction, d: Deposit, small: bool) {
    && small && totalValue < d.marketValue
    && MulFloor(FromInt(d.amount), DivFloor(totalValue, d.marketValue)) < FromInt(DUST_LAMPORT_THRESHOLD)
  }

  /** The handed-out share of the deposit is worth at most the value to be seized, exactly
      unless the dust override gives out a token worth more than that. */
  lemma WithdrawnWorthAtMost(totalValue: Fraction, d: Deposit, debt: Fraction, small: bool)
    requires totalValue <= d.marketValue && d.marketValue > 0
    requires LiquidationAmounts(totalValue, d, debt, small).Ok?
    ensures LiquidationAmounts(totalValue, d, debt, small).value.withdraw * d.marketValue <= d.amount * totalValue
      <==> (DustToken(totalValue, d, small) ==> d.marketValue <= d.amount * totalValue)
  {
    hide MulFloor, DivFloor;
    if totalValue < d.marketValue && !DustToken(totalValue, d, small) {
      var share := DivFloor(totalValue, d.marketValue);
      var f := MulFloor(FromInt(d.amount), share);
      FloorCeil(f);
      RatioOfRatio(f, FromInt(d.amount), totalValue, d.marketValue);
      WholeShareWorth(Floor(f), f, d.amount, totalValue, d.marketValue, ONE);
    }
  }

  lemma WholeShareWorth(w: nat, f: nat, amount: nat, total: nat, value: nat, o: nat)
    requires o > 0 && w * o <= f && f * value <= amount * o * total
    ensures w * value <= amount * total
  {
    MulLeft(value, w * o, f);
    MulSwap(value, w, o);
    MulSwap(o, w, value);
    assert value * o == o * value;
    assert amount * o * total == o * (amount * total) by { MulSwap(o, amount, total); MulAssoc(amount, o, total); }
    MulCancel(o, w * value, amount * total);
  }

  /** In token terms: when the collateral covers the seizure, the share of the collateral
      handed out, valued at the deposit's value, against the share of the debt settled,
      valued at the debt's value, does not raise the ratio of all debt to all deposits:
      (withdraw / amount) * collateral value * D <= (settle / borrowed) * debt value * V.
      Only where a share below one token is raised to a token must the seizure be worth
      that token. */
  lemma TokensDoNotWorsen(i: Inputs, offered: U64, b: Borrow, d: Deposit, highestBf: bool, lowestLtv: bool)
    requires CalculateLiquidation(i, offered, b, d, highestBf, lowestLtv).Ok?
    requires NoBfLoanToValue(i.obligation.values).Ok? && NoBfLoanToValue(i.obligation.values).value < BAD_DEBT_LTV
    requires d.marketValue > 0
    requires var q := CalculateLiquidation(i, offered, b, d, highestBf, lowestLtv).value;
      && q.totalValue <= d.marketValue
      && (DustToken(q.totalValue, d, q.small) ==> d.marketValue <= d.amount * q.totalValue)
    ensures var q := CalculateLiquidation(i, offered, b, d, highestBf, lowestLtv).value; var v := i.obligation.values;
      (q.amounts.withdraw * d.marketValue) * (v.debt * b.borrowed) <= (q.amounts.settle * b.marketValue) * (v.deposited * d.amount)
  {
    hide DebtToLiquidate, LiquidationAmounts, LiquidationParams, MulFloor, DivFloor, DustToken;
    var q := CalculateLiquidation(i, offered, b, d, highestBf, lowestLtv).value;
    var v := i.obligation.values;
    LiquidationDoesNotWorsen(i, offered, b, d, highestBf, lowestLtv);
    SettledInFull(q.totalValue, d, q.debt, q.small);
    SettledWorthRepaid(b.marketValue, q.debt, b.borrowed);
    WithdrawnWorthAtMost(q.totalValue, d, q.debt, q.small);
    ChainProducts(q.amounts.withdraw * d.marketValue, d.amount, q.totalValue, v.debt, v.deposited, q.repaidValue,
                  b.borrowed, b.marketValue * q.debt);
  }

  /** Without that the bound can fail, here at a loan-to-value of one half: a debt worth
      half a unit is liquidated in full, and the only token of a deposit worth two is handed
      out for it. */
  lemma DustTokenWorsens(m: Market, v: Values, orders: seq<Order>, userLtv: Fraction)
    requires m.minFullLiquidationValue == 1 && v.debt == ONE && v.deposited == 2 * ONE
    ensures var b := Borrow(1, ONE, ONE, ONE / 2, ONE / 2, 1); var d := Deposit(2, 1, 2 * ONE, 0);
      var quote := QuoteWith(m, v, orders, Params(userLtv, 0, LtvExceeded), 1, b, d);
      && quote.Ok? && quote.value.amounts == Amounts(ONE, 1, 1)
      && DustToken(quote.value.totalValue, d, quote.value.small) && d.marketValue > d.amount * quote.value.totalValue
      && (quote.value.amounts.withdraw * d.marketValue) * (v.debt * b.borrowed)
         > (quote.value.amounts.settle * b.marketValue) * (v.deposited * d.amount)
  {
    var d := Deposit(2, 1, 2 * ONE, 0);
    assert DivFloor(ONE, ONE) == ONE && MulFloor(ONE / 2, ONE) == ONE / 2;
    assert DivFloor(ONE / 2, 2 * ONE) == ONE / 4 && MulFloor(FromInt(1), ONE / 4) == ONE / 4;
    assert LiquidationAmounts(ONE / 2, d, ONE, true) == Ok(Amounts(ONE, 1, 1));
  }

  lemma SettledInFull(totalValue: Fraction, d: Deposit, debt: Fraction, small: bool)
    requires totalValue <= d.marketValue || small
    requires LiquidationAmounts(totalValue, d, debt, small).Ok?
    ensures LiquidationAmounts(totalValue, d, debt, small).value.settle == debt
  {
    hide MulFloor, DivFloor, Floor, Ceil;
  }

  lemma ChainProducts(w: nat, amount: nat, total: nat, debt: nat, deposits: nat, repaid: nat, borrowed: nat, s: nat)
    requires w <= amount * total && total * debt <= deposits * repaid && repaid * borrowed <= s
    ensures w * (debt * borrowed) <= s * (deposits * amount)
  {
    assert w * (debt * borrowed) <= (amount * total) * (debt * borrowed) by { MulLeft(debt * borrowed, w, amount * total); }
    assert (amount * total) * (debt * borrowed) == (amount * borrowed) * (total * debt) by {
      MulSwap4(amount, total, borrowed, debt);
      assert debt * borrowed == borrowed * debt;
    }
    MulLeft(amount * borrowed, total * debt, deposits * repaid);
    assert (amount * borrowed) * (deposits * repaid) == (deposits * amount) * (repaid * borrowed) by {
      MulSwap4(amount, borrowed, deposits, repaid);
      assert amount * deposits == deposits * amount && borrowed * repaid == repaid * borrowed;
    }
    MulLeft(deposits * amount, repaid * borrowed, s);
  }

  /** When the collateral does not cover the seizure, all of it goes for a settlement that
      was scaled down; the same bound holds once the settlement is counted one ulp and one
      ulp per whole token higher, which is what scaling down can round away. */
  lemma ExhaustedCollateralBound(collateral: nat, total: nat, liquidated: nat, repaid: nat, debt: nat, deposits: nat,
                                 borrowed: nat, marketValue: nat)
    requires 0 < total && collateral < total
    requires total * debt <= deposits * repaid && repaid * borrowed <= marketValue * liquidated
    ensures var settle := MulFloor(liquidated, DivFloor(collateral, total));
      (collateral * ONE) * (debt * borrowed) <= (settle * ONE + ONE + liquidated) * (marketValue * deposits)
  {
    var ratio := DivFloor(collateral, total);
    var settle := MulFloor(liquidated, ratio);
    DivFloorBounds(collateral, total);
    MulBounds(liquidated, ratio);
    ExhaustedArithmetic(collateral, total, liquidated, ratio, settle, repaid, debt, deposits, borrowed, marketValue, ONE);
  }

  lemma ExhaustedArithmetic(collateral: nat, total: nat, liquidated: nat, ratio: nat, settle: nat, repaid: nat,
                            debt: nat, deposits: nat, borrowed: nat, marketValue: nat, o: nat)
    requires 0 < total && collateral * o < ratio * total + total && liquidated * ratio < settle * o + o
    requires total * debt <= deposits * repaid && repaid * borrowed <= marketValue * liquidated
    ensures (collateral * o) * (debt * borrowed) <= (settle * o + o + liquidated) * (marketValue * deposits)
  {
    var c := collateral * o;
    var s := settle * o + o + liquidated;
    ScaledSettlement(c, ratio, total, liquidated, settle * o + o);
    SeizureAgainstDebt(total, debt, deposits, repaid, borrowed, marketValue * liquidated);
    CombineExhausted(c, total, liquidated, s, debt * borrowed, deposits, marketValue);
  }

  lemma ScaledSettlement(c: nat, ratio: nat, total: nat, liquidated: nat, s: nat)
    requires c <= ratio * total + total && liquidated * ratio <= s
    ensures c * liquidated <= total * (s + liquidated)
  {
    MulLeft(liquidated, c, (ratio + 1) * total);
    assert liquidated * ((ratio + 1) * total) == total * (liquidated * ratio + liquidated);
    MulLeft(total, liquidated * ratio + liquidated, s + liquidated);
  }

  lemma SeizureAgainstDebt(total: nat, debt: nat, deposits: nat, repaid: nat, borrowed: nat, s: nat)
    requires total * debt <= deposits * repaid && repaid * borrowed <= s
    ensures total * (debt * borrowed) <= deposits * s
  {
    MulLeft(borrowed, total * debt, deposits * repaid);
    MulLeft(deposits, repaid * borrowed, s);
    assert borrowed * (total * debt) == total * (debt * borrowed);
    assert borrowed * (deposits * repaid) == deposits * (repaid * borrowed);
  }

  lemma CombineExhausted(c: nat, total: nat, liquidated: nat, s: nat, owed: nat, deposits: nat, marketValue: nat)
    requires total > 0 && c * liquidated <= total * s && total * owed <= deposits * (marketValue * liquidated)
    ensures c * owed <= s * (marketValue * deposits)
  {
    var k := marketValue * deposits;
    assert deposits * (marketValue * liquidated) == k * liquidated by {
      MulSwap(deposits, marketValue, liquidated);
      MulAssoc(marketValue, deposits, liquidated);
    }
    assert total * (c * owed) <= c * (k * liquidated) by {
      MulLeft(c, total * owed, k * liquidated);
      MulSwap(c, total, owed);
    }
    assert c * (k * liquidated) <= total * (s * k) by {
      MulSwap(c, k, liquidated);
      MulLeft(k, c * liquidated, total * s);
      MulSwap(k, total, s);
      assert k * s == s * k;
    }
    MulCancel(total, c * owed, s * k);
  }

  // ---- the protocol's share -----------------------------------------------

  /** The fee taken from the redeemed liquidity is at most that liquidity, so subtracting
      it underflows exactly when nothing was redeemed (the fee is at least one). */
  lemma ProtocolFeeWithinRedeemed(amount: U64, bonus: Fraction, feePct: U8)
    requires feePct <= 100 && ProtocolFee(amount, bonus, feePct).Ok?
    ensures 1 <= ProtocolFee(amount, bonus, feePct).value
    ensures ProtocolFee(amount, bonus, feePct).value <= amount <==> amount > 0
  {
    var f := FromInt(amount);
    var gain := f - DivFloor(f, bonus + ONE);
    DivFloorBounds(f, bonus + ONE);
    MulFloorUnit(gain, FromPercent(feePct));
    CeilMono(MulFloor(gain, FromPercent(feePct)), f, ONE);
    FromIntExact(amount);
  }
}
