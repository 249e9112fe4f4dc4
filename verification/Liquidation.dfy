/** Liquidation: eligibility, bonus and amounts
    (state/liquidation_operations.rs). */
module Liquidation {
  import opened Results
  import opened Arithmetic
  import opened FixedPoint
  import opened Reserves
  import opened Markets
  import opened Obligations
  import opened Orders

  const MIN_AUTODELEVERAGE_BONUS_BPS: U64 := 50
  const DUST_LAMPORT_THRESHOLD: U64 := 1
  const SECONDS_PER_DAY: nat := 86_400
  const NO_EMODE_CAP: U16 := 0xFFFF
  // the multiple of 2^-60 nearest to 0.99
  const BAD_DEBT_LTV: Fraction := 1_141_392_289_560_778_506

  datatype Reason = LtvExceeded | IndividualDeleveraging | MarketWideDeleveraging | ObligationOrder(index: nat)

  datatype Params = Params(userLtv: Fraction, bonus: Fraction, reason: Reason)

  datatype Inputs = Inputs(market: Market, collateral: Reserve, debt: Reserve, obligation: Obligation, timestamp: U64)

  // ---- bonuses ------------------------------------------------------------

  function Max16(a: U16, b: U16): U16 {
    if a >= b then a else b
  }

  function Min16(a: U16, b: U16): U16 {
    if a <= b then a else b
  }

  /** `get_emode_max_liquidation_bonus`. */
  function EmodeMaxBonus(m: Market, coll: ReserveConfig, debt: ReserveConfig, group: nat): Result<U16> {
    if group != ELEVATION_GROUP_NONE && group in coll.elevationGroups && group in debt.elevationGroups then
      var g :- ElevationGroupOf(m, group);
      if g.None? then Err(Panic)
      else
        var bps := g.value.maxLiquidationBonusBps;
        if bps > coll.maxLiquidationBonusBps || bps > debt.maxLiquidationBonusBps || bps == 0
        then Ok(NO_EMODE_CAP) else Ok(bps)
    else Ok(NO_EMODE_CAP)
  }

  /** `calculate_liquidation_bonus`. */
  function LtvBonus(coll: ReserveConfig, debt: ReserveConfig, maxAllowedLtv: Fraction, userLtv: Fraction,
                    noBfLtv: Fraction, emodeMaxBps: U16): Result<Fraction>
  {
    if noBfLtv >= BAD_DEBT_LTV then
      var badDebtBonus := FromBps(Min16(coll.badDebtLiquidationBonusBps, debt.badDebtLiquidationBonusBps));
      Narrow(if noBfLtv < ONE then Max(badDebtBonus, ONE - noBfLtv) else badDebtBonus)
    else
      var unhealthyFactor :- Sub(userLtv, maxAllowedLtv);
      var maxBps := Min16(Max16(coll.maxLiquidationBonusBps, debt.maxLiquidationBonusBps), emodeMaxBps);
      var minBps := Max16(coll.minLiquidationBonusBps, debt.minLiquidationBonusBps);
      var collared := Min(Max(FromBps(minBps), unhealthyFactor), FromBps(maxBps));
      Narrow(Min(collared, ONE - noBfLtv))
  }

  function Days(secs: U64): Fraction {
    FromInt(secs) / SECONDS_PER_DAY
  }

  /** `calculate_autodeleverage_bonus_rate`. */
  function AutodeleverageBonus(increaseBpsPerDay: U64, reserveMaxBps: U16, emodeMaxBps: U16, days: Fraction,
                               noBfLtv: Fraction): Result<Fraction>
  {
    var increase :- Mul(FromBps(increaseBpsPerDay), days);
    var bonus :- Narrow(FromBps(MIN_AUTODELEVERAGE_BONUS_BPS) + increase);
    Narrow(Min(bonus, Min(FromBps(Min16(reserveMaxBps, emodeMaxBps)), SatSub(ONE, noBfLtv))))
  }

  /** `calculate_order_execution_bonus_rate`. */
  function OrderBonus(order: Order, distance: Fraction, noBfLtv: Fraction): Result<Fraction> {
    var bonus :- InterpolatedBonus(order, distance);
    Narrow(Min(bonus, SatSub(ONE, noBfLtv)))
  }

  // ---- eligibility --------------------------------------------------------

  /** `check_liquidate_obligation`. */
  function CheckLtv(i: Inputs): Result<Option<Params>> {
    var userLtv :- LoanToValue(i.obligation.values);
    var noBfLtv :- NoBfLoanToValue(i.obligation.values);
    var maxAllowed :- UnhealthyLoanToValue(i.obligation.values);
    if userLtv < maxAllowed then Ok(None)
    else
      var emode :- EmodeMaxBonus(i.market, i.collateral.config, i.debt.config, i.obligation.group);
      var bonus :- LtvBonus(i.collateral.config, i.debt.config, maxAllowed, userLtv, noBfLtv, emode);
      Ok(Some(Params(userLtv, bonus, LtvExceeded)))
  }

  /** The reserve with the higher maximum bonus sets the pace; the debt reserve wins ties. */
  function PacingConfig(coll: ReserveConfig, debt: ReserveConfig): ReserveConfig {
    if coll.maxLiquidationBonusBps > debt.maxLiquidationBonusBps
       || (coll.maxLiquidationBonusBps == debt.maxLiquidationBonusBps
           && coll.deleveragingBonusIncreaseBpsPerDay > debt.deleveragingBonusIncreaseBpsPerDay)
    then coll else debt
  }

  function SecsSinceStarted(marginCallPeriod: U64, sinceMarginCall: U64): Option<U64> {
    if sinceMarginCall < marginCallPeriod then None else Some(sinceMarginCall - marginCallPeriod)
  }

  /** `check_individual_autodeleverage_obligation`. */
  function CheckIndividual(i: Inputs): Result<Option<Params>> {
    if i.obligation.marginCallStartedAt == 0 || !i.market.autodeleverageEnabled
       || i.market.individualMarginCallPeriodSecs == 0
    then Ok(None)
    else
      var userLtv :- LoanToValue(i.obligation.values);
      if userLtv <= FromPercent(i.obligation.autodeleverageTargetLtvPct) then Ok(None)
      else
        match SecsSinceStarted(i.market.individualMarginCallPeriodSecs,
                               SatSub(i.timestamp, i.obligation.marginCallStartedAt))
        case None => Ok(None)
        case Some(secs) =>
          var c := PacingConfig(i.collateral.config, i.debt.config);
          var emode :- EmodeMaxBonus(i.market, i.collateral.config, i.debt.config, i.obligation.group);
          var noBfLtv :- NoBfLoanToValue(i.obligation.values);
          var bonus :- AutodeleverageBonus(c.deleveragingBonusIncreaseBpsPerDay, c.maxLiquidationBonusBps, emode,
                                           Days(secs), noBfLtv);
          Ok(Some(Params(userLtv, bonus, IndividualDeleveraging)))
  }

  /** `get_autodeleverage_liquidation_params`. */
  function DeleveragingParams(r: Reserve, v: Values, secs: U64): Result<Option<Params>> {
    var reduction :- Mul(FromBps(r.config.deleveragingThresholdDecreaseBpsPerDay), Days(secs));
    var userLtv :- LoanToValue(v);
    if userLtv < SatSub(ONE, reduction) then Ok(None)
    else
      var noBfLtv :- NoBfLoanToValue(v);
      var bonus :- AutodeleverageBonus(r.config.deleveragingBonusIncreaseBpsPerDay, r.config.maxLiquidationBonusBps,
                                       NO_EMODE_CAP, Days(secs), noBfLtv);
      Ok(Some(Params(userLtv, bonus, MarketWideDeleveraging)))
  }

  /** One reserve's side of market-wide deleveraging: its limit must have been crossed
      for longer than the margin call period. */
  function CheckCrossedLimit(r: Reserve, crossed: bool, since: U64, v: Values, timestamp: U64): Result<Option<Params>> {
    if !crossed || since == 0 then Ok(None)
    else
      match SecsSinceStarted(r.config.deleveragingMarginCallPeriodSecs, SatSub(timestamp, since))
      case None => Ok(None)
      case Some(secs) => DeleveragingParams(r, v, secs)
  }

  function CheckDepositLimit(i: Inputs): Result<Option<Params>> {
    if !i.collateral.config.autodeleverageEnabled then Ok(None)
    else
      var supply :- TotalSupply(i.collateral.liquidity);
      CheckCrossedLimit(i.collateral, supply > FromInt(i.collateral.config.depositLimit),
                        i.collateral.liquidity.depositLimitCrossedAt, i.obligation.values, i.timestamp)
  }

  function CheckBorrowLimit(i: Inputs): Result<Option<Params>> {
    if !i.debt.config.autodeleverageEnabled then Ok(None)
    else CheckCrossedLimit(i.debt, i.debt.liquidity.borrowed > FromInt(i.debt.config.borrowLimit),
                           i.debt.liquidity.borrowLimitCrossedAt, i.obligation.values, i.timestamp)
  }

  /** `check_market_wide_autodeleverage_obligation`. */
  function CheckMarketWide(i: Inputs): Result<Option<Params>> {
    if !i.market.autodeleverageEnabled then Ok(None)
    else
      var byDeposit :- CheckDepositLimit(i);
      if byDeposit.Some? then Ok(byDeposit) else CheckBorrowLimit(i)
  }

  /** `check_obligation_order_execution`. */
  function CheckOrder(i: Inputs): Result<Option<Params>> {
    var hit :- FirstApplicable(i.collateral.liquidity.price, i.debt.liquidity.price, i.obligation.values,
                               i.obligation.orders, 0);
    if hit.None? || !i.market.orderExecutionEnabled then Ok(None)
    else
      var userLtv :- LoanToValue(i.obligation.values);
      var noBfLtv :- NoBfLoanToValue(i.obligation.values);
      var bonus :- OrderBonus(i.obligation.orders[hit.value.index], hit.value.distance, noBfLtv);
      Ok(Some(Params(userLtv, bonus, ObligationOrder(hit.value.index))))
  }

  /** The four routes, in order. */
  function EligibleParams(i: Inputs): Result<Params> {
    var a :- CheckLtv(i);
    if a.Some? then Ok(a.value)
    else
      var b :- CheckIndividual(i);
      if b.Some? then Ok(b.value)
      else
        var c :- CheckMarketWide(i);
        if c.Some? then Ok(c.value)
        else
          var d :- CheckOrder(i);
          if d.Some? then Ok(d.value) else Err(ObligationHealthy)
  }

  /** `get_liquidation_params`. */
  function LiquidationParams(i: Inputs, highestBorrowFactor: bool, lowestLiquidationLtv: bool): Result<Params> {
    var p :- EligibleParams(i);
    if p.reason == LtvExceeded && !highestBorrowFactor then Err(LiquidationBorrowFactorPriority)
    else if (p.reason == LtvExceeded || p.reason.ObligationOrder?) && !lowestLiquidationLtv then
      Err(LiquidationLowestLiquidationLtvPriority)
    else Ok(p)
  }

  // ---- amounts ------------------------------------------------------------

  /** The most value that may be liquidated at once (lines 38-57). */
  function MaxLiquidatableValue(m: Market, v: Values, b: Borrow, userLtv: Fraction): Result<Fraction> {
    var closeFactor := if userLtv > FromPercent(m.insolvencyRiskLtvPct) then ONE else FromPercent(m.closeFactorPct);
    var byFactor :- Mul(v.debt, closeFactor);
    Narrow(Min(Min(byFactor, b.marketValue), FromInt(m.maxLiquidatableValueAtOnce)))
  }

  /** `max_liquidatable_borrowed_amount`. */
  function MaxLiquidatableAmount(m: Market, v: Values, orders: seq<Order>, b: Borrow, userLtv: Fraction, reason: Reason)
    : Result<Fraction>
  {
    if reason.ObligationOrder? then
      if reason.index >= |orders| then Err(Panic)
      else
        match orders[reason.index].opportunity
        case 0 => Narrow(Min(orders[reason.index].opportunityParameter, b.borrowed))
        case 1 => Ok(b.borrowed)
        case _ => Err(Panic)
    else
      var value :- MaxLiquidatableValue(m, v, b, userLtv);
      var ratio :- Div(value, b.marketValue);
      Mul(b.borrowed, ratio)
  }

  /** How much debt is liquidated: all of it when it is small, else up to the limits. */
  function DebtToLiquidate(m: Market, v: Values, orders: seq<Order>, b: Borrow, p: Params, offered: U64, small: bool)
    : Result<Fraction>
  {
    var wanted := Min(FromInt(offered), b.borrowed);
    if small then
      if wanted < b.borrowed then Err(RepayTooSmallForFullLiquidation) else Ok(b.borrowed)
    else
      var limit :- MaxLiquidatableAmount(m, v, orders, b, p.userLtv, p.reason);
      Narrow(Min(limit, wanted))
  }

  datatype Amounts = Amounts(settle: Fraction, repay: U64, withdraw: U64)

  /** `calculate_liquidation_amounts`. */
  function LiquidationAmounts(totalValue: Fraction, d: Deposit, debt: Fraction, small: bool): Result<Amounts> {
    if totalValue > d.marketValue then
      var ratio :- Div(d.marketValue, totalValue);
      var affordable :- Mul(debt, ratio);
      var settle := if small then debt else affordable;
      var repay :- ToCeil(settle);
      Ok(Amounts(settle, repay, d.amount))
    else if totalValue == d.marketValue then
      var repay :- ToCeil(debt);
      Ok(Amounts(debt, repay, d.amount))
    else
      var repay :- ToCeil(debt);
      var share :- Div(totalValue, d.marketValue);
      var amount :- Mul(FromInt(d.amount), share);
      var withdraw :- if small && amount < FromInt(DUST_LAMPORT_THRESHOLD) then Ok(DUST_LAMPORT_THRESHOLD) else ToFloor(amount);
      Ok(Amounts(debt, repay, withdraw))
  }

  datatype Quote = Quote(amounts: Amounts, params: Params, debt: Fraction, repaidValue: Fraction, totalValue: Fraction, small: bool)

  /** `calculate_liquidation`, keeping the intermediate values for later reference. */
  function CalculateLiquidation(i: Inputs, offered: U64, b: Borrow, d: Deposit,
                                highestBorrowFactor: bool, lowestLiquidationLtv: bool): Result<Quote>
  {
    if i.obligation.values.deposited == 0 then Err(InvalidObligationCollateral)
    else
      var p :- LiquidationParams(i, highestBorrowFactor, lowestLiquidationLtv);
      QuoteWith(i.market, i.obligation.values, i.obligation.orders, p, offered, b, d)
  }

  function QuoteWith(m: Market, v: Values, orders: seq<Order>, p: Params, offered: U64, b: Borrow, d: Deposit): Result<Quote> {
    var multiplier :- Add(p.bonus, ONE);
    var small := !p.reason.ObligationOrder? && b.marketValue < FromInt(m.minFullLiquidationValue);
    var debt :- DebtToLiquidate(m, v, orders, b, p, offered, small);
    var ratio :- Div(debt, b.borrowed);
    var repaidValue :- Mul(b.marketValue, ratio);
    var totalValue :- Mul(repaidValue, multiplier);
    var amounts :- LiquidationAmounts(totalValue, d, debt, small);
    Ok(Quote(amounts, p, debt, repaidValue, totalValue, small))
  }

  /** `calculate_protocol_liquidation_fee`. */
  function ProtocolFee(amount: U64, bonus: Fraction, feePct: U8): Result<U64> {
    var multiplier :- Add(bonus, ONE);
    var principal :- Div(FromInt(amount), multiplier);
    var gain :- Sub(FromInt(amount), principal);
    var share :- Mul(gain, FromPercent(feePct));
    var fee :- ToCeil(share);
    Narrow64(Max(fee, 1))
  }
}
