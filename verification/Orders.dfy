/** Obligation orders: conditions, distances and consumption
    (state/order_operations.rs, state/obligation.rs:668-743). */
module Orders {
  import opened Results
  import opened Arithmetic
  import opened FixedPoint
  import opened Reserves
  import opened Markets
  import opened Obligations

  const NEVER: U8 := 0
  const USER_LTV_ABOVE: U8 := 1
  const USER_LTV_BELOW: U8 := 2
  const PRICE_RATIO_ABOVE: U8 := 3
  const PRICE_RATIO_BELOW: U8 := 4

  const DELEVERAGE_SINGLE_DEBT_AMOUNT: U8 := 0
  const DELEVERAGE_ALL_DEBT: U8 := 1

  // nearest multiples of 2^-60 to 10^-15, 10^15, 0.01, 1 and 0.1
  const LOWEST_PRICE_RATIO: Fraction := 1153
  const HIGHEST_PRICE_RATIO: Fraction := 1_000_000_000_000_000 * 0x1000_0000_0000_0000
  const LOWEST_LTV: Fraction := 11_529_215_046_068_470
  const EXECUTION_BONUS_SANITY_LIMIT: Fraction := 115_292_150_460_684_698

  /** The obligation's single borrow, if there is exactly one (`single_debt`). */
  predicate SingleDebt(o: Obligation) {
    CountBorrows(o.borrows) == 1
  }

  predicate SingleDebtSingleCollateral(o: Obligation) {
    CountDeposits(o.deposits) == 1 && CountBorrows(o.borrows) == 1
  }

  /** `is_supported_by`; unknown types panic. */
  function Supported(order: Order, o: Obligation): Result<bool> {
    if order == NO_ORDER then Ok(true)
    else if order.condition > PRICE_RATIO_BELOW then Err(Panic)
    else
      var condition := order.condition < PRICE_RATIO_ABOVE || SingleDebtSingleCollateral(o);
      if !condition then Ok(false)
      else if order.opportunity > DELEVERAGE_ALL_DEBT then Err(Panic)
      else Ok(order.opportunity == DELEVERAGE_ALL_DEBT || SingleDebt(o))
  }

  /** `validate_order`. */
  function ValidateOrder(order: Order): Result<()> {
    if order.condition == NEVER then Need(order == NO_ORDER, InvalidOrderConfiguration)
    else if order.condition > PRICE_RATIO_BELOW then Err(InvalidOrderConfiguration)
    else
      var threshold := order.conditionThreshold;
      var inRange := if order.condition >= PRICE_RATIO_ABOVE then LOWEST_PRICE_RATIO <= threshold <= HIGHEST_PRICE_RATIO
                     else LOWEST_LTV <= threshold < ONE;
      var _ :- Need(inRange, InvalidOrderConfiguration);
      var _ :- ValidateOpportunity(order);
      var _ :- Need(FromBps(order.minBonusBps) <= FromBps(order.maxBonusBps), InvalidOrderConfiguration);
      Need(FromBps(order.maxBonusBps) <= EXECUTION_BONUS_SANITY_LIMIT, InvalidOrderConfiguration)
  }

  function ValidateOpportunity(order: Order): Result<()> {
    match order.opportunity
    case 0 => Need(order.opportunityParameter != 0 && order.opportunityParameter != MAX_FRACTION, InvalidOrderConfiguration)
    case 1 => Need(order.opportunityParameter == MAX_FRACTION, InvalidOrderConfiguration)
    case _ => Err(InvalidOrderConfiguration)
  }

  /** `set_order_on_obligation`. */
  function SetOrder(m: Market, o: Obligation, index: nat, order: Order): Result<Obligation> {
    var _ :- ValidateOrder(order);
    var supported :- Supported(order, o);
    if !supported then Err(InvalidOrderConfiguration)
    else if index >= |o.orders| then Err(InvalidOrderConfiguration)
    else if o.orders[index].condition == NEVER && order.condition != NEVER && !m.orderCreationEnabled then
      Err(InvalidOrderConfiguration)
    else Ok(o.(orders := o.orders[index := order]))
  }

  /** How far past its threshold a condition is; `None` when it is not met. */
  type Hit = Option<Fraction>

  /** `evaluate_stop_loss`. */
  function StopLoss(current: Fraction, threshold: Fraction, liquidation: Fraction): Result<Hit> {
    if current <= threshold then Ok(None)
    else if threshold > liquidation then Ok(Some(ONE))
    else
      var d :- Div(current - threshold, liquidation - threshold);
      Ok(Some(d))
  }

  /** `evaluate_take_profit`. */
  function TakeProfit(current: Fraction, threshold: Fraction): Result<Hit> {
    if current >= threshold then Ok(None)
    else
      var d :- Div(threshold - current, threshold);
      Ok(Some(d))
  }

  /** `evaluate_order_condition`; prices are those of the debt and the collateral reserve. */
  function Evaluate(collateralPrice: Fraction, debtPrice: Fraction, v: Values, order: Order): Result<Hit> {
    match order.condition
    case 0 => Ok(None)
    case 1 =>
      var ltv :- LoanToValue(v);
      var unhealthy :- UnhealthyLoanToValue(v);
      StopLoss(ltv, order.conditionThreshold, unhealthy)
    case 2 =>
      var ltv :- LoanToValue(v);
      TakeProfit(ltv, order.conditionThreshold)
    case 3 =>
      var ratio :- Div(debtPrice, collateralPrice);
      var liquidation :- LiquidationPriceRatio(ratio, v);
      StopLoss(ratio, order.conditionThreshold, liquidation)
    case 4 =>
      var ratio :- Div(debtPrice, collateralPrice);
      TakeProfit(ratio, order.conditionThreshold)
    case _ => Err(Panic)
  }

  /** The price ratio at which the obligation would become unhealthy. */
  function LiquidationPriceRatio(ratio: Fraction, v: Values): Result<Fraction> {
    var unhealthy :- UnhealthyLoanToValue(v);
    var scaled :- Mul(ratio, unhealthy);
    var ltv :- LoanToValue(v);
    Div(scaled, ltv)
  }

  datatype Applicable = Applicable(index: nat, distance: Fraction)

  /** `find_applicable_obligation_order`: the first order whose condition is met. */
  function FirstApplicable(collateralPrice: Fraction, debtPrice: Fraction, v: Values, orders: seq<Order>, from: nat)
    : (r: Result<Option<Applicable>>)
    requires from <= |orders|
    ensures r.Ok? && r.value.Some? ==>
      && from <= r.value.value.index < |orders|
      && Evaluate(collateralPrice, debtPrice, v, orders[r.value.value.index]) == Ok(Some(r.value.value.distance))
      && forall j :: from <= j < r.value.value.index ==> Evaluate(collateralPrice, debtPrice, v, orders[j]) == Ok(None)
    ensures r == Ok(None) <==> forall j :: from <= j < |orders| ==> Evaluate(collateralPrice, debtPrice, v, orders[j]) == Ok(None)
    ensures r.Err? ==>
      exists k ::
        && from <= k < |orders|
        && Evaluate(collateralPrice, debtPrice, v, orders[k]) == Err(r.error)
        && forall j :: from <= j < k ==> Evaluate(collateralPrice, debtPrice, v, orders[j]) == Ok(None)
    decreases |orders| - from
  {
    if from == |orders| then Ok(None)
    else
      var hit :- Evaluate(collateralPrice, debtPrice, v, orders[from]);
      if hit.Some? then Ok(Some(Applicable(from, hit.value)))
      else FirstApplicable(collateralPrice, debtPrice, v, orders, from + 1)
  }

  /** `interpolate_bonus_rate` over the order's bonus range. */
  function InterpolatedBonus(order: Order, distance: Fraction): Result<Fraction> {
    var range :- Narrow(FromBps(order.maxBonusBps) - FromBps(order.minBonusBps));
    var part :- Mul(distance, range);
    Narrow(FromBps(order.minBonusBps) + part)
  }

  /** `consume`: a single-debt order loses what was repaid and is cleared when used up. */
  function Consumed(order: Order, repay: U64): Result<Order> {
    match order.opportunity
    case 0 =>
      var left := SatSub(order.opportunityParameter, FromInt(repay));
      Ok(if left == 0 then NO_ORDER else order.(opportunityParameter := left))
    case 1 => Ok(order)
    case _ => Err(Panic)
  }

  /** `remove_all_orders`. */
  method RemoveAllOrders(orders: array<Order>) returns (hadOrders: bool)
    modifies orders
    ensures forall i :: 0 <= i < orders.Length ==> orders[i] == NO_ORDER
    ensures hadOrders <==> exists i :: 0 <= i < orders.Length && old(orders[i]) != NO_ORDER
  {
    hadOrders := false;
    for i := 0 to orders.Length
      invariant forall j :: 0 <= j < i ==> orders[j] == NO_ORDER
      invariant forall j :: i <= j < orders.Length ==> orders[j] == old(orders[j])
      invariant hadOrders <==> exists j :: 0 <= j < i && old(orders[j]) != NO_ORDER
    {
      if orders[i] != NO_ORDER {
        orders[i] := NO_ORDER;
        hadOrders := true;
      }
    }
  }

  // ---- distances ----------------------------------------------------------

  /** A stop-loss that is not evaluated past the liquidation point neither divides by zero
      nor leaves the interval from 0 to 1. */
  lemma StopLossDistance(current: Fraction, threshold: Fraction, liquidation: Fraction)
    requires current <= liquidation || threshold > liquidation
    ensures StopLoss(current, threshold, liquidation).Ok?
    ensures StopLoss(current, threshold, liquidation).value.Some? ==>
      StopLoss(current, threshold, liquidation).value.value <= ONE
  {
    if threshold < current && threshold <= liquidation {
      DivFloorUnit(current - threshold, liquidation - threshold);
    }
  }

  /** When exactly a stop-loss stays in range: once met, the current value may be past the
      liquidation point by less than one ulp's share of the distance left. Otherwise it
      divides by zero or reports a distance above one. */
  lemma StopLossInRange(current: Fraction, threshold: Fraction, liquidation: Fraction)
    ensures
      var hit := StopLoss(current, threshold, liquidation);
      (hit.Ok? && (hit.value.Some? ==> hit.value.value <= ONE))
      <==> (current <= threshold || threshold > liquidation || (current - liquidation) * ONE < liquidation - threshold)
  {
    if threshold < current && threshold < liquidation {
      RatioAtMostOne(current - threshold, liquidation - threshold);
      assert current - threshold - (liquidation - threshold) == current - liquidation;
    }
  }

  lemma RatioAtMostOne(n: nat, d: nat)
    requires d > 0
    ensures DivFloor(n, d) <= ONE <==> (n - d) * ONE < d
  {
    DivFloorBounds(n, d);
    assert (n - d) * ONE == n * ONE - ONE * d;
    if DivFloor(n, d) <= ONE {
      MulLeft(d, DivFloor(n, d), ONE);
    } else {
      MulLeft(d, ONE + 1, DivFloor(n, d));
    }
  }

  lemma TakeProfitDistance(current: Fraction, threshold: Fraction)
    ensures TakeProfit(current, threshold).Ok?
    ensures TakeProfit(current, threshold).value.Some? ==> TakeProfit(current, threshold).value.value <= ONE
  {
    if current < threshold {
      DivFloorUnit(threshold - current, threshold);
    }
  }

  /** What a stop-loss on the price ratio needs: prices and loan-to-values whose ratios exist
      and fit, a loan-to-value that does not floor to zero, and a price ratio that has not
      passed the (twice floored) liquidation ratio by an ulp's share of the distance left. */
  predicate RatioStopLossFits(collateralPrice: Fraction, debtPrice: Fraction, v: Values, threshold: Fraction) {
    && collateralPrice > 0 && v.deposited > 0
    && var ratio := DivFloor(debtPrice, collateralPrice);
       var ltv := DivFloor(v.adjustedDebt, v.deposited);
       var unhealthy := DivFloor(v.unhealthyBorrow, v.deposited);
       && ratio < TWO_128 && unhealthy < TWO_128 && MulFloor(ratio, unhealthy) < TWO_128
       && 0 < ltv < TWO_128
       && var liquidation := DivFloor(MulFloor(ratio, unhealthy), ltv);
          && liquidation < TWO_128
          && (ratio <= threshold || threshold > liquidation || (ratio - liquidation) * ONE < liquidation - threshold)
  }

  /** On every input that condition decides it: a stop-loss on the price ratio is evaluated
      without an abort, to a distance of at most one if it is met, exactly if it holds. */
  lemma RatioStopLossInRange(collateralPrice: Fraction, debtPrice: Fraction, v: Values, order: Order)
    requires order.condition == PRICE_RATIO_ABOVE
    ensures RatioStopLossFits(collateralPrice, debtPrice, v, order.conditionThreshold) <==>
      var hit := Evaluate(collateralPrice, debtPrice, v, order);
      hit.Ok? && (hit.value.Some? ==> hit.value.value <= ONE)
  {
    hide DivFloor, MulFloor, StopLoss;
    if collateralPrice > 0 && Div(debtPrice, collateralPrice).Ok? {
      var ratio := Div(debtPrice, collateralPrice).value;
      if LiquidationPriceRatio(ratio, v).Ok? {
        var liquidation := LiquidationPriceRatio(ratio, v).value;
        StopLossInRange(ratio, order.conditionThreshold, liquidation);
      }
    }
  }

  /** The condition holds for every threshold once the room between the two loan-to-values,
      measured at the price ratio, is at least one ulp. */
  lemma RoomKeepsRatioStopLossInRange(collateralPrice: Fraction, debtPrice: Fraction, v: Values, threshold: Fraction)
    requires collateralPrice > 0 && Div(debtPrice, collateralPrice).Ok?
    requires LiquidationPriceRatio(Div(debtPrice, collateralPrice).value, v).Ok?
    requires Div(debtPrice, collateralPrice).value * (UnhealthyLoanToValue(v).value - LoanToValue(v).value) >= ONE
    ensures RatioStopLossFits(collateralPrice, debtPrice, v, threshold)
  {
    hide DivFloor, MulFloor;
    var ratio, ltv, unhealthy := Div(debtPrice, collateralPrice).value, LoanToValue(v).value, UnhealthyLoanToValue(v).value;
    RoomAboveRatio(ratio, ltv, unhealthy);
  }

  lemma RoomAboveRatio(ratio: nat, ltv: nat, unhealthy: nat)
    requires ltv > 0 && ratio * (unhealthy - ltv) >= ONE
    ensures DivFloor(MulFloor(ratio, unhealthy), ltv) >= ratio
  {
    MulBounds(ratio, unhealthy);
    assert ratio * (unhealthy - ltv) == ratio * unhealthy - ratio * ltv;
    LeDiv(ratio, MulFloor(ratio, unhealthy) * ONE, ltv);
  }

  /** Every order has a distance between 0 and 1 whenever the obligation is healthy; a
      stop-loss on the price ratio also needs its own condition. */
  lemma HealthyOrderDistance(collateralPrice: Fraction, debtPrice: Fraction, v: Values, order: Order)
    requires order.condition == PRICE_RATIO_ABOVE ==> RatioStopLossFits(collateralPrice, debtPrice, v, order.conditionThreshold)
    requires LoanToValue(v).Ok? && UnhealthyLoanToValue(v).Ok?
    requires LoanToValue(v).value < UnhealthyLoanToValue(v).value
    requires order.condition <= PRICE_RATIO_BELOW
    requires order.condition == PRICE_RATIO_BELOW ==> Div(debtPrice, collateralPrice).Ok?
    ensures Evaluate(collateralPrice, debtPrice, v, order).Ok?
    ensures Evaluate(collateralPrice, debtPrice, v, order).value.Some? ==>
      Evaluate(collateralPrice, debtPrice, v, order).value.value <= ONE
  {
    hide DivFloor, Div, StopLoss, TakeProfit, RatioStopLossFits;
    if order.condition == PRICE_RATIO_ABOVE {
      RatioStopLossInRange(collateralPrice, debtPrice, v, order);
    } else if order.condition == USER_LTV_ABOVE {
      StopLossDistance(LoanToValue(v).value, order.conditionThreshold, UnhealthyLoanToValue(v).value);
    } else if order.condition == USER_LTV_BELOW {
      TakeProfitDistance(LoanToValue(v).value, order.conditionThreshold);
    } else if order.condition == PRICE_RATIO_BELOW {
      TakeProfitDistance(Div(debtPrice, collateralPrice).value, order.conditionThreshold);
    }
  }

  const TINY_RATIO_VALUES: Values :=
    Values(0x1000_0000_0000_0000, 0x7FF_FFFF_FFFF_FFFF, 0x7FF_FFFF_FFFF_FFFF, 0, 0x800_0000_0000_0000, 0, 0, 0, 0, 0, false)

  // one ulp of debt against two whole units of value
  const DUST_DEBT_VALUES: Values :=
    Values(0x2000_0000_0000_0000, 1, 1, 0, 0x1000_0000_0000_0000, 0, 0, 0, 0, 0, false)

  /** That condition can fail on a healthy obligation. The liquidation ratio is floored
      twice, so with a tiny ratio the obligation can be past it: a valid order then divides
      by zero, and another one is quoted twice its maximum bonus. And a tiny debt has a
      loan-to-value of zero, by which the evaluation divides whatever the threshold. */
  lemma PriceRatioStopLossEscapes()
    ensures var v := TINY_RATIO_VALUES;
      var dividing := Order(1200, 1, 0, 1000, PRICE_RATIO_ABOVE, DELEVERAGE_SINGLE_DEBT_AMOUNT);
      var doubling := dividing.(conditionThreshold := 1199);
      && LoanToValue(v).Ok? && UnhealthyLoanToValue(v).Ok? && LoanToValue(v).value < UnhealthyLoanToValue(v).value
      && ValidateOrder(dividing).Ok? && ValidateOrder(doubling).Ok?
      && Evaluate(ONE, 1201, v, dividing) == Err(DivisionByZero)
      && Evaluate(ONE, 1201, v, doubling) == Ok(Some(2 * ONE))
      && InterpolatedBonus(doubling, 2 * ONE).Ok?
      && InterpolatedBonus(doubling, 2 * ONE).value == 2 * FromBps(1000)
    ensures var v := DUST_DEBT_VALUES;
      var waiting := Order(2 * ONE, 1, 0, 1000, PRICE_RATIO_ABOVE, DELEVERAGE_SINGLE_DEBT_AMOUNT);
      && LoanToValue(v).Ok? && UnhealthyLoanToValue(v).Ok? && LoanToValue(v).value < UnhealthyLoanToValue(v).value
      && ValidateOrder(waiting).Ok?
      && Evaluate(ONE, ONE, v, waiting) == Err(DivisionByZero)
  {
    TinyRatioIsFlooredTwice();
    DustDebtHasNoRatio();
    hide LoanToValue, UnhealthyLoanToValue, LiquidationPriceRatio;
    assert Div(1201, ONE) == Ok(1201);
    assert StopLoss(1201, 1200, 1200) == Err(DivisionByZero);
    assert StopLoss(1201, 1199, 1200) == Ok(Some(2 * ONE));
  }

  lemma TinyRatioIsFlooredTwice()
    ensures LoanToValue(TINY_RATIO_VALUES) == Ok(0x7FF_FFFF_FFFF_FFFF)
    ensures UnhealthyLoanToValue(TINY_RATIO_VALUES) == Ok(0x800_0000_0000_0000)
    ensures LiquidationPriceRatio(1201, TINY_RATIO_VALUES) == Ok(1200)
  {
    assert Mul(1201, 0x800_0000_0000_0000) == Ok(600);
  }

  lemma DustDebtHasNoRatio()
    ensures LoanToValue(DUST_DEBT_VALUES) == Ok(0)
    ensures UnhealthyLoanToValue(DUST_DEBT_VALUES) == Ok(0x800_0000_0000_0000)
    ensures Div(ONE, ONE) == Ok(ONE)
    ensures LiquidationPriceRatio(ONE, DUST_DEBT_VALUES) == Err(DivisionByZero)
  {
  }

  // ---- bonuses ------------------------------------------------------------

  /** For a distance of at most one the bonus lies within the order's range, and for an
      order that was validated it is at most a tenth. */
  lemma BonusWithinRange(order: Order, distance: Fraction)
    requires order.condition != NEVER && ValidateOrder(order).Ok? && distance <= ONE
    ensures InterpolatedBonus(order, distance).Ok?
    ensures FromBps(order.minBonusBps) <= InterpolatedBonus(order, distance).value <= FromBps(order.maxBonusBps)
    ensures FromBps(order.maxBonusBps) <= EXECUTION_BONUS_SANITY_LIMIT
  {
    var range := FromBps(order.maxBonusBps) - FromBps(order.minBonusBps);
    MulFloorUnit(range, distance);
  }

  // ---- what conditions, orders and bonuses are ----------------------------

  /** How far a stop-loss has come on its way to liquidation, rounded down; all the way if
      its threshold is past the liquidation point. */
  predicate OnTheWay(distance: Fraction, current: Fraction, threshold: Fraction, liquidation: Fraction) {
    if threshold > liquidation then distance == ONE
    else distance * (liquidation - threshold) <= (current - threshold) * ONE < (distance + 1) * (liquidation - threshold)
  }

  /** How far a take-profit has come on its way to zero, rounded down. */
  predicate OnTheWayDown(distance: Fraction, current: Fraction, threshold: Fraction) {
    distance * threshold <= (threshold - current) * ONE < (distance + 1) * threshold
  }

  lemma StopLossMeans(current: Fraction, threshold: Fraction, liquidation: Fraction)
    requires StopLoss(current, threshold, liquidation).Ok?
    ensures var hit := StopLoss(current, threshold, liquidation).value;
      && (hit.Some? <==> current > threshold)
      && (hit.Some? ==> OnTheWay(hit.value, current, threshold, liquidation))
  {
    hide DivFloor;
    if threshold < current && threshold < liquidation {
      var d := liquidation - threshold;
      DivFloorBounds(current - threshold, d);
      assert (DivFloor(current - threshold, d) + 1) * d == DivFloor(current - threshold, d) * d + d;
    }
  }

  lemma TakeProfitMeans(current: Fraction, threshold: Fraction)
    requires TakeProfit(current, threshold).Ok?
    ensures var hit := TakeProfit(current, threshold).value;
      && (hit.Some? <==> current < threshold)
      && (hit.Some? ==> OnTheWayDown(hit.value, current, threshold))
  {
    hide DivFloor;
    if current < threshold {
      DivFloorBounds(threshold - current, threshold);
      assert (DivFloor(threshold - current, threshold) + 1) * threshold == DivFloor(threshold - current, threshold) * threshold + threshold;
    }
  }

  /** When each kind of order is met, and its distance: above or below a loan-to-value, or
      above or below a ratio of the debt's price to the collateral's. The stop-losses run
      towards the unhealthy loan-to-value, and towards the price ratio scaled by unhealthy
      over current loan-to-value. */
  lemma ConditionMeans(collateralPrice: Fraction, debtPrice: Fraction, v: Values, order: Order)
    requires Evaluate(collateralPrice, debtPrice, v, order).Ok?
    ensures order.condition <= PRICE_RATIO_BELOW
    ensures USER_LTV_ABOVE <= order.condition <= USER_LTV_BELOW ==> v.deposited > 0
    ensures PRICE_RATIO_ABOVE <= order.condition ==> collateralPrice > 0
    ensures order.condition == PRICE_RATIO_ABOVE ==> v.deposited > 0 && DivFloor(v.adjustedDebt, v.deposited) > 0
    ensures var hit := Evaluate(collateralPrice, debtPrice, v, order).value; var threshold := order.conditionThreshold;
      match order.condition
      case 0 => hit.None?
      case 1 =>
        var ltv, unhealthy := DivFloor(v.adjustedDebt, v.deposited), DivFloor(v.unhealthyBorrow, v.deposited);
        && ltv < TWO_128 && unhealthy < TWO_128
        && (hit.Some? <==> ltv > threshold) && (hit.Some? ==> OnTheWay(hit.value, ltv, threshold, unhealthy))
      case 2 =>
        var ltv := DivFloor(v.adjustedDebt, v.deposited);
        && ltv < TWO_128
        && (hit.Some? <==> ltv < threshold) && (hit.Some? ==> OnTheWayDown(hit.value, ltv, threshold))
      case 3 =>
        var ratio := DivFloor(debtPrice, collateralPrice);
        var liquidation := DivFloor(MulFloor(ratio, DivFloor(v.unhealthyBorrow, v.deposited)), DivFloor(v.adjustedDebt, v.deposited));
        && ratio < TWO_128 && liquidation < TWO_128
        && (hit.Some? <==> ratio > threshold) && (hit.Some? ==> OnTheWay(hit.value, ratio, threshold, liquidation))
      case 4 =>
        var ratio := DivFloor(debtPrice, collateralPrice);
        && ratio < TWO_128
        && (hit.Some? <==> ratio < threshold) && (hit.Some? ==> OnTheWayDown(hit.value, ratio, threshold))
      case _ => false
  {
    hide DivFloor, MulFloor, StopLoss, TakeProfit, OnTheWay, OnTheWayDown;
    var threshold := order.conditionThreshold;
    match order.condition {
      case 1 => StopLossMeans(LoanToValue(v).value, threshold, UnhealthyLoanToValue(v).value);
      case 2 => TakeProfitMeans(LoanToValue(v).value, threshold);
      case 3 =>
        var ratio := Div(debtPrice, collateralPrice).value;
        StopLossMeans(ratio, threshold, LiquidationPriceRatio(ratio, v).value);
      case 4 => TakeProfitMeans(Div(debtPrice, collateralPrice).value, threshold);
      case _ =>
    }
  }

  /** The bonus rises from the order's minimum to its maximum in proportion to the distance. */
  lemma BonusFollowsDistance(order: Order, distance: Fraction)
    requires InterpolatedBonus(order, distance).Ok?
    ensures FromBps(order.minBonusBps) <= FromBps(order.maxBonusBps)
    ensures var extra := InterpolatedBonus(order, distance).value - FromBps(order.minBonusBps);
      extra * ONE <= distance * (FromBps(order.maxBonusBps) - FromBps(order.minBonusBps)) < (extra + 1) * ONE
  {
    hide FromBps, MulFloor;
    MulBounds(distance, FromBps(order.maxBonusBps) - FromBps(order.minBonusBps));
  }

  /** An order in its own right: void, or with a known condition and opportunity, a threshold
      and an amount in range and bonuses that rise to a tenth at most. */
  predicate Acceptable(order: Order) {
    order == NO_ORDER ||
    (&& 1 <= order.condition <= 4
     && (order.condition >= 3 ==> LOWEST_PRICE_RATIO <= order.conditionThreshold <= HIGHEST_PRICE_RATIO)
     && (order.condition <= 2 ==> LOWEST_LTV <= order.conditionThreshold < ONE)
     && order.opportunity <= 1
     && (order.opportunity == 0 ==> 0 < order.opportunityParameter < MAX_FRACTION)
     && (order.opportunity == 1 ==> order.opportunityParameter == MAX_FRACTION)
     && order.minBonusBps * ONE / 10_000 <= order.maxBonusBps * ONE / 10_000 <= EXECUTION_BONUS_SANITY_LIMIT)
  }

  /** It fits the obligation: price ratios need one debt and one collateral, an amount of a
      single debt needs one debt. */
  predicate Fits(order: Order, o: Obligation) {
    && (order.condition >= PRICE_RATIO_ABOVE ==> CountDeposits(o.deposits) == 1 && CountBorrows(o.borrows) == 1)
    && (order != NO_ORDER && order.opportunity == DELEVERAGE_SINGLE_DEBT_AMOUNT ==> CountBorrows(o.borrows) == 1)
  }

  /** Exactly those orders are placed, in slots there are, and new ones only while the market
      lets orders be created; nothing else changes. */
  lemma OrdersPlaced(m: Market, o: Obligation, index: nat, order: Order)
    ensures SetOrder(m, o, index, order).Ok? <==>
      && Acceptable(order) && Fits(order, o) && index < |o.orders|
      && (o.orders[index].condition == NEVER && order != NO_ORDER ==> m.orderCreationEnabled)
    ensures SetOrder(m, o, index, order).Ok? ==> SetOrder(m, o, index, order).value == o.(orders := o.orders[index := order])
  {
    hide CountDeposits, CountBorrows;
  }

  /** After a user's operation every order still fits the obligation. */
  lemma SupportedMeans(order: Order, o: Obligation)
    ensures Supported(order, o) == Ok(true) ==> Fits(order, o)
    ensures Acceptable(order) && Fits(order, o) ==> Supported(order, o) == Ok(true)
  {
    hide CountDeposits, CountBorrows;
  }

  /** An execution takes what was repaid off a single-debt order, and the order is void once
      nothing is left; an order on all debt stays as it is. */
  lemma ConsumedExactly(order: Order, repay: U64)
    requires Consumed(order, repay).Ok?
    ensures var rest := Consumed(order, repay).value;
      if order.opportunity == DELEVERAGE_ALL_DEBT then rest == order
      else if order.opportunityParameter <= repay * ONE then rest == NO_ORDER
      else rest == order.(opportunityParameter := order.opportunityParameter - repay * ONE)
  {
  }

  // ---- repeated executions ------------------------------------------------

  /** One execution of a single-debt order: what is settled and what is then repaid. */
  datatype Execution = Execution(settle: Fraction, repay: U64)

  /** Executions of the same order, each settling at most what the order has left and
      repaying at least what it settles, until the order is cleared. */
  ghost predicate Executes(order: Order, es: seq<Execution>)
    decreases |es|
  {
    es != [] ==>
      && order.condition != NEVER
      && es[0].settle <= order.opportunityParameter
      && es[0].settle <= FromInt(es[0].repay)
      && Consumed(order, es[0].repay).Ok?
      && Executes(Consumed(order, es[0].repay).value, es[1..])
  }

  function Settled(es: seq<Execution>): nat {
    if es == [] then 0 else es[0].settle + Settled(es[1..])
  }

  /** The debt settled through a single-debt order over all its executions never exceeds
      the amount it was placed for. */
  lemma {:induction false} OrderNeverOverspent(order: Order, es: seq<Execution>)
    requires order.opportunity == DELEVERAGE_SINGLE_DEBT_AMOUNT && Executes(order, es)
    ensures Settled(es) <= order.opportunityParameter
    decreases |es|
  {
    if es == [] {
    } else {
      var rest := Consumed(order, es[0].repay).value;
      if rest == NO_ORDER {
        assert es[1..] == [];
      }
      OrderNeverOverspent(rest, es[1..]);
    }
  }
}
