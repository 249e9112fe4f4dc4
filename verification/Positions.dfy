/** Values of positions, withdrawal headroom and the checks after each operation
    (state/obligation.rs:205-245, lending_operations.rs:462-553, 2591-2880). */
module Positions {
  import opened Results
  import opened Arithmetic
  import opened FixedPoint
  import opened Reserves
  import opened ExchangeRate
  import opened Fees
  import opened ReserveOperations
  import opened Obligations

  /** The liquidity a collateral amount stands for. */
  function LiquidityOf(r: Reserve, collateral: U64): Result<Fraction> {
    var rate :- CurrentRate(r);
    FractionCollateralToLiquidity(rate, FromInt(collateral))
  }

  /** The market value of a collateral amount. */
  function CollateralValue(r: Reserve, collateral: U64): Result<Fraction> {
    var liquidity :- LiquidityOf(r, collateral);
    MarketValue(r.liquidity, liquidity)
  }

  /** Collateral tokens stand for their share of the net supply, rounded down although the
      code divides twice, and one for one while there is no supply. */
  lemma LiquidityOfFloors(r: Reserve, collateral: U64)
    requires LiquidityOf(r, collateral).Ok?
    ensures var f := LiquidityOf(r, collateral).value; var supply := NetSupply(r.liquidity);
      && supply >= 0
      && (r.collateralSupply == 0 || supply == 0 ==> f == collateral * ONE)
      && (r.collateralSupply > 0 && supply > 0 ==> f * r.collateralSupply <= collateral * supply < (f + 1) * r.collateralSupply)
  {
    hide TotalSupply, NetSupply;
    TotalSupplyIsNet(r.liquidity);
    var rate := ExchangeRateOf(r.collateralSupply, NetSupply(r.liquidity));
    ProductFits(collateral, rate.liquidity);
    assert FromInt(collateral) * rate.liquidity == collateral * rate.liquidity * ONE;
    DivExact(collateral * rate.liquidity, ONE);
    var f := LiquidityOf(r, collateral).value;
    DivBounds(collateral * rate.liquidity, rate.supply);
    assert (f + 1) * rate.supply == f * rate.supply + rate.supply;
  }

  // ---- sizing a withdrawal ------------------------------------------------

  datatype WithdrawalCheck = MaxLtv | LiquidationThreshold

  function HighestAllowedDebt(v: Values, check: WithdrawalCheck): Fraction {
    if check == LiquidationThreshold then SatSub(v.unhealthyBorrow, 1) else v.allowedBorrow
  }

  /** `max_withdraw_value`. */
  function MaxWithdrawValue(v: Values, d: Deposit, maxLtvPct: U8, thresholdPct: U8, check: WithdrawalCheck): Result<Fraction> {
    var highest := HighestAllowedDebt(v, check);
    var pct := if check == LiquidationThreshold then thresholdPct else maxLtvPct;
    if highest <= v.adjustedDebt then Ok(0)
    else if pct == 0 then Ok(d.marketValue)
    else
      var scaled :- MulInt(highest - v.adjustedDebt, 100);
      DivInt(scaled, pct)
  }

  /** The requested amount cut down to what the headroom lets out. */
  function WithdrawAllowed(d: Deposit, amount: U64, maxValue: Fraction): Result<U64> {
    var value := Min(maxValue, d.marketValue);
    var ratio :- Div(value, d.marketValue);
    var share :- MulInt(ratio, d.amount);
    var whole :- ToFloor(share);
    Narrow64(Min(d.amount, whole))
  }

  /** An explicit amount, refused when it is worth more than the headroom. */
  function WithdrawExact(d: Deposit, amount: U64, maxValue: Fraction, check: WithdrawalCheck): Result<U64> {
    var wanted: U64 := if amount <= d.amount then amount else d.amount;
    var ratio :- DivCeil(FromInt(wanted), FromInt(d.amount));
    var value :- Mul(d.marketValue, ratio);
    if (if check == LiquidationThreshold then value >= maxValue else value > maxValue) then Err(WithdrawTooLarge)
    else Ok(wanted)
  }

  /** How much `withdraw_obligation_collateral` hands out (lines 462-541). */
  function WithdrawSize(v: Values, d: Deposit, noBorrows: bool, amount: U64, maxLtvPct: U8, thresholdPct: U8,
                        check: WithdrawalCheck): Result<U64>
  {
    if noBorrows then Ok(if amount == MAX_U64 || d.amount <= amount then d.amount else amount)
    else if v.deposited == 0 then Err(ObligationDepositsZero)
    else
      var maxValue :- MaxWithdrawValue(v, d, maxLtvPct, thresholdPct, check);
      if maxValue == 0 then Err(MaximumWithdrawValueZero)
      else
        var size :- if amount == MAX_U64 then WithdrawAllowed(d, amount, maxValue)
                    else WithdrawExact(d, amount, maxValue, check);
        if size == 0 then Err(WithdrawTooSmall) else Ok(size)
  }

  // ---- checks after the fact ----------------------------------------------

  /** `post_deposit_obligation_invariants`. */
  function PostDeposit(v: Values, r: Reserve, amount: Fraction, previousValue: Fraction, minNet: Fraction): Result<()> {
    var value :- MarketValue(r.liquidity, amount);
    var deposited :- Add(v.deposited, value);
    var newValue :- Add(previousValue, value);
    var newLtv :- Div(v.adjustedDebt, deposited);
    if newValue > 0 && newValue < minNet then Err(NetValueRemainingTooSmall)
    else if v.deposited != 0 then
      var ltv :- LoanToValue(v);
      Need(newLtv <= ltv, WorseLtvBlocked)
    else Ok(())
  }

  /** `post_withdraw_obligation_invariants`. */
  function PostWithdraw(v: Values, r: Reserve, amount: Fraction, thresholdPct: U8, remainingSlotValue: Fraction,
                        minNet: Fraction): Result<()>
  {
    var value :- MarketValue(r.liquidity, amount);
    var deposited :- Sub(v.deposited, value);
    var _ :- SlotLeft(remainingSlotValue, value, minNet);
    if deposited == 0 then Need(v.adjustedDebt == 0, LiabilitiesBiggerThanAssets)
    else if v.debt >= deposited then Err(LiabilitiesBiggerThanAssets)
    else
      var newLtv :- Div(v.adjustedDebt, deposited);
      var weight :- Mul(value, FromPercent(thresholdPct));
      var unhealthy :- Sub(v.unhealthyBorrow, weight);
      var unhealthyLtv :- Div(unhealthy, deposited);
      Need(newLtv < unhealthyLtv || newLtv == 0, WorseLtvThanUnhealthyLtv)
  }

  /** What an operation leaves in a slot is nothing or not too little. */
  function SlotLeft(slotValue: Fraction, removed: Fraction, minNet: Fraction): Result<()> {
    if slotValue == 0 then Ok(())
    else
      var left :- Sub(slotValue, removed);
      Need(left == 0 || left >= minNet, NetValueRemainingTooSmall)
  }

  /** `post_borrow_obligation_invariants`. */
  function PostBorrow(v: Values, r: Reserve, amount: Fraction, inGroup: bool, slotValue: Fraction, minNet: Fraction): Result<()> {
    var value :- MarketValue(r.liquidity, amount);
    var factor :- BorrowFactor(r.config, inGroup);
    var adjusted :- Mul(value, factor);
    var adjustedDebt :- Add(v.adjustedDebt, adjusted);
    var debt :- Add(v.debt, value);
    var newSlotValue :- Add(slotValue, value);
    if newSlotValue > 0 && newSlotValue < minNet then Err(NetValueRemainingTooSmall)
    else
      var newLtv :- Div(adjustedDebt, v.deposited);
      var unhealthy :- UnhealthyLoanToValue(v);
      if newLtv > unhealthy then Err(WorseLtvThanUnhealthyLtv)
      else Need(debt < v.deposited, LiabilitiesBiggerThanAssets)
  }

  /** `post_repay_obligation_invariants`. */
  function PostRepay(v: Values, r: Reserve, amount: Fraction, inGroup: bool, slotValue: Fraction, minNet: Fraction): Result<()> {
    var value :- MarketValue(r.liquidity, amount);
    var factor :- BorrowFactor(r.config, inGroup);
    var adjusted :- Mul(value, factor);
    var adjustedDebt :- Sub(v.adjustedDebt, adjusted);
    var _ :- SlotLeft(slotValue, value, minNet);
    if v.deposited > 0 then
      var newLtv :- Div(adjustedDebt, v.deposited);
      var ltv :- LoanToValue(v);
      Need(newLtv <= ltv, WorseLtvBlocked)
    else Ok(())
  }

  // ---- headroom -----------------------------------------------------------

  /** The headroom never lets the debt exceed its limit: what is let out, weighted with
      the loan-to-value of the collateral, fits between the debt and the limit. */
  lemma HeadroomWeighted(v: Values, d: Deposit, maxLtvPct: U8, thresholdPct: U8, check: WithdrawalCheck)
    requires MaxWithdrawValue(v, d, maxLtvPct, thresholdPct, check).Ok?
    ensures var pct := if check == LiquidationThreshold then thresholdPct else maxLtvPct;
      var limit := HighestAllowedDebt(v, check);
      var value := MaxWithdrawValue(v, d, maxLtvPct, thresholdPct, check).value;
      pct > 0 ==> value * pct <= 100 * SatSub(limit, v.adjustedDebt)
  {
    var pct := if check == LiquidationThreshold then thresholdPct else maxLtvPct;
    var limit := HighestAllowedDebt(v, check);
    if limit > v.adjustedDebt && pct > 0 {
      DivBounds((limit - v.adjustedDebt) * 100, pct);
    }
  }

  /** The amount let out by the headroom is worth at most the headroom. */
  lemma AllowedWithinHeadroom(d: Deposit, amount: U64, maxValue: Fraction)
    requires WithdrawAllowed(d, amount, maxValue).Ok?
    ensures WithdrawAllowed(d, amount, maxValue).value <= d.amount
    ensures WithdrawAllowed(d, amount, maxValue).value * d.marketValue <= d.amount * maxValue
  {
    var w := WithdrawAllowed(d, amount, maxValue).value;
    var ratio := DivFloor(Min(maxValue, d.marketValue), d.marketValue);
    DivFloorBounds(Min(maxValue, d.marketValue), d.marketValue);
    FloorCeil(ratio * d.amount);
    AllowedArithmetic(w, ratio, d.amount, d.marketValue, maxValue, ONE);
  }

  lemma AllowedArithmetic(w: nat, ratio: nat, amount: nat, value: nat, maxValue: nat, o: nat)
    requires o > 0 && w * o <= ratio * amount && ratio * value <= maxValue * o
    ensures w * value <= amount * maxValue
  {
    MulLeft(value, w * o, ratio * amount);
    MulLeft(amount, ratio * value, maxValue * o);
    assert value * (w * o) == o * (w * value);
    assert value * (ratio * amount) == amount * (ratio * value);
    assert amount * (maxValue * o) == o * (amount * maxValue);
    MulCancel(o, w * value, amount * maxValue);
  }

  /** An explicit amount that is accepted is worth at most the headroom, up to one ulp. */
  lemma ExactWithinHeadroom(d: Deposit, amount: U64, maxValue: Fraction, check: WithdrawalCheck)
    requires WithdrawExact(d, amount, maxValue, check).Ok?
    ensures WithdrawExact(d, amount, maxValue, check).value <= d.amount
    ensures WithdrawExact(d, amount, maxValue, check).value * d.marketValue <= d.amount * (maxValue + 1)
  {
    var w := WithdrawExact(d, amount, maxValue, check).value;
    var ratio := CeilDiv(FromInt(w) * ONE, FromInt(d.amount));
    CeilBounds(FromInt(w) * ONE, FromInt(d.amount));
    MulBounds(d.marketValue, ratio);
    ExactArithmetic(w, ratio, d.amount, d.marketValue, maxValue, ONE);
  }

  lemma ExactArithmetic(w: nat, ratio: nat, amount: nat, value: nat, maxValue: nat, o: nat)
    requires o > 0 && (w * o) * o <= ratio * (amount * o) && value * ratio < maxValue * o + o
    ensures w * value <= amount * (maxValue + 1)
  {
    assert (w * o) * o == o * (w * o) && ratio * (amount * o) == o * (ratio * amount);
    MulCancel(o, w * o, ratio * amount);
    MulLeft(value, w * o, ratio * amount);
    MulLeft(amount, value * ratio, maxValue * o + o);
    assert value * (w * o) == o * (w * value);
    assert value * (ratio * amount) == amount * (value * ratio);
    assert amount * (maxValue * o + o) == o * (amount * (maxValue + 1));
    MulCancel(o, w * value, amount * (maxValue + 1));
  }

  /** Every accepted withdrawal against open borrows is worth at most the headroom and one
      ulp, in the exact and in the maximum path. */
  lemma WithdrawalRespectsHeadroom(v: Values, d: Deposit, amount: U64, maxLtvPct: U8, thresholdPct: U8, check: WithdrawalCheck)
    requires WithdrawSize(v, d, false, amount, maxLtvPct, thresholdPct, check).Ok?
    ensures var w := WithdrawSize(v, d, false, amount, maxLtvPct, thresholdPct, check).value;
      var pct := if check == LiquidationThreshold then thresholdPct else maxLtvPct;
      && 0 < w <= d.amount
      && v.adjustedDebt < HighestAllowedDebt(v, check)
      && MaxWithdrawValue(v, d, maxLtvPct, thresholdPct, check).Ok?
      && w * d.marketValue <= d.amount * (MaxWithdrawValue(v, d, maxLtvPct, thresholdPct, check).value + 1)
      && (pct > 0 ==> (w * d.marketValue) * pct <= d.amount * (100 * (HighestAllowedDebt(v, check) - v.adjustedDebt) + pct))
  {
    hide MaxWithdrawValue, WithdrawAllowed, WithdrawExact;
    var maxValue := MaxWithdrawValue(v, d, maxLtvPct, thresholdPct, check).value;
    HeadroomWeighted(v, d, maxLtvPct, thresholdPct, check);
    HeadroomZero(v, d, maxLtvPct, thresholdPct, check);
    if amount == MAX_U64 { AllowedWithinHeadroom(d, amount, maxValue); } else { ExactWithinHeadroom(d, amount, maxValue, check); }
    var w := WithdrawSize(v, d, false, amount, maxLtvPct, thresholdPct, check).value;
    var pct := if check == LiquidationThreshold then thresholdPct else maxLtvPct;
    MulLeft(d.amount, maxValue as int, maxValue as int + 1);
    if pct > 0 {
      WeightedWithdrawal(w * d.marketValue, d.amount, maxValue, pct, 100 * (HighestAllowedDebt(v, check) - v.adjustedDebt));
    }
  }

  lemma HeadroomZero(v: Values, d: Deposit, maxLtvPct: U8, thresholdPct: U8, check: WithdrawalCheck)
    requires MaxWithdrawValue(v, d, maxLtvPct, thresholdPct, check).Ok?
    ensures MaxWithdrawValue(v, d, maxLtvPct, thresholdPct, check).value > 0 ==> v.adjustedDebt < HighestAllowedDebt(v, check)
  {
  }

  lemma WeightedWithdrawal(worth: nat, amount: nat, maxValue: nat, pct: nat, room: nat)
    requires worth <= amount * (maxValue + 1) && maxValue * pct <= room
    ensures worth * pct <= amount * (room + pct)
  {
    MulLeft(pct, worth, amount * (maxValue + 1));
    assert pct * (amount * (maxValue + 1)) == amount * (maxValue * pct + pct);
    MulLeft(amount, maxValue * pct + pct, room + pct);
  }

  /** The headroom is the room between debt and limit over the loan-to-value percentage,
      rounded down; without a percentage it is the whole deposit. The limit is the allowed
      borrow value, or just below the unhealthy one where that is the check. */
  lemma HeadroomFloors(v: Values, d: Deposit, maxLtvPct: U8, thresholdPct: U8, check: WithdrawalCheck)
    requires MaxWithdrawValue(v, d, maxLtvPct, thresholdPct, check).Ok?
    ensures var value := MaxWithdrawValue(v, d, maxLtvPct, thresholdPct, check).value;
      var pct := if check == LiquidationThreshold then thresholdPct else maxLtvPct;
      var limit := if check == LiquidationThreshold then v.unhealthyBorrow - 1 else v.allowedBorrow;
      if limit <= v.adjustedDebt then value == 0
      else if pct == 0 then value == d.marketValue
      else value * pct <= 100 * (limit - v.adjustedDebt) < (value + 1) * pct
  {
    var pct := if check == LiquidationThreshold then thresholdPct else maxLtvPct;
    var limit := HighestAllowedDebt(v, check);
    if limit > v.adjustedDebt && pct > 0 { RoomFloors(100 * (limit - v.adjustedDebt), pct); }
  }

  lemma RoomFloors(n: nat, k: nat)
    requires k > 0
    ensures n / k * k <= n < (n / k + 1) * k
  {
    DivBounds(n, k);
    assert (n / k + 1) * k == n / k * k + k;
  }

  /** A maximal withdrawal takes the whole deposit if the headroom covers its value, and
      otherwise the headroom's share of it, rounded down twice. */
  lemma AllowedIsLargest(d: Deposit, amount: U64, maxValue: Fraction)
    requires WithdrawAllowed(d, amount, maxValue).Ok?
    ensures var w := WithdrawAllowed(d, amount, maxValue).value;
      && (d.marketValue <= maxValue ==> w == d.amount)
      && (maxValue < d.marketValue ==>
            w * d.marketValue <= d.amount * maxValue
            && (w + 1) * ONE * d.marketValue > d.amount * (maxValue * ONE - d.marketValue))
  {
    var w := WithdrawAllowed(d, amount, maxValue).value;
    AllowedWithinHeadroom(d, amount, maxValue);
    var ratio := DivFloor(Min(maxValue, d.marketValue), d.marketValue);
    DivFloorBounds(Min(maxValue, d.marketValue), d.marketValue);
    if d.marketValue <= maxValue {
      WholeRatio(d.marketValue, d.amount);
    } else {
      DivFloorUnit(maxValue, d.marketValue);
      MulLeft(d.amount, ratio, ONE);
      FloorCeil(ratio * d.amount);
      AllowedFromBelow(Floor(ratio * d.amount), ratio, d.amount, maxValue, d.marketValue);
      WholeShareFits(ratio, d.amount);
    }
  }

  lemma WholeRatio(value: nat, amount: U64)
    requires value > 0
    ensures DivFloor(value, value) == ONE && Floor(ONE * amount) == amount
  {
    DivExact(ONE, value);
    FromIntExact(amount);
    assert value * ONE == ONE * value;
  }

  lemma WholeShareFits(ratio: nat, amount: U64)
    requires ratio * amount <= amount * ONE
    ensures Floor(ratio * amount) <= amount
  {
    DivMono(ratio * amount, amount * ONE, ONE);
    DivExact(amount, ONE);
  }

  lemma AllowedFromBelow(w: nat, ratio: nat, amount: nat, maxValue: nat, value: nat)
    requires value > 0 && ratio * amount < w * ONE + ONE && maxValue * ONE < ratio * value + value
    ensures (w + 1) * ONE * value > amount * (maxValue * ONE - value)
  {
    MulLeft(amount, maxValue * ONE - value, ratio * value);
    MulLeft(value, ratio * amount + 1, (w + 1) * ONE);
    MulSwap(amount, ratio, value);
    MulSwap(value, ratio, amount);
    assert amount * value == value * amount;
    assert value * (ratio * amount + 1) == value * (ratio * amount) + value;
  }

  /** An explicit amount is handed out as it is, or the whole deposit if it asks for more; it
      is only refused for a value that reaches the headroom, up to the ratio's rounding. */
  lemma ExactAmounts(d: Deposit, amount: U64, maxValue: Fraction, check: WithdrawalCheck)
    ensures var w := Min(amount, d.amount);
      && (WithdrawExact(d, amount, maxValue, check).Ok? ==> WithdrawExact(d, amount, maxValue, check).value == w)
      && (WithdrawExact(d, amount, maxValue, check) == Err(WithdrawTooLarge) ==>
            d.marketValue * (w * ONE + d.amount) >= maxValue * d.amount * ONE)
  {
    hide MulFloor;
    if WithdrawExact(d, amount, maxValue, check) == Err(WithdrawTooLarge) {
      var w: U64 := if amount <= d.amount then amount else d.amount;
      var ratio := CeilDiv(FromInt(w) * ONE, FromInt(d.amount));
      CeilBounds(FromInt(w) * ONE, FromInt(d.amount));
      MulBounds(d.marketValue, ratio);
      RefusedArithmetic(w, ratio, d.amount, d.marketValue, MulFloor(d.marketValue, ratio), maxValue);
    }
  }

  lemma RefusedArithmetic(w: nat, ratio: nat, amount: nat, value: nat, share: nat, maxValue: nat)
    requires ratio * (amount * ONE) < w * ONE * ONE + amount * ONE && share * ONE <= value * ratio && maxValue <= share
    ensures value * (w * ONE + amount) >= maxValue * amount * ONE
  {
    assert ratio * (amount * ONE) == ONE * (ratio * amount);
    assert ratio * amount < w * ONE + amount;
    MulLeft(value, ratio * amount, w * ONE + amount);
    MulLeft(amount, maxValue * ONE, value * ratio);
    MulSwap(amount, value, ratio);
    assert amount * ratio == ratio * amount;
    assert amount * (maxValue * ONE) == maxValue * amount * ONE;
  }

  /** Without debt a withdrawal hands out what is asked for, at most the deposit. */
  lemma FreeWithdrawal(v: Values, d: Deposit, amount: U64, maxLtvPct: U8, thresholdPct: U8, check: WithdrawalCheck)
    ensures WithdrawSize(v, d, true, amount, maxLtvPct, thresholdPct, check) == Ok(Min(amount, d.amount))
  {
  }

  /** The check after a withdrawal: unless the new loan-to-value floors to zero or no
      deposits remain, the recorded debt is strictly below the reduced unhealthy value. */
  lemma AcceptedWithdrawalIsHealthy(v: Values, r: Reserve, amount: Fraction, thresholdPct: U8, slotValue: Fraction, minNet: Fraction)
    requires PostWithdraw(v, r, amount, thresholdPct, slotValue, minNet).Ok?
    ensures MarketValue(r.liquidity, amount).Ok? && MarketValue(r.liquidity, amount).value <= v.deposited
    ensures var value := MarketValue(r.liquidity, amount).value; var deposited := v.deposited - value;
      && (deposited == 0 ==> v.adjustedDebt == 0)
      && (deposited > 0 ==> v.debt < deposited)
      && (deposited > 0 && DivFloor(v.adjustedDebt, deposited) > 0 ==>
            v.adjustedDebt < v.unhealthyBorrow - MulFloor(value, FromPercent(thresholdPct)))
  {
    hide MarketValue, MulFloor, FromPercent;
    var value := MarketValue(r.liquidity, amount).value;
    var deposited := v.deposited - value;
    if deposited > 0 && DivFloor(v.adjustedDebt, deposited) > 0 {
      var unhealthy := v.unhealthyBorrow - MulFloor(value, FromPercent(thresholdPct));
      if unhealthy <= v.adjustedDebt {
        MulLeft(ONE, unhealthy, v.adjustedDebt);
        DivMono(unhealthy * ONE, v.adjustedDebt * ONE, deposited);
      }
    }
  }

  // ---- what refusals mean -------------------------------------------------

  /** A borrow is refused after the fact only for dust, for a loan-to-value above the
      unhealthy one, or for debt that reaches the deposits. */
  lemma BorrowRefusals(v: Values, r: Reserve, amount: Fraction, inGroup: bool, slotValue: Fraction, minNet: Fraction)
    ensures var checked := PostBorrow(v, r, amount, inGroup, slotValue, minNet);
      && (checked == Err(NetValueRemainingTooSmall) ==>
            MarketValue(r.liquidity, amount).Ok? && 0 < slotValue + MarketValue(r.liquidity, amount).value < minNet)
      && (checked == Err(WorseLtvThanUnhealthyLtv) ==>
            v.deposited > 0 && AdjustedValue(r, amount, inGroup).Ok?
            && DivFloor(v.adjustedDebt + AdjustedValue(r, amount, inGroup).value, v.deposited) > DivFloor(v.unhealthyBorrow, v.deposited))
      && (checked == Err(LiabilitiesBiggerThanAssets) ==>
            MarketValue(r.liquidity, amount).Ok? && v.debt + MarketValue(r.liquidity, amount).value >= v.deposited)
  {
    hide DivFloor, MulFloor, FromPercent, MintFactor;
  }

  /** A repay only for the dust it would leave. */
  lemma RepayRefusals(v: Values, r: Reserve, amount: Fraction, inGroup: bool, slotValue: Fraction, minNet: Fraction)
    ensures PostRepay(v, r, amount, inGroup, slotValue, minNet) == Err(NetValueRemainingTooSmall) ==>
      slotValue > 0 && MarketValue(r.liquidity, amount).Ok? && 0 < slotValue - MarketValue(r.liquidity, amount).value < minNet
    ensures PostRepay(v, r, amount, inGroup, slotValue, minNet) != Err(WorseLtvBlocked)
  {
    hide MulFloor, FromPercent, MintFactor;
    forall a: nat, b: nat | v.deposited > 0 && a <= b ensures DivFloor(a, v.deposited) <= DivFloor(b, v.deposited) {
      DivMono(a * ONE, b * ONE, v.deposited);
    }
    hide DivFloor;
  }

  /** A withdrawal only for dust, for debt that reaches the deposits left, or for a
      loan-to-value that is not below the unhealthy one. */
  lemma WithdrawRefusals(v: Values, r: Reserve, amount: Fraction, thresholdPct: U8, slotValue: Fraction, minNet: Fraction)
    ensures var checked := PostWithdraw(v, r, amount, thresholdPct, slotValue, minNet);
      && (checked == Err(NetValueRemainingTooSmall) ==>
            slotValue > 0 && MarketValue(r.liquidity, amount).Ok? && 0 < slotValue - MarketValue(r.liquidity, amount).value < minNet)
      && (checked == Err(LiabilitiesBiggerThanAssets) ==>
            && MarketValue(r.liquidity, amount).Ok?
            && var left := v.deposited - MarketValue(r.liquidity, amount).value;
               if left == 0 then v.adjustedDebt > 0 else v.debt >= left)
      && (checked == Err(WorseLtvThanUnhealthyLtv) ==>
            && MarketValue(r.liquidity, amount).Ok?
            && var value := MarketValue(r.liquidity, amount).value; var left := v.deposited - value;
               && left > 0 && MulFloor(value, FromPercent(thresholdPct)) <= v.unhealthyBorrow
               && DivFloor(v.adjustedDebt, left) >= DivFloor(v.unhealthyBorrow - MulFloor(value, FromPercent(thresholdPct)), left)
               && DivFloor(v.adjustedDebt, left) > 0)
  {
    hide DivFloor, MulFloor, FromPercent, MintFactor;
  }

  /** A deposit only for the dust it would be. */
  lemma DepositRefusals(v: Values, r: Reserve, amount: Fraction, previousValue: Fraction, minNet: Fraction)
    ensures PostDeposit(v, r, amount, previousValue, minNet) == Err(NetValueRemainingTooSmall) ==>
      MarketValue(r.liquidity, amount).Ok? && 0 < previousValue + MarketValue(r.liquidity, amount).value < minNet
    ensures PostDeposit(v, r, amount, previousValue, minNet) != Err(WorseLtvBlocked)
  {
    hide MulFloor, FromPercent, MintFactor;
    forall d: nat | d >= v.deposited > 0 ensures DivFloor(v.adjustedDebt, d) <= DivFloor(v.adjustedDebt, v.deposited) {
      DivAntitone(v.adjustedDebt * ONE, v.deposited, d);
    }
    hide DivFloor;
  }
}
