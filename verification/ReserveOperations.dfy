/** The operations on one reserve (lending_market/lending_operations.rs), as
    functions from the reserve before to the reserve after. */
module ReserveOperations {
  import opened Results
  import opened Arithmetic
  import opened FixedPoint
  import opened BorrowRateCurve
  import opened LastUpdates
  import opened WithdrawalCaps
  import opened Reserves
  import opened ReserveBooks
  import opened ExchangeRate
  import opened Fees
  import opened CompoundInterest

  datatype Outcome = Outcome(reserve: Reserve, amount: U64)

  // ---- refresh ------------------------------------------------------------

  /** `Reserve::accrue_interest`. */
  function Accrued(r: Reserve, now: U64, referralFeeBps: U16): Result<Liquidity> {
    var elapsed :- r.lastUpdate.SlotsElapsed(now);
    if elapsed > 0 then
      var utilization :- UtilizationRate(r.liquidity);
      var rate :- GetBorrowRate(r.config.curve, utilization);
      Compounded(r.liquidity, rate, FromBps(r.config.hostFixedInterestRateBps), elapsed,
                 FromPercent(r.config.protocolTakeRatePct), FromBps(referralFeeBps))
    else Ok(r.liquidity)
  }

  /** What the oracles report; whether their prices are good is not decided here. */
  datatype PriceQuote = PriceQuote(price: Fraction, status: PriceStatus, timestamp: U64)

  /** `is_saved_price_age_valid`. */
  predicate SavedPriceIsValid(r: Reserve, timestamp: U64) {
    SatSub(timestamp, r.liquidity.priceUpdatedAt) < r.config.maxPriceAgeSecs
  }

  /** `refresh_reserve`: without a new price the old one keeps its status until it is too old. */
  function Refreshed(r: Reserve, clock: Clock, price: Option<PriceQuote>, referralFeeBps: U16): Result<Reserve> {
    var l :- Accrued(r, clock.slot, referralFeeBps);
    var priced := if price.Some? then l.(price := price.value.price, priceUpdatedAt := price.value.timestamp) else l;
    var status := if price.Some? then Some(price.value.status)
                  else if SavedPriceIsValid(r, clock.timestamp) then None else Some(NONE);
    Ok(r.(liquidity := priced, lastUpdate := r.lastUpdate.Updated(clock.slot, status)))
  }

  function LimitCrossedAt(crossed: bool, since: U64, timestamp: U64): U64 {
    if !crossed then 0 else if since == 0 then timestamp else since
  }

  /** `refresh_reserve_limit_timestamps`. */
  function LimitsChecked(r: Reserve, timestamp: U64): Result<Reserve> {
    var supply :- TotalSupply(r.liquidity);
    var l := r.liquidity;
    Ok(r.(liquidity := l.(
      depositLimitCrossedAt :=
        LimitCrossedAt(supply > FromInt(r.config.depositLimit), l.depositLimitCrossedAt, timestamp),
      borrowLimitCrossedAt :=
        LimitCrossedAt(l.borrowed > FromInt(r.config.borrowLimit), l.borrowLimitCrossedAt, timestamp))))
  }

  function Stale(r: Reserve): Reserve {
    r.(lastUpdate := r.lastUpdate.MarkedStale())
  }

  function NeedFresh(r: Reserve, slot: U64, minimum: PriceStatus): Result<()> {
    var stale :- r.lastUpdate.IsStale(slot, minimum);
    Need(!stale, ReserveStale)
  }

  // ---- suppliers ----------------------------------------------------------

  /** `collateral_exchange_rate`. */
  function CurrentRate(r: Reserve): Result<Rate> {
    var supply :- TotalSupply(r.liquidity);
    Ok(ExchangeRateOf(r.collateralSupply, supply))
  }

  /** `deposit_reserve_liquidity`. */
  function DepositLiquidity(r: Reserve, clock: Clock, amount: U64): Result<Outcome> {
    var _ :- Need(amount != 0, InvalidAmount);
    var _ :- NeedFresh(r, clock.slot, NONE);
    var rate :- CurrentRate(r);
    var quote :- QuoteDeposit(rate, amount);
    var supply :- TotalSupply(r.liquidity);
    var newSupply :- Add(FromInt(quote.liquidity), supply);
    var _ :- Need(newSupply <= FromInt(r.config.depositLimit), DepositLimitExceeded);
    var cap :- Accumulate(r.depositCap, quote.liquidity, clock.timestamp, RemoveAmount);
    var l :- Deposited(r.liquidity, quote.liquidity);
    var _ :- Need(r.collateralSupply + quote.collateral < TWO_64, MathOverflow);
    Ok(Outcome(Stale(r.(depositCap := cap, liquidity := l, collateralSupply := r.collateralSupply + quote.collateral)),
               quote.liquidity))
  }

  /** `Reserve::redeem_collateral`. */
  function Redeemed(r: Reserve, amount: U64): Result<Outcome> {
    var rate :- CurrentRate(r);
    var liquidity :- CollateralToLiquidity(rate, amount);
    var _ :- Need(amount <= r.collateralSupply, MathOverflow);
    var l :- Withdrawn(r.liquidity, liquidity);
    Ok(Outcome(r.(liquidity := l, collateralSupply := r.collateralSupply - amount), liquidity))
  }

  /** `redeem_reserve_collateral`. */
  function RedeemCollateral(r: Reserve, clock: Clock, amount: U64, addToCaps: bool): Result<Outcome> {
    var _ :- Need(amount != 0, InvalidAmount);
    var _ :- NeedFresh(r, clock.slot, NONE);
    var redeemed :- Redeemed(r, amount);
    var checked :- LimitsChecked(redeemed.reserve, clock.timestamp);
    var cap :- if addToCaps then Accumulate(r.depositCap, redeemed.amount, clock.timestamp, AddAmount) else Ok(r.depositCap);
    Ok(Outcome(Stale(checked.(depositCap := cap)), redeemed.amount))
  }

  // ---- fees ---------------------------------------------------------------

  /** `redeem_fees`. */
  function RedeemFees(r: Reserve, slot: U64): Result<Outcome> {
    var _ :- NeedFresh(r, slot, NONE);
    var whole :- ToFloor(r.liquidity.protocolFees);
    var amount :- Narrow64(Min(r.liquidity.available, whole));
    var _ :- Need(amount != 0, InsufficientProtocolFeesToRedeem);
    var l :- FeesRedeemed(r.liquidity, amount);
    Ok(Outcome(Stale(r.(liquidity := l)), amount))
  }

  /** A fee entered into a referrer's account and, with it, into the reserve's total. */
  function Credited(ledger: seq<ReferrerState>, referrer: nat, fee: Fraction): Result<seq<ReferrerState>> {
    if referrer >= |ledger| then Err(InvalidAccountInput)
    else
      var cumulative :- Add(ledger[referrer].cumulative, fee);
      var unclaimed :- Add(ledger[referrer].unclaimed, fee);
      Ok(ledger[referrer := ReferrerState(unclaimed, cumulative)])
  }

  /** `withdraw_referrer_fees`. */
  function WithdrawReferrerFees(r: Reserve, slot: U64, referrer: nat): Result<Outcome> {
    var _ :- NeedFresh(r, slot, ALL_CHECKS);
    if referrer >= |r.ledger| then Err(InvalidAccountInput)
    else
      var state := r.ledger[referrer];
      var whole :- ToFloor(Min(state.unclaimed, r.liquidity.referrerFees));
      var amount :- Narrow64(Min(whole, r.liquidity.available));
      var _ :- Need(amount != 0, InsufficientReferralFeesToRedeem);
      var l :- ReferrerFeesWithdrawn(r.liquidity, amount);
      var _ :- Need(FromInt(amount) <= state.unclaimed, MathOverflow);
      Ok(Outcome(Stale(r.(liquidity := l,
                          ledger := r.ledger[referrer := state.(unclaimed := state.unclaimed - FromInt(amount))])),
                 amount))
  }

  /** The referrer's part of an origination fee, where there is a referrer and a referral fee. */
  function ReferrerPaid(r: Reserve, referrer: Option<nat>, referralFeeBps: U16, fee: U64): Result<Reserve> {
    if referrer.Some? && referralFeeBps > 0 then
      var ledger :- Credited(r.ledger, referrer.value, FromInt(fee));
      var l :- ReferrerFeeRetained(r.liquidity, fee);
      Ok(r.(ledger := ledger, liquidity := l))
    else Ok(r)
  }

  /** What of the growth of one debt belongs to its referrer (lending_operations.rs:1787-1805). */
  function PendingShare(r: Reserve, slotsElapsed: U64, debt: Fraction, previousDebt: Fraction): Result<Fraction> {
    var fixedRate :- ApproximateCompoundedInterest(FromBps(r.config.hostFixedInterestRateBps), slotsElapsed);
    var growth :- Sub(debt, previousDebt);
    var atFixedRate :- Mul(previousDebt, fixedRate);
    var fixedGrowth :- Sub(atFixedRate, previousDebt);
    if fixedGrowth > growth then Err(CannotCalculateReferralAmountDueToSlotsMismatch)
    else
      var fee :- Mul(growth - fixedGrowth, r.liquidity.referralRate);
      Narrow(Min(fee, r.liquidity.pendingFees))
  }

  /** `accumulate_referrer_fees`. */
  function AccumulateReferrerFees(r: Reserve, referrer: Option<nat>, referralFeeBps: U16, slotsElapsed: U64,
                                  debt: Fraction, previousDebt: Fraction): Result<Reserve>
  {
    if r.liquidity.referralRate == 0 then Ok(r)
    else
      var fee :- PendingShare(r, slotsElapsed, debt, previousDebt);
      if referrer.Some? && referralFeeBps > 0 then
        var ledger :- Credited(r.ledger, referrer.value, fee);
        var l :- PendingAttributed(r.liquidity, fee, true);
        Ok(r.(ledger := ledger, liquidity := l))
      else
        var l :- PendingAttributed(r.liquidity, fee, false);
        Ok(r.(liquidity := l))
  }

  // ---- borrowers ----------------------------------------------------------

  /** The reserve's side of `borrow_obligation_liquidity`, once the borrow is sized. */
  function LendOut(r: Reserve, clock: Clock, quote: BorrowQuote, referrer: Option<nat>, referralFeeBps: U16)
    : Result<Reserve>
  {
    var amount :- ToCeil(quote.borrowAmount);
    var cap :- Accumulate(r.debtCap, amount, clock.timestamp, AddAmount);
    var _ :- Need(quote.receiveAmount != 0, BorrowTooSmall);
    var l :- Borrowed(r.liquidity, quote.borrowAmount);
    ReferrerPaid(Stale(r.(debtCap := cap, liquidity := l)), referrer, referralFeeBps, quote.referrerFee)
  }

  /** The reserve's side of `repay_obligation_liquidity`. */
  function TakeBack(r: Reserve, clock: Clock, quote: RepayQuote): Result<Reserve> {
    var _ :- Need(quote.repay != 0, RepayTooSmall);
    var cap :- Accumulate(r.debtCap, quote.repay, clock.timestamp, RemoveAmount);
    var l :- Repaid(r.liquidity, quote.repay, quote.settle);
    Ok(Stale(r.(debtCap := cap, liquidity := l)))
  }

  /** The reserve's side of a liquidation's repay. */
  function TakeBackInLiquidation(r: Reserve, repay: U64, settle: Fraction): Result<Reserve> {
    var _ :- Need(repay != 0, LiquidationTooSmall);
    var l :- Repaid(r.liquidity, repay, settle);
    Ok(Stale(r.(liquidity := l)))
  }

  /** The reserve's side of `socialize_loss`. */
  function Forgive(r: Reserve, amount: Fraction): Result<Reserve> {
    var supply :- TotalSupply(r.liquidity);
    var l :- Forgiven(r.liquidity, amount);
    Ok(Stale(r.(liquidity := l, version := if amount >= supply then MAX_U64 else r.version)))
  }

  // ---- flash loans --------------------------------------------------------

  /** `flash_borrow_reserve_liquidity`. */
  function FlashBorrow(r: Reserve, amount: U64): Result<Reserve> {
    var _ :- Need(r.config.flashLoanFee != MAX_U64, FlashLoansDisabled);
    var l :- Borrowed(r.liquidity, FromInt(amount));
    Ok(Stale(r.(liquidity := l)))
  }

  /** `flash_repay_reserve_liquidity`; the outcome's amount is what returns to the vault. */
  function FlashRepay(r: Reserve, clock: Clock, amount: U64, referrer: Option<nat>, referralFeeBps: U16): Result<Outcome> {
    var fees :- CalculateFees(FromInt(amount), r.config.flashLoanFee, Exclusive, referralFeeBps, referrer.Some?);
    var l :- Repaid(r.liquidity, amount, FromInt(amount));
    var checked :- LimitsChecked(r.(liquidity := l), clock.timestamp);
    var paid :- ReferrerPaid(Stale(checked), referrer, referralFeeBps, fees.referrer);
    var returned :- Narrow64(amount + fees.referrer);
    Ok(Outcome(paid, returned))
  }
}
