/** What every operation on one reserve demands and does: the checks an accepted operation
    has passed, the amounts it moves, and the reserve it leaves. */
module ReserveEffects {
  import opened Results
  import opened Arithmetic
  import opened FixedPoint
  import opened BorrowRateCurve
  import opened LastUpdates
  import opened WithdrawalCaps
  import opened CompoundInterest
  import opened Reserves
  import opened ReserveBooks
  import opened ExchangeRate
  import opened Fees
  import opened ReserveOperations

  /** Refreshed in this slot, with the demanded price checks. */
  predicate Fresh(u: LastUpdate, slot: U64, minimum: PriceStatus) {
    !u.stale && u.slot == slot && minimum <= u.priceStatus
  }

  // ---- suppliers ----------------------------------------------------------

  /** An accepted deposit: into a fresh reserve, within its deposit limit, counted against
      the withdrawal cap. */
  lemma AcceptedDepositLiquidity(r: Reserve, clock: Clock, amount: U64)
    requires DepositLiquidity(r, clock, amount).Ok?
    ensures amount > 0 && Fresh(r.lastUpdate, clock.slot, NONE) && NetSupply(r.liquidity) >= 0
    ensures var rate := ExchangeRateOf(r.collateralSupply, NetSupply(r.liquidity)); var out := DepositLiquidity(r, clock, amount).value;
      && QuoteDeposit(rate, amount).Ok? && var q := QuoteDeposit(rate, amount).value;
         && out.amount == q.liquidity
         && NetSupply(r.liquidity) + q.liquidity * ONE <= r.config.depositLimit * ONE
         && Accumulate(r.depositCap, q.liquidity, clock.timestamp, RemoveAmount) == Ok(out.reserve.depositCap)
         && out.reserve == r.(lastUpdate := r.lastUpdate.(stale := true), depositCap := out.reserve.depositCap,
                              liquidity := r.liquidity.(available := r.liquidity.available + q.liquidity),
                              collateralSupply := r.collateralSupply + q.collateral)
  {
    hide QuoteDeposit, Accumulate, NetSupply;
    TotalSupplyIsNet(r.liquidity);
    FreshMeansNow(r.lastUpdate, clock.slot, NONE);
  }

  /** A deposit is refused for the limit only if it would pass it. */
  lemma DepositRefusal(r: Reserve, clock: Clock, amount: U64)
    ensures DepositLiquidity(r, clock, amount) == Err(DepositLimitExceeded) ==>
      && NetSupply(r.liquidity) >= 0
      && var rate := ExchangeRateOf(r.collateralSupply, NetSupply(r.liquidity));
         && QuoteDeposit(rate, amount).Ok?
         && NetSupply(r.liquidity) + QuoteDeposit(rate, amount).value.liquidity * ONE > r.config.depositLimit * ONE
  {
    hide LiquidityToCollateral, CollateralToLiquidityCeil, NetSupply, Accumulate;
    TotalSupplyIsNet(r.liquidity);
    forall rate: Rate, n: U64
      ensures LiquidityToCollateral(rate, n) != Err(DepositLimitExceeded)
      ensures CollateralToLiquidityCeil(rate, n) != Err(DepositLimitExceeded)
    {
      QuoteRefusals(rate, n);
    }
    forall cap: Caps, n: U64 ensures Accumulate(cap, n, clock.timestamp, RemoveAmount) != Err(DepositLimitExceeded) {
      CapRefusals(cap, n, clock.timestamp);
    }
  }

  lemma QuoteRefusals(rate: Rate, n: U64)
    ensures LiquidityToCollateral(rate, n) != Err(DepositLimitExceeded)
    ensures CollateralToLiquidityCeil(rate, n) != Err(DepositLimitExceeded)
  {
  }

  lemma CapRefusals(cap: Caps, n: U64, now: U64)
    ensures Accumulate(cap, n, now, RemoveAmount) != Err(DepositLimitExceeded)
  {
  }

  /** When a limit has been crossed since: the time of the first check that found it
      crossed, none while it is not. */
  predicate CrossedSince(since: U64, crossed: bool, before: U64, timestamp: U64) {
    && (!crossed ==> since == 0)
    && (crossed && before > 0 ==> since == before)
    && (crossed && before == 0 ==> since == timestamp)
  }

  /** The marks for automatic deleveraging follow the limits; nothing else changes. */
  lemma LimitsAreMarked(r: Reserve, timestamp: U64)
    requires LimitsChecked(r, timestamp).Ok?
    ensures var r' := LimitsChecked(r, timestamp).value; var l, l' := r.liquidity, r'.liquidity;
      && CrossedSince(l'.depositLimitCrossedAt, NetSupply(l) > r.config.depositLimit * ONE, l.depositLimitCrossedAt, timestamp)
      && CrossedSince(l'.borrowLimitCrossedAt, l.borrowed > r.config.borrowLimit * ONE, l.borrowLimitCrossedAt, timestamp)
      && r' == r.(liquidity := l.(depositLimitCrossedAt := l'.depositLimitCrossedAt, borrowLimitCrossedAt := l'.borrowLimitCrossedAt))
  {
    hide NetSupply;
    TotalSupplyIsNet(r.liquidity);
  }

  /** An accepted redemption: from a fresh reserve, at the current price rounded down, out of
      the available liquidity; a supplier's own counts against the withdrawal cap. */
  lemma AcceptedRedeem(r: Reserve, clock: Clock, amount: U64, addToCaps: bool)
    requires RedeemCollateral(r, clock, amount, addToCaps).Ok?
    ensures amount > 0 && Fresh(r.lastUpdate, clock.slot, NONE) && NetSupply(r.liquidity) >= 0 && amount <= r.collateralSupply
    ensures var rate := ExchangeRateOf(r.collateralSupply, NetSupply(r.liquidity));
      var out := RedeemCollateral(r, clock, amount, addToCaps).value; var l, l' := r.liquidity, out.reserve.liquidity;
      && out.amount == amount * rate.liquidity / (rate.supply * ONE)
      && out.amount <= l.available
      && CrossedSince(l'.depositLimitCrossedAt, NetSupply(l) - out.amount * ONE > r.config.depositLimit * ONE,
                      l.depositLimitCrossedAt, clock.timestamp)
      && CrossedSince(l'.borrowLimitCrossedAt, l.borrowed > r.config.borrowLimit * ONE, l.borrowLimitCrossedAt, clock.timestamp)
      && (if addToCaps then Accumulate(r.depositCap, out.amount, clock.timestamp, AddAmount) == Ok(out.reserve.depositCap)
          else out.reserve.depositCap == r.depositCap)
      && out.reserve == r.(lastUpdate := r.lastUpdate.(stale := true), depositCap := out.reserve.depositCap,
                           collateralSupply := r.collateralSupply - amount,
                           liquidity := l.(available := l.available - out.amount,
                                           depositLimitCrossedAt := l'.depositLimitCrossedAt,
                                           borrowLimitCrossedAt := l'.borrowLimitCrossedAt))
  {
    hide CollateralToLiquidity, Accumulate, NetSupply, LimitsChecked, CrossedSince;
    TotalSupplyIsNet(r.liquidity);
    FreshMeansNow(r.lastUpdate, clock.slot, NONE);
    var rate := ExchangeRateOf(r.collateralSupply, NetSupply(r.liquidity));
    CollateralToLiquidityMeaning(rate, amount);
    var redeemed := Redeemed(r, amount).value;
    LimitsAreMarked(redeemed.reserve, clock.timestamp);
    TakenFromNet(r.liquidity, redeemed.amount);
  }

  lemma TakenFromNet(l: Liquidity, amount: U64)
    requires amount <= l.available
    ensures NetSupply(l.(available := l.available - amount)) == NetSupply(l) - amount * ONE
  {
  }

  // ---- fees ---------------------------------------------------------------

  /** The protocol redeems all the whole tokens of its fees that the reserve can pay. */
  lemma FeesRedeemedInFull(r: Reserve, slot: U64)
    requires RedeemFees(r, slot).Ok?
    ensures var out := RedeemFees(r, slot).value; var l := r.liquidity;
      && Fresh(r.lastUpdate, slot, NONE) && out.amount > 0
      && out.amount <= l.available && out.amount * ONE <= l.protocolFees
      && (out.amount == l.available || l.protocolFees < (out.amount + 1) * ONE)
      && out.reserve == r.(lastUpdate := r.lastUpdate.(stale := true),
                           liquidity := l.(available := l.available - out.amount, protocolFees := l.protocolFees - out.amount * ONE))
  {
    FreshMeansNow(r.lastUpdate, slot, NONE);
    FloorCeil(r.liquidity.protocolFees);
  }

  /** A referrer withdraws all the whole tokens it has unclaimed that the reserve can pay. */
  lemma ReferrerPaidInFull(r: Reserve, slot: U64, referrer: nat)
    requires WithdrawReferrerFees(r, slot, referrer).Ok?
    ensures referrer < |r.ledger|
    ensures var out := WithdrawReferrerFees(r, slot, referrer).value; var l, s := r.liquidity, r.ledger[referrer];
      && Fresh(r.lastUpdate, slot, ALL_CHECKS) && out.amount > 0
      && out.amount <= l.available && out.amount * ONE <= l.referrerFees && out.amount * ONE <= s.unclaimed
      && (out.amount == l.available || l.referrerFees < (out.amount + 1) * ONE || s.unclaimed < (out.amount + 1) * ONE)
      && out.reserve == r.(lastUpdate := r.lastUpdate.(stale := true),
                           liquidity := l.(available := l.available - out.amount, referrerFees := l.referrerFees - out.amount * ONE),
                           ledger := r.ledger[referrer := s.(unclaimed := s.unclaimed - out.amount * ONE)])
  {
    FreshMeansNow(r.lastUpdate, slot, ALL_CHECKS);
    FloorCeil(Min(r.ledger[referrer].unclaimed, r.liquidity.referrerFees));
  }

  /** A fee credited to a referrer enters its account and the reserve's ledger alike. */
  ghost predicate CreditedTo(r: Reserve, r': Reserve, referrer: Option<nat>, fee: Fraction) {
    && referrer.Some? && referrer.value < |r.ledger| == |r'.ledger|
    && var s, s' := r.ledger[referrer.value], r'.ledger[referrer.value];
       && s'.unclaimed == s.unclaimed + fee && s'.cumulative == s.cumulative + fee
       && r'.ledger == r.ledger[referrer.value := s']
       && r'.liquidity.referrerFees == r.liquidity.referrerFees + fee
  }

  /** What a debt's growth brings its referrer: of the growth beyond the host's fixed rate
      the referral rate, rounded down, but not more than is pending; without a referrer it
      goes to the protocol. */
  lemma ReferrersShareOfGrowth(r: Reserve, referrer: Option<nat>, bps: U16, elapsed: U64, debt: Fraction, previous: Fraction)
    returns (fee: Fraction, fixedGrowth: nat)
    requires AccumulateReferrerFees(r, referrer, bps, elapsed, debt, previous).Ok? && r.liquidity.referralRate > 0
    ensures ApproximateCompoundedInterest(FromBps(r.config.hostFixedInterestRateBps), elapsed).Ok?
    ensures var fixed := ApproximateCompoundedInterest(FromBps(r.config.hostFixedInterestRateBps), elapsed).value;
      (previous + fixedGrowth) * ONE <= previous * fixed < (previous + fixedGrowth + 1) * ONE
    ensures previous + fixedGrowth <= debt
    ensures var share := (debt - previous - fixedGrowth) * r.liquidity.referralRate;
      && fee * ONE <= share && fee <= r.liquidity.pendingFees && (share < (fee + 1) * ONE || fee == r.liquidity.pendingFees)
    ensures var r' := AccumulateReferrerFees(r, referrer, bps, elapsed, debt, previous).value;
      && r'.liquidity.pendingFees == r.liquidity.pendingFees - fee
      && (if referrer.Some? && bps > 0 then CreditedTo(r, r', referrer, fee)
          else r'.liquidity.protocolFees == r.liquidity.protocolFees + fee && r'.ledger == r.ledger)
      && r' == r.(ledger := r'.ledger,
                  liquidity := r.liquidity.(pendingFees := r'.liquidity.pendingFees, protocolFees := r'.liquidity.protocolFees,
                                            referrerFees := r'.liquidity.referrerFees))
  {
    hide ApproximateCompoundedInterest, MulFloor, FromBps;
    fee := PendingShare(r, elapsed, debt, previous).value;
    var fixed := ApproximateCompoundedInterest(FromBps(r.config.hostFixedInterestRateBps), elapsed).value;
    fixedGrowth := MulFloor(previous, fixed) - previous;
    MulBounds(previous, fixed);
    MulBounds(debt - previous - fixedGrowth, r.liquidity.referralRate);
  }

  // ---- accrual ------------------------------------------------------------

  /** How an accrual shares the growth of the debt: debt and index grow by the total factor;
      the host's fixed growth and the take rate of the rest are fees, of which the referral
      rate is set aside as pending; every product is rounded down. */
  ghost predicate InterestShared(l: Liquidity, l': Liquidity, total: Fraction, fixed: Fraction, takeRate: Fraction, referralRate: Fraction,
                                 fixedFee: nat, variableFee: nat, pending: nat) {
    var rest := l'.borrowed - l.borrowed - fixedFee;
    && l'.borrowed * ONE <= l.borrowed * total < (l'.borrowed + 1) * ONE
    && l'.cumulativeRate * ONE <= l.cumulativeRate * total < (l'.cumulativeRate + 1) * ONE
    && (l.borrowed + fixedFee) * ONE <= l.borrowed * fixed < (l.borrowed + fixedFee + 1) * ONE
    && rest >= 0
    && variableFee * ONE <= rest * takeRate < (variableFee + 1) * ONE
    && l'.referralRate * ONE <= takeRate * referralRate < (l'.referralRate + 1) * ONE
    && pending * ONE <= rest * l'.referralRate < (pending + 1) * ONE
    && l'.protocolFees == l.protocolFees + fixedFee + variableFee - pending
    && l'.pendingFees == l.pendingFees + pending
    && l'.available == l.available && l'.referrerFees == l.referrerFees
  }

  lemma InterestIsShared(l: Liquidity, variableRate: Fraction, fixedRate: Fraction, slots: U64, takeRate: Fraction, referralRate: Fraction,
                         total: Fraction, fixed: Fraction) returns (fixedFee: nat, variableFee: nat, pending: nat)
    requires Compounded(l, variableRate, fixedRate, slots, takeRate, referralRate).Ok? && variableRate + fixedRate < TWO_128
    requires ApproximateCompoundedInterest(variableRate + fixedRate, slots) == Ok(total)
    requires ApproximateCompoundedInterest(fixedRate, slots) == Ok(fixed)
    ensures InterestShared(l, Compounded(l, variableRate, fixedRate, slots, takeRate, referralRate).value, total, fixed, takeRate,
                           referralRate, fixedFee, variableFee, pending)
  {
    hide ApproximateCompoundedInterest, MulFloor, MulRate;
    var l' := Compounded(l, variableRate, fixedRate, slots, takeRate, referralRate).value;
    fixedFee := MulFloor(l.borrowed, fixed) - l.borrowed;
    var rest: nat := l'.borrowed - l.borrowed - fixedFee;
    variableFee := MulFloor(rest, takeRate);
    pending := MulFloor(rest, l'.referralRate);
    MulBounds(l.borrowed, total);
    MulRateIsFloor(l.cumulativeRate, total);
    MulBounds(l.cumulativeRate, total);
    MulBounds(l.borrowed, fixed);
    MulBounds(rest, takeRate);
    MulBounds(takeRate, referralRate);
    MulBounds(rest, l'.referralRate);
  }

  /** The rates of an accrual: the curve's at the current utilization, and the host's. */
  ghost predicate AccruesAt(r: Reserve, slots: nat, rate: Fraction, total: Fraction, fixed: Fraction) {
    var host := FromBps(r.config.hostFixedInterestRateBps);
    && UtilizationRate(r.liquidity).Ok? && GetBorrowRate(r.config.curve, UtilizationRate(r.liquidity).value) == Ok(rate)
    && slots < TWO_64 && rate + host < TWO_128
    && ApproximateCompoundedInterest(rate + host, slots) == Ok(total) && ApproximateCompoundedInterest(host, slots) == Ok(fixed)
  }

  /** A refresh in a later slot accrues at those rates over the slots since, and shares the
      interest at the reserve's take rate and the market's referral rate. */
  lemma RefreshAccrues(r: Reserve, clock: Clock, price: Option<PriceQuote>, bps: U16)
    returns (rate: Fraction, total: Fraction, fixed: Fraction, fixedFee: nat, variableFee: nat, pending: nat)
    requires Refreshed(r, clock, price, bps).Ok? && r.lastUpdate.slot != clock.slot
    ensures r.lastUpdate.slot < clock.slot && AccruesAt(r, clock.slot - r.lastUpdate.slot, rate, total, fixed)
    ensures InterestShared(r.liquidity, Refreshed(r, clock, price, bps).value.liquidity, total, fixed,
                           FromPercent(r.config.protocolTakeRatePct), FromBps(bps), fixedFee, variableFee, pending)
  {
    hide ApproximateCompoundedInterest, UtilizationRate, GetBorrowRate, Compounded, FromBps, FromPercent, InterestShared;
    var elapsed := r.lastUpdate.SlotsElapsed(clock.slot).value;
    rate := GetBorrowRate(r.config.curve, UtilizationRate(r.liquidity).value).value;
    var host, take, referral := FromBps(r.config.hostFixedInterestRateBps), FromPercent(r.config.protocolTakeRatePct), FromBps(bps);
    total, fixed := FactorsExist(r.liquidity, rate, host, elapsed, take, referral);
    fixedFee, variableFee, pending := InterestIsShared(r.liquidity, rate, host, elapsed, take, referral, total, fixed);
    PriceDoesNotCount(r.liquidity, Compounded(r.liquidity, rate, host, elapsed, take, referral).value,
                      Refreshed(r, clock, price, bps).value.liquidity, total, fixed, take, referral, fixedFee, variableFee, pending);
  }

  lemma FactorsExist(l: Liquidity, variableRate: Fraction, fixedRate: Fraction, slots: U64, takeRate: Fraction, referralRate: Fraction)
    returns (total: Fraction, fixed: Fraction)
    requires Compounded(l, variableRate, fixedRate, slots, takeRate, referralRate).Ok?
    ensures variableRate + fixedRate < TWO_128
    ensures ApproximateCompoundedInterest(variableRate + fixedRate, slots) == Ok(total)
    ensures ApproximateCompoundedInterest(fixedRate, slots) == Ok(fixed)
  {
    hide ApproximateCompoundedInterest;
    total := ApproximateCompoundedInterest(variableRate + fixedRate, slots).value;
    fixed := ApproximateCompoundedInterest(fixedRate, slots).value;
  }

  lemma PriceDoesNotCount(l: Liquidity, l': Liquidity, l'': Liquidity, total: Fraction, fixed: Fraction, takeRate: Fraction,
                          referralRate: Fraction, fixedFee: nat, variableFee: nat, pending: nat)
    requires InterestShared(l, l', total, fixed, takeRate, referralRate, fixedFee, variableFee, pending)
    requires l'' == l'.(price := l''.price, priceUpdatedAt := l''.priceUpdatedAt)
    ensures InterestShared(l, l'', total, fixed, takeRate, referralRate, fixedFee, variableFee, pending)
  {
  }

  /** A refresh marks the reserve fresh. A new price brings its time and its checks; an old
      one keeps them until it is too old, and then has passed none. */
  lemma RefreshMarks(r: Reserve, clock: Clock, price: Option<PriceQuote>, bps: U16)
    requires Refreshed(r, clock, price, bps).Ok?
    ensures var r' := Refreshed(r, clock, price, bps).value; var age := SatSub(clock.timestamp, r.liquidity.priceUpdatedAt);
      && r.lastUpdate.slot <= clock.slot && r'.lastUpdate.slot == clock.slot && !r'.lastUpdate.stale
      && match price
         case Some(quote) =>
           r'.liquidity.price == quote.price && r'.liquidity.priceUpdatedAt == quote.timestamp && r'.lastUpdate.priceStatus == quote.status
         case None =>
           && r'.liquidity.price == r.liquidity.price && r'.liquidity.priceUpdatedAt == r.liquidity.priceUpdatedAt
           && r'.lastUpdate.priceStatus == (if age < r.config.maxPriceAgeSecs then r.lastUpdate.priceStatus else NONE)
  {
    hide ApproximateCompoundedInterest, UtilizationRate, GetBorrowRate, SplitInterest, MulRate;
  }

  // ---- borrowers ----------------------------------------------------------

  /** Lending out: the cap counts the whole tokens of the debt, the books give out the
      whole tokens of the borrow and keep the referrer's fee. */
  lemma LentOut(r: Reserve, clock: Clock, quote: BorrowQuote, referrer: Option<nat>, bps: U16)
    requires LendOut(r, clock, quote, referrer, bps).Ok?
    ensures var r' := LendOut(r, clock, quote, referrer, bps).value; var l, l' := r.liquidity, r'.liquidity;
      var paid := referrer.Some? && bps > 0;
      && quote.receiveAmount > 0 && Floor(quote.borrowAmount) <= l.available && Ceil(quote.borrowAmount) < TWO_64
      && Accumulate(r.debtCap, Ceil(quote.borrowAmount), clock.timestamp, AddAmount) == Ok(r'.debtCap)
      && l'.borrowed == l.borrowed + quote.borrowAmount
      && l'.available == l.available - Floor(quote.borrowAmount) + (if paid then quote.referrerFee else 0)
      && (if paid then CreditedTo(r, r', referrer, quote.referrerFee * ONE)
          else l'.referrerFees == l.referrerFees && r'.ledger == r.ledger)
      && r' == r.(lastUpdate := r.lastUpdate.(stale := true), debtCap := r'.debtCap, ledger := r'.ledger,
                  liquidity := l.(available := l'.available, borrowed := l'.borrowed, referrerFees := l'.referrerFees))
  {
    hide Accumulate, Floor, Ceil;
  }

  /** Taking a repay back: the cap is relieved of the tokens, the books gain them and lose
      the settled debt, at most what they have outstanding. */
  lemma TakenBack(r: Reserve, clock: Clock, quote: RepayQuote)
    requires TakeBack(r, clock, quote).Ok?
    ensures var r' := TakeBack(r, clock, quote).value; var l := r.liquidity;
      && quote.repay > 0
      && Accumulate(r.debtCap, quote.repay, clock.timestamp, RemoveAmount) == Ok(r'.debtCap)
      && r' == r.(lastUpdate := r.lastUpdate.(stale := true), debtCap := r'.debtCap,
                  liquidity := l.(available := l.available + quote.repay, borrowed := Max(l.borrowed - quote.settle, 0)))
  {
    hide Accumulate;
  }

  /** In a liquidation the cap is left alone. */
  lemma TakenBackInLiquidation(r: Reserve, repay: U64, settle: Fraction)
    requires TakeBackInLiquidation(r, repay, settle).Ok?
    ensures repay > 0
    ensures var l := r.liquidity;
      TakeBackInLiquidation(r, repay, settle).value
         == r.(lastUpdate := r.lastUpdate.(stale := true),
               liquidity := l.(available := l.available + repay, borrowed := Max(l.borrowed - settle, 0)))
  {
  }

  /** Forgiving a debt takes it off the books, and a debt worth the whole supply takes the
      reserve out of use. */
  lemma ForgivenDebt(r: Reserve, amount: Fraction)
    requires Forgive(r, amount).Ok?
    ensures var l := r.liquidity;
      && amount <= l.borrowed
      && Forgive(r, amount).value
         == r.(lastUpdate := r.lastUpdate.(stale := true), liquidity := l.(borrowed := l.borrowed - amount),
               version := if amount >= NetSupply(l) then MAX_U64 else r.version)
  {
    hide NetSupply;
    TotalSupplyIsNet(r.liquidity);
  }

  // ---- flash loans --------------------------------------------------------

  /** A flash borrow takes its tokens out and books them as debt, where the reserve offers
      flash loans. */
  lemma FlashLent(r: Reserve, amount: U64)
    requires FlashBorrow(r, amount).Ok?
    ensures var l := r.liquidity;
      && r.config.flashLoanFee != MAX_U64 && amount <= l.available
      && FlashBorrow(r, amount).value
         == r.(lastUpdate := r.lastUpdate.(stale := true),
               liquidity := l.(available := l.available - amount, borrowed := l.borrowed + amount * ONE))
  {
    FromIntExact(amount);
  }

  /** A flash repay brings the tokens back, takes the debt off the books, keeps the
      referrer's fee and updates the marks of the limits. */
  lemma FlashRepaid(r: Reserve, clock: Clock, amount: U64, referrer: Option<nat>, bps: U16)
    requires FlashRepay(r, clock, amount, referrer, bps).Ok?
    ensures CalculateFees(amount * ONE, r.config.flashLoanFee, Exclusive, bps, referrer.Some?).Ok?
    ensures var fees := CalculateFees(amount * ONE, r.config.flashLoanFee, Exclusive, bps, referrer.Some?).value;
      var out := FlashRepay(r, clock, amount, referrer, bps).value; var l, l' := r.liquidity, out.reserve.liquidity;
      var paid := referrer.Some? && bps > 0;
      && out.amount == amount + fees.referrer
      && l'.available == l.available + amount + (if paid then fees.referrer else 0)
      && l'.borrowed == Max(l.borrowed - amount * ONE, 0)
      && (if paid then CreditedTo(r, out.reserve, referrer, fees.referrer * ONE)
          else l'.referrerFees == l.referrerFees && out.reserve.ledger == r.ledger)
      && CrossedSince(l'.borrowLimitCrossedAt, l'.borrowed > r.config.borrowLimit * ONE, l.borrowLimitCrossedAt, clock.timestamp)
      && out.reserve == r.(lastUpdate := r.lastUpdate.(stale := true), ledger := out.reserve.ledger,
                           liquidity := l.(available := l'.available, borrowed := l'.borrowed, referrerFees := l'.referrerFees,
                                           depositLimitCrossedAt := l'.depositLimitCrossedAt,
                                           borrowLimitCrossedAt := l'.borrowLimitCrossedAt))
  {
    hide CalculateFees, NetSupply, LimitsChecked;
    var back := r.(liquidity := Repaid(r.liquidity, amount, FromInt(amount)).value);
    LimitsAreMarked(back, clock.timestamp);
  }
}
