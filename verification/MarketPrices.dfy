/** Share prices and referrers' accounts over whole runs of a market: what the runs of
    a single reserve keep, every operation on obligations keeps for every reserve. */
module MarketPrices {
  import opened Results
  import opened Arithmetic
  import opened FixedPoint
  import opened LastUpdates
  import WithdrawalCaps
  import opened Reserves
  import opened ReserveBooks
  import opened ReserveOperations
  import opened ExchangeRate
  import opened Fees
  import opened Markets
  import opened Obligations
  import opened Orders
  import opened Positions
  import opened Liquidation
  import opened MarketOperations
  import opened MarketOutcomes
  import opened MarketRuns
  import opened PositionsKeep
  import OperationsKeep
  import Single = ReserveRuns

  /** A reserve in use whose referrers' accounts add up. */
  ghost predicate InUse(r: Reserve) {
    Single.Sound(r) && Single.LedgerBalanced(r)
  }

  /** The referrers' accounts still add up; a sound reserve keeps its price with an
      unchanged collateral supply. */
  ghost predicate Steady(r: Reserve, r': Reserve) {
    && (Single.LedgerBalanced(r) ==> Single.LedgerBalanced(r'))
    && (Single.Sound(r) ==> Single.Sound(r') && r'.collateralSupply == r.collateralSupply && Single.PriceKept(r, r'))
  }

  ghost predicate PoolSteady(rs: Pool, rs': Pool) {
    rs'.Keys == rs.Keys && forall k :: k in rs ==> Steady(rs[k], rs'[k])
  }

  /** Likewise, whatever was redeemed. */
  ghost predicate Priced(r: Reserve, r': Reserve) {
    && (Single.LedgerBalanced(r) ==> Single.LedgerBalanced(r'))
    && (Single.Sound(r) ==> Single.Sound(r') && Single.PriceKept(r, r'))
  }

  ghost predicate PoolPriced(rs: Pool, rs': Pool) {
    rs'.Keys == rs.Keys && forall k :: k in rs ==> Priced(rs[k], rs'[k])
  }

  lemma SteadyTransitive(a: Reserve, b: Reserve, c: Reserve)
    requires Steady(a, b) && Steady(b, c)
    ensures Steady(a, c)
  {
    hide Single.Sound, Single.LedgerBalanced;
  }

  lemma PoolSteadyTransitive(a: Pool, b: Pool, c: Pool)
    requires PoolSteady(a, b) && PoolSteady(b, c)
    ensures PoolSteady(a, c)
  {
    hide Steady;
    forall k | k in a ensures Steady(a[k], c[k]) { SteadyTransitive(a[k], b[k], c[k]); }
  }

  /** Changes outside the books: trackers, marks, withdrawal caps. */
  lemma SameBooksSteady(r: Reserve, r': Reserve)
    requires r'.liquidity == r.liquidity && r'.collateralSupply == r.collateralSupply && r'.ledger == r.ledger
    requires r'.version == r.version && r'.config == r.config
    ensures Steady(r, r')
  {
  }

  lemma PoolUnchanged(rs: Pool)
    ensures PoolSteady(rs, rs)
  {
    forall k | k in rs ensures Steady(rs[k], rs[k]) { SameBooksSteady(rs[k], rs[k]); }
  }

  lemma OneChanged(rs: Pool, k: Key, r: Reserve)
    requires k in rs && Steady(rs[k], r)
    ensures PoolSteady(rs, rs[k := r])
  {
    hide Steady;
    PoolUnchanged(rs);
  }

  lemma SteadyIsPriced(rs: Pool, rs': Pool)
    requires PoolSteady(rs, rs')
    ensures PoolPriced(rs, rs')
  {
    hide Single.Sound, Single.LedgerBalanced, Single.PriceKept;
  }

  // ---- the reserve's side of each operation -------------------------------

  lemma AccumulateSteady(r: Reserve, referrer: Option<nat>, bps: U16, elapsed: U64, debt: Fraction, previous: Fraction)
    requires AccumulateReferrerFees(r, referrer, bps, elapsed, debt, previous).Ok?
    ensures Steady(r, AccumulateReferrerFees(r, referrer, bps, elapsed, debt, previous).value)
  {
    hide AccumulateReferrerFees, Single.Sound, Single.LedgerBalanced, Single.PriceKept;
    AccumulateSupply(r, referrer, bps, elapsed, debt, previous);
    if Single.Sound(r) { Single.AccumulateKeepsPrice(r, referrer, bps, elapsed, debt, previous); }
    if Single.LedgerBalanced(r) { Single.AccumulateBalance(r, referrer, bps, elapsed, debt, previous); }
  }

  lemma AccumulateSupply(r: Reserve, referrer: Option<nat>, bps: U16, elapsed: U64, debt: Fraction, previous: Fraction)
    requires AccumulateReferrerFees(r, referrer, bps, elapsed, debt, previous).Ok?
    ensures AccumulateReferrerFees(r, referrer, bps, elapsed, debt, previous).value.collateralSupply == r.collateralSupply
  {
    hide PendingShare, Credited, PendingAttributed;
  }

  lemma LendOutSteady(r: Reserve, clock: Clock, quote: BorrowQuote, referrer: Option<nat>, bps: U16)
    requires LendOut(r, clock, quote, referrer, bps).Ok?
    ensures Steady(r, LendOut(r, clock, quote, referrer, bps).value)
  {
    hide LendOut, Single.Sound, Single.LedgerBalanced, Single.PriceKept;
    LendOutSupply(r, clock, quote, referrer, bps);
    if Single.Sound(r) { Single.BorrowKeepsPrice(r, clock, quote, referrer, bps); }
    if Single.LedgerBalanced(r) { Single.LendOutBalance(r, clock, quote, referrer, bps); }
  }

  lemma LendOutSupply(r: Reserve, clock: Clock, quote: BorrowQuote, referrer: Option<nat>, bps: U16)
    requires LendOut(r, clock, quote, referrer, bps).Ok?
    ensures LendOut(r, clock, quote, referrer, bps).value.collateralSupply == r.collateralSupply
  {
    hide WithdrawalCaps.Accumulate, Credited, Borrowed, ReferrerFeeRetained;
  }

  lemma TakeBackSteady(r: Reserve, clock: Clock, quote: RepayQuote)
    requires quote.settle <= FromInt(quote.repay)
    ensures TakeBack(r, clock, quote).Ok? ==> Steady(r, TakeBack(r, clock, quote).value)
    ensures TakeBackInLiquidation(r, quote.repay, quote.settle).Ok? ==>
      Steady(r, TakeBackInLiquidation(r, quote.repay, quote.settle).value)
  {
    hide TakeBack, TakeBackInLiquidation, Single.Sound, Single.LedgerBalanced, Single.PriceKept, Single.SameLedger;
    TakeBackSupply(r, clock, quote);
    assert quote == RepayQuote(quote.settle, quote.repay);
    if Single.Sound(r) { Single.RepayKeepsPrice(r, quote.repay, quote.settle); }
    if Single.LedgerBalanced(r) {
      Single.RepayLeaves(r, clock, quote);
      if TakeBack(r, clock, quote).Ok? { Single.SameLedgerBalance(r, TakeBack(r, clock, quote).value); }
      if TakeBackInLiquidation(r, quote.repay, quote.settle).Ok? {
        Single.SameLedgerBalance(r, TakeBackInLiquidation(r, quote.repay, quote.settle).value);
      }
    }
  }

  lemma TakeBackSupply(r: Reserve, clock: Clock, quote: RepayQuote)
    ensures TakeBack(r, clock, quote).Ok? ==> TakeBack(r, clock, quote).value.collateralSupply == r.collateralSupply
    ensures TakeBackInLiquidation(r, quote.repay, quote.settle).Ok? ==>
      TakeBackInLiquidation(r, quote.repay, quote.settle).value.collateralSupply == r.collateralSupply
  {
    hide WithdrawalCaps.Accumulate, Repaid;
  }

  // ---- the loops ----------------------------------------------------------

  lemma TrackersSteady(rs: Pool, rs': Pool)
    requires rs'.Keys == rs.Keys && forall k :: k in rs ==> OnlyTrackers(rs[k], rs'[k])
    ensures PoolSteady(rs, rs')
  {
    hide Steady;
    forall k | k in rs ensures Steady(rs[k], rs'[k]) { SameBooksSteady(rs[k], rs'[k]); }
  }

  lemma {:induction false} ClearingTouchesTrackers(rs: Pool, bs: seq<Borrow>, n: nat)
    requires n <= |bs| && ClearBorrowsUpTo(rs, bs, n).Ok?
    ensures var p := ClearBorrowsUpTo(rs, bs, n).value;
      p.reserves.Keys == rs.Keys && forall k :: k in rs ==> OnlyTrackers(rs[k], p.reserves[k])
  {
    if n == 0 {
    } else {
      ClearingTouchesTrackers(rs, bs, n - 1);
    }
  }

  lemma RefreshBorrowSteady(m: Market, g: Option<ElevationGroup>, o: Obligation, slot: U64, p: BorrowPass, i: nat)
    requires i < |p.borrows| && RefreshBorrow(m, g, o, slot, p, i).Ok?
    ensures PoolSteady(p.reserves, RefreshBorrow(m, g, o, slot, p, i).value.reserves)
  {
    hide AccumulateReferrerFees, ValueBorrow, AccruedDebt, Steady, PoolSteady;
    var b := p.borrows[i];
    if b.Active() {
      var r := p.reserves[b.reserve];
      var accrued := AccruedDebt(b, r.liquidity.cumulativeRate).value;
      var amount := ToCeil(accrued.borrowed).value;
      var tracked := TrackBorrow(g, r, accrued, amount).value;
      var elapsed := o.lastUpdate.SlotsElapsed(slot).value;
      SameBooksSteady(r, tracked.0);
      AccumulateSteady(tracked.0, o.referrer, m.referralFeeBps, elapsed, accrued.borrowed, b.borrowed);
      var paid := AccumulateReferrerFees(tracked.0, o.referrer, m.referralFeeBps, elapsed, accrued.borrowed, b.borrowed).value;
      SteadyTransitive(r, tracked.0, paid);
      OneChanged(p.reserves, b.reserve, paid);
    } else {
      PoolUnchanged(p.reserves);
    }
  }

  lemma {:induction false} RefreshBorrowsSteady(m: Market, g: Option<ElevationGroup>, o: Obligation, slot: U64, rs: Pool, n: nat)
    requires n <= |o.borrows| && RefreshBorrowsUpTo(m, g, o, slot, rs, n).Ok?
    ensures PoolSteady(rs, RefreshBorrowsUpTo(m, g, o, slot, rs, n).value.reserves)
  {
    hide RefreshBorrow, PoolSteady;
    if n == 0 {
      PoolUnchanged(rs);
    } else {
      RefreshBorrowsSteady(m, g, o, slot, rs, n - 1);
      var p := RefreshBorrowsUpTo(m, g, o, slot, rs, n - 1).value;
      RefreshBorrowSteady(m, g, o, slot, p, n - 1);
      PoolSteadyTransitive(rs, p.reserves, RefreshBorrow(m, g, o, slot, p, n - 1).value.reserves);
    }
  }

  lemma {:induction false} RefreshingDepositsTouches(m: Market, g: Option<ElevationGroup>, debt: U64, slot: U64, rs: Pool,
                                                     ds: seq<Deposit>, n: nat)
    requires n <= |ds| && RefreshDepositsUpTo(m, g, debt, slot, rs, ds, n).Ok?
    ensures var p := RefreshDepositsUpTo(m, g, debt, slot, rs, ds, n).value;
      p.reserves.Keys == rs.Keys && forall k :: k in rs ==> OnlyTrackers(rs[k], p.reserves[k])
  {
    hide ValueDeposit, NeedRefreshable;
    if n == 0 {
    } else {
      RefreshingDepositsTouches(m, g, debt, slot, rs, ds, n - 1);
    }
  }

  lemma PassesSteady(m: Market, g: Option<ElevationGroup>, o: Obligation, slot: U64, rs: Pool, ds: seq<Deposit>, check: bool)
    requires RefreshBorrows(m, g, o, slot, rs).Ok?
    requires var b := RefreshBorrows(m, g, o, slot, rs).value; RefreshDeposits(m, g, b.totals.debt, slot, b.reserves, ds, check).Ok?
    ensures var b := RefreshBorrows(m, g, o, slot, rs).value;
      PoolSteady(rs, RefreshDeposits(m, g, b.totals.debt, slot, b.reserves, ds, check).value.reserves)
  {
    hide PoolSteady, RefreshBorrowsUpTo, RefreshDepositsUpTo, OnlyTrackers;
    var b := RefreshBorrows(m, g, o, slot, rs).value;
    RefreshBorrowsSteady(m, g, o, slot, rs, |o.borrows|);
    RefreshingDepositsTouches(m, g, b.totals.debt, slot, b.reserves, ds, |ds|);
    var d := RefreshDeposits(m, g, b.totals.debt, slot, b.reserves, ds, check).value;
    TrackersSteady(b.reserves, d.reserves);
    PoolSteadyTransitive(rs, b.reserves, d.reserves);
  }

  // ---- the operations -----------------------------------------------------

  lemma RefreshSteady(m: Market, a: Accounts, slot: U64, check: bool)
    requires RefreshObligation(m, a, slot, check).Ok?
    ensures PoolSteady(a.reserves, RefreshObligation(m, a, slot, check).value.reserves)
  {
    hide PoolSteady, RefreshBorrows, RefreshDeposits, RefreshedValues;
    PassesSteady(m, UsableElevationGroup(m, a.o.group).value, a.o, slot, a.reserves, a.o.deposits, check);
  }

  lemma ResetSteady(a: Accounts, g: Option<ElevationGroup>)
    requires ResetTrackers(a, g).Ok?
    ensures PoolSteady(a.reserves, ResetTrackers(a, g).value.reserves)
  {
    hide PoolSteady, MoveDepositsUpTo, ClearBorrowsUpTo, OnlyTrackers;
    if g.Some? {
      MovingTouchesTrackers(a.reserves, a.o.deposits, g.value.id - 1, Clear, |a.o.deposits|);
    } else {
      ClearingTouchesTrackers(a.reserves, a.o.borrows, |a.o.borrows|);
    }
    TrackersSteady(a.reserves, ResetTrackers(a, g).value.reserves);
  }

  lemma RequestSteady(m: Market, a: Accounts, newGroup: nat, slot: U64)
    requires RequestElevationGroup(m, a, newGroup, slot).Ok?
    ensures PoolSteady(a.reserves, RequestElevationGroup(m, a, newGroup, slot).value.reserves)
  {
    hide PoolSteady, RefreshBorrows, RefreshDeposits, ResetTrackers, NeedGroupLimits, LoanToValue, UsableElevationGroup;
    var oldG := UsableElevationGroup(m, a.o.group).value;
    ResetSteady(a, oldG);
    var reset := ResetTrackers(a, oldG).value;
    var g := UsableElevationGroup(m, newGroup).value;
    PassesSteady(m, g, reset.o, slot, reset.reserves, reset.o.deposits, true);
    var a' := RequestElevationGroup(m, a, newGroup, slot).value;
    PoolSteadyTransitive(a.reserves, reset.reserves, a'.reserves);
  }

  lemma DepositSteady(m: Market, a: Accounts, k: Key, amount: U64, slot: U64, check: bool)
    requires DepositCollateral(m, a, k, amount, slot, check).Ok?
    ensures PoolSteady(a.reserves, DepositCollateral(m, a, k, amount, slot, check).value.reserves)
  {
    hide PoolSteady, Steady, NeedOrdersSupported, LiquidityOf, PostDeposit, SingleTokenDebt, UsableElevationGroup;
    SameBooksSteady(a.reserves[k], DepositCollateral(m, a, k, amount, slot, check).value.reserves[k]);
    OneChanged(a.reserves, k, DepositCollateral(m, a, k, amount, slot, check).value.reserves[k]);
  }

  lemma WithdrawSteady(m: Market, a: Accounts, k: Key, amount: U64, slot: U64, check: WithdrawalCheck)
    requires WithdrawCollateral(m, a, k, amount, slot, check).Ok?
    ensures PoolSteady(a.reserves, WithdrawCollateral(m, a, k, amount, slot, check).value.0.reserves)
  {
    hide PoolSteady, Steady, WithdrawalOf, LiquidityOf, PostWithdraw;
    SameBooksSteady(a.reserves[k], WithdrawCollateral(m, a, k, amount, slot, check).value.0.reserves[k]);
    OneChanged(a.reserves, k, WithdrawCollateral(m, a, k, amount, slot, check).value.0.reserves[k]);
  }

  lemma TrackMoreSteady(a: Accounts, k: Key, i: nat, g: Option<ElevationGroup>, amount: U64)
    requires i < |a.o.borrows| && TrackMore(a, k, i, g, amount).Ok?
    ensures PoolSteady(a.reserves, TrackMore(a, k, i, g, amount).value.reserves)
  {
    hide PoolSteady, MoveDepositsUpTo;
    if g.Some? {
      MovingTouchesTrackers(a.reserves, a.o.deposits, g.value.id - 1, More(amount), |a.o.deposits|);
    }
    TrackersSteady(a.reserves, TrackMore(a, k, i, g, amount).value.reserves);
  }

  lemma TrackLessSteady(a: Accounts, k: Key, i: nat, amount: U64)
    requires i < |a.o.borrows| && TrackLess(a, k, i, amount).Ok?
    ensures PoolSteady(a.reserves, TrackLess(a, k, i, amount).value.reserves)
  {
    hide PoolSteady, MoveDepositsUpTo;
    if a.o.group != ELEVATION_GROUP_NONE {
      MovingTouchesTrackers(a.reserves, a.o.deposits, a.o.group - 1, Less(amount), |a.o.deposits|);
    }
    TrackersSteady(a.reserves, TrackLess(a, k, i, amount).value.reserves);
  }

  lemma BorrowSteady(m: Market, a: Accounts, k: Key, amount: U64, clock: Clock)
    requires BorrowLiquidity(m, a, k, amount, clock).Ok?
    ensures PoolSteady(a.reserves, BorrowLiquidity(m, a, k, amount, clock).value.reserves)
  {
    hide PoolSteady, Steady, BorrowQuoteOf, LendOut, WithNewDebt, TrackMore, NeedOrdersSupported, NeedBelowUtilizationLimit, PostBorrow;
    var r := a.reserves[k];
    var quote := BorrowQuoteOf(m, a, r, amount, clock.slot).value;
    LendOutSteady(r, clock, quote, a.o.referrer, m.referralFeeBps);
    var r' := LendOut(r, clock, quote, a.o.referrer, m.referralFeeBps).value;
    OneChanged(a.reserves, k, r');
    var place := WithNewDebt(a.o, k, r'.liquidity.cumulativeRate, quote.borrowAmount).value;
    var before := Accounts(a.reserves[k := r'], place.1);
    var g := ElevationGroupOf(m, place.1.group).value;
    TrackMoreSteady(before, k, place.0, g, ToCeil(quote.borrowAmount).value);
    PoolSteadyTransitive(a.reserves, before.reserves, BorrowLiquidity(m, a, k, amount, clock).value.reserves);
  }

  lemma RepaySteady(m: Market, a: Accounts, k: Key, amount: U64, clock: Clock)
    requires RepayLiquidity(m, a, k, amount, clock).Ok?
    ensures PoolSteady(a.reserves, RepayLiquidity(m, a, k, amount, clock).value.0.reserves)
  {
    hide PoolSteady, Steady, TakeBack, TrackLess, WithLessDebt, NeedOrdersSupported, PostRepay, CalculateRepay, AccruedDebt;
    var r := a.reserves[k];
    var i := PositionOfBorrow(a.o.borrows, k).value;
    var accrued := AccruedDebt(a.o.borrows[i], r.liquidity.cumulativeRate).value;
    var quote := CalculateRepay(amount, accrued.borrowed).value;
    TakeBackSteady(r, clock, quote);
    var taken := TakeBack(r, clock, quote).value;
    OneChanged(a.reserves, k, taken);
    var before := Accounts(a.reserves[k := taken], a.o.(borrows := a.o.borrows[i := accrued]));
    TrackLessSteady(before, k, i, quote.repay);
    PoolSteadyTransitive(a.reserves, before.reserves, RepayLiquidity(m, a, k, amount, clock).value.0.reserves);
  }

  // ---- liquidation --------------------------------------------------------

  lemma RedeemPriced(r: Reserve, clock: Clock, q: Quote, redeem: U64, minReceived: U64)
    requires RedeemForLiquidator(r, clock, q, redeem, minReceived).Ok?
    ensures var r' := RedeemForLiquidator(r, clock, q, redeem, minReceived).value.0;
      Priced(r, r') && r'.collateralSupply <= r.collateralSupply
  {
    hide RedeemCollateral, ProtocolFee, CurrentRate, CollateralToLiquidity, Single.Sound, Single.LedgerBalanced, Single.PriceKept,
         Single.SameLedger;
    if redeem != 0 {
      RedeemShrinks(r, clock, redeem);
      if Single.Sound(r) { Single.RedeemKeepsPrice(r, clock, redeem, false); }
      if Single.LedgerBalanced(r) {
        Single.RedeemLeaves(r, clock, redeem, false);
        Single.SameLedgerBalance(r, RedeemCollateral(r, clock, redeem, false).value.reserve);
      }
    } else {
      Single.SelfPrice(r);
    }
  }

  lemma RedeemShrinks(r: Reserve, clock: Clock, redeem: U64)
    requires RedeemCollateral(r, clock, redeem, false).Ok?
    ensures RedeemCollateral(r, clock, redeem, false).value.reserve.collateralSupply <= r.collateralSupply
  {
    hide CurrentRate, CollateralToLiquidity, LimitsChecked;
    LimitsKeepSupply(Redeemed(r, redeem).value.reserve, clock.timestamp);
  }

  lemma LimitsKeepSupply(r: Reserve, timestamp: U64)
    requires LimitsChecked(r, timestamp).Ok?
    ensures LimitsChecked(r, timestamp).value.collateralSupply == r.collateralSupply
  {
    hide TotalSupply;
  }

  lemma SteadyThenPriced(a: Reserve, b: Reserve, c: Reserve)
    requires Steady(a, b) && Priced(b, c) && c.collateralSupply <= b.collateralSupply
    ensures Priced(a, c)
  {
    hide Single.Sound, Single.LedgerBalanced;
    if Single.Sound(a) {
      var n := NetSupply(a.liquidity);
      if a.collateralSupply == 0 {
        assert c.collateralSupply == 0;
        assert n * c.collateralSupply == 0;
      } else {
        SupplyIsNat(a);
        SupplyIsNat(b);
        SupplyIsNat(c);
        Single.CrossMultiply(n, a.collateralSupply, NetSupply(b.liquidity), b.collateralSupply,
                             NetSupply(c.liquidity), c.collateralSupply);
      }
    }
  }

  lemma SupplyIsNat(r: Reserve)
    requires Single.Sound(r)
    ensures NetSupply(r.liquidity) >= 0
  {
  }

  lemma SettleSteady(a: Accounts, debtKey: Key, l: Liquidated)
    requires l.borrowIndex < |a.o.borrows| && l.depositIndex < |a.o.deposits|
    requires l.quote.amounts.repay == Ceil(l.quote.amounts.settle) && SettleLiquidation(a, debtKey, l).Ok?
    ensures PoolSteady(a.reserves, SettleLiquidation(a, debtKey, l).value.accounts.reserves)
  {
    hide PoolSteady, Steady, TrackLess, TakeBackInLiquidation, WithLessDebtAndCollateral;
    var repay, settle := l.quote.amounts.repay, l.quote.amounts.settle;
    TrackLessSteady(a, debtKey, l.borrowIndex, repay);
    var t := TrackLess(a, debtKey, l.borrowIndex, repay).value;
    FloorCeil(settle);
    TakeBackSteady(t.reserves[debtKey], Clock(0, 0), RepayQuote(settle, repay));
    OneChanged(t.reserves, debtKey, TakeBackInLiquidation(t.reserves[debtKey], repay, settle).value);
    PoolSteadyTransitive(a.reserves, t.reserves, SettleLiquidation(a, debtKey, l).value.accounts.reserves);
  }

  /** Neither the refresh in a slot already seen nor the trackers touch the books. */
  lemma RefreshAndTrackSteady(r: Reserve, clock: Clock, bps: U16, group: nat, recorded: U64)
    requires r.lastUpdate.slot == clock.slot && Refreshed(r, clock, None, bps).Ok?
    ensures var f := Refreshed(r, clock, None, bps).value;
      && Steady(r, f)
      && (TrackFullWithdraw(f, group, recorded).Ok? ==> Steady(r, TrackFullWithdraw(f, group, recorded).value))
  {
    hide Steady;
    RefreshedInSlot(r, clock, bps);
    var f := Refreshed(r, clock, None, bps).value;
    RefreshTouches(r, clock, bps);
    SameBooksSteady(r, f);
    if TrackFullWithdraw(f, group, recorded).Ok? { SameBooksSteady(r, TrackFullWithdraw(f, group, recorded).value); }
  }

  lemma RefreshTouches(r: Reserve, clock: Clock, bps: U16)
    requires Refreshed(r, clock, None, bps).Ok?
    ensures var f := Refreshed(r, clock, None, bps).value;
      f.collateralSupply == r.collateralSupply && f.ledger == r.ledger && f.version == r.version && f.config == r.config
  {
    hide Accrued;
  }

  lemma LiquidatePriced(m: Market, a: Accounts, debtKey: Key, collateralKey: Key, amount: U64, minReceived: U64, clock: Clock)
    requires OperationsKeep.Ready(a.reserves, a.o) && Liquidate(m, a, debtKey, collateralKey, amount, minReceived, clock).Ok?
    ensures PoolPriced(a.reserves, Liquidate(m, a, debtKey, collateralKey, amount, minReceived, clock).value.0.reserves)
  {
    hide PoolSteady, Steady, Priced, LiquidationOf, SettleLiquidation, Refreshed, RedeemableNow, TrackFullWithdraw,
         RedeemForLiquidator, OrdersSettled, OperationsKeep.Ready;
    LiquidationMeans(m, a.o, debtKey, a.reserves[debtKey], collateralKey, a.reserves[collateralKey], amount, clock);
    var l := LiquidationOf(m, a.o, debtKey, a.reserves[debtKey], collateralKey, a.reserves[collateralKey], amount, clock).value;
    SettleSteady(a, debtKey, l);
    SettleKeepsSlots(a, debtKey, l, collateralKey);
    var settled := SettleLiquidation(a, debtKey, l).value;
    var before := settled.accounts.reserves[collateralKey];
    RefreshAndTrackSteady(before, clock, m.referralFeeBps, a.o.group, settled.groupDebt);
    var refreshed := Refreshed(before, clock, None, m.referralFeeBps).value;
    var redeem := RedeemableNow(refreshed, l.quote.amounts.withdraw).value;
    var tracked := if a.o.deposits[l.depositIndex].amount == l.quote.amounts.withdraw
                   then TrackFullWithdraw(refreshed, a.o.group, settled.groupDebt).value else refreshed;
    RedeemPriced(tracked, clock, l.quote, redeem, minReceived);
    var out := RedeemForLiquidator(tracked, clock, l.quote, redeem, minReceived).value.0;
    PoolThenOne(a.reserves, settled.accounts.reserves, collateralKey, tracked, out);
  }

  lemma PoolThenOne(rs: Pool, rs': Pool, k: Key, tracked: Reserve, out: Reserve)
    requires PoolSteady(rs, rs') && k in rs' && Steady(rs'[k], tracked)
    requires Priced(tracked, out) && out.collateralSupply <= tracked.collateralSupply
    ensures PoolPriced(rs, rs'[k := out])
  {
    hide Steady, Priced;
    SteadyIsPriced(rs, rs');
    SteadyTransitive(rs[k], rs'[k], tracked);
    SteadyThenPriced(rs[k], tracked, out);
  }

  lemma SettleKeepsSlots(a: Accounts, debtKey: Key, l: Liquidated, k: Key)
    requires l.borrowIndex < |a.o.borrows| && l.depositIndex < |a.o.deposits|
    requires SettleLiquidation(a, debtKey, l).Ok? && k in a.reserves
    ensures var s := SettleLiquidation(a, debtKey, l).value;
      k in s.accounts.reserves && s.accounts.reserves[k].lastUpdate.slot == a.reserves[k].lastUpdate.slot
  {
    hide TrackLess, TakeBackInLiquidation, WithLessDebtAndCollateral, OnlyTrackers;
    var repay, settle := l.quote.amounts.repay, l.quote.amounts.settle;
    TrackLessTouches(a, debtKey, l.borrowIndex, repay, k);
    var t := TrackLess(a, debtKey, l.borrowIndex, repay).value;
    TakeBackLeaves(t.reserves[debtKey], Clock(0, 0), RepayQuote(settle, repay));
  }

  lemma TrackLessTouches(a: Accounts, k: Key, i: nat, amount: U64, other: Key)
    requires i < |a.o.borrows| && TrackLess(a, k, i, amount).Ok? && other in a.reserves
    ensures var t := TrackLess(a, k, i, amount).value;
      other in t.reserves && t.reserves[other].lastUpdate == a.reserves[other].lastUpdate
  {
    hide MoveDepositsUpTo;
    if a.o.group != ELEVATION_GROUP_NONE {
      MovingTouchesTrackers(a.reserves, a.o.deposits, a.o.group - 1, Less(amount), |a.o.deposits|);
    }
  }

  // ---- socialized losses --------------------------------------------------

  /** How much debt socializing a loss forgives. */
  function Forgiven(o: Obligation, k: Key, amount: U64): nat {
    var at := PositionOfBorrow(o.borrows, k);
    if at.Ok? then Min(FromInt(amount), o.borrows[at.value].borrowed) else 0
  }

  /** A loss touches one reserve: its referrers' accounts still add up, and if its
      suppliers can bear the loss it stays sound. */
  lemma SocializeTouches(a: Accounts, k: Key, amount: U64, slot: U64, other: Key)
    requires SocializeLoss(a, k, amount, slot).Ok? && other in a.reserves
    ensures var a' := SocializeLoss(a, k, amount, slot).value;
      && other in a'.reserves
      && (Single.LedgerBalanced(a.reserves[other]) ==> Single.LedgerBalanced(a'.reserves[other]))
      && (other != k ==> Steady(a.reserves[other], a'.reserves[other]))
      && (other == k && Single.Sound(a.reserves[k]) && Forgiven(a.o, k, amount) < NetSupply(a.reserves[k].liquidity) ==>
            Single.Sound(a'.reserves[k]))
  {
    hide TrackLess, WithLessDebt, NeedFresh, NeedFreshObligation, Single.Sound, Single.LedgerBalanced, Single.PriceKept, NetSupply;
    var i := PositionOfBorrow(a.o.borrows, k).value;
    var forgiven: Fraction := Min(FromInt(amount), a.o.borrows[i].borrowed);
    var whole := ToCeil(forgiven).value;
    var t := TrackLess(a, k, i, whole).value;
    TrackLessSteady(a, k, i, whole);
    assert Steady(a.reserves[other], t.reserves[other]);
    if other == k {
      TrackLessKeepsNet(a, k, i, whole);
      ForgivePart(t.reserves[k], forgiven);
    }
  }

  lemma TrackLessKeepsNet(a: Accounts, k: Key, i: nat, amount: U64)
    requires i < |a.o.borrows| && TrackLess(a, k, i, amount).Ok? && k in a.reserves
    ensures var t := TrackLess(a, k, i, amount).value;
      k in t.reserves && t.reserves[k].liquidity == a.reserves[k].liquidity
  {
    hide MoveDepositsUpTo;
    if a.o.group != ELEVATION_GROUP_NONE {
      MovingTouchesTrackers(a.reserves, a.o.deposits, a.o.group - 1, Less(amount), |a.o.deposits|);
    }
  }

  lemma ForgivePart(r: Reserve, amount: Fraction)
    requires Forgive(r, amount).Ok?
    ensures Single.LedgerBalanced(r) ==> Single.LedgerBalanced(Forgive(r, amount).value)
    ensures Single.Sound(r) && amount < NetSupply(r.liquidity) ==> Single.Sound(Forgive(r, amount).value)
  {
    hide Single.Sound, Single.LedgerBalanced, Single.SameLedger, Forgive, NetSupply;
    if Single.LedgerBalanced(r) {
      Single.ForgiveLeaves(r, amount);
      Single.SameLedgerBalance(r, Forgive(r, amount).value);
    }
    if Single.Sound(r) {
      Single.SocializeLowersOrDeprecates(r, amount);
    }
  }

  // ---- runs ---------------------------------------------------------------

  /** Operations on reserves have rates in range. */
  predicate InRange(e: Event) {
    e.step.OnReserve? ==> Single.RatesInRange(e.step.op)
  }

  ghost predicate AllInRange(es: seq<Event>) {
    forall i :: 0 <= i < |es| ==> ValidMarket(es[i].market) && InRange(es[i])
  }

  /** The event socializes a loss of reserve `k`. */
  predicate Loses(e: Event, k: Key) {
    e.step.OnObligation? && e.step.action.Socialize? && e.step.action.k == k
  }

  predicate NoLosses(es: seq<Event>, k: Key) {
    forall i :: 0 <= i < |es| ==> !Loses(es[i], k)
  }

  /** If the event socializes a loss, the suppliers can bear it and keep something. */
  ghost predicate Borne(s: State, e: Event, k: Key) {
    Loses(e, k) && k in s.reserves && e.step.i < |s.obligations| ==>
      Forgiven(s.obligations[e.step.i], k, e.step.action.amount) < NetSupply(s.reserves[k].liquidity)
  }

  lemma ActPriced(m: Market, a: Accounts, clock: Clock, action: Action)
    requires OperationsKeep.Ready(a.reserves, a.o) && !action.Socialize? && Act(m, a, clock, action).Ok?
    ensures PoolPriced(a.reserves, Act(m, a, clock, action).value.reserves)
  {
    hide OperationsKeep.Ready, PoolSteady, PoolPriced, RefreshObligation, DepositCollateral, WithdrawCollateral, BorrowLiquidity,
         RepayLiquidity, RequestElevationGroup, Liquidate, SocializeLoss, SetOrder, MarkForDeleveraging;
    var a' := Act(m, a, clock, action).value;
    match action {
      case Refresh(check) => RefreshSteady(m, a, clock.slot, check);
      case DepositInto(k, amount, check) => DepositSteady(m, a, k, amount, clock.slot, check);
      case WithdrawFrom(k, amount, check) => WithdrawSteady(m, a, k, amount, clock.slot, check);
      case BorrowFrom(k, amount) => BorrowSteady(m, a, k, amount, clock);
      case RepayTo(k, amount) => RepaySteady(m, a, k, amount, clock);
      case RequestGroup(group) => RequestSteady(m, a, group, clock.slot);
      case LiquidateWith(debtKey, collateralKey, amount, minReceived) =>
        LiquidatePriced(m, a, debtKey, collateralKey, amount, minReceived, clock);
      case PlaceOrder(_, _) => PoolUnchanged(a.reserves);
      case Mark(_) => PoolUnchanged(a.reserves);
    }
    if !action.LiquidateWith? { SteadyIsPriced(a.reserves, a'.reserves); }
  }

  /** Any accepted step, socialized losses included, keeps the referrers' accounts of
      every reserve adding up. */
  lemma StepKeepsLedgers(s: State, e: Event, k: Key)
    requires ValidState(s) && Next(s, e).Ok? && k in s.reserves && Single.LedgerBalanced(s.reserves[k])
    ensures var s' := Next(s, e).value; k in s'.reserves && Single.LedgerBalanced(s'.reserves[k])
  {
    hide ValidState, Act, Single.Perform, Single.Sound, Single.LedgerBalanced, Single.PriceKept, OperationsKeep.Ready, SocializeLoss;
    match e.step {
      case Open(_, _) =>
      case OnReserve(j, op) => if j == k { Single.StepKeepsLedger(s.reserves[k], op); }
      case OnObligation(i, action) =>
        var a := Accounts(s.reserves, s.obligations[i]);
        ConservedCovers(s, i);
        if action.Socialize? {
          SocializeAct(e.market, a, e.clock, action);
          SocializeTouches(a, action.k, action.amount, e.clock.slot, k);
        } else {
          ActPriced(e.market, a, e.clock, action);
        }
    }
  }

  lemma SocializeAct(m: Market, a: Accounts, clock: Clock, action: Action)
    requires action.Socialize?
    ensures Act(m, a, clock, action) == SocializeLoss(a, action.k, action.amount, clock.slot)
  {
    hide SocializeLoss;
  }

  /** Over every run of a market whatsoever, the referrers' accounts of every reserve add
      up to what it owes referrers, and no referrer's claim exceeds what was credited. */
  lemma {:induction false} RunsKeepLedgers(s: State, es: seq<Event>, k: Key)
    requires ValidState(s) && ValidMarkets(es) && Run(s, es).Ok? && k in s.reserves && Single.LedgerBalanced(s.reserves[k])
    ensures var t := Run(s, es).value; k in t.reserves && Single.LedgerBalanced(t.reserves[k])
  {
    hide ValidState, Next, Single.LedgerBalanced;
    if es == [] {
    } else {
      var front := es[..|es| - 1];
      RunsKeepLedgers(s, front, k);
      RunsConserveTrackers(s, front);
      StepKeepsLedgers(Run(s, front).value, es[|es| - 1], k);
    }
  }

  /** One accepted step whose losses can be borne keeps every reserve in use, and without
      a loss its price. */
  lemma StepKeepsPrices(s: State, e: Event, k: Key)
    requires ValidState(s) && ValidMarket(e.market) && InRange(e) && Borne(s, e, k) && Next(s, e).Ok?
    requires k in s.reserves && InUse(s.reserves[k])
    ensures var s' := Next(s, e).value;
      && k in s'.reserves && InUse(s'.reserves[k])
      && (s.reserves[k].collateralSupply > 0 && !Loses(e, k) ==> Single.PriceKept(s.reserves[k], s'.reserves[k]))
  {
    hide ValidState, Act, Single.Perform, Single.Sound, Single.LedgerBalanced, Single.PriceKept, OperationsKeep.Ready, SocializeLoss,
         Forgiven, NetSupply;
    StepKeepsLedgers(s, e, k);
    match e.step {
      case Open(_, _) => Single.SelfPrice(s.reserves[k]);
      case OnReserve(j, op) =>
        Single.SelfPrice(s.reserves[k]);
        if j == k { Single.StepKeepsPrice(s.reserves[k], op); }
      case OnObligation(i, action) =>
        var a := Accounts(s.reserves, s.obligations[i]);
        ConservedCovers(s, i);
        if action.Socialize? {
          SocializeAct(e.market, a, e.clock, action);
          SocializeTouches(a, action.k, action.amount, e.clock.slot, k);
        } else {
          ActPriced(e.market, a, e.clock, action);
        }
    }
  }

  /** Collateral tokens of the reserve existed all along. */
  ghost predicate HeldThroughout(s: State, es: seq<Event>, k: Key) {
    forall i :: 0 <= i < |es| && Run(s, es[..i]).Ok? && k in Run(s, es[..i]).value.reserves ==>
      Run(s, es[..i]).value.reserves[k].collateralSupply > 0
  }

  /** Whenever a loss of the reserve is socialized its suppliers can bear it. */
  ghost predicate LossesBorne(s: State, es: seq<Event>, k: Key) {
    forall i :: 0 <= i < |es| && Run(s, es[..i]).Ok? ==> Borne(Run(s, es[..i]).value, es[i], k)
  }

  /** Over every run of a market whose losses the suppliers of a reserve in use can bear,
      the reserve stays solvent and its referrers' accounts add up; without losses of its
      own, the price of its collateral tokens has not fallen as long as there were any. */
  lemma {:induction false} RunsKeepPrices(s: State, es: seq<Event>, k: Key)
    requires ValidState(s) && AllInRange(es) && LossesBorne(s, es, k) && Run(s, es).Ok?
    requires k in s.reserves && InUse(s.reserves[k])
    ensures var t := Run(s, es).value;
      && k in t.reserves && InUse(t.reserves[k])
      && TotalSupply(t.reserves[k].liquidity) != Err(Underflow)
      && (NoLosses(es, k) && HeldThroughout(s, es, k) ==> Single.PriceKept(s.reserves[k], t.reserves[k]))
  {
    hide ValidState, Next, InUse, Single.PriceKept, TotalSupply, LossesBorne, HeldThroughout, Borne;
    if es == [] {
      Single.SelfPrice(s.reserves[k]);
    } else {
      var n := |es| - 1;
      var front := es[..n];
      Prefixes(s, es, k);
      RunsKeepPrices(s, front, k);
      RunsConserveTrackers(s, front);
      var t := Run(s, front).value;
      LastStep(s, es, k);
      StepKeepsPrices(t, es[n], k);
      if NoLosses(es, k) && HeldThroughout(s, es, k) {
        PriceTransitive(s.reserves[k], t.reserves[k], Run(s, es).value.reserves[k]);
      }
    }
    Solvent(Run(s, es).value.reserves[k]);
  }

  lemma Prefixes(s: State, es: seq<Event>, k: Key)
    requires es != []
    ensures LossesBorne(s, es, k) ==> LossesBorne(s, es[..|es| - 1], k)
    ensures HeldThroughout(s, es, k) ==> HeldThroughout(s, es[..|es| - 1], k)
  {
    hide Run, Borne;
    var front := es[..|es| - 1];
    assert forall i :: 0 <= i <= |front| ==> front[..i] == es[..i];
  }

  lemma LastStep(s: State, es: seq<Event>, k: Key)
    requires es != [] && Run(s, es[..|es| - 1]).Ok?
    ensures var t := Run(s, es[..|es| - 1]).value;
      && (LossesBorne(s, es, k) ==> Borne(t, es[|es| - 1], k))
      && (HeldThroughout(s, es, k) && k in t.reserves ==> t.reserves[k].collateralSupply > 0)
  {
    hide Run, Borne;
  }

  lemma PriceTransitive(a: Reserve, b: Reserve, c: Reserve)
    requires InUse(a) && InUse(b) && InUse(c) && b.collateralSupply > 0
    requires Single.PriceKept(a, b) && Single.PriceKept(b, c)
    ensures Single.PriceKept(a, c)
  {
    Single.PriceKeptTransitive(a, b, c);
  }

  lemma Solvent(r: Reserve)
    requires InUse(r)
    ensures TotalSupply(r.liquidity) != Err(Underflow)
  {
    TotalSupplyIsNet(r.liquidity);
  }
}
