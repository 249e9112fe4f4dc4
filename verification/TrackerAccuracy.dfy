/** How well the trackers follow the debts: they are exact when an obligation is fresh
    and never off by more than one token, over every run. */
module TrackerAccuracy {
  import opened Results
  import opened Arithmetic
  import opened FixedPoint
  import opened LastUpdates
  import opened Reserves
  import opened ReserveOperations
  import opened Fees
  import opened Markets
  import opened Obligations
  import opened Orders
  import opened Positions
  import opened MarketOperations
  import opened DebtTrackers
  import opened DebtPasses
  import opened ObligationInvariant
  import opened OperationsKeep
  import opened PositionsKeep
  import opened MarketRuns
  import Single = ReserveRuns

  predicate OffByAtMostOne(tracked: int, debt: int) {
    debt - 1 <= tracked <= debt + 1
  }

  ghost predicate AccurateOutside(bs: seq<Borrow>) {
    forall i :: 0 <= i < |bs| ==> OffByAtMostOne(bs[i].outsideDebt, Ceil(bs[i].borrowed))
  }

  ghost predicate AccurateAgainst(ds: seq<Deposit>, debt: int) {
    forall i :: 0 <= i < |ds| && ds[i].Active() ==> OffByAtMostOne(ds[i].groupDebt, debt)
  }

  /** What an obligation records is within one token of its debts, in whole tokens rounded up. */
  ghost predicate Accurate(o: Obligation) {
    if o.group == ELEVATION_GROUP_NONE then AccurateOutside(o.borrows) else AccurateAgainst(o.deposits, WholeDebt(o.borrows))
  }

  lemma {:induction false} WholeDebtUpdate(bs: seq<Borrow>, i: nat, b: Borrow)
    requires i < |bs|
    ensures WholeDebt(bs[i := b]) == WholeDebt(bs) - Ceil(bs[i].borrowed) + Ceil(b.borrowed)
  {
    hide Ceil;
    var last := |bs| - 1;
    if i < last {
      WholeDebtUpdate(bs[..last], i, b);
      assert bs[i := b][..last] == bs[..last][i := b];
    } else {
      assert bs[i := b][..last] == bs[..last];
    }
  }

  /** Rounding two parts up separately costs at most one token. */
  lemma CeilParts(a: nat, b: nat)
    ensures Ceil(a + b) <= Ceil(a) + Ceil(b) <= Ceil(a + b) + 1
  {
  }

  lemma CeilRest(a: nat, b: nat)
    requires b <= a
    ensures Ceil(a - b) - 1 <= Ceil(a) - Ceil(b) <= Ceil(a - b)
  {
    CeilParts(a - b, b);
  }

  lemma ExactIsAccurate(rs: Pool, o: Obligation)
    requires ValidObligation(rs, o) && !o.lastUpdate.stale
    ensures Accurate(o)
  {
  }

  // ---- more debt ----------------------------------------------------------

  /** A fresh obligation takes on `debt`, and its trackers the debt rounded up. */
  lemma MoreDebtAccurate(o: Obligation, i: nat, b: Borrow, debt: nat, o': Obligation, amount: nat)
    requires WellFormed(o) && ExactlyTracked(o) && !o.lastUpdate.stale && i < |o.borrows|
    requires amount == Ceil(debt) && b.borrowed == o.borrows[i].borrowed + debt
    requires o'.group == o.group && |o'.borrows| == |o.borrows|
    requires if o.group == ELEVATION_GROUP_NONE then
        b.outsideDebt == o.borrows[i].outsideDebt + amount && o'.borrows == o.borrows[i := b]
      else
        && (forall j :: 0 <= j < |o.borrows| ==> o'.borrows[j].borrowed == o.borrows[i := b][j].borrowed)
        && |o'.deposits| == |o.deposits|
        && forall j :: 0 <= j < |o.deposits| ==>
             o'.deposits[j].Active() == o.deposits[j].Active()
             && (o.deposits[j].Active() ==> o'.deposits[j].groupDebt == o.deposits[j].groupDebt + amount)
    ensures Accurate(o')
  {
    hide WellFormed, Ceil;
    CeilParts(o.borrows[i].borrowed, debt);
    WholeDebtUpdate(o.borrows, i, b);
    if o.group != ELEVATION_GROUP_NONE { SameDebts(o'.borrows, o.borrows[i := b]); }
  }

  lemma {:induction false} SameDebts(bs: seq<Borrow>, bs': seq<Borrow>)
    requires |bs| == |bs'| && forall j :: 0 <= j < |bs| ==> bs[j].borrowed == bs'[j].borrowed
    ensures WholeDebt(bs) == WholeDebt(bs')
  {
    hide Ceil;
    if bs == [] {
    } else {
      SameDebts(bs[..|bs| - 1], bs'[..|bs'| - 1]);
    }
  }

  lemma NewDebtMeans(o: Obligation, k: Key, rate: U256, debt: Fraction)
    requires WellFormed(o) && k != 0 && WithNewDebt(o, k, rate, debt).Ok?
    ensures var n := WithNewDebt(o, k, rate, debt).value;
      && n.0 < |o.borrows| && n.1.borrows == o.borrows[n.0 := n.1.borrows[n.0]]
      && n.1.borrows[n.0].borrowed == o.borrows[n.0].borrowed + debt
      && n.1.borrows[n.0].outsideDebt == o.borrows[n.0].outsideDebt
      && n.1.deposits == o.deposits && n.1.group == o.group
  {
    var n := WithNewDebt(o, k, rate, debt).value;
    assert GoodBorrow(o.borrows[n.0]);
  }

  lemma TrackMoreMeans(rs: Pool, o: Obligation, k: Key, i: nat, g: Option<ElevationGroup>, amount: U64)
    requires ValidPool(rs) && Covers(rs, o) && o.group <= MAX_NUM_ELEVATION_GROUPS && i < |o.borrows|
    requires if g.Some? then g.value.id == o.group > 0 else o.group == 0
    requires TrackMore(Accounts(rs, o), k, i, g, amount).Ok?
    ensures var t := TrackMore(Accounts(rs, o), k, i, g, amount).value.o;
      && t.group == o.group && |t.deposits| == |o.deposits|
      && (o.group == 0 ==>
            o.borrows[i].outsideDebt + amount < TWO_64
            && t.borrows == o.borrows[i := o.borrows[i].(outsideDebt := o.borrows[i].outsideDebt + amount)])
      && (o.group > 0 ==>
            && t.borrows == o.borrows
            && forall j :: 0 <= j < |o.deposits| ==>
                 t.deposits[j].Active() == o.deposits[j].Active()
                 && (o.deposits[j].Active() ==> t.deposits[j].groupDebt == o.deposits[j].groupDebt + amount))
  {
    hide MoveDepositsUpTo, Covers, ValidPool;
    if g.Some? { MoveDepositsSettle(rs, o, o.group - 1, More(amount), |o.deposits|); }
  }

  /** After a borrow the trackers are at most one token above the debts. */
  lemma BorrowAccurate(m: Market, a: Accounts, k: Key, amount: U64, clock: Clock)
    requires ValidMarket(m) && Ready(a.reserves, a.o) && BorrowLiquidity(m, a, k, amount, clock).Ok?
    ensures Accurate(BorrowLiquidity(m, a, k, amount, clock).value.o)
  {
    hide Covers, Settles, BorrowQuoteOf, LendOut, WithNewDebt, TrackMore, NeedOrdersSupported, NeedBelowUtilizationLimit, PostBorrow;
    hide GoodDeposits, GoodBorrows, Backed, InStep, WellFormed, ExactlyTracked, Accurate, Ceil;
    var r := a.reserves[k];
    var quote := BorrowQuoteOf(m, a, r, amount, clock.slot).value;
    BorrowGroup(m, a, r, amount, clock.slot);
    LendOutLeaves(r, clock, quote, a.o.referrer, m.referralFeeBps);
    BorrowQuotePositive(m, a, r, amount, clock.slot);
    var r' := LendOut(r, clock, quote, a.o.referrer, m.referralFeeBps).value;
    var rs1 := a.reserves[k := r'];
    ReserveMoves(a.reserves, a.o, k, r');
    BackedWhileSettled(a.reserves, a.o, rs1, a.o);
    WithNewDebtMeans(rs1, a.o, k, r'.liquidity.cumulativeRate, quote.borrowAmount);
    PoolHasNoZero(a.reserves);
    NewDebtMeans(a.o, k, r'.liquidity.cumulativeRate, quote.borrowAmount);
    var place := WithNewDebt(a.o, k, r'.liquidity.cumulativeRate, quote.borrowAmount).value;
    var whole := ToCeil(quote.borrowAmount).value;
    var g := ElevationGroupOf(m, a.o.group).value;
    SettlesTransitive(a.reserves, a.o, rs1, a.o, rs1, place.1);
    SettlesCovers(a.reserves, a.o, rs1, place.1);
    GroupInRange(place.1);
    TrackMoreMeans(rs1, place.1, k, place.0, g, whole);
    var o' := TrackMore(Accounts(rs1, place.1), k, place.0, g, whole).value.o;
    MoreDebtAccurate(a.o, place.0, o'.borrows[place.0], quote.borrowAmount, o', whole);
  }

  lemma GroupInRange(o: Obligation)
    requires WellFormed(o)
    ensures o.group <= MAX_NUM_ELEVATION_GROUPS
  {
  }

  // ---- less debt ----------------------------------------------------------

  lemma TrackLessMeans(rs: Pool, o: Obligation, k: Key, i: nat, amount: U64)
    requires ValidPool(rs) && Covers(rs, o) && WellFormed(o) && ExactlyTracked(o) && !o.lastUpdate.stale && i < |o.borrows|
    requires amount <= Ceil(o.borrows[i].borrowed) && TrackLess(Accounts(rs, o), k, i, amount).Ok?
    ensures var t := TrackLess(Accounts(rs, o), k, i, amount).value.o;
      && t.group == o.group && |t.deposits| == |o.deposits|
      && (o.group == 0 ==>
            amount <= o.borrows[i].outsideDebt
            && t.borrows == o.borrows[i := o.borrows[i].(outsideDebt := o.borrows[i].outsideDebt - amount)]
            && t.deposits == o.deposits)
      && (o.group > 0 ==>
            && t.borrows == o.borrows
            && forall j :: 0 <= j < |o.deposits| ==>
                 t.deposits[j].Active() == o.deposits[j].Active()
                 && (o.deposits[j].Active() ==> t.deposits[j].groupDebt == o.deposits[j].groupDebt - amount))
  {
    hide MoveDepositsUpTo, Covers, ValidPool, ExactlyTracked, GoodBorrows, GoodDeposits;
    FreshPartsAreAffordable(o, i, amount);
    if o.group != ELEVATION_GROUP_NONE { MoveDepositsSettle(rs, o, o.group - 1, Less(amount), |o.deposits|); }
  }

  /** A fresh obligation is relieved of `settle`, and its trackers of that rounded up; then
      deposits may shrink or go. */
  lemma LessDebtAccurate(o: Obligation, i: nat, settle: Fraction, b: Borrow, o': Obligation, amount: nat)
    requires WellFormed(o) && ExactlyTracked(o) && !o.lastUpdate.stale && i < |o.borrows|
    requires amount == Ceil(settle) && settle <= o.borrows[i].borrowed
    requires b.borrowed == o.borrows[i].borrowed - settle && o'.group == o.group && o'.borrows == o.borrows[i := b]
    requires if o.group == ELEVATION_GROUP_NONE then b.outsideDebt == o.borrows[i].outsideDebt - amount
      else
        && |o'.deposits| == |o.deposits|
        && forall j :: 0 <= j < |o.deposits| && o'.deposits[j].Active() ==>
             o.deposits[j].Active() && o'.deposits[j].groupDebt == o.deposits[j].groupDebt - amount
    ensures Accurate(o')
  {
    hide WellFormed, Ceil;
    CeilRest(o.borrows[i].borrowed, settle);
    WholeDebtUpdate(o.borrows, i, b);
  }

  lemma RepaidSlotMeans(b: Borrow, settle: Fraction)
    requires settle <= b.borrowed && RepaidSlot(b, settle).Ok?
    requires settle == b.borrowed ==> b.outsideDebt == 0
    ensures var b' := RepaidSlot(b, settle).value; b'.borrowed == b.borrowed - settle && b'.outsideDebt == b.outsideDebt
  {
  }

  /** Deposits that only shrink or go. */
  ghost predicate Shrunk(ds: seq<Deposit>, ds': seq<Deposit>) {
    |ds'| == |ds| && forall j :: 0 <= j < |ds'| && ds'[j].Active() ==> ds[j].Active() && ds'[j].groupDebt == ds[j].groupDebt
  }

  /** Settling part of one debt of a fresh obligation: its trackers end up at most one
      token below its debts, whatever of its deposits is then taken. */
  lemma SettledDebtAccurate(rs: Pool, o: Obligation, k: Key, i: nat, repay: U64, settle: Fraction, ds: seq<Deposit>)
    requires ValidPool(rs) && Covers(rs, o) && WellFormed(o) && ExactlyTracked(o) && !o.lastUpdate.stale
    requires i < |o.borrows| && settle <= o.borrows[i].borrowed && repay == Ceil(settle)
    requires TrackLess(Accounts(rs, o), k, i, repay).Ok?
    requires var t := TrackLess(Accounts(rs, o), k, i, repay).value.o;
      i < |t.borrows| && WithLessDebt(t, i, settle).Ok? && Shrunk(t.deposits, ds)
    ensures Accurate(WithLessDebt(TrackLess(Accounts(rs, o), k, i, repay).value.o, i, settle).value.(deposits := ds))
  {
    hide Covers, Settles, ValidPool, TrackLess, GoodDeposits, GoodBorrows, ExactlyTracked, Accurate, Ceil;
    CeilMono(settle, o.borrows[i].borrowed, ONE);
    CeilIs(settle);
    CeilIs(o.borrows[i].borrowed);
    TrackLessMeans(rs, o, k, i, repay);
    var t := TrackLess(Accounts(rs, o), k, i, repay).value.o;
    var o' := WithLessDebt(t, i, settle).value.(deposits := ds);
    if settle == o.borrows[i].borrowed { FullySettled(o, i, settle); }
    RepaidSlotMeans(t.borrows[i], settle);
    LessDebtAccurate(o, i, settle, o'.borrows[i], o', repay);
  }

  lemma CeilIs(a: nat)
    ensures Ceil(a) == CeilDiv(a, ONE)
  {
  }

  lemma FullySettled(o: Obligation, i: nat, settle: Fraction)
    requires WellFormed(o) && ExactlyTracked(o) && !o.lastUpdate.stale && i < |o.borrows| && settle == o.borrows[i].borrowed
    ensures o.group == 0 ==> o.borrows[i].outsideDebt == Ceil(settle)
    ensures o.group > 0 ==> o.borrows[i].outsideDebt == 0
  {
  }

  lemma RepayAccurate(m: Market, a: Accounts, k: Key, amount: U64, clock: Clock)
    requires ValidMarket(m) && Ready(a.reserves, a.o) && RepayLiquidity(m, a, k, amount, clock).Ok?
    ensures Accurate(RepayLiquidity(m, a, k, amount, clock).value.0.o)
  {
    hide Covers, Settles, ValidPool, TakeBack, TrackLess, WithLessDebt, NeedOrdersSupported, PostRepay, CalculateRepay, AccruedDebt;
    hide WellFormed, Backed, InStep, ExactlyTracked, PositionOfBorrow, Accurate, Ceil;
    var r := a.reserves[k];
    FreshMeansNow(r.lastUpdate, clock.slot, NONE);
    FreshMeansNow(a.o.lastUpdate, clock.slot, NONE);
    var i := PositionOfBorrow(a.o.borrows, k).value;
    PoolHasNoZero(a.reserves);
    FreshDebtIsCurrent(a.reserves, a.o, i, clock.slot, NONE);
    var quote := CalculateRepay(amount, a.o.borrows[i].borrowed).value;
    WholeRepay(quote, amount, a.o.borrows[i].borrowed);
    assert a.o.(borrows := a.o.borrows[i := a.o.borrows[i]]) == a.o;
    TakeBackLeaves(r, clock, quote);
    var taken := TakeBack(r, clock, quote).value;
    var rs1 := a.reserves[k := taken];
    ReserveMoves(a.reserves, a.o, k, taken);
    SettlesPools(a.reserves, a.o, rs1, a.o);
    SettlesCovers(a.reserves, a.o, rs1, a.o);
    TrackLessLengths(Accounts(rs1, a.o), k, i, quote.repay);
    var t := TrackLess(Accounts(rs1, a.o), k, i, quote.repay).value;
    SettledDebtAccurate(rs1, a.o, k, i, quote.repay, quote.settle, t.o.deposits);
    LessDebtKeepsDeposits(t.o, i, quote.settle);
  }

  lemma LessDebtKeepsDeposits(o: Obligation, i: nat, settle: Fraction)
    requires i < |o.borrows| && WithLessDebt(o, i, settle).Ok?
    ensures var o' := WithLessDebt(o, i, settle).value; o'.deposits == o.deposits && o'.(deposits := o.deposits) == o'
  {
  }

  lemma SocializeAccurate(a: Accounts, k: Key, amount: U64, slot: U64)
    requires Ready(a.reserves, a.o) && SocializeLoss(a, k, amount, slot).Ok?
    ensures Accurate(SocializeLoss(a, k, amount, slot).value.o)
  {
    hide Covers, Settles, ValidPool, TrackLess, WithLessDebt, Forgive, WellFormed, Backed, InStep, ExactlyTracked, Accurate, Ceil;
    FreshMeansNow(a.o.lastUpdate, slot, ALL_CHECKS);
    var i := PositionOfBorrow(a.o.borrows, k).value;
    var forgiven: Fraction := Min(FromInt(amount), a.o.borrows[i].borrowed);
    var whole := ToCeil(forgiven).value;
    TrackLessLengths(a, k, i, whole);
    var t := TrackLess(a, k, i, whole).value;
    SettledDebtAccurate(a.reserves, a.o, k, i, whole, forgiven, t.o.deposits);
    LessDebtKeepsDeposits(t.o, i, forgiven);
    OrdersAreNotTracked(WithLessDebt(t.o, i, forgiven).value, SocializeLoss(a, k, amount, slot).value.o.orders);
  }

  lemma OrdersAreNotTracked(o: Obligation, orders: seq<Order>)
    requires Accurate(o)
    ensures Accurate(o.(orders := orders))
  {
  }

  lemma LiquidateAccurate(m: Market, a: Accounts, debtKey: Key, collateralKey: Key, amount: U64, minReceived: U64, clock: Clock)
    requires ValidMarket(m) && Ready(a.reserves, a.o) && Liquidate(m, a, debtKey, collateralKey, amount, minReceived, clock).Ok?
    ensures Accurate(Liquidate(m, a, debtKey, collateralKey, amount, minReceived, clock).value.0.o)
  {
    hide Covers, Settles, ValidPool, TrackLess, WithLessDebt, TakeBackInLiquidation, WellFormed, Backed, InStep, ExactlyTracked;
    hide LiquidationOf, WithdrawnSlot, TrackFullWithdraw, Refreshed, RedeemableNow, RedeemForLiquidator, OrdersSettled, Accurate, Ceil;
    var l := LiquidationOf(m, a.o, debtKey, a.reserves[debtKey], collateralKey, a.reserves[collateralKey], amount, clock).value;
    LiquidationMeans(m, a.o, debtKey, a.reserves[debtKey], collateralKey, a.reserves[collateralKey], amount, clock);
    var repay, settle, withdraw := l.quote.amounts.repay, l.quote.amounts.settle, l.quote.amounts.withdraw;
    TrackLessLengths(a, debtKey, l.borrowIndex, repay);
    var t := TrackLess(a, debtKey, l.borrowIndex, repay).value;
    LessDebtKeepsDeposits(t.o, l.borrowIndex, settle);
    var d := WithdrawnSlot(t.o.deposits[l.depositIndex], withdraw).value;
    WithdrawnShrinks(t.o.deposits, l.depositIndex, withdraw);
    SettledDebtAccurate(a.reserves, a.o, debtKey, l.borrowIndex, repay, settle, t.o.deposits[l.depositIndex := d]);
    var o2 := WithLessDebt(t.o, l.borrowIndex, settle).value.(deposits := t.o.deposits[l.depositIndex := d]);
    OrdersSettledMeans(o2, l.quote.params.reason, repay);
    OrdersAreNotTracked(o2, OrdersSettled(o2, l.quote.params.reason, repay).value.orders);
  }

  lemma WithdrawnShrinks(ds: seq<Deposit>, j: nat, amount: U64)
    requires j < |ds| && WithdrawnSlot(ds[j], amount).Ok?
    ensures Shrunk(ds, ds[j := WithdrawnSlot(ds[j], amount).value])
  {
  }

  // ---- deposits, withdrawals, groups --------------------------------------

  /** The debt a new deposit starts out with is the obligation's whole debt. */
  lemma {:induction false} SingleTokenIsWhole(bs: seq<Borrow>)
    requires CountBorrows(bs) <= 1 && forall i :: 0 <= i < |bs| && !bs[i].Active() ==> bs[i].borrowed == 0
    ensures Ceil(SumBorrowed(bs)) == WholeDebt(bs)
    ensures CountBorrows(bs) == 0 ==> SumBorrowed(bs) == 0
  {
    if bs == [] {
    } else {
      SingleTokenIsWhole(bs[..|bs| - 1]);
    }
  }

  /** A fresh obligation's deposits stay exactly tracked when one of them grows or a new
      one joins. */
  lemma DepositAccurate(m: Market, a: Accounts, k: Key, amount: U64, slot: U64, checkCount: bool)
    requires ValidMarket(m) && Ready(a.reserves, a.o) && DepositCollateral(m, a, k, amount, slot, checkCount).Ok?
    ensures Accurate(DepositCollateral(m, a, k, amount, slot, checkCount).value.o)
  {
    hide Covers, Settles, NeedOrdersSupported, LiquidityOf, PostDeposit, SlotForDeposit, SingleTokenDebt, NeedFresh, NeedSameGroup,
         NeedNotMarked, GoodDeposits, GoodBorrows, Backed, InStep, Ceil, WellFormed, ValidPool, ExactlyTracked, Accurate;
    GroupIds(m, a.o.group);
    FreshMeansNow(a.o.lastUpdate, slot, NONE);
    var g := UsableElevationGroup(m, a.o.group).value;
    var r := a.reserves[k];
    var debt := SingleTokenDebt(a.o.borrows).value;
    var place := SlotForDeposit(g, r, a.o, k, debt, checkCount).value;
    PoolHasNoZero(a.reserves);
    if g.Some? { NewSlotRecords(g, r, a.o, k, debt, checkCount); }
    var d := place.1.(amount := place.1.amount + amount);
    DepositReplaced(a.o, place.0, d);
  }

  lemma NewSlotRecords(g: Option<ElevationGroup>, r: Reserve, o: Obligation, k: Key, debt: Option<U64>, checkCount: bool)
    requires WellFormed(o) && ExactlyTracked(o) && !o.lastUpdate.stale && g.Some? && o.group > 0
    requires k != 0 && SingleTokenDebt(o.borrows) == Ok(debt) && SlotForDeposit(g, r, o, k, debt, checkCount).Ok?
    ensures SlotForDeposit(g, r, o, k, debt, checkCount).value.1.groupDebt == WholeDebt(o.borrows)
  {
    hide Ceil;
    forall i | 0 <= i < |o.borrows| && !o.borrows[i].Active() ensures o.borrows[i].borrowed == 0 { assert GoodBorrow(o.borrows[i]); }
    if CountBorrows(o.borrows) <= 1 { SingleTokenIsWhole(o.borrows); }
  }

  lemma DepositReplaced(o: Obligation, i: nat, d: Deposit)
    requires ExactlyTracked(o) && !o.lastUpdate.stale && i < |o.deposits|
    requires o.group > 0 && d.Active() ==> d.groupDebt == WholeDebt(o.borrows)
    ensures Accurate(Touched(o.(deposits := o.deposits[i := d])))
  {
  }

  lemma WithdrawAccurate(m: Market, a: Accounts, k: Key, amount: U64, slot: U64, check: WithdrawalCheck)
    requires ValidMarket(m) && Ready(a.reserves, a.o) && WithdrawCollateral(m, a, k, amount, slot, check).Ok?
    ensures Accurate(WithdrawCollateral(m, a, k, amount, slot, check).value.0.o)
  {
    hide Covers, WithdrawalOf, LiquidityOf, PostWithdraw, TrackFullWithdraw, GoodBorrows, GoodDeposits, Backed, InStep, ValidPool;
    var w := WithdrawalOf(m, a, a.reserves[k], k, amount, slot, check).value;
    WithdrawnShrinks(a.o.deposits, w.index, w.amount);
  }

  lemma RequestAccurate(m: Market, a: Accounts, newGroup: nat, slot: U64)
    requires ValidMarket(m) && Ready(a.reserves, a.o) && RequestElevationGroup(m, a, newGroup, slot).Ok?
    ensures Accurate(RequestElevationGroup(m, a, newGroup, slot).value.o)
  {
    hide ResetTrackers, RefreshBorrows, RefreshDeposits, NeedGroupLimits, LoanToValue, Ready, Keeps, Accurate, TrackedOutside,
         TrackedAgainst, UsableElevationGroup, NeedRefreshedAndBacked, NeedLtvNotWorse, ValidMarket;
    RequestKeeps(m, a, newGroup, slot);
    TrackedIsAccurate(RequestElevationGroup(m, a, newGroup, slot).value.o);
  }

  lemma TrackedIsAccurate(o: Obligation)
    requires if o.group == ELEVATION_GROUP_NONE then TrackedOutside(o.borrows) else TrackedAgainst(o.deposits, WholeDebt(o.borrows))
    ensures Accurate(o)
  {
  }

  // ---- runs ---------------------------------------------------------------

  lemma ActAccurate(m: Market, a: Accounts, clock: Clock, action: Action)
    requires ValidMarket(m) && Ready(a.reserves, a.o) && Accurate(a.o) && Act(m, a, clock, action).Ok?
    ensures Accurate(Act(m, a, clock, action).value.o)
  {
    hide Ready, RefreshObligation, DepositCollateral, WithdrawCollateral, BorrowLiquidity, RepayLiquidity,
         RequestElevationGroup, Liquidate, SocializeLoss, Accurate, ValidateOrder, Supported, Keeps;
    match action {
      case Refresh(checkCount) =>
        RefreshKeeps(m, a, clock.slot, checkCount);
        KeptIsAccurate(a.reserves, a.o, RefreshObligation(m, a, clock.slot, checkCount).value);
      case DepositInto(k, amount, checkCount) => DepositAccurate(m, a, k, amount, clock.slot, checkCount);
      case WithdrawFrom(k, amount, check) => WithdrawAccurate(m, a, k, amount, clock.slot, check);
      case BorrowFrom(k, amount) => BorrowAccurate(m, a, k, amount, clock);
      case RepayTo(k, amount) => RepayAccurate(m, a, k, amount, clock);
      case RequestGroup(group) => RequestAccurate(m, a, group, clock.slot);
      case LiquidateWith(debtKey, collateralKey, amount, minReceived) =>
        LiquidateAccurate(m, a, debtKey, collateralKey, amount, minReceived, clock);
      case Socialize(k, amount) => SocializeAccurate(a, k, amount, clock.slot);
      case PlaceOrder(index, order) => OrdersAreNotTracked(a.o, SetOrder(m, a.o, index, order).value.orders);
      case Mark(pct) => MarkIsNotTracked(m, a.o, pct, clock.timestamp);
    }
  }

  lemma KeptIsAccurate(rs: Pool, o: Obligation, a: Accounts)
    requires Keeps(rs, o, a) && !a.o.lastUpdate.stale
    ensures Accurate(a.o)
  {
    ExactIsAccurate(a.reserves, a.o);
  }

  lemma MarkIsNotTracked(m: Market, o: Obligation, pct: U8, timestamp: U64)
    requires Accurate(o) && MarkForDeleveraging(m, o, pct, timestamp).Ok?
    ensures Accurate(MarkForDeleveraging(m, o, pct, timestamp).value)
  {
  }

  ghost predicate AllAccurate(os: seq<Obligation>) {
    forall i :: 0 <= i < |os| ==> Accurate(os[i])
  }

  lemma StepKeepsAccuracy(s: State, e: Event)
    requires ValidState(s) && AllAccurate(s.obligations) && ValidMarket(e.market) && Next(s, e).Ok?
    ensures AllAccurate(Next(s, e).value.obligations)
  {
    hide ValidState, Act, Single.Perform, Accurate, NewObligation, Ready;
    match e.step {
      case Open(referrer, orders) => BlankIsAccurate(referrer, orders, e.clock.slot);
      case OnReserve(_, _) =>
      case OnObligation(i, action) =>
        ConservedCovers(s, i);
        ActAccurate(e.market, Accounts(s.reserves, s.obligations[i]), e.clock, action);
    }
  }

  lemma BlankIsAccurate(referrer: Option<nat>, orders: nat, slot: U64)
    ensures Accurate(NewObligation(referrer, orders, slot))
  {
  }

  /** Over every run, what each obligation records is within one token of the debts it
      carries: borrowing rounds its trackers up by at most one, repaying, liquidation and
      socializing round them down by at most one, and the next refresh makes them exact. */
  lemma {:induction false} RunsKeepTrackersAccurate(s: State, es: seq<Event>)
    requires ValidState(s) && AllAccurate(s.obligations) && ValidMarkets(es) && Run(s, es).Ok?
    ensures AllAccurate(Run(s, es).value.obligations)
  {
    hide ValidState, AllAccurate, Next;
    if es == [] {
    } else {
      var front := es[..|es| - 1];
      RunsKeepTrackersAccurate(s, front);
      RunsConserveTrackers(s, front);
      StepKeepsAccuracy(Run(s, front).value, es[|es| - 1]);
    }
  }
}
