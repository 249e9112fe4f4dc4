/** What every accepted operation on an obligation has been checked for, and what it leaves
    behind: deposits, withdrawals, borrows, repays, liquidations, socialized losses and
    deleveraging marks. */
module AcceptedOperations {
  import opened Results
  import opened Arithmetic
  import opened FixedPoint
  import opened LastUpdates
  import opened WithdrawalCaps
  import opened Reserves
  import opened ReserveOperations
  import opened ExchangeRate
  import opened Fees
  import opened Markets
  import opened Obligations
  import opened Orders
  import opened Positions
  import opened Liquidation
  import opened MarketOperations
  import opened ReserveEffects
  import opened GroupSwitches
  import opened MarketOutcomes

  // ---- orders and slots ---------------------------------------------------

  /** Every order still fits the obligation. */
  ghost predicate OrdersFit(o: Obligation) {
    forall j :: 0 <= j < |o.orders| ==> Fits(o.orders[j], o)
  }

  lemma {:induction false} OrdersSupported(o: Obligation, n: nat)
    requires n <= |o.orders| && AllSupported(o, n).Ok?
    ensures forall j :: 0 <= j < n ==> Fits(o.orders[j], o)
  {
    hide Supported, Fits;
    if n == 0 {
    } else {
      OrdersSupported(o, n - 1);
      SupportedMeans(o.orders[n - 1], o);
    }
  }

  /** The same orders on slots of the same reserves. */
  ghost predicate SameSlots(o: Obligation, o': Obligation) {
    && o'.orders == o.orders && |o'.borrows| == |o.borrows| && |o'.deposits| == |o.deposits|
    && (forall j :: 0 <= j < |o.borrows| ==> o'.borrows[j].reserve == o.borrows[j].reserve)
    && (forall j :: 0 <= j < |o.deposits| ==> o'.deposits[j].reserve == o.deposits[j].reserve)
  }

  lemma {:induction false} SameDepositCounts(ds: seq<Deposit>, ds': seq<Deposit>)
    requires |ds'| == |ds| && forall j :: 0 <= j < |ds| ==> ds'[j].reserve == ds[j].reserve
    ensures CountDeposits(ds') == CountDeposits(ds)
  {
    if ds == [] {
    } else {
      SameDepositCounts(ds[..|ds| - 1], ds'[..|ds'| - 1]);
    }
  }

  lemma FitCarries(o: Obligation, o': Obligation)
    requires OrdersFit(o) && SameSlots(o, o')
    ensures OrdersFit(o')
  {
    SameCounts(o.borrows, o'.borrows);
    SameDepositCounts(o.deposits, o'.deposits);
    forall j | 0 <= j < |o'.orders| ensures Fits(o'.orders[j], o') { assert Fits(o.orders[j], o); }
  }

  /** Nothing, or at least the market's minimum, is left in a slot. */
  predicate NotDust(value: int, minNet: Fraction) {
    value == 0 || value >= minNet
  }

  /** The obligation's group is none, or one the reserve belongs to and that is in use. */
  predicate SameGroup(m: Market, o: Obligation, r: Reserve) {
    && UsableElevationGroup(m, o.group).Ok?
    && (o.group != 0 ==> o.group in r.config.elevationGroups)
  }

  // ---- deposit ------------------------------------------------------------

  /** An accepted deposit of collateral tokens: the slot of the reserve grows by them, or a
      free one is taken, which in a group must be open to it. */
  lemma AcceptedDeposit(m: Market, a: Accounts, k: Key, amount: U64, slot: U64, checkCount: bool) returns (i: nat)
    requires DepositCollateral(m, a, k, amount, slot, checkCount).Ok?
    ensures k in a.reserves && amount > 0 && i < |a.o.deposits|
    ensures var o, r := a.o, a.reserves[k];
      && Fresh(r.lastUpdate, slot, NONE) && Fresh(o.lastUpdate, slot, NONE) && SameGroup(m, o, r)
      && (r.config.disableUsageAsCollOutsideEmode && o.group == 0 ==> o.values.adjustedDebt == 0)
      && (LiquidationThresholdPct(r.config, UsableElevationGroup(m, o.group).value) == 0 ==> o.marginCallStartedAt == 0)
    ensures var o, r, o', r' := a.o, a.reserves[k], DepositCollateral(m, a, k, amount, slot, checkCount).value.o,
                                DepositCollateral(m, a, k, amount, slot, checkCount).value.reserves[k];
      var newSlot := o.deposits[i].reserve != k; var g := UsableElevationGroup(m, o.group).value;
      && (newSlot ==> o.deposits[i].reserve == 0 && forall j :: 0 <= j < |o.deposits| ==> o.deposits[j].reserve != k)
      && (newSlot && g.Some? ==>
            && g.value.debtReserve != k && CountBorrows(o.borrows) <= 1
            && (checkCount ==> CountDeposits(o.deposits) + 1 <= g.value.maxReservesAsCollateral))
      && |o'.deposits| == |o.deposits| && o'.deposits == o.deposits[i := o'.deposits[i]]
      && o'.deposits[i].reserve == k && o'.deposits[i].amount == (if newSlot then 0 else o.deposits[i].amount) + amount
      && o' == o.(deposits := o'.deposits, lastUpdate := o.lastUpdate.(stale := true)) && OrdersFit(o')
      && DepositCollateral(m, a, k, amount, slot, checkCount).value.reserves == a.reserves[k := r']
      && r' == r.(lastUpdate := r.lastUpdate.(stale := true), groupDebts := r'.groupDebts)
      && CollateralValue(r, amount).Ok?
      && NotDust((if newSlot then 0 else o.deposits[i].marketValue) + CollateralValue(r, amount).value, m.minNetValue)
  {
    hide UsableElevationGroup, SingleTokenDebt, SlotForDeposit, NeedOrdersSupported, LiquidityOf, MarketValue, Div, LoanToValue, Fits;
    var r := a.reserves[k];
    FreshMeansNow(r.lastUpdate, slot, NONE);
    FreshMeansNow(a.o.lastUpdate, slot, NONE);
    var g := UsableElevationGroup(m, a.o.group).value;
    var debt := SingleTokenDebt(a.o.borrows).value;
    var place := SlotForDeposit(g, r, a.o, k, debt, checkCount).value;
    i := place.0;
    PlaceForDeposit(g, r, a.o, k, checkCount);
    var o' := DepositCollateral(m, a, k, amount, slot, checkCount).value.o;
    OrdersOfAll(o');
    SameValue(r, Stale(place.2), amount);
  }

  lemma OrdersOfAll(o: Obligation)
    requires NeedOrdersSupported(o).Ok?
    ensures OrdersFit(o)
  {
    OrdersSupported(o, |o.orders|);
  }

  lemma SameValue(r: Reserve, r': Reserve, amount: U64)
    requires r'.liquidity == r.liquidity && r'.collateralSupply == r.collateralSupply
    ensures LiquidityOf(r', amount) == LiquidityOf(r, amount) && CollateralValue(r', amount) == CollateralValue(r, amount)
  {
    hide TotalSupply, FractionCollateralToLiquidity, MarketValue;
  }

  lemma PlaceForDeposit(g: Option<ElevationGroup>, r: Reserve, o: Obligation, k: Key, checkCount: bool)
    requires SingleTokenDebt(o.borrows).Ok? && SlotForDeposit(g, r, o, k, SingleTokenDebt(o.borrows).value, checkCount).Ok?
    ensures var place := SlotForDeposit(g, r, o, k, SingleTokenDebt(o.borrows).value, checkCount).value;
      var d := o.deposits[place.0]; var newSlot := d.reserve != k;
      && place.1.reserve == k && place.2 == r.(groupDebts := place.2.groupDebts)
      && (newSlot ==> d.reserve == 0 && place.1.amount == 0 && place.1.marketValue == 0)
      && (newSlot ==> forall j :: 0 <= j < |o.deposits| ==> o.deposits[j].reserve != k)
      && (!newSlot ==> place.1 == d)
      && (newSlot && g.Some? ==>
            && g.value.debtReserve != k && CountBorrows(o.borrows) <= 1
            && (checkCount ==> CountDeposits(o.deposits) + 1 <= g.value.maxReservesAsCollateral))
  {
  }

  // ---- withdraw -----------------------------------------------------------

  /** An accepted withdrawal of collateral tokens: from a fresh reserve and obligation, whose
      prices must all have been checked while there is debt; the slot loses exactly what is
      handed out, and an emptied one is blank. */
  lemma AcceptedWithdraw(m: Market, a: Accounts, k: Key, amount: U64, slot: U64, check: WithdrawalCheck) returns (i: nat)
    requires WithdrawCollateral(m, a, k, amount, slot, check).Ok?
    ensures k in a.reserves && amount > 0 && i < |a.o.deposits| && a.o.deposits[i].reserve == k
    ensures UsableElevationGroup(m, a.o.group).Ok?
    ensures var o, r, d := a.o, a.reserves[k], a.o.deposits[i]; var g := UsableElevationGroup(m, o.group).value;
      var needed := if NoActiveBorrows(o.borrows) then NONE else ALL_CHECKS;
      && Fresh(r.lastUpdate, slot, needed) && Fresh(o.lastUpdate, slot, needed) && d.amount > 0
      && (!NoActiveBorrows(o.borrows) && g.Some? ==> g.value.allowNewLoans)
      && (o.values.obsoleteBorrows > 0 || o.values.obsoleteDeposits > 0 ==> r.config.obsolete)
    ensures var o, r, d := a.o, a.reserves[k], a.o.deposits[i]; var out := WithdrawCollateral(m, a, k, amount, slot, check).value;
      var g := UsableElevationGroup(m, o.group).value; var o', r' := out.0.o, out.0.reserves[k];
      && WithdrawSize(o.values, d, NoActiveBorrows(o.borrows), amount, MaxLtvPct(r.config, g), LiquidationThresholdPct(r.config, g),
                      check) == Ok(out.1)
      && out.1 <= d.amount
      && o' == o.(deposits := o.deposits[i := if out.1 == d.amount then NO_DEPOSIT else d.(amount := d.amount - out.1)],
                  lastUpdate := o.lastUpdate.(stale := true))
      && out.0.reserves == a.reserves[k := r'] && r' == r.(groupDebts := r'.groupDebts)
      && (out.1 < d.amount ==> r' == r)
      && CollateralValue(r, out.1).Ok?
      && (d.marketValue > 0 && out.1 < d.amount ==> NotDust(d.marketValue - CollateralValue(r, out.1).value, m.minNetValue))
  {
    hide WithdrawSize, LiquidityOf, MarketValue, UsableElevationGroup, PositionOfDeposit, Div, Mul, MaxLtvPct, LiquidationThresholdPct;
    var needed := if NoActiveBorrows(a.o.borrows) then NONE else ALL_CHECKS;
    var r := a.reserves[k];
    FreshMeansNow(r.lastUpdate, slot, needed);
    FreshMeansNow(a.o.lastUpdate, slot, needed);
    var w := WithdrawalOf(m, a, r, k, amount, slot, check).value;
    i := w.index;
    SameValue(r, WithdrawCollateral(m, a, k, amount, slot, check).value.0.reserves[k], w.amount);
  }

  // ---- borrow -------------------------------------------------------------

  /** What a borrow demands of the market, the reserve and the obligation. */
  predicate MayBorrow(m: Market, o: Obligation, r: Reserve, amount: U64, slot: U64) {
    && amount > 0 && !m.borrowDisabled
    && Fresh(r.lastUpdate, slot, ALL_CHECKS) && Fresh(o.lastUpdate, slot, ALL_CHECKS)
    && o.marginCallStartedAt == 0 && o.values.obsoleteBorrows == 0 && o.values.obsoleteDeposits == 0
    && !NoActiveDeposits(o.deposits) && o.values.deposited > 0 && o.values.adjustedDebt < o.values.allowedBorrow
    && (amount != MAX_U64 ==> amount * ONE + r.liquidity.borrowed <= r.config.borrowLimit * ONE)
    && r.liquidity.borrowed < r.config.borrowLimit * ONE
    && SameGroup(m, o, r)
    && (UsableElevationGroup(m, o.group).value.Some? ==> UsableElevationGroup(m, o.group).value.value.allowNewLoans)
    && (o.group == 0 ==> !o.values.borrowingDisabled)
  }

  lemma BorrowChecked(m: Market, a: Accounts, r: Reserve, amount: U64, slot: U64)
    requires BorrowQuoteOf(m, a, r, amount, slot).Ok?
    ensures MayBorrow(m, a.o, r, amount, slot)
    ensures BorrowQuoteOf(m, a, r, amount, slot)
      == CalculateBorrow(r, amount, a.o.values.allowedBorrow - a.o.values.adjustedDebt, r.config.borrowLimit * ONE - r.liquidity.borrowed,
                         m.referralFeeBps, a.o.group != 0, a.o.referrer.Some?)
  {
    hide CalculateBorrow, UtilizationRate, UsableElevationGroup;
    FreshMeansNow(r.lastUpdate, slot, ALL_CHECKS);
    FreshMeansNow(a.o.lastUpdate, slot, ALL_CHECKS);
  }

  /** The recorded debts stay within the reserves' limits. */
  ghost predicate BorrowLimitsKept(rs: Pool, o: Obligation, k: Key) {
    if o.group == 0 then k in rs && rs[k].outsideDebt <= rs[k].config.borrowLimitOutsideElevationGroup
    else forall j :: 0 <= j < |o.deposits| && o.deposits[j].Active() ==>
      o.deposits[j].reserve in rs && WithinGroupLimit(rs[o.deposits[j].reserve], o.group)
  }

  lemma {:induction false} RaisedWithinLimits(rs: Pool, ds: seq<Deposit>, index: nat, amount: U64, n: nat)
    requires n <= |ds| && MoveDepositsUpTo(rs, ds, index, More(amount), n).Ok?
    ensures var p := MoveDepositsUpTo(rs, ds, index, More(amount), n).value;
      && (forall j :: 0 <= j < n && ds[j].Active() ==>
            ds[j].reserve in p.reserves && WithinGroupLimit(p.reserves[ds[j].reserve], index + 1))
      && (forall j :: 0 <= j < |ds| ==> p.deposits[j].reserve == ds[j].reserve)
  {
    if n == 0 {
    } else {
      RaisedWithinLimits(rs, ds, index, amount, n - 1);
    }
  }

  lemma TrackedWithinLimits(a: Accounts, k: Key, i: nat, g: Option<ElevationGroup>, amount: U64)
    requires i < |a.o.borrows| && TrackMore(a, k, i, g, amount).Ok?
    requires if g.Some? then g.value.id == a.o.group > 0 else a.o.group == 0
    ensures var t := TrackMore(a, k, i, g, amount).value;
      && BorrowLimitsKept(t.reserves, t.o, k) && (g.Some? ==> g.value.debtReserve == k)
      && |t.o.borrows| == |a.o.borrows|
      && t.o.borrows == a.o.borrows[i := a.o.borrows[i].(outsideDebt := t.o.borrows[i].outsideDebt)]
      && t.o == a.o.(borrows := t.o.borrows, deposits := t.o.deposits) && SameSlots(a.o, t.o)
  {
    hide MoveDepositsUpTo, WithinGroupLimit;
    if g.Some? { RaisedWithinLimits(a.reserves, a.o.deposits, g.value.id - 1, amount, |a.o.deposits|); }
  }

  lemma NewDebtPlaced(o: Obligation, k: Key, rate: U256, debt: Fraction)
    requires WithNewDebt(o, k, rate, debt).Ok? && k != 0
    ensures var n := WithNewDebt(o, k, rate, debt).value; var was, b := o.borrows[n.0], n.1.borrows[n.0];
      var newSlot := was.reserve != k;
      && n.0 < |o.borrows| && |n.1.borrows| == |o.borrows|
      && (newSlot ==> was.reserve == 0 && b == Borrow(k, rate, debt, 0, 0, 0))
      && (!newSlot ==> b == was.(borrowed := was.borrowed + debt))
      && n.1 == o.(borrows := o.borrows[n.0 := b], hasDebt := true, lastUpdate := o.lastUpdate.(stale := true))
  {
  }

  /** An accepted borrow: allowed as above, sized by the reserve, and booked on both sides:
      the slot and the reserve's debt grow by the same amount; the utilization, the limits
      on recorded debt and the minimum value of a slot are kept. */
  lemma AcceptedBorrow(m: Market, a: Accounts, k: Key, amount: U64, clock: Clock) returns (i: nat)
    requires ValidMarket(m) && 0 !in a.reserves && BorrowLiquidity(m, a, k, amount, clock).Ok?
    ensures k in a.reserves && MayBorrow(m, a.o, a.reserves[k], amount, clock.slot) && i < |a.o.borrows|
    ensures BorrowQuoteOf(m, a, a.reserves[k], amount, clock.slot).Ok?
    ensures BorrowQuoteOf(m, a, a.reserves[k], amount, clock.slot)
      == CalculateBorrow(a.reserves[k], amount, a.o.values.allowedBorrow - a.o.values.adjustedDebt,
                         a.reserves[k].config.borrowLimit * ONE - a.reserves[k].liquidity.borrowed,
                         m.referralFeeBps, a.o.group != 0, a.o.referrer.Some?)
    ensures LendOut(a.reserves[k], clock, BorrowQuoteOf(m, a, a.reserves[k], amount, clock.slot).value, a.o.referrer, m.referralFeeBps).Ok?
    ensures var o, r := a.o, a.reserves[k]; var q := BorrowQuoteOf(m, a, r, amount, clock.slot).value;
      var a' := BorrowLiquidity(m, a, k, amount, clock).value; var o' := a'.o; var newSlot := o.borrows[i].reserve != k;
      && |o'.borrows| == |o.borrows| && (forall j :: 0 <= j < |o.borrows| && j != i ==> o'.borrows[j] == o.borrows[j])
      && o'.borrows[i].reserve == k && (newSlot ==> o.borrows[i].reserve == 0)
      && o'.borrows[i].borrowed == (if newSlot then 0 else o.borrows[i].borrowed) + q.borrowAmount
      && o'.borrows[i].cumulativeRate == (if newSlot then r.liquidity.cumulativeRate else o.borrows[i].cumulativeRate)
      && k in a'.reserves && OnlyTrackers(LendOut(r, clock, q, o.referrer, m.referralFeeBps).value, a'.reserves[k])
      && o'.lastUpdate.stale && o'.hasDebt && OrdersFit(o')
      && BorrowLimitsKept(a'.reserves, o', k)
      && UtilizationRate(a'.reserves[k].liquidity).Ok?
      && (r.config.utilizationLimitPct != 0 ==>
            UtilizationRate(a'.reserves[k].liquidity).value < FromPercent(r.config.utilizationLimitPct))
      && MarketValue(r.liquidity, q.borrowAmount).Ok?
      && NotDust((if newSlot then 0 else o.borrows[i].marketValue) + MarketValue(r.liquidity, q.borrowAmount).value, m.minNetValue)
  {
    hide BorrowQuoteOf, CalculateBorrow, LendOut, WithNewDebt, TrackMore, NeedOrdersSupported, PostBorrow, MayBorrow, MarketValue,
         UtilizationRate, OnlyTrackers, BorrowLimitsKept, FromPercent, OrdersFit, SameSlots;
    var r := a.reserves[k];
    BorrowChecked(m, a, r, amount, clock.slot);
    var q := BorrowQuoteOf(m, a, r, amount, clock.slot).value;
    var r' := LendOut(r, clock, q, a.o.referrer, m.referralFeeBps).value;
    LentRate(r, clock, q, a.o.referrer, m.referralFeeBps);
    var place := WithNewDebt(a.o, k, r'.liquidity.cumulativeRate, q.borrowAmount).value;
    NewDebtPlaced(a.o, k, r'.liquidity.cumulativeRate, q.borrowAmount);
    i := place.0;
    var before := Accounts(a.reserves[k := r'], place.1);
    var g := ElevationGroupOf(m, place.1.group).value;
    GroupOfBorrower(m, a.o, r, amount, clock.slot);
    var whole := ToCeil(q.borrowAmount).value;
    TrackedWithinLimits(before, k, i, g, whole);
    TrackMoreTouches(before, k, i, g, whole);
    var t := TrackMore(before, k, i, g, whole).value;
    PostBorrowLeaves(place.1.values, t.reserves[k], q.borrowAmount, a.o.group != 0, t.o.borrows[i].marketValue, m.minNetValue);
    TrackersDoNotCount(r, r', t.reserves[k], q.borrowAmount);
    OrdersOfAll(place.1);
    FitCarries(place.1, t.o);
  }

  lemma LentRate(r: Reserve, clock: Clock, q: BorrowQuote, referrer: Option<nat>, bps: U16)
    requires LendOut(r, clock, q, referrer, bps).Ok?
    ensures var r' := LendOut(r, clock, q, referrer, bps).value;
      && r'.liquidity.cumulativeRate == r.liquidity.cumulativeRate && r'.config == r.config
      && r'.liquidity.price == r.liquidity.price && r'.liquidity.decimals == r.liquidity.decimals
  {
    hide LendOut, Accumulate;
    LentOut(r, clock, q, referrer, bps);
  }

  lemma GroupOfBorrower(m: Market, o: Obligation, r: Reserve, amount: U64, slot: U64)
    requires ValidMarket(m) && MayBorrow(m, o, r, amount, slot)
    ensures ElevationGroupOf(m, o.group) == UsableElevationGroup(m, o.group)
    ensures var g := UsableElevationGroup(m, o.group).value; if g.Some? then g.value.id == o.group > 0 else o.group == 0
  {
  }

  lemma PostBorrowLeaves(v: Values, r: Reserve, amount: Fraction, inGroup: bool, slotValue: Fraction, minNet: Fraction)
    requires PostBorrow(v, r, amount, inGroup, slotValue, minNet).Ok?
    ensures MarketValue(r.liquidity, amount).Ok? && NotDust(slotValue + MarketValue(r.liquidity, amount).value, minNet)
  {
    hide MarketValue, BorrowFactor, Mul, Div;
  }

  lemma TrackersDoNotCount(r: Reserve, r': Reserve, r'': Reserve, amount: Fraction)
    requires r'.liquidity.price == r.liquidity.price && r'.liquidity.decimals == r.liquidity.decimals && r'.config == r.config
    requires OnlyTrackers(r', r'')
    ensures MarketValue(r''.liquidity, amount) == MarketValue(r.liquidity, amount)
    ensures UtilizationRate(r''.liquidity) == UtilizationRate(r'.liquidity) && r''.config == r.config
  {
    hide UtilizationRate;
  }

  // ---- repay --------------------------------------------------------------

  /** Taking debt off the trackers touches nothing else. */
  lemma TrackLessLeaves(a: Accounts, k: Key, i: nat, amount: U64)
    requires i < |a.o.borrows| && TrackLess(a, k, i, amount).Ok?
    ensures var t := TrackLess(a, k, i, amount).value;
      && t.reserves.Keys == a.reserves.Keys && (forall j :: j in a.reserves ==> OnlyTrackers(a.reserves[j], t.reserves[j]))
      && |t.o.borrows| == |a.o.borrows| && |t.o.deposits| == |a.o.deposits|
      && t.o.borrows == a.o.borrows[i := a.o.borrows[i].(outsideDebt := t.o.borrows[i].outsideDebt)]
      && (forall j :: 0 <= j < |a.o.deposits| ==> t.o.deposits[j] == a.o.deposits[j].(groupDebt := t.o.deposits[j].groupDebt))
      && t.o == a.o.(borrows := t.o.borrows, deposits := t.o.deposits)
  {
    hide MoveDepositsUpTo;
    if a.o.group != ELEVATION_GROUP_NONE {
      MovingTouchesTrackers(a.reserves, a.o.deposits, a.o.group - 1, Less(amount), |a.o.deposits|);
      MovingOnlyRecords(a.reserves, a.o.deposits, a.o.group - 1, Less(amount), |a.o.deposits|);
    }
  }

  /** A debt reduced by what was settled, blank when nothing is left. */
  predicate Settled(b: Borrow, b': Borrow, settle: Fraction) {
    && settle <= b.borrowed
    && (settle == b.borrowed ==> b' == NO_BORROW)
    && (settle < b.borrowed ==> b' == b.(borrowed := b.borrowed - settle, outsideDebt := b'.outsideDebt))
  }

  lemma LessDebtMeans(o: Obligation, i: nat, settle: Fraction)
    requires i < |o.borrows| && WithLessDebt(o, i, settle).Ok?
    ensures var o' := WithLessDebt(o, i, settle).value;
      && |o'.borrows| == |o.borrows| && o'.borrows == o.borrows[i := o'.borrows[i]] && Settled(o.borrows[i], o'.borrows[i], settle)
      && (o'.hasDebt <==> !NoActiveBorrows(o'.borrows))
      && o' == o.(borrows := o'.borrows, hasDebt := o'.hasDebt, lastUpdate := o.lastUpdate.(stale := true))
  {
  }

  lemma PostRepayLeaves(v: Values, r: Reserve, amount: Fraction, inGroup: bool, slotValue: Fraction, minNet: Fraction)
    requires PostRepay(v, r, amount, inGroup, slotValue, minNet).Ok?
    ensures MarketValue(r.liquidity, amount).Ok?
    ensures slotValue > 0 ==> NotDust(slotValue - MarketValue(r.liquidity, amount).value, minNet)
  {
    hide MarketValue, BorrowFactor, Mul, Div, LoanToValue;
  }

  /** An accepted repay: of an accrued debt of a fresh obligation; the slot loses the settled
      part and the reserve takes back what covers it; no dust is left, and orders still fit. */
  lemma AcceptedRepay(m: Market, a: Accounts, k: Key, amount: U64, clock: Clock) returns (i: nat)
    requires RepayLiquidity(m, a, k, amount, clock).Ok?
    ensures k in a.reserves && amount > 0 && i < |a.o.borrows| && a.o.borrows[i].reserve == k && a.o.borrows[i].borrowed > 0
    ensures Fresh(a.reserves[k].lastUpdate, clock.slot, NONE) && Fresh(a.o.lastUpdate, clock.slot, NONE)
    ensures AccruedDebt(a.o.borrows[i], a.reserves[k].liquidity.cumulativeRate).Ok?
    ensures var r := a.reserves[k]; var debt := AccruedDebt(a.o.borrows[i], r.liquidity.cumulativeRate).value;
      var out := RepayLiquidity(m, a, k, amount, clock).value; var o' := out.0.o;
      && CalculateRepay(amount, debt.borrowed).Ok? && var q := CalculateRepay(amount, debt.borrowed).value;
         && out.1 == q.repay && TakeBack(r, clock, q).Ok?
         && k in out.0.reserves && OnlyTrackers(TakeBack(r, clock, q).value, out.0.reserves[k])
         && |o'.borrows| == |a.o.borrows| && (forall j :: 0 <= j < |a.o.borrows| && j != i ==> o'.borrows[j] == a.o.borrows[j])
         && Settled(debt, o'.borrows[i], q.settle)
         && o'.lastUpdate.stale && (o'.hasDebt <==> !NoActiveBorrows(o'.borrows)) && OrdersFit(o')
         && MarketValue(r.liquidity, q.settle).Ok?
         && (q.settle < debt.borrowed && a.o.borrows[i].marketValue > 0 ==>
               NotDust(a.o.borrows[i].marketValue - MarketValue(r.liquidity, q.settle).value, m.minNetValue))
  {
    hide TakeBack, TrackLess, WithLessDebt, NeedOrdersSupported, PostRepay, CalculateRepay, AccruedDebt, PositionOfBorrow, Accumulate,
         OnlyTrackers, OrdersFit, MarketValue, Settled;
    var r := a.reserves[k];
    FreshMeansNow(r.lastUpdate, clock.slot, NONE);
    FreshMeansNow(a.o.lastUpdate, clock.slot, NONE);
    i := PositionOfBorrow(a.o.borrows, k).value;
    var debt := AccruedDebt(a.o.borrows[i], r.liquidity.cumulativeRate).value;
    AccruedOnlyGrows(a.o.borrows[i], r.liquidity.cumulativeRate);
    var q := CalculateRepay(amount, debt.borrowed).value;
    var taken := TakeBack(r, clock, q).value;
    TakenKeepsPrice(r, clock, q);
    var before := Accounts(a.reserves[k := taken], a.o.(borrows := a.o.borrows[i := debt]));
    TrackLessLeaves(before, k, i, q.repay);
    var t := TrackLess(before, k, i, q.repay).value;
    LessDebtMeans(t.o, i, q.settle);
    var o' := WithLessDebt(t.o, i, q.settle).value;
    SettledCarries(debt, t.o.borrows[i], o'.borrows[i], q.settle);
    OrdersOfAll(o');
    PostRepayLeaves(o'.values, t.reserves[k], q.settle, o'.group != 0, o'.borrows[i].marketValue, m.minNetValue);
    SamePricedValue(r, taken, t.reserves[k], q.settle);
    SettledValue(t.o.borrows[i], o'.borrows[i], q.settle);
  }

  lemma SettledValue(b: Borrow, b': Borrow, settle: Fraction)
    requires Settled(b, b', settle)
    ensures settle < b.borrowed ==> b'.marketValue == b.marketValue
  {
  }

  lemma AccruedOnlyGrows(b: Borrow, rate: U256)
    requires AccruedDebt(b, rate).Ok?
    ensures var b' := AccruedDebt(b, rate).value; b'.reserve == b.reserve && b'.marketValue == b.marketValue
  {
  }

  lemma TakenKeepsPrice(r: Reserve, clock: Clock, q: RepayQuote)
    requires TakeBack(r, clock, q).Ok?
    ensures var r' := TakeBack(r, clock, q).value;
      r'.liquidity.price == r.liquidity.price && r'.liquidity.decimals == r.liquidity.decimals
  {
    hide Accumulate;
  }

  lemma SettledCarries(b: Borrow, tracked: Borrow, b': Borrow, settle: Fraction)
    requires tracked == b.(outsideDebt := tracked.outsideDebt) && Settled(tracked, b', settle)
    ensures Settled(b, b', settle)
  {
  }

  lemma SamePricedValue(r: Reserve, r': Reserve, r'': Reserve, amount: Fraction)
    requires r'.liquidity.price == r.liquidity.price && r'.liquidity.decimals == r.liquidity.decimals && OnlyTrackers(r', r'')
    ensures MarketValue(r''.liquidity, amount) == MarketValue(r.liquidity, amount)
  {
  }

  // ---- socialized losses --------------------------------------------------

  /** An accepted loss: of a fresh obligation without collateral, at most its debt; slot and
      reserve lose the same amount, and without debt no order is left. */
  lemma AcceptedLoss(a: Accounts, k: Key, amount: U64, slot: U64) returns (i: nat)
    requires SocializeLoss(a, k, amount, slot).Ok?
    ensures k in a.reserves && i < |a.o.borrows| && a.o.borrows[i].reserve == k
    ensures Fresh(a.reserves[k].lastUpdate, slot, ALL_CHECKS) && Fresh(a.o.lastUpdate, slot, ALL_CHECKS)
    ensures NoActiveDeposits(a.o.deposits) && !NoActiveBorrows(a.o.borrows)
    ensures var r := a.reserves[k]; var a' := SocializeLoss(a, k, amount, slot).value; var o' := a'.o;
      var forgiven := Min(amount * ONE, a.o.borrows[i].borrowed);
      && 0 <= forgiven < TWO_128 && Forgive(r, forgiven).Ok?
      && k in a'.reserves && OnlyTrackers(Forgive(r, forgiven).value, a'.reserves[k])
      && |o'.borrows| == |a.o.borrows| && (forall j :: 0 <= j < |a.o.borrows| && j != i ==> o'.borrows[j] == a.o.borrows[j])
      && Settled(a.o.borrows[i], o'.borrows[i], forgiven)
      && o'.lastUpdate.stale && (o'.hasDebt <==> !NoActiveBorrows(o'.borrows))
      && o'.orders == (if o'.hasDebt then a.o.orders else seq(|a.o.orders|, _ => NO_ORDER))
  {
    hide TrackLess, WithLessDebt, PositionOfBorrow, Settled, NoActiveBorrows, NoActiveDeposits;
    FreshMeansNow(a.reserves[k].lastUpdate, slot, ALL_CHECKS);
    FreshMeansNow(a.o.lastUpdate, slot, ALL_CHECKS);
    i := PositionOfBorrow(a.o.borrows, k).value;
    var forgiven: Fraction := Min(FromInt(amount), a.o.borrows[i].borrowed);
    var whole := ToCeil(forgiven).value;
    TrackLessLeaves(a, k, i, whole);
    var t := TrackLess(a, k, i, whole).value;
    LessDebtMeans(t.o, i, forgiven);
    SettledCarries(a.o.borrows[i], t.o.borrows[i], WithLessDebt(t.o, i, forgiven).value.borrows[i], forgiven);
  }

  // ---- deleveraging marks -------------------------------------------------

  /** Exactly when an obligation is marked: with a target of at most 100%, while not marked
      already, where the market knows a margin call period, and after time zero; the special
      target takes the mark off. Nothing else changes. */
  lemma MarksMean(m: Market, o: Obligation, targetLtvPct: U8, timestamp: U64)
    ensures MarkForDeleveraging(m, o, targetLtvPct, timestamp).Ok? <==>
      targetLtvPct == 255
      || (targetLtvPct <= 100 && o.marginCallStartedAt == 0 && m.individualMarginCallPeriodSecs != 0 && timestamp > 0)
    ensures MarkForDeleveraging(m, o, targetLtvPct, timestamp).Ok? ==>
      MarkForDeleveraging(m, o, targetLtvPct, timestamp).value ==
        if targetLtvPct == 255 then o.(marginCallStartedAt := 0, autodeleverageTargetLtvPct := 0)
        else o.(marginCallStartedAt := timestamp, autodeleverageTargetLtvPct := targetLtvPct)
  {
  }

  // ---- liquidation --------------------------------------------------------

  /** What a liquidation demands before anything is sized. */
  lemma LiquidationChecked(m: Market, o: Obligation, debtKey: Key, debt: Reserve, collateralKey: Key, collateral: Reserve,
                           amount: U64, clock: Clock)
    requires LiquidationOf(m, o, debtKey, debt, collateralKey, collateral, amount, clock).Ok?
    ensures amount > 0 && UsableElevationGroup(m, o.group).Ok?
    ensures Fresh(debt.lastUpdate, clock.slot, LIQUIDATION_CHECKS) && Fresh(collateral.lastUpdate, clock.slot, LIQUIDATION_CHECKS)
            && Fresh(o.lastUpdate, clock.slot, LIQUIDATION_CHECKS)
    ensures o.values.deposited > 0 && o.values.adjustedDebt > 0
    ensures var l := LiquidationOf(m, o, debtKey, debt, collateralKey, collateral, amount, clock).value;
      var b, d := o.borrows[l.borrowIndex], o.deposits[l.depositIndex];
      var pct := LiquidationThresholdPct(collateral.config, UsableElevationGroup(m, o.group).value);
      && pct > 0 && b.reserve == debtKey && b.adjustedValue > 0 && d.reserve == collateralKey && d.marketValue > 0
      && CalculateLiquidation(Inputs(m, collateral, debt, o, clock.timestamp), amount, b, d,
                              debt.config.borrowFactorPct >= o.values.highestBorrowFactorPct, pct <= o.values.lowestLiquidationLtvPct)
         == Ok(l.quote)
  {
    hide CalculateLiquidation, UsableElevationGroup, LiquidationThresholdPct, PositionOfBorrow, PositionOfDeposit;
    FreshMeansNow(debt.lastUpdate, clock.slot, LIQUIDATION_CHECKS);
    FreshMeansNow(collateral.lastUpdate, clock.slot, LIQUIDATION_CHECKS);
    FreshMeansNow(o.lastUpdate, clock.slot, LIQUIDATION_CHECKS);
  }

  /** What settling does: the debt's slot and reserve lose the settled debt for the repaid
      tokens, and the deposit loses the seized tokens. */
  lemma SettlementMeans(a: Accounts, debtKey: Key, l: Liquidated)
    requires debtKey in a.reserves && l.borrowIndex < |a.o.borrows| && l.depositIndex < |a.o.deposits|
    requires SettleLiquidation(a, debtKey, l).Ok?
    ensures var s := SettleLiquidation(a, debtKey, l).value.accounts; var q := l.quote.amounts;
      var r, d := a.reserves[debtKey], a.o.deposits[l.depositIndex];
      && q.withdraw > 0 && q.withdraw <= d.amount
      && TakeBackInLiquidation(r, q.repay, q.settle).Ok?
      && s.reserves.Keys == a.reserves.Keys
      && OnlyTrackers(TakeBackInLiquidation(r, q.repay, q.settle).value, s.reserves[debtKey])
      && (forall j :: j in a.reserves && j != debtKey ==> OnlyTrackers(a.reserves[j], s.reserves[j]))
      && |s.o.borrows| == |a.o.borrows| && |s.o.deposits| == |a.o.deposits|
      && (forall j :: 0 <= j < |a.o.borrows| && j != l.borrowIndex ==> s.o.borrows[j] == a.o.borrows[j])
      && Settled(a.o.borrows[l.borrowIndex], s.o.borrows[l.borrowIndex], q.settle)
      && (forall j :: 0 <= j < |a.o.deposits| && j != l.depositIndex ==>
            s.o.deposits[j] == a.o.deposits[j].(groupDebt := s.o.deposits[j].groupDebt))
      && (if q.withdraw == d.amount then s.o.deposits[l.depositIndex] == NO_DEPOSIT
          else s.o.deposits[l.depositIndex] == d.(amount := d.amount - q.withdraw, groupDebt := s.o.deposits[l.depositIndex].groupDebt))
      && s.o.lastUpdate.stale && (s.o.hasDebt <==> !NoActiveBorrows(s.o.borrows)) && s.o.orders == a.o.orders
  {
    hide TrackLess, WithLessDebt, Settled, NoActiveBorrows;
    var q := l.quote.amounts;
    TrackLessLeaves(a, debtKey, l.borrowIndex, q.repay);
    var t := TrackLess(a, debtKey, l.borrowIndex, q.repay).value;
    LessDebtMeans(t.o, l.borrowIndex, q.settle);
    SettledCarries(a.o.borrows[l.borrowIndex], t.o.borrows[l.borrowIndex],
                   WithLessDebt(t.o, l.borrowIndex, q.settle).value.borrows[l.borrowIndex], q.settle);
  }

  /** What can be redeemed at once is all that was seized, or as much of it as the available
      liquidity buys. */
  lemma RedeemsAllItCan(r: Reserve, withdraw: U64)
    requires RedeemableNow(r, withdraw).Ok?
    ensures NetSupply(r.liquidity) >= 0
    ensures var n := RedeemableNow(r, withdraw).value; var rate := ExchangeRateOf(r.collateralSupply, NetSupply(r.liquidity));
      && n <= withdraw && n <= rate.supply * r.liquidity.available * ONE / rate.liquidity
      && (n == withdraw || n == rate.supply * r.liquidity.available * ONE / rate.liquidity)
  {
    hide LiquidityToCollateral, NetSupply;
    TotalSupplyIsNet(r.liquidity);
    LiquidityToCollateralMeaning(ExchangeRateOf(r.collateralSupply, NetSupply(r.liquidity)), r.liquidity.available);
  }

  /** The liquidator's receipt: tokens redeemed at the reserve's price, less the protocol's
      fee at the percentage that goes with the reason. */
  lemma PaidOut(r: Reserve, clock: Clock, q: Quote, redeem: U64, minReceived: U64)
    requires RedeemForLiquidator(r, clock, q, redeem, minReceived).Ok? && redeem > 0
    ensures RedeemCollateral(r, clock, redeem, false).Ok?
    ensures var out := RedeemForLiquidator(r, clock, q, redeem, minReceived).value; var redeemed := RedeemCollateral(r, clock, redeem, false).value;
      var pct := if q.params.reason.ObligationOrder? then r.config.protocolOrderExecutionFeePct else r.config.protocolLiquidationFeePct;
      && out.0 == redeemed.reserve
      && ProtocolFee(redeemed.amount, q.params.bonus, pct) == Ok(out.1.fee)
      && out.1 == Receipt(q.amounts.repay, q.amounts.withdraw, redeem, redeemed.amount, out.1.fee)
      && redeemed.amount - out.1.fee >= minReceived
  {
    hide RedeemCollateral, ProtocolFee;
  }

  /** An accepted liquidation, from the checks to the receipt: what is settled, how much of
      the seized collateral the refreshed reserve redeems, from which payout the receipt
      comes, and what becomes of the orders. */
  lemma AcceptedLiquidation(m: Market, a: Accounts, debtKey: Key, collateralKey: Key, amount: U64, minReceived: U64, clock: Clock)
    returns (payer: Reserve)
    requires Liquidate(m, a, debtKey, collateralKey, amount, minReceived, clock).Ok?
    ensures debtKey in a.reserves && collateralKey in a.reserves
    ensures LiquidationOf(m, a.o, debtKey, a.reserves[debtKey], collateralKey, a.reserves[collateralKey], amount, clock).Ok?
    ensures var l := LiquidationOf(m, a.o, debtKey, a.reserves[debtKey], collateralKey, a.reserves[collateralKey], amount, clock).value;
      var out := Liquidate(m, a, debtKey, collateralKey, amount, minReceived, clock).value; var receipt, a' := out.1, out.0;
      && SettleLiquidation(a, debtKey, l).Ok? && var s := SettleLiquidation(a, debtKey, l).value.accounts;
         && a'.o == s.o.(orders := a'.o.orders) && a'.reserves == s.reserves[collateralKey := a'.reserves[collateralKey]]
         && collateralKey in s.reserves && var before := s.reserves[collateralKey];
            && receipt.repay == l.quote.amounts.repay && receipt.withdraw == l.quote.amounts.withdraw
            && Refreshed(before, clock, None, m.referralFeeBps).Ok?
            && RedeemableNow(Refreshed(before, clock, None, m.referralFeeBps).value, receipt.withdraw) == Ok(receipt.redeemed)
            && OnlyTrackers(Refreshed(before, clock, None, m.referralFeeBps).value, payer)
            && RedeemForLiquidator(payer, clock, l.quote, receipt.redeemed, minReceived) == Ok((a'.reserves[collateralKey], receipt))
            && (!s.o.hasDebt ==> a'.o.orders == seq(|a.o.orders|, _ => NO_ORDER))
            && (s.o.hasDebt && !l.quote.params.reason.ObligationOrder? ==> a'.o.orders == a.o.orders)
            && (s.o.hasDebt && l.quote.params.reason.ObligationOrder? ==>
                  var n := l.quote.params.reason.index;
                  && n < |a.o.orders| && Consumed(a.o.orders[n], receipt.repay).Ok?
                  && a'.o.orders == a.o.orders[n := Consumed(a.o.orders[n], receipt.repay).value])
  {
    hide LiquidationOf, SettleLiquidation, Refreshed, RedeemableNow, TrackFullWithdraw, RedeemForLiquidator, Consumed;
    var l := LiquidationOf(m, a.o, debtKey, a.reserves[debtKey], collateralKey, a.reserves[collateralKey], amount, clock).value;
    SettlementMeans(a, debtKey, l);
    var settled := SettleLiquidation(a, debtKey, l).value;
    var refreshed := Refreshed(settled.accounts.reserves[collateralKey], clock, None, m.referralFeeBps).value;
    var redeem := RedeemableNow(refreshed, l.quote.amounts.withdraw).value;
    payer := if a.o.deposits[l.depositIndex].amount == l.quote.amounts.withdraw
             then TrackFullWithdraw(refreshed, a.o.group, settled.groupDebt).value else refreshed;
    FullWithdrawTouches(refreshed, a.o.group, settled.groupDebt);
    ReceiptMeans(payer, clock, l.quote, redeem, minReceived);
  }
}
