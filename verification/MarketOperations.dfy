/** The operations on an obligation and the reserves behind it
    (lending_market/lending_operations.rs), as functions from the accounts before
    to the accounts after.

    `Accounts` is what a transaction loads: the market's reserves by address and
    one obligation. */
module MarketOperations {
  import opened Results
  import opened Arithmetic
  import opened FixedPoint
  import opened LastUpdates
  import opened Reserves
  import opened ReserveOperations
  import opened ExchangeRate
  import opened Fees
  import opened Markets
  import opened Obligations
  import opened Orders
  import opened Positions
  import opened Liquidation

  /** The market's reserves by address. */
  type Pool = map<Key, Reserve>

  const NO_DELEVERAGING_MARKER: U8 := 255

  datatype Accounts = Accounts(reserves: Pool, o: Obligation)

  function Load(rs: Pool, k: Key): Result<Reserve> {
    if k in rs then Ok(rs[k]) else Err(InvalidAccountInput)
  }

  function GroupIndex(g: ElevationGroup): Result<nat> {
    if 1 <= g.id <= MAX_NUM_ELEVATION_GROUPS then Ok(g.id - 1) else Err(Panic)
  }

  function GroupDebt(r: Reserve, index: nat): Result<U64> {
    if index < |r.groupDebts| then Ok(r.groupDebts[index]) else Err(Panic)
  }

  /** A reserve used in a refresh must itself be fresh and not deprecated. */
  function NeedRefreshable(r: Reserve, slot: U64): Result<()> {
    var _ :- NeedFresh(r, slot, NONE);
    Need(r.version == PROGRAM_VERSION, ReserveDeprecated)
  }

  function NeedFreshObligation(o: Obligation, slot: U64, minimum: PriceStatus): Result<()> {
    var stale :- o.lastUpdate.IsStale(slot, minimum);
    Need(!stale, ObligationStale)
  }

  // ---- refreshing borrows -------------------------------------------------

  datatype BorrowTotals = BorrowTotals(value: Fraction, adjusted: Fraction, prices: PriceStatus, highestFactor: Fraction,
                                       obsolete: nat, debt: U64, count: nat)

  const NO_BORROWS: BorrowTotals := BorrowTotals(0, 0, ALL_CHECKS, ONE, 0, 0, 0)

  datatype BorrowPass = BorrowPass(reserves: Pool, borrows: seq<Borrow>, totals: BorrowTotals)

  /** Outside elevation groups the reserve's tracker follows the borrow's; inside, the
      borrow must be of the group's debt reserve. */
  function TrackBorrow(g: Option<ElevationGroup>, r: Reserve, b: Borrow, amount: U64): Result<(Reserve, Borrow)> {
    if g.Some? then
      if g.value.id !in r.config.elevationGroups then Err(InconsistentElevationGroup)
      else if b.reserve != g.value.debtReserve then Err(ElevationGroupHasAnotherDebtReserve)
      else Ok((r, b))
    else
      var total :- Narrow64(SatSub(r.outsideDebt, b.outsideDebt) + amount);
      Ok((r.(outsideDebt := total), b.(outsideDebt := amount)))
  }

  function ValueBorrow(m: Market, g: Option<ElevationGroup>, r: Reserve, b: Borrow, amount: U64, t: BorrowTotals)
    : Result<(Borrow, BorrowTotals)>
  {
    var value :- MarketValue(r.liquidity, b.borrowed);
    var total :- Add(t.value, value);
    var factor :- BorrowFactor(r.config, g.Some?);
    var highest: Fraction := if value >= FromInt(m.minValueSkipBfChecks) && factor > t.highestFactor then factor else t.highestFactor;
    var adjusted :- Mul(value, factor);
    var totalAdjusted :- Add(t.adjusted, adjusted);
    var debt :- Narrow64(t.debt + amount);
    Ok((b.(marketValue := value, adjustedValue := adjusted),
        BorrowTotals(total, totalAdjusted, t.prices * r.lastUpdate.priceStatus, highest,
                     t.obsolete + (if r.config.obsolete then 1 else 0), debt, t.count + 1)))
  }

  /** One slot of `refresh_obligation_borrows`. */
  function RefreshBorrow(m: Market, g: Option<ElevationGroup>, o: Obligation, slot: U64, p: BorrowPass, i: nat): Result<BorrowPass>
    requires i < |p.borrows|
  {
    var b := p.borrows[i];
    if !b.Active() then Ok(p)
    else
      var r :- Load(p.reserves, b.reserve);
      var _ :- NeedRefreshable(r, slot);
      var accrued :- AccruedDebt(b, r.liquidity.cumulativeRate);
      var amount :- ToCeil(accrued.borrowed);
      var tracked :- TrackBorrow(g, r, accrued, amount);
      var elapsed :- o.lastUpdate.SlotsElapsed(slot);
      var paid :- AccumulateReferrerFees(tracked.0, o.referrer, m.referralFeeBps, elapsed, accrued.borrowed, b.borrowed);
      var valued :- ValueBorrow(m, g, paid, tracked.1, amount, p.totals);
      Ok(BorrowPass(p.reserves[b.reserve := paid], p.borrows[i := valued.0], valued.1))
  }

  /** The first `n` slots. */
  function RefreshBorrowsUpTo(m: Market, g: Option<ElevationGroup>, o: Obligation, slot: U64, rs: Pool, n: nat)
    : (p: Result<BorrowPass>)
    requires n <= |o.borrows|
    ensures p.Ok? ==> |p.value.borrows| == |o.borrows|
  {
    if n == 0 then Ok(BorrowPass(rs, o.borrows, NO_BORROWS))
    else
      var p :- RefreshBorrowsUpTo(m, g, o, slot, rs, n - 1);
      RefreshBorrow(m, g, o, slot, p, n - 1)
  }

  /** `refresh_obligation_borrows`. */
  function RefreshBorrows(m: Market, g: Option<ElevationGroup>, o: Obligation, slot: U64, rs: Pool): Result<BorrowPass> {
    var p :- RefreshBorrowsUpTo(m, g, o, slot, rs, |o.borrows|);
    if g.Some? && p.totals.count > 1 then Err(InconsistentElevationGroup) else Ok(p)
  }

  // ---- refreshing deposits ------------------------------------------------

  datatype DepositTotals = DepositTotals(value: Fraction, allowed: Fraction, unhealthy: Fraction, prices: PriceStatus,
                                         lowestLiquidationLtvPct: U8, lowestMaxLtvPct: U8, obsolete: nat, count: nat,
                                         borrowingDisabled: bool)

  const NO_DEPOSITS: DepositTotals := DepositTotals(0, 0, 0, ALL_CHECKS, 255, 255, 0, 0, false)

  datatype DepositPass = DepositPass(reserves: Pool, deposits: seq<Deposit>, totals: DepositTotals)

  /** Inside an elevation group the reserve's tracker for it follows the deposit's, which
      becomes the obligation's whole debt. */
  function TrackDeposit(g: Option<ElevationGroup>, r: Reserve, d: Deposit, debt: U64): Result<(Reserve, Deposit)> {
    if g.None? then Ok((r, d))
    else
      var index :- GroupIndex(g.value);
      var tracker :- GroupDebt(r, index);
      if g.value.id !in r.config.elevationGroups then Err(InconsistentElevationGroup)
      else if d.reserve == g.value.debtReserve then Err(ElevationGroupDebtReserveAsCollateral)
      else
        var total :- Narrow64(SatSub(tracker, d.groupDebt) + debt);
        Ok((r.(groupDebts := r.groupDebts[index := total]), d.(groupDebt := debt)))
  }

  function ValueDeposit(m: Market, g: Option<ElevationGroup>, r: Reserve, d: Deposit, t: DepositTotals)
    : Result<(Deposit, DepositTotals)>
  {
    var value :- CollateralValue(r, d.amount);
    var ltvPct, thresholdPct := MaxLtvPct(r.config, g), LiquidationThresholdPct(r.config, g);
    var total :- Add(t.value, value);
    var allowedPart :- Mul(value, FromPercent(ltvPct));
    var allowed :- Add(t.allowed, allowedPart);
    var unhealthyPart :- Mul(value, FromPercent(thresholdPct));
    var unhealthy :- Add(t.unhealthy, unhealthyPart);
    var counts := value >= FromInt(m.minValueSkipLtvChecks) && thresholdPct > 0;
    Ok((d.(marketValue := value),
        DepositTotals(total, allowed, unhealthy, t.prices * r.lastUpdate.priceStatus,
                      if counts && thresholdPct < t.lowestLiquidationLtvPct then thresholdPct else t.lowestLiquidationLtvPct,
                      if ltvPct < t.lowestMaxLtvPct then ltvPct else t.lowestMaxLtvPct,
                      t.obsolete + (if r.config.obsolete then 1 else 0),
                      t.count + (if d.amount > 0 then 1 else 0),
                      t.borrowingDisabled || (g.None? && r.config.disableUsageAsCollOutsideEmode))))
  }

  /** One slot of `refresh_obligation_deposits`. */
  function RefreshDeposit(m: Market, g: Option<ElevationGroup>, debt: U64, slot: U64, p: DepositPass, i: nat): Result<DepositPass>
    requires i < |p.deposits|
  {
    var d := p.deposits[i];
    if !d.Active() then Ok(p)
    else
      var r :- Load(p.reserves, d.reserve);
      var _ :- NeedRefreshable(r, slot);
      var tracked :- TrackDeposit(g, r, d, debt);
      var valued :- ValueDeposit(m, g, tracked.0, tracked.1, p.totals);
      Ok(DepositPass(p.reserves[d.reserve := tracked.0], p.deposits[i := valued.0], valued.1))
  }

  function RefreshDepositsUpTo(m: Market, g: Option<ElevationGroup>, debt: U64, slot: U64, rs: Pool, ds: seq<Deposit>, n: nat)
    : (p: Result<DepositPass>)
    requires n <= |ds|
    ensures p.Ok? ==> |p.value.deposits| == |ds|
  {
    if n == 0 then Ok(DepositPass(rs, ds, NO_DEPOSITS))
    else
      var p :- RefreshDepositsUpTo(m, g, debt, slot, rs, ds, n - 1);
      RefreshDeposit(m, g, debt, slot, p, n - 1)
  }

  /** `refresh_obligation_deposits`. */
  function RefreshDeposits(m: Market, g: Option<ElevationGroup>, debt: U64, slot: U64, rs: Pool, ds: seq<Deposit>,
                           checkCount: bool): Result<DepositPass>
  {
    var p :- RefreshDepositsUpTo(m, g, debt, slot, rs, ds, |ds|);
    if checkCount && g.Some? && p.totals.count > g.value.maxReservesAsCollateral then
      Err(ObligationCollateralExceedsElevationGroupLimit)
    else Ok(p)
  }

  // ---- refreshing an obligation -------------------------------------------

  function RefreshedValues(m: Market, b: BorrowTotals, d: DepositTotals): Result<Values> {
    var highestFactorPct :- Narrow64(Round(b.highestFactor * 100));
    var allowed :- Narrow(Min(d.allowed, FromInt(m.globalAllowedBorrowValue)));
    Ok(Values(d.value, b.adjusted, b.value, allowed, d.unhealthy, d.lowestLiquidationLtvPct as int, d.lowestMaxLtvPct,
              highestFactorPct, d.obsolete, b.obsolete, d.borrowingDisabled))
  }

  /** `refresh_obligation`. */
  function RefreshObligation(m: Market, a: Accounts, slot: U64, checkCount: bool): Result<Accounts> {
    var g :- UsableElevationGroup(m, a.o.group);
    var b :- RefreshBorrows(m, g, a.o, slot, a.reserves);
    var d :- RefreshDeposits(m, g, b.totals.debt, slot, b.reserves, a.o.deposits, checkCount);
    var values :- RefreshedValues(m, b.totals, d.totals);
    Ok(Accounts(d.reserves, a.o.(
      deposits := d.deposits,
      borrows := b.borrows,
      hasDebt := a.o.hasDebt || b.totals.count > 0,
      values := values,
      lastUpdate := a.o.lastUpdate.Updated(slot, Some(b.totals.prices * d.totals.prices)))))
  }

  // ---- debt trackers ------------------------------------------------------

  /** How an operation moves the debt recorded against each deposit in the group. */
  datatype Change = More(amount: U64) | Less(amount: U64) | Clear

  function MoveGroupDebt(r: Reserve, d: Deposit, index: nat, change: Change): Result<(Reserve, Deposit)> {
    var tracker :- GroupDebt(r, index);
    match change
    case More(amount) =>
      if tracker + amount >= TWO_64 then Err(ElevationGroupBorrowLimitExceeded)
      else if index >= |r.config.borrowLimitAgainstInElevationGroup| then Err(Panic)
      else if tracker + amount > r.config.borrowLimitAgainstInElevationGroup[index] then Err(ElevationGroupBorrowLimitExceeded)
      else
        var own :- Narrow64(d.groupDebt + amount);
        Ok((r.(groupDebts := r.groupDebts[index := tracker + amount]), d.(groupDebt := own)))
    case Less(amount) =>
      Ok((r.(groupDebts := r.groupDebts[index := SatSub(tracker, amount)]), d.(groupDebt := SatSub(d.groupDebt, amount))))
    case Clear =>
      Ok((r.(groupDebts := r.groupDebts[index := SatSub(tracker, d.groupDebt)]), d.(groupDebt := 0)))
  }

  datatype GroupPass = GroupPass(reserves: Pool, deposits: seq<Deposit>)

  function MoveDeposit(p: GroupPass, index: nat, change: Change, i: nat): Result<GroupPass>
    requires i < |p.deposits|
  {
    var d := p.deposits[i];
    if !d.Active() then Ok(p)
    else
      var r :- Load(p.reserves, d.reserve);
      var moved :- MoveGroupDebt(r, d, index, change);
      Ok(GroupPass(p.reserves[d.reserve := moved.0], p.deposits[i := moved.1]))
  }

  /** The loops over the active deposits in `update_elevation_group_debt_trackers_on_borrow`,
      `..._on_repay` and `reset_elevation_group_debts`. */
  function MoveDepositsUpTo(rs: Pool, ds: seq<Deposit>, index: nat, change: Change, n: nat): (p: Result<GroupPass>)
    requires n <= |ds|
    ensures p.Ok? ==> |p.value.deposits| == |ds|
  {
    if n == 0 then Ok(GroupPass(rs, ds))
    else
      var p :- MoveDepositsUpTo(rs, ds, index, change, n - 1);
      MoveDeposit(p, index, change, n - 1)
  }

  datatype OutsidePass = OutsidePass(reserves: Pool, borrows: seq<Borrow>)

  function ClearBorrow(p: OutsidePass, i: nat): Result<OutsidePass>
    requires i < |p.borrows|
  {
    var b := p.borrows[i];
    if !b.Active() then Ok(p)
    else
      var r :- Load(p.reserves, b.reserve);
      Ok(OutsidePass(p.reserves[b.reserve := r.(outsideDebt := SatSub(r.outsideDebt, b.outsideDebt))],
                     p.borrows[i := b.(outsideDebt := 0)]))
  }

  function ClearBorrowsUpTo(rs: Pool, bs: seq<Borrow>, n: nat): (p: Result<OutsidePass>)
    requires n <= |bs|
    ensures p.Ok? ==> |p.value.borrows| == |bs|
  {
    if n == 0 then Ok(OutsidePass(rs, bs))
    else
      var p :- ClearBorrowsUpTo(rs, bs, n - 1);
      ClearBorrow(p, n - 1)
  }

  /** `update_elevation_group_debt_trackers_on_borrow`. */
  function TrackMore(a: Accounts, k: Key, i: nat, g: Option<ElevationGroup>, amount: U64): (r: Result<Accounts>)
    requires i < |a.o.borrows|
    ensures r.Ok? ==> |r.value.o.borrows| == |a.o.borrows|
  {
    if g.Some? then
      var index :- GroupIndex(g.value);
      if g.value.debtReserve != k then Err(ElevationGroupHasAnotherDebtReserve)
      else
        var p :- MoveDepositsUpTo(a.reserves, a.o.deposits, index, More(amount), |a.o.deposits|);
        Ok(Accounts(p.reserves, a.o.(deposits := p.deposits)))
    else
      var r :- Load(a.reserves, k);
      if r.outsideDebt + amount >= TWO_64 then Err(MathOverflow)
      else if r.outsideDebt + amount > r.config.borrowLimitOutsideElevationGroup then Err(BorrowLimitExceeded)
      else
        var own :- Narrow64(a.o.borrows[i].outsideDebt + amount);
        Ok(Accounts(a.reserves[k := r.(outsideDebt := r.outsideDebt + amount)],
                    a.o.(borrows := a.o.borrows[i := a.o.borrows[i].(outsideDebt := own)])))
  }

  /** `update_elevation_group_debt_trackers_on_repay`. */
  function TrackLess(a: Accounts, k: Key, i: nat, amount: U64): Result<Accounts>
    requires i < |a.o.borrows|
  {
    if a.o.group != ELEVATION_GROUP_NONE then
      var p :- MoveDepositsUpTo(a.reserves, a.o.deposits, a.o.group - 1, Less(amount), |a.o.deposits|);
      Ok(Accounts(p.reserves, a.o.(deposits := p.deposits)))
    else
      var r :- Load(a.reserves, k);
      Ok(Accounts(a.reserves[k := r.(outsideDebt := SatSub(r.outsideDebt, amount))],
                  a.o.(borrows := a.o.borrows[i := a.o.borrows[i].(outsideDebt := SatSub(a.o.borrows[i].outsideDebt, amount))])))
  }

  /** `reset_elevation_group_debts`. */
  function ResetTrackers(a: Accounts, g: Option<ElevationGroup>): Result<Accounts> {
    if g.Some? then
      var index :- GroupIndex(g.value);
      var p :- MoveDepositsUpTo(a.reserves, a.o.deposits, index, Clear, |a.o.deposits|);
      Ok(Accounts(p.reserves, a.o.(deposits := p.deposits)))
    else
      var p :- ClearBorrowsUpTo(a.reserves, a.o.borrows, |a.o.borrows|);
      Ok(Accounts(p.reserves, a.o.(borrows := p.borrows)))
  }

  /** `update_elevation_group_debt_trackers_on_full_withdraw`. */
  function TrackFullWithdraw(r: Reserve, group: nat, debt: U64): Result<Reserve> {
    if group == ELEVATION_GROUP_NONE then Ok(r)
    else
      var tracker :- GroupDebt(r, group - 1);
      Ok(r.(groupDebts := r.groupDebts[group - 1 := SatSub(tracker, debt)]))
  }

  /** `get_borrowed_amount_if_single_token`. */
  function SingleTokenDebt(bs: seq<Borrow>): Result<Option<U64>> {
    if CountBorrows(bs) > 1 then Ok(None)
    else
      var sum :- Narrow(SumBorrowed(bs));
      var whole :- ToCeil(sum);
      Ok(Some(whole))
  }

  function SumBorrowed(bs: seq<Borrow>): nat {
    if bs == [] then 0 else SumBorrowed(bs[..|bs| - 1]) + bs[|bs| - 1].borrowed
  }

  // ---- slots --------------------------------------------------------------

  function FreeDeposit(ds: seq<Deposit>): Result<nat> {
    var free := FindDeposit(ds, 0, 0);
    if free.Some? then Ok(free.value) else Err(ObligationReserveLimit)
  }

  function FreeBorrow(bs: seq<Borrow>): Result<nat> {
    var free := FindBorrow(bs, 0, 0);
    if free.Some? then Ok(free.value) else Err(ObligationReserveLimit)
  }

  /** `find_liquidity_in_borrows`. */
  function PositionOfBorrow(bs: seq<Borrow>, k: Key): (r: Result<nat>)
    ensures r.Ok? ==> r.value < |bs| && bs[r.value].reserve == k
  {
    if NoActiveBorrows(bs) then Err(ObligationBorrowsEmpty)
    else
      var at := FindBorrow(bs, k, 0);
      if at.Some? then Ok(at.value) else Err(InvalidObligationLiquidity)
  }

  /** `position_of_collateral_in_deposits`. */
  function PositionOfDeposit(ds: seq<Deposit>, k: Key): (r: Result<nat>)
    ensures r.Ok? ==> r.value < |ds| && ds[r.value].reserve == k
  {
    if NoActiveDeposits(ds) then Err(ObligationDepositsEmpty)
    else
      var at := FindDeposit(ds, k, 0);
      if at.Some? then Ok(at.value) else Err(InvalidObligationCollateral)
  }

  function AllSupported(o: Obligation, n: nat): Result<()>
    requires n <= |o.orders|
  {
    if n == 0 then Ok(())
    else
      var _ :- AllSupported(o, n - 1);
      var s :- Supported(o.orders[n - 1], o);
      Need(s, InvalidOrderConfiguration)
  }

  /** `check_orders_supported_after_user_operation`. */
  function NeedOrdersSupported(o: Obligation): Result<()> {
    AllSupported(o, |o.orders|)
  }

  function NeedSameGroup(o: Obligation, r: Reserve): Result<()> {
    Need(o.group == ELEVATION_GROUP_NONE || o.group in r.config.elevationGroups, InconsistentElevationGroup)
  }

  function NeedNotMarked(o: Obligation): Result<()> {
    Need(o.marginCallStartedAt == 0, ObligationCurrentlyMarkedForDeleveraging)
  }

  function Touched(o: Obligation): Obligation {
    o.(lastUpdate := o.lastUpdate.MarkedStale())
  }

  // ---- deposit and withdraw -----------------------------------------------

  /** `find_or_add_collateral_to_deposits` with the tracker update for a new slot. */
  function SlotForDeposit(g: Option<ElevationGroup>, r: Reserve, o: Obligation, k: Key, debt: Option<U64>, checkCount: bool)
    : (res: Result<(nat, Deposit, Reserve)>)
    ensures res.Ok? ==> res.value.0 < |o.deposits|
  {
    var existing := FindDeposit(o.deposits, k, 0);
    if existing.Some? then Ok((existing.value, o.deposits[existing.value], r))
    else
      var free :- FreeDeposit(o.deposits);
      if g.None? then Ok((free, Deposit(k, 0, 0, 0), r))
      else if g.value.debtReserve == k then Err(ElevationGroupDebtReserveAsCollateral)
      else if checkCount && CountDeposits(o.deposits) + 1 > g.value.maxReservesAsCollateral then
        Err(ObligationCollateralExceedsElevationGroupLimit)
      else
        var index :- GroupIndex(g.value);
        var _ :- Need(debt.Some?, ObligationElevationGroupMultipleDebtReserve);
        var tracker :- GroupDebt(r, index);
        var total :- Narrow64(tracker + debt.value);
        Ok((free, Deposit(k, 0, 0, debt.value), r.(groupDebts := r.groupDebts[index := total])))
  }

  /** What `deposit_obligation_collateral` demands before anything changes (lines 352-384). */
  function DepositGroup(m: Market, o: Obligation, r: Reserve, slot: U64): Result<Option<ElevationGroup>> {
    var _ :- NeedFresh(r, slot, NONE);
    var _ :- NeedFreshObligation(o, slot, NONE);
    var _ :- Need(!(r.config.disableUsageAsCollOutsideEmode && o.group == ELEVATION_GROUP_NONE && o.values.adjustedDebt > 0),
                  DepositDisabledOutsideElevationGroup);
    var _ :- NeedSameGroup(o, r);
    var g :- UsableElevationGroup(m, o.group);
    var _ :- if LiquidationThresholdPct(r.config, g) == 0 then NeedNotMarked(o) else Ok(());
    Ok(g)
  }

  /** `deposit_obligation_collateral`. */
  function DepositCollateral(m: Market, a: Accounts, k: Key, amount: U64, slot: U64, checkCount: bool): Result<Accounts> {
    var _ :- Need(amount != 0, InvalidAmount);
    var r :- Load(a.reserves, k);
    var g :- DepositGroup(m, a.o, r, slot);
    var debt :- SingleTokenDebt(a.o.borrows);
    var place :- SlotForDeposit(g, r, a.o, k, debt, checkCount);
    var d := place.1;
    var _ :- Need(d.amount + amount < TWO_64, MathOverflow);
    var o := Touched(a.o.(deposits := a.o.deposits[place.0 := d.(amount := d.amount + amount)]));
    var _ :- NeedOrdersSupported(o);
    var r' := Stale(place.2);
    var liquidity :- LiquidityOf(r', amount);
    var _ :- PostDeposit(o.values, r', liquidity, d.marketValue, m.minNetValue);
    Ok(Accounts(a.reserves[k := r'], o))
  }

  datatype Withdrawal = Withdrawal(index: nat, amount: U64, thresholdPct: U8)

  /** The checks and the sizing of `withdraw_obligation_collateral`. */
  function WithdrawalOf(m: Market, a: Accounts, r: Reserve, k: Key, amount: U64, slot: U64, check: WithdrawalCheck)
    : (res: Result<Withdrawal>)
    ensures res.Ok? ==> res.value.index < |a.o.deposits| && a.o.deposits[res.value.index].reserve == k
    ensures res.Ok? ==> !a.o.lastUpdate.stale && a.o.lastUpdate.slot == slot
  {
    var _ :- Need(amount != 0, InvalidAmount);
    var empty := NoActiveBorrows(a.o.borrows);
    var required := if empty then NONE else ALL_CHECKS;
    var _ :- NeedFresh(r, slot, required);
    var _ :- NeedFreshObligation(a.o, slot, required);
    var index :- PositionOfDeposit(a.o.deposits, k);
    var d := a.o.deposits[index];
    var _ :- Need(d.amount != 0, ObligationCollateralEmpty);
    var g :- UsableElevationGroup(m, a.o.group);
    var _ :- Need(empty || g.None? || g.value.allowNewLoans, ElevationGroupNewLoansDisabled);
    var _ :- Need((a.o.values.obsoleteBorrows == 0 && a.o.values.obsoleteDeposits == 0) || r.config.obsolete,
                  ObligationInObsoleteReserve);
    var thresholdPct := LiquidationThresholdPct(r.config, g);
    var size :- WithdrawSize(a.o.values, d, empty, amount, MaxLtvPct(r.config, g), thresholdPct, check);
    Ok(Withdrawal(index, size, thresholdPct))
  }

  /** `withdraw_obligation_collateral`; the second component is the amount handed out. */
  function WithdrawCollateral(m: Market, a: Accounts, k: Key, amount: U64, slot: U64, check: WithdrawalCheck): Result<(Accounts, U64)> {
    var r :- Load(a.reserves, k);
    var w :- WithdrawalOf(m, a, r, k, amount, slot, check);
    var d := a.o.deposits[w.index];
    var d' :- WithdrawnSlot(d, w.amount);
    var o := Touched(a.o.(deposits := a.o.deposits[w.index := d']));
    var r' :- if w.amount == d.amount then TrackFullWithdraw(r, a.o.group, d.groupDebt) else Ok(r);
    var liquidity :- LiquidityOf(r', w.amount);
    var _ :- PostWithdraw(o.values, r', liquidity, w.thresholdPct, d'.marketValue, m.minNetValue);
    Ok((Accounts(a.reserves[k := r'], o), w.amount))
  }

  // ---- borrow and repay ---------------------------------------------------

  /** `check_obligation_fully_refreshed_and_not_null`. */
  function NeedRefreshedAndBacked(o: Obligation, slot: U64): Result<()> {
    var _ :- NeedFreshObligation(o, slot, ALL_CHECKS);
    var _ :- Need(!NoActiveDeposits(o.deposits), ObligationDepositsEmpty);
    Need(o.values.deposited != 0, ObligationDepositsZero)
  }

  /** The checks and the sizing of `borrow_obligation_liquidity` (lines 146-252). */
  function BorrowQuoteOf(m: Market, a: Accounts, r: Reserve, amount: U64, slot: U64): (res: Result<BorrowQuote>)
    ensures res.Ok? ==> !a.o.lastUpdate.stale && a.o.lastUpdate.slot == slot
    ensures res.Ok? ==> NeedFresh(r, slot, ALL_CHECKS).Ok?
    ensures res.Ok? ==> a.o.values.adjustedDebt < a.o.values.allowedBorrow
    ensures res.Ok? ==>
      CalculateBorrow(r, amount, a.o.values.allowedBorrow - a.o.values.adjustedDebt,
                      SatSub(FromInt(r.config.borrowLimit), r.liquidity.borrowed), m.referralFeeBps,
                      a.o.group != ELEVATION_GROUP_NONE, a.o.referrer.Some?) == res
  {
    var _ :- Need(amount != 0, InvalidAmount);
    var _ :- NeedFresh(r, slot, ALL_CHECKS);
    var _ :- Need(!m.borrowDisabled, BorrowingDisabled);
    var _ :- NeedNotMarked(a.o);
    var _ :- Need(a.o.values.obsoleteBorrows == 0 && a.o.values.obsoleteDeposits == 0, ObligationInObsoleteReserve);
    var _ :- UtilizationRate(r.liquidity);
    var newBorrowed :- Add(FromInt(amount), r.liquidity.borrowed);
    var limit := FromInt(r.config.borrowLimit);
    var _ :- Need(amount == MAX_U64 || newBorrowed <= limit, BorrowLimitExceeded);
    var _ :- NeedRefreshedAndBacked(a.o, slot);
    var _ :- Need(a.o.values.adjustedDebt < a.o.values.allowedBorrow, BorrowTooLarge);
    var _ :- NeedSameGroup(a.o, r);
    var g :- UsableElevationGroup(m, a.o.group);
    var _ :- Need(g.None? || g.value.allowNewLoans, ElevationGroupNewLoansDisabled);
    var _ :- Need(a.o.group != ELEVATION_GROUP_NONE || !a.o.values.borrowingDisabled, BorrowingDisabledOutsideElevationGroup);
    var remaining: Fraction := SatSub(limit, r.liquidity.borrowed);
    var _ :- Need(remaining != 0, BorrowLimitExceeded);
    CalculateBorrow(r, amount, a.o.values.allowedBorrow - a.o.values.adjustedDebt, remaining, m.referralFeeBps,
                    a.o.group != ELEVATION_GROUP_NONE, a.o.referrer.Some?)
  }

  /** `find_or_add_liquidity_to_borrows`: a new slot starts at the reserve's current rate. */
  function SlotForBorrow(bs: seq<Borrow>, k: Key, rate: U256): (res: Result<(nat, Borrow)>)
    ensures res.Ok? ==> res.value.0 < |bs|
  {
    var existing := FindBorrow(bs, k, 0);
    if existing.Some? then Ok((existing.value, bs[existing.value]))
    else
      var free :- FreeBorrow(bs);
      Ok((free, Borrow(k, rate, 0, 0, 0, 0)))
  }

  function NeedBelowUtilizationLimit(r: Reserve): Result<()> {
    var utilization :- UtilizationRate(r.liquidity);
    Need(utilization < FromPercent(r.config.utilizationLimitPct) || r.config.utilizationLimitPct == 0,
         BorrowingAboveUtilizationRateDisabled)
  }

  /** The new debt enters its slot; the obligation is stale from then on. */
  function WithNewDebt(o: Obligation, k: Key, rate: U256, debt: Fraction): (res: Result<(nat, Obligation)>)
    ensures res.Ok? ==> res.value.0 < |res.value.1.borrows|
  {
    var place :- SlotForBorrow(o.borrows, k, rate);
    var borrowed :- Add(place.1.borrowed, debt);
    Ok((place.0, Touched(o.(borrows := o.borrows[place.0 := place.1.(borrowed := borrowed)], hasDebt := true))))
  }

  /** `borrow_obligation_liquidity`. */
  function BorrowLiquidity(m: Market, a: Accounts, k: Key, amount: U64, clock: Clock): Result<Accounts> {
    var r :- Load(a.reserves, k);
    var quote :- BorrowQuoteOf(m, a, r, amount, clock.slot);
    var whole :- ToCeil(quote.borrowAmount);
    var r' :- LendOut(r, clock, quote, a.o.referrer, m.referralFeeBps);
    var place :- WithNewDebt(a.o, k, r'.liquidity.cumulativeRate, quote.borrowAmount);
    var o := place.1;
    var _ :- NeedOrdersSupported(o);
    var _ :- NeedBelowUtilizationLimit(r');
    var g :- ElevationGroupOf(m, o.group);
    var tracked :- TrackMore(Accounts(a.reserves[k := r'], o), k, place.0, g, whole);
    var after :- Load(tracked.reserves, k);
    var _ :- PostBorrow(o.values, after, quote.borrowAmount, o.group != ELEVATION_GROUP_NONE,
                        tracked.o.borrows[place.0].marketValue, m.minNetValue);
    Ok(tracked)
  }

  /** The obligation after a repay of slot `i`. */
  function WithLessDebt(o: Obligation, i: nat, settle: Fraction): Result<Obligation>
    requires i < |o.borrows|
  {
    var slot :- RepaidSlot(o.borrows[i], settle);
    var borrows := o.borrows[i := slot];
    Ok(Touched(o.(borrows := borrows, hasDebt := !NoActiveBorrows(borrows))))
  }

  /** `repay_obligation_liquidity`; the second component is the amount repaid. */
  function RepayLiquidity(m: Market, a: Accounts, k: Key, amount: U64, clock: Clock): Result<(Accounts, U64)> {
    var _ :- Need(amount != 0, InvalidAmount);
    var r :- Load(a.reserves, k);
    var _ :- NeedFresh(r, clock.slot, NONE);
    var _ :- NeedFreshObligation(a.o, clock.slot, NONE);
    var i :- PositionOfBorrow(a.o.borrows, k);
    var _ :- Need(a.o.borrows[i].borrowed != 0, ObligationLiquidityEmpty);
    var accrued :- AccruedDebt(a.o.borrows[i], r.liquidity.cumulativeRate);
    var quote :- CalculateRepay(amount, accrued.borrowed);
    var o := a.o.(borrows := a.o.borrows[i := accrued]);
    var taken :- TakeBack(r, clock, quote);
    var tracked :- TrackLess(Accounts(a.reserves[k := taken], o), k, i, quote.repay);
    var o' :- WithLessDebt(tracked.o, i, quote.settle);
    var _ :- NeedOrdersSupported(o');
    var after :- Load(tracked.reserves, k);
    var _ :- PostRepay(o'.values, after, quote.settle, o'.group != ELEVATION_GROUP_NONE, o'.borrows[i].marketValue, m.minNetValue);
    Ok((Accounts(tracked.reserves, o'), quote.repay))
  }

  // ---- elevation groups ---------------------------------------------------

  function NeedUsableForNewLoans(g: Option<ElevationGroup>): Result<()> {
    if g.None? then Ok(())
    else
      var _ :- Need(g.value.allowNewLoans, ElevationGroupNewLoansDisabled);
      var _ :- Need(g.value.debtReserve != 0, ElevationGroupWithoutDebtReserve);
      Need(g.value.maxReservesAsCollateral > 0, ElevationGroupMaxCollateralReserveZero)
  }

  /** `check_ltv_not_worse_if_marked_for_deleveraging`. */
  function NeedLtvNotWorse(o: Obligation, initialLtv: Fraction, adjustedDebt: Fraction, deposited: Fraction): Result<()> {
    if o.marginCallStartedAt == 0 then Ok(())
    else
      var ltv :- Div(adjustedDebt, deposited);
      Need(ltv <= initialLtv, WorseLtvBlocked)
  }

  /** `check_elevation_group_borrow_limit_constraints`, slot by slot. */
  function NeedGroupLimits(rs: Pool, g: Option<ElevationGroup>, bs: seq<Borrow>, ds: seq<Deposit>): Result<()> {
    if bs != [] then
      var _ :- NeedGroupLimits(rs, g, bs[..|bs| - 1], ds);
      var b := bs[|bs| - 1];
      if !b.Active() || g.Some? then Ok(())
      else
        var r :- Load(rs, b.reserve);
        Need(r.outsideDebt <= r.config.borrowLimitOutsideElevationGroup, ElevationGroupBorrowLimitExceeded)
    else if ds != [] then
      var _ :- NeedGroupLimits(rs, g, bs, ds[..|ds| - 1]);
      var d := ds[|ds| - 1];
      if !d.Active() || g.None? then Ok(())
      else
        var r :- Load(rs, d.reserve);
        var index :- GroupIndex(g.value);
        var tracker :- GroupDebt(r, index);
        if index >= |r.config.borrowLimitAgainstInElevationGroup| then Err(Panic)
        else Need(tracker <= r.config.borrowLimitAgainstInElevationGroup[index], ElevationGroupBorrowLimitExceeded)
    else Ok(())
  }

  /** `request_elevation_group`. */
  function RequestElevationGroup(m: Market, a: Accounts, newGroup: nat, slot: U64): Result<Accounts> {
    var _ :- NeedRefreshedAndBacked(a.o, slot);
    var _ :- Need(a.o.group != newGroup, ElevationGroupAlreadyActivated);
    var initialLtv :- LoanToValue(a.o.values);
    var oldG :- UsableElevationGroup(m, a.o.group);
    var reset :- ResetTrackers(a, oldG);
    var g :- UsableElevationGroup(m, newGroup);
    var _ :- NeedUsableForNewLoans(g);
    var b :- RefreshBorrows(m, g, reset.o, slot, reset.reserves);
    var d :- RefreshDeposits(m, g, b.totals.debt, slot, b.reserves, reset.o.deposits, true);
    var _ :- Need(b.totals.adjusted <= d.totals.allowed, UnhealthyElevationGroupLtv);
    var _ :- NeedLtvNotWorse(a.o, initialLtv, b.totals.adjusted, d.totals.value);
    var o := Touched(a.o.(
      deposits := d.deposits,
      borrows := b.borrows,
      hasDebt := a.o.hasDebt || b.totals.count > 0,
      group := newGroup,
      values := a.o.values.(borrowingDisabled := d.totals.borrowingDisabled)));
    var _ :- NeedGroupLimits(d.reserves, g, o.borrows, o.deposits);
    var _ :- Need(NoActiveBorrows(o.borrows) || newGroup != ELEVATION_GROUP_NONE || !o.values.borrowingDisabled,
                  BorrowingDisabledOutsideElevationGroup);
    Ok(Accounts(d.reserves, o))
  }

  // ---- liquidation --------------------------------------------------------

  datatype Liquidated = Liquidated(borrowIndex: nat, depositIndex: nat, quote: Quote)

  /** `assert_obligation_liquidatable`. */
  function NeedLiquidatable(o: Obligation, debt: Reserve, collateral: Reserve, amount: U64, slot: U64): Result<()> {
    var _ :- Need(amount != 0, InvalidAmount);
    var _ :- NeedFresh(debt, slot, LIQUIDATION_CHECKS);
    var _ :- NeedFresh(collateral, slot, LIQUIDATION_CHECKS);
    var _ :- NeedFreshObligation(o, slot, LIQUIDATION_CHECKS);
    var _ :- Need(o.values.deposited != 0, ObligationDepositsZero);
    Need(o.values.adjustedDebt != 0, ObligationBorrowsZero)
  }

  /** The checks and the amounts of `liquidate_obligation` (lines 1377-1437). */
  function LiquidationOf(m: Market, o: Obligation, debtKey: Key, debt: Reserve, collateralKey: Key, collateral: Reserve,
                         amount: U64, clock: Clock): (res: Result<Liquidated>)
    ensures res.Ok? ==> !o.lastUpdate.stale && o.lastUpdate.slot == clock.slot
    ensures res.Ok? ==>
      var q := res.value;
      && q.borrowIndex < |o.borrows| && o.borrows[q.borrowIndex].reserve == debtKey
      && q.depositIndex < |o.deposits| && o.deposits[q.depositIndex].reserve == collateralKey
  {
    var g :- UsableElevationGroup(m, o.group);
    var thresholdPct := LiquidationThresholdPct(collateral.config, g);
    var _ :- Need(thresholdPct != 0, CollateralNonLiquidatable);
    var _ :- NeedLiquidatable(o, debt, collateral, amount, clock.slot);
    var i :- PositionOfBorrow(o.borrows, debtKey);
    var _ :- Need(o.borrows[i].adjustedValue != 0, ObligationLiquidityEmpty);
    var j :- PositionOfDeposit(o.deposits, collateralKey);
    var _ :- Need(o.deposits[j].marketValue != 0, ObligationCollateralEmpty);
    var quote :- CalculateLiquidation(Inputs(m, collateral, debt, o, clock.timestamp), amount, o.borrows[i], o.deposits[j],
                                      debt.config.borrowFactorPct >= o.values.highestBorrowFactorPct,
                                      thresholdPct <= o.values.lowestLiquidationLtvPct);
    Ok(Liquidated(i, j, quote))
  }

  /** Without debt no order survives. */
  function WithoutOrders(o: Obligation): Obligation {
    o.(orders := seq(|o.orders|, _ => NO_ORDER))
  }

  /** The orders after a liquidation (lines 1469-1479). */
  function OrdersSettled(o: Obligation, reason: Reason, repay: U64): Result<Obligation> {
    if !o.hasDebt then Ok(WithoutOrders(o))
    else if reason.ObligationOrder? then
      if reason.index >= |o.orders| then Err(Panic)
      else
        var order :- Consumed(o.orders[reason.index], repay);
        Ok(o.(orders := o.orders[reason.index := order]))
    else Ok(o)
  }

  /** The obligation's side of `repay_and_withdraw_from_obligation_post_liquidation`. */
  function WithLessDebtAndCollateral(o: Obligation, i: nat, j: nat, settle: Fraction, withdraw: U64): Result<Obligation>
    requires i < |o.borrows| && j < |o.deposits|
  {
    var _ :- Need(withdraw != 0, LiquidationTooSmall);
    var o' :- WithLessDebt(o, i, settle);
    var d :- WithdrawnSlot(o.deposits[j], withdraw);
    Ok(o'.(deposits := o.deposits[j := d]))
  }

  /** The collateral a liquidator can redeem at once (lines 1482-1493). */
  function RedeemableNow(r: Reserve, withdraw: U64): Result<U64> {
    var rate :- CurrentRate(r);
    var most :- LiquidityToCollateral(rate, r.liquidity.available);
    Ok(if withdraw <= most then withdraw else most)
  }

  /** What the liquidator pays and receives: collateral tokens, and what of them was redeemed. */
  datatype Receipt = Receipt(repay: U64, withdraw: U64, redeemed: U64, liquidity: U64, fee: U64)

  /** `post_liquidate_redeem`. */
  function RedeemForLiquidator(r: Reserve, clock: Clock, q: Quote, redeem: U64, minReceived: U64): Result<(Reserve, Receipt)> {
    if redeem != 0 then
      var out :- RedeemCollateral(r, clock, redeem, false);
      var fee :- ProtocolFee(out.amount, q.params.bonus,
                             if q.params.reason.ObligationOrder? then r.config.protocolOrderExecutionFeePct
                             else r.config.protocolLiquidationFeePct);
      var net :- Narrow64(out.amount - fee);
      var _ :- Need(net >= minReceived, LiquidationRewardTooSmall);
      Ok((out.reserve, Receipt(q.amounts.repay, q.amounts.withdraw, redeem, out.amount, fee)))
    else
      var rate :- CurrentRate(r);
      var theoretical :- CollateralToLiquidity(rate, q.amounts.withdraw);
      var _ :- Need(theoretical >= minReceived, LiquidationRewardTooSmall);
      Ok((r, Receipt(q.amounts.repay, q.amounts.withdraw, 0, 0, 0)))
  }

  datatype Settlement = Settlement(accounts: Accounts, groupDebt: U64)

  /** Both sides of the debt and the obligation's side of the collateral; `groupDebt` is
      what was still recorded against the collateral after the repay. */
  function SettleLiquidation(a: Accounts, debtKey: Key, l: Liquidated): Result<Settlement>
    requires l.borrowIndex < |a.o.borrows| && l.depositIndex < |a.o.deposits|
  {
    var tracked :- TrackLess(a, debtKey, l.borrowIndex, l.quote.amounts.repay);
    var r :- Load(tracked.reserves, debtKey);
    var taken :- TakeBackInLiquidation(r, l.quote.amounts.repay, l.quote.amounts.settle);
    var o :- WithLessDebtAndCollateral(tracked.o, l.borrowIndex, l.depositIndex, l.quote.amounts.settle, l.quote.amounts.withdraw);
    Ok(Settlement(Accounts(tracked.reserves[debtKey := taken], o), tracked.o.deposits[l.depositIndex].groupDebt))
  }

  /** `liquidate_and_redeem`. */
  function Liquidate(m: Market, a: Accounts, debtKey: Key, collateralKey: Key, amount: U64, minReceived: U64, clock: Clock)
    : Result<(Accounts, Receipt)>
  {
    var debt :- Load(a.reserves, debtKey);
    var collateral :- Load(a.reserves, collateralKey);
    var l :- LiquidationOf(m, a.o, debtKey, debt, collateralKey, collateral, amount, clock);
    var settled :- SettleLiquidation(a, debtKey, l);
    var o :- OrdersSettled(settled.accounts.o, l.quote.params.reason, l.quote.amounts.repay);
    var before :- Load(settled.accounts.reserves, collateralKey);
    var refreshed :- Refreshed(before, clock, None, m.referralFeeBps);
    var redeem :- RedeemableNow(refreshed, l.quote.amounts.withdraw);
    var tracked :- if a.o.deposits[l.depositIndex].amount == l.quote.amounts.withdraw
                   then TrackFullWithdraw(refreshed, a.o.group, settled.groupDebt)
                   else Ok(refreshed);
    var out :- RedeemForLiquidator(tracked, clock, l.quote, redeem, minReceived);
    Ok((Accounts(settled.accounts.reserves[collateralKey := out.0], o), out.1))
  }

  // ---- bad debt and deleveraging ------------------------------------------

  /** `socialize_loss`. */
  function SocializeLoss(a: Accounts, k: Key, amount: U64, slot: U64): Result<Accounts> {
    var r :- Load(a.reserves, k);
    var _ :- NeedFresh(r, slot, ALL_CHECKS);
    var _ :- NeedFreshObligation(a.o, slot, ALL_CHECKS);
    var _ :- Need(NoActiveDeposits(a.o.deposits), CannotSocializeObligationWithCollateral);
    var _ :- Need(!NoActiveBorrows(a.o.borrows), ObligationEmpty);
    var i :- PositionOfBorrow(a.o.borrows, k);
    var forgiven: Fraction := Min(FromInt(amount), a.o.borrows[i].borrowed);
    var whole :- ToCeil(forgiven);
    var tracked :- TrackLess(a, k, i, whole);
    var r' :- Load(tracked.reserves, k);
    var after :- Forgive(r', forgiven);
    var o :- WithLessDebt(tracked.o, i, forgiven);
    Ok(Accounts(tracked.reserves[k := after], if o.hasDebt then o else WithoutOrders(o)))
  }

  /** `mark_obligation_for_deleveraging`. */
  function MarkForDeleveraging(m: Market, o: Obligation, targetLtvPct: U8, timestamp: U64): Result<Obligation> {
    if targetLtvPct == NO_DELEVERAGING_MARKER then Ok(o.(marginCallStartedAt := 0, autodeleverageTargetLtvPct := 0))
    else
      var _ :- Need(targetLtvPct <= 100, InvalidConfig);
      var _ :- NeedNotMarked(o);
      var _ :- Need(m.individualMarginCallPeriodSecs != 0, InvalidConfig);
      if timestamp == 0 then Err(Panic)
      else Ok(o.(marginCallStartedAt := timestamp, autodeleverageTargetLtvPct := targetLtvPct))
  }
}
