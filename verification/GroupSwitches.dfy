/** What an accepted change of elevation group guarantees. */
module GroupSwitches {
  import opened Results
  import opened Arithmetic
  import opened FixedPoint
  import opened LastUpdates
  import opened Reserves
  import opened ReserveOperations
  import opened Markets
  import opened Obligations
  import opened Positions
  import opened MarketOperations
  import opened ObligationInvariant
  import opened RefreshMeaning
  import opened RefreshExtremes
  import opened RefreshChecks
  import MarketPrices
  import MarketOutcomes
  /** The recorded debts are within the reserves' limits: outside groups for each borrowed
      reserve, inside one for each collateral reserve against that group. */
  ghost predicate LimitsKept(rs: Pool, g: Option<ElevationGroup>, bs: seq<Borrow>, ds: seq<Deposit>) {
    && (g.None? ==> forall j :: 0 <= j < |bs| && bs[j].Active() ==>
          bs[j].reserve in rs && rs[bs[j].reserve].outsideDebt <= rs[bs[j].reserve].config.borrowLimitOutsideElevationGroup)
    && (g.Some? ==> forall j :: 0 <= j < |ds| && ds[j].Active() ==> ds[j].reserve in rs && WithinGroupLimit(rs[ds[j].reserve], g.value.id))
  }

  predicate WithinGroupLimit(r: Reserve, id: nat) {
    && 1 <= id <= |r.groupDebts| && id <= |r.config.borrowLimitAgainstInElevationGroup|
    && r.groupDebts[id - 1] <= r.config.borrowLimitAgainstInElevationGroup[id - 1]
  }

  lemma {:induction false} GroupLimitsMean(rs: Pool, g: Option<ElevationGroup>, bs: seq<Borrow>, ds: seq<Deposit>)
    requires NeedGroupLimits(rs, g, bs, ds).Ok?
    ensures LimitsKept(rs, g, bs, ds)
    decreases |bs|, |ds|
  {
    hide WithinGroupLimit;
    if bs != [] {
      GroupLimitsMean(rs, g, bs[..|bs| - 1], ds);
    } else if ds != [] {
      GroupLimitsMean(rs, g, bs, ds[..|ds| - 1]);
      var d := ds[|ds| - 1];
      if d.Active() && g.Some? { WithinLimit(rs[d.reserve], g.value); }
    }
  }

  lemma WithinLimit(r: Reserve, g: ElevationGroup)
    requires GroupIndex(g).Ok? && GroupDebt(r, GroupIndex(g).value).Ok?
    requires GroupIndex(g).value < |r.config.borrowLimitAgainstInElevationGroup|
    requires GroupDebt(r, GroupIndex(g).value).value <= r.config.borrowLimitAgainstInElevationGroup[GroupIndex(g).value]
    ensures WithinGroupLimit(r, g.id)
  {
  }

  /** Values of the slots after both passes, under the new group. */
  lemma SwitchedValues(m: Market, g: Option<ElevationGroup>, o: Obligation, slot: U64, rs: Pool)
    requires GoodBorrows(o.borrows) && GoodDeposits(o.deposits) && RefreshBorrows(m, g, o, slot, rs).Ok?
    requires var b := RefreshBorrows(m, g, o, slot, rs).value;
      RefreshDeposits(m, g, b.totals.debt, slot, b.reserves, o.deposits, true).Ok?
    ensures var b := RefreshBorrows(m, g, o, slot, rs).value;
      var d := RefreshDeposits(m, g, b.totals.debt, slot, b.reserves, o.deposits, true).value;
      && (forall j :: 0 <= j < |b.borrows| ==> DebtValued(d.reserves, g, b.borrows[j]))
      && (forall j :: 0 <= j < |d.deposits| ==> DepositValued(d.reserves, d.deposits[j]))
      && b.totals.adjusted == AdjustedWorth(b.borrows) && d.totals.value == DepositWorth(d.deposits)
      && d.totals.allowed == WeightedWorth(d.reserves, g, d.deposits, false)
      && (d.totals.borrowingDisabled <==> g.None? && SomeDeposit(d.reserves, d.deposits, |d.deposits|, ForbidsBorrowing))
  {
    hide RefreshBorrowsUpTo, RefreshDepositsUpTo, DebtValued, DepositValued, SamePrices, SameBooks, SomeDeposit, LowestThreshold;
    var b := RefreshBorrows(m, g, o, slot, rs).value;
    forall i | 0 <= i < |o.borrows| && !o.borrows[i].Active()
      ensures o.borrows[i].marketValue == 0 && o.borrows[i].adjustedValue == 0
    { assert GoodBorrow(o.borrows[i]); }
    RefreshBorrowsMean(m, g, o, slot, rs, |o.borrows|);
    assert b.borrows[..|o.borrows|] == b.borrows;
    var d := RefreshDeposits(m, g, b.totals.debt, slot, b.reserves, o.deposits, true).value;
    forall i | 0 <= i < |o.deposits| && !o.deposits[i].Active() ensures o.deposits[i].marketValue == 0 {
      assert GoodDeposit(o.deposits[i]);
    }
    RefreshDepositsMean(m, g, b.totals.debt, slot, b.reserves, o.deposits, |o.deposits|);
    assert d.deposits[..|o.deposits|] == d.deposits;
    PassesPriceAlike(rs, b.reserves, d.reserves, g, b.borrows, d.deposits);
    RefreshDepositsExtremes(m, g, b.totals.debt, slot, b.reserves, o.deposits, |o.deposits|);
    SameConfigs(b.reserves, d.reserves);
    SomeOfConfigs(b.reserves, d.reserves, d.deposits, ForbidsBorrowing);
  }

  // ---- the reset before ---------------------------------------------------

  /** Resetting trackers changes nothing else of slots and reserves. */
  ghost predicate OnlyRecords(a: Accounts, a': Accounts) {
    && a'.reserves.Keys == a.reserves.Keys
    && (forall k :: k in a.reserves ==> MarketOutcomes.OnlyTrackers(a.reserves[k], a'.reserves[k]))
    && |a'.o.borrows| == |a.o.borrows| && |a'.o.deposits| == |a.o.deposits|
    && (forall j :: 0 <= j < |a.o.borrows| ==> a'.o.borrows[j] == a.o.borrows[j].(outsideDebt := a'.o.borrows[j].outsideDebt))
    && (forall j :: 0 <= j < |a.o.borrows| && !a.o.borrows[j].Active() ==> a'.o.borrows[j] == a.o.borrows[j])
    && (forall j :: 0 <= j < |a.o.deposits| ==> a'.o.deposits[j] == a.o.deposits[j].(groupDebt := a'.o.deposits[j].groupDebt))
    && (forall j :: 0 <= j < |a.o.deposits| && !a.o.deposits[j].Active() ==> a'.o.deposits[j] == a.o.deposits[j])
    && a'.o == a.o.(borrows := a'.o.borrows, deposits := a'.o.deposits)
  }

  lemma {:induction false} MovingOnlyRecords(rs: Pool, ds: seq<Deposit>, index: nat, change: Change, n: nat)
    requires n <= |ds| && MoveDepositsUpTo(rs, ds, index, change, n).Ok?
    ensures var p := MoveDepositsUpTo(rs, ds, index, change, n).value;
      && (forall j :: 0 <= j < |ds| ==> p.deposits[j] == ds[j].(groupDebt := p.deposits[j].groupDebt))
      && (forall j :: 0 <= j < |ds| && !ds[j].Active() ==> p.deposits[j] == ds[j])
  {
    if n == 0 {
    } else {
      MovingOnlyRecords(rs, ds, index, change, n - 1);
    }
  }

  lemma {:induction false} ClearingOnlyRecords(rs: Pool, bs: seq<Borrow>, n: nat)
    requires n <= |bs| && ClearBorrowsUpTo(rs, bs, n).Ok?
    ensures var p := ClearBorrowsUpTo(rs, bs, n).value;
      && (forall j :: 0 <= j < |bs| ==> p.borrows[j] == bs[j].(outsideDebt := p.borrows[j].outsideDebt))
      && (forall j :: 0 <= j < |bs| && !bs[j].Active() ==> p.borrows[j] == bs[j])
  {
    if n == 0 {
    } else {
      ClearingOnlyRecords(rs, bs, n - 1);
    }
  }

  lemma ResetOnlyRecords(a: Accounts, g: Option<ElevationGroup>)
    requires ResetTrackers(a, g).Ok?
    ensures OnlyRecords(a, ResetTrackers(a, g).value)
  {
    hide MoveDepositsUpTo, ClearBorrowsUpTo;
    if g.Some? {
      MarketOutcomes.MovingTouchesTrackers(a.reserves, a.o.deposits, g.value.id - 1, Clear, |a.o.deposits|);
      MovingOnlyRecords(a.reserves, a.o.deposits, g.value.id - 1, Clear, |a.o.deposits|);
    } else {
      MarketPrices.ClearingTouchesTrackers(a.reserves, a.o.borrows, |a.o.borrows|);
      ClearingOnlyRecords(a.reserves, a.o.borrows, |a.o.borrows|);
    }
  }

  lemma RecordsKeepShape(a: Accounts, a': Accounts)
    requires OnlyRecords(a, a') && GoodBorrows(a.o.borrows) && GoodDeposits(a.o.deposits)
    ensures GoodBorrows(a'.o.borrows) && GoodDeposits(a'.o.deposits)
  {
    forall i | 0 <= i < |a.o.borrows| ensures GoodBorrow(a'.o.borrows[i]) { assert GoodBorrow(a.o.borrows[i]); }
    forall i | 0 <= i < |a.o.deposits| ensures GoodDeposit(a'.o.deposits[i]) { assert GoodDeposit(a.o.deposits[i]); }
  }

  lemma {:induction false} SameCounts(bs: seq<Borrow>, bs': seq<Borrow>)
    requires |bs'| == |bs| && forall j :: 0 <= j < |bs| ==> bs'[j].reserve == bs[j].reserve
    ensures CountBorrows(bs') == CountBorrows(bs)
  {
    if bs == [] {
    } else {
      SameCounts(bs[..|bs| - 1], bs'[..|bs'| - 1]);
    }
  }

  lemma {:induction false} SameHeld(ds: seq<Deposit>, ds': seq<Deposit>)
    requires |ds'| == |ds| && forall j :: 0 <= j < |ds| ==> ds'[j].reserve == ds[j].reserve && ds'[j].amount == ds[j].amount
    ensures CountHeld(ds') == CountHeld(ds)
  {
    if ds == [] {
    } else {
      SameHeld(ds[..|ds| - 1], ds'[..|ds'| - 1]);
    }
  }

  lemma RecordsKeepRules(a: Accounts, a': Accounts, g: Option<ElevationGroup>, slot: U64)
    requires OnlyRecords(a, a') && SlotsAllowed(a'.reserves, g, slot, a'.o, true)
    ensures SlotsAllowed(a.reserves, g, slot, a.o, true)
  {
    SameCounts(a.o.borrows, a'.o.borrows);
    SameHeld(a.o.deposits, a'.o.deposits);
    forall j | 0 <= j < |a.o.borrows| ensures BorrowAllowed(a.reserves, g, slot, a.o.borrows[j]) {
      assert BorrowAllowed(a'.reserves, g, slot, a'.o.borrows[j]);
    }
    forall j | 0 <= j < |a.o.deposits| ensures DepositAllowed(a.reserves, g, slot, a.o.deposits[j]) {
      assert DepositAllowed(a'.reserves, g, slot, a'.o.deposits[j]);
    }
  }

  lemma RecordsKeepGrowth(a: Accounts, a': Accounts, bs: seq<Borrow>)
    requires OnlyRecords(a, a') && |bs| == |a.o.borrows|
    requires forall j :: 0 <= j < |bs| ==> Grown(a'.reserves, a'.o.borrows[j], bs[j])
    ensures forall j :: 0 <= j < |bs| ==> Grown(a.reserves, a.o.borrows[j], bs[j])
  {
    forall j | 0 <= j < |bs| ensures Grown(a.reserves, a.o.borrows[j], bs[j]) {
      assert Grown(a'.reserves, a'.o.borrows[j], bs[j]);
    }
  }

  // ---- the switch ---------------------------------------------------------

  /** What the owner and the market must bring along for a switch. */
  predicate MaySwitch(o: Obligation, g: Option<ElevationGroup>, newGroup: nat, slot: U64) {
    && !o.lastUpdate.stale && o.lastUpdate.slot == slot && ALL_CHECKS <= o.lastUpdate.priceStatus
    && !NoActiveDeposits(o.deposits) && o.values.deposited > 0 && o.group != newGroup
    && (g.Some? ==> g.value.allowNewLoans && g.value.debtReserve != 0 && g.value.maxReservesAsCollateral > 0)
  }

  lemma SwitchChecks(m: Market, a: Accounts, newGroup: nat, slot: U64)
    requires RequestElevationGroup(m, a, newGroup, slot).Ok?
    ensures UsableElevationGroup(m, newGroup).Ok? && MaySwitch(a.o, UsableElevationGroup(m, newGroup).value, newGroup, slot)
    ensures LoanToValue(a.o.values).Ok?
    ensures UsableElevationGroup(m, a.o.group).Ok? && ResetTrackers(a, UsableElevationGroup(m, a.o.group).value).Ok?
    ensures var reset := ResetTrackers(a, UsableElevationGroup(m, a.o.group).value).value;
      var g := UsableElevationGroup(m, newGroup).value; var a' := RequestElevationGroup(m, a, newGroup, slot).value;
      && RefreshBorrows(m, g, reset.o, slot, reset.reserves).Ok?
      && var b := RefreshBorrows(m, g, reset.o, slot, reset.reserves).value;
         && RefreshDeposits(m, g, b.totals.debt, slot, b.reserves, reset.o.deposits, true).Ok?
         && var d := RefreshDeposits(m, g, b.totals.debt, slot, b.reserves, reset.o.deposits, true).value;
            && a'.reserves == d.reserves && a'.o.borrows == b.borrows && a'.o.deposits == d.deposits
            && b.totals.adjusted <= d.totals.allowed
            && NeedLtvNotWorse(a.o, LoanToValue(a.o.values).value, b.totals.adjusted, d.totals.value).Ok?
            && NeedGroupLimits(d.reserves, g, b.borrows, d.deposits).Ok?
            && (NoActiveBorrows(b.borrows) || newGroup != 0 || !d.totals.borrowingDisabled)
            && a'.o == a.o.(deposits := d.deposits, borrows := b.borrows, group := newGroup, hasDebt := a'.o.hasDebt,
                            lastUpdate := a.o.lastUpdate.(stale := true),
                            values := a.o.values.(borrowingDisabled := d.totals.borrowingDisabled))
  {
    hide RefreshBorrows, RefreshDeposits, ResetTrackers, UsableElevationGroup, NeedGroupLimits, NeedLtvNotWorse, LoanToValue;
    FreshMeansNow(a.o.lastUpdate, slot, ALL_CHECKS);
  }

  /** An accepted switch: a fresh obligation with collateral moves to another group, which
      must be open; under the new group's rules and weights its debts, all grown with their
      indices and valued at their reserves' prices, are within what its collateral allows;
      the limits on recorded debt are kept; and if it is marked for deleveraging its
      loan-to-value is not above the one before. */
  lemma AcceptedSwitch(m: Market, a: Accounts, newGroup: nat, slot: U64)
    requires WellFormed(a.o) && RequestElevationGroup(m, a, newGroup, slot).Ok?
    ensures UsableElevationGroup(m, newGroup).Ok? && LoanToValue(a.o.values).Ok?
    ensures var g := UsableElevationGroup(m, newGroup).value; var a' := RequestElevationGroup(m, a, newGroup, slot).value;
      && MaySwitch(a.o, g, newGroup, slot) && SlotsAllowed(a.reserves, g, slot, a.o, true)
      && |a'.o.borrows| == |a.o.borrows|
      && (forall j :: 0 <= j < |a.o.borrows| ==> Grown(a.reserves, a.o.borrows[j], a'.o.borrows[j]))
      && (forall j :: 0 <= j < |a'.o.borrows| ==> DebtValued(a'.reserves, g, a'.o.borrows[j]))
      && (forall j :: 0 <= j < |a'.o.deposits| ==> DepositValued(a'.reserves, a'.o.deposits[j]))
      && AdjustedWorth(a'.o.borrows) <= WeightedWorth(a'.reserves, g, a'.o.deposits, false)
      && LimitsKept(a'.reserves, g, a'.o.borrows, a'.o.deposits)
      && (newGroup == 0 && !NoActiveBorrows(a'.o.borrows) ==>
            !SomeDeposit(a'.reserves, a'.o.deposits, |a'.o.deposits|, ForbidsBorrowing))
      && (a.o.marginCallStartedAt != 0 ==>
            && DepositWorth(a'.o.deposits) > 0
            && AdjustedWorth(a'.o.borrows) * ONE < (LoanToValue(a.o.values).value + 1) * DepositWorth(a'.o.deposits))
      && a'.o.group == newGroup && a'.o.lastUpdate.stale
  {
    hide RefreshBorrows, RefreshDeposits, ResetTrackers, UsableElevationGroup, NeedGroupLimits, LoanToValue, MaySwitch, SlotsAllowed,
         Grown, DebtValued, DepositValued, OnlyRecords, LimitsKept, SomeDeposit, DivFloor, GoodBorrows, GoodDeposits, RequestElevationGroup;
    SwitchChecks(m, a, newGroup, slot);
    var oldG := UsableElevationGroup(m, a.o.group).value;
    var reset := ResetTrackers(a, oldG).value;
    var g := UsableElevationGroup(m, newGroup).value;
    ResetOnlyRecords(a, oldG);
    RecordsKeepShape(a, reset);
    SwitchedValues(m, g, reset.o, slot, reset.reserves);
    PassesCheck(m, g, reset.o, slot, reset.reserves, true);
    var b := RefreshBorrows(m, g, reset.o, slot, reset.reserves).value;
    var d := RefreshDeposits(m, g, b.totals.debt, slot, b.reserves, reset.o.deposits, true).value;
    RecordsKeepRules(a, reset, g, slot);
    RecordsKeepLength(a, reset);
    RecordsKeepGrowth(a, reset, b.borrows);
    GroupLimitsMean(d.reserves, g, b.borrows, d.deposits);
    if a.o.marginCallStartedAt != 0 { NotWorse(a.o, LoanToValue(a.o.values).value, b.totals.adjusted, d.totals.value); }
    NoGroupIsZero(m, newGroup);
  }

  lemma NoGroupIsZero(m: Market, id: nat)
    requires UsableElevationGroup(m, id).Ok?
    ensures UsableElevationGroup(m, id).value.None? <==> id == 0
  {
  }

  lemma RecordsKeepLength(a: Accounts, a': Accounts)
    requires OnlyRecords(a, a')
    ensures |a'.o.borrows| == |a.o.borrows|
  {
  }

  lemma NotWorse(o: Obligation, initial: Fraction, debt: Fraction, deposited: Fraction)
    requires NeedLtvNotWorse(o, initial, debt, deposited).Ok? && o.marginCallStartedAt != 0
    ensures deposited > 0 && debt * ONE < (initial + 1) * deposited
  {
    hide DivFloor;
    DivFloorBounds(debt, deposited);
    MulLeft(deposited, DivFloor(debt, deposited) + 1, initial + 1);
    assert (DivFloor(debt, deposited) + 1) * deposited == DivFloor(debt, deposited) * deposited + deposited;
  }

  // ---- refusals -----------------------------------------------------------

  predicate Other<T>(r: Result<T>) {
    r != Err(UnhealthyElevationGroupLtv)
  }

  /** A switch is refused as unhealthy only if both passes succeed under the new group's rules
      and the debts, weighted by their borrow factors, exceed what the collateral allows. */
  lemma SwitchRefusedForHealth(m: Market, a: Accounts, newGroup: nat, slot: U64)
    requires WellFormed(a.o) && RequestElevationGroup(m, a, newGroup, slot) == Err(UnhealthyElevationGroupLtv)
    ensures UsableElevationGroup(m, newGroup).Ok? && UsableElevationGroup(m, a.o.group).Ok?
    ensures ResetTrackers(a, UsableElevationGroup(m, a.o.group).value).Ok?
    ensures var g := UsableElevationGroup(m, newGroup).value; var reset := ResetTrackers(a, UsableElevationGroup(m, a.o.group).value).value;
      && RefreshBorrows(m, g, reset.o, slot, reset.reserves).Ok?
      && var b := RefreshBorrows(m, g, reset.o, slot, reset.reserves).value;
         && RefreshDeposits(m, g, b.totals.debt, slot, b.reserves, reset.o.deposits, true).Ok?
         && var d := RefreshDeposits(m, g, b.totals.debt, slot, b.reserves, reset.o.deposits, true).value;
            && AdjustedWorth(b.borrows) > WeightedWorth(d.reserves, g, d.deposits, false)
  {
    hide RefreshBorrows, RefreshDeposits, ResetTrackers, NeedGroupLimits, NeedLtvNotWorse, NeedRefreshedAndBacked, UsableElevationGroup,
         LoanToValue, NeedUsableForNewLoans, OnlyRecords;
    SmallStepsOther(m, a, newGroup, slot);
    var oldG := UsableElevationGroup(m, a.o.group);
    if oldG.Ok? {
      ResetOther(a, oldG.value);
      var reset := ResetTrackers(a, oldG.value);
      var g := UsableElevationGroup(m, newGroup);
      if reset.Ok? && g.Ok? {
        PassesOther(m, a, reset.value, g.value, slot);
        ResetOnlyRecords(a, oldG.value);
        RecordsKeepShape(a, reset.value);
        SwitchHealth(m, g.value, reset.value, slot);
      }
    }
  }

  lemma SmallStepsOther(m: Market, a: Accounts, newGroup: nat, slot: U64)
    ensures Other(NeedRefreshedAndBacked(a.o, slot)) && Other(LoanToValue(a.o.values))
    ensures Other(UsableElevationGroup(m, a.o.group)) && Other(UsableElevationGroup(m, newGroup))
    ensures forall g :: Other(NeedUsableForNewLoans(g))
    ensures forall initial, debt, deposited :: Other(NeedLtvNotWorse(a.o, initial, debt, deposited))
    ensures forall rs, g, bs, ds :: Other(NeedGroupLimits(rs, g, bs, ds))
  {
    hide DivFloor;
    forall rs, g, bs, ds ensures Other(NeedGroupLimits(rs, g, bs, ds)) { LimitsOther(rs, g, bs, ds); }
  }

  lemma {:induction false} LimitsOther(rs: Pool, g: Option<ElevationGroup>, bs: seq<Borrow>, ds: seq<Deposit>)
    ensures Other(NeedGroupLimits(rs, g, bs, ds))
    decreases |bs|, |ds|
  {
    if bs != [] { LimitsOther(rs, g, bs[..|bs| - 1], ds); }
    else if ds != [] { LimitsOther(rs, g, bs, ds[..|ds| - 1]); }
  }

  lemma ResetOther(a: Accounts, g: Option<ElevationGroup>)
    ensures Other(ResetTrackers(a, g))
  {
    hide MoveDepositsUpTo, ClearBorrowsUpTo;
    if g.Some? && GroupIndex(g.value).Ok? {
      MovesOther(a.reserves, a.o.deposits, GroupIndex(g.value).value, |a.o.deposits|);
    } else {
      ClearsOther(a.reserves, a.o.borrows, |a.o.borrows|);
    }
  }

  lemma {:induction false} MovesOther(rs: Pool, ds: seq<Deposit>, index: nat, n: nat)
    requires n <= |ds|
    ensures Other(MoveDepositsUpTo(rs, ds, index, Clear, n))
  {
    if n > 0 { MovesOther(rs, ds, index, n - 1); }
  }

  lemma {:induction false} ClearsOther(rs: Pool, bs: seq<Borrow>, n: nat)
    requires n <= |bs|
    ensures Other(ClearBorrowsUpTo(rs, bs, n))
  {
    if n > 0 { ClearsOther(rs, bs, n - 1); }
  }

  lemma PassesOther(m: Market, a: Accounts, reset: Accounts, g: Option<ElevationGroup>, slot: U64)
    ensures Other(RefreshBorrows(m, g, reset.o, slot, reset.reserves))
    ensures forall debt, rs :: Other(RefreshDeposits(m, g, debt, slot, rs, reset.o.deposits, true))
  {
    hide RefreshBorrowsUpTo, RefreshDepositsUpTo;
    BorrowsOther(m, g, reset.o, slot, reset.reserves, |reset.o.borrows|);
    forall debt, rs ensures Other(RefreshDeposits(m, g, debt, slot, rs, reset.o.deposits, true)) {
      DepositsOther(m, g, debt, slot, rs, reset.o.deposits, |reset.o.deposits|);
    }
  }

  lemma {:induction false} BorrowsOther(m: Market, g: Option<ElevationGroup>, o: Obligation, slot: U64, rs: Pool, n: nat)
    requires n <= |o.borrows|
    ensures Other(RefreshBorrowsUpTo(m, g, o, slot, rs, n))
  {
    hide RefreshBorrow;
    if n > 0 {
      BorrowsOther(m, g, o, slot, rs, n - 1);
      var p := RefreshBorrowsUpTo(m, g, o, slot, rs, n - 1);
      if p.Ok? { BorrowOther(m, g, o, slot, p.value, n - 1); }
    }
  }

  lemma BorrowOther(m: Market, g: Option<ElevationGroup>, o: Obligation, slot: U64, p: BorrowPass, i: nat)
    requires i < |p.borrows|
    ensures Other(RefreshBorrow(m, g, o, slot, p, i))
  {
    hide AccruedDebt, TrackBorrow, AccumulateReferrerFees, ValueBorrow, ToCeil, Load, NeedRefreshable;
    StepsOther(p, i, slot);
    forall b, rate ensures Other(AccruedDebt(b, rate)) { AccrualOther(b, rate); }
    forall r, b, amount ensures Other(TrackBorrow(g, r, b, amount)) { TrackingOther(g, r, b, amount); }
    forall r, b, amount ensures Other(ValueBorrow(m, g, r, b, amount, p.totals)) { ValuingOther(m, g, r, b, amount, p.totals); }
    forall r, k, bps, elapsed, x, y ensures Other(AccumulateReferrerFees(r, k, bps, elapsed, x, y)) {
      ReferrersOther(r, k, bps, elapsed, x, y);
    }
  }

  lemma StepsOther(p: BorrowPass, i: nat, slot: U64)
    requires i < |p.borrows|
    ensures Other(Load(p.reserves, p.borrows[i].reserve))
    ensures forall r :: Other(NeedRefreshable(r, slot))
    ensures forall x :: Other(ToCeil(x))
    ensures forall u: LastUpdate :: Other(u.SlotsElapsed(slot))
  {
  }

  lemma AccrualOther(b: Borrow, rate: U256)
    ensures Other(AccruedDebt(b, rate))
  {
  }

  lemma TrackingOther(g: Option<ElevationGroup>, r: Reserve, b: Borrow, amount: U64)
    ensures Other(TrackBorrow(g, r, b, amount))
  {
  }

  lemma ValuingOther(m: Market, g: Option<ElevationGroup>, r: Reserve, b: Borrow, amount: U64, t: BorrowTotals)
    ensures Other(ValueBorrow(m, g, r, b, amount, t))
  {
    hide MulFloor;
  }

  lemma ReferrersOther(r: Reserve, referrer: Option<nat>, referralFeeBps: U16, elapsed: U64, debt: Fraction, previous: Fraction)
    ensures Other(AccumulateReferrerFees(r, referrer, referralFeeBps, elapsed, debt, previous))
  {
    hide MulFloor, DivFloor;
  }

  lemma {:induction false} DepositsOther(m: Market, g: Option<ElevationGroup>, debt: U64, slot: U64, rs: Pool, ds: seq<Deposit>, n: nat)
    requires n <= |ds|
    ensures Other(RefreshDepositsUpTo(m, g, debt, slot, rs, ds, n))
  {
    hide RefreshDeposit;
    if n > 0 {
      DepositsOther(m, g, debt, slot, rs, ds, n - 1);
      var p := RefreshDepositsUpTo(m, g, debt, slot, rs, ds, n - 1);
      if p.Ok? { DepositOther(m, g, debt, slot, p.value, n - 1); }
    }
  }

  lemma DepositOther(m: Market, g: Option<ElevationGroup>, debt: U64, slot: U64, p: DepositPass, i: nat)
    requires i < |p.deposits|
    ensures Other(RefreshDeposit(m, g, debt, slot, p, i))
  {
    hide ValueDeposit, TrackDeposit;
    forall r, d ensures Other(TrackDeposit(g, r, d, debt)) { BackingOther(g, r, d, debt); }
    forall r, d ensures Other(ValueDeposit(m, g, r, d, p.totals)) { WeighingOther(m, g, r, d, p.totals); }
  }

  lemma BackingOther(g: Option<ElevationGroup>, r: Reserve, d: Deposit, debt: U64)
    ensures Other(TrackDeposit(g, r, d, debt))
  {
  }

  lemma WeighingOther(m: Market, g: Option<ElevationGroup>, r: Reserve, d: Deposit, t: DepositTotals)
    ensures Other(ValueDeposit(m, g, r, d, t))
  {
    hide MulFloor, CollateralValue, MaxLtvPct, LiquidationThresholdPct;
    CollateralOther(r, d.amount);
  }

  lemma CollateralOther(r: Reserve, amount: U64)
    ensures Other(CollateralValue(r, amount))
  {
    hide MulFloor, DivFloor;
  }

  lemma SwitchHealth(m: Market, g: Option<ElevationGroup>, reset: Accounts, slot: U64)
    requires GoodBorrows(reset.o.borrows) && GoodDeposits(reset.o.deposits)
    ensures RefreshBorrows(m, g, reset.o, slot, reset.reserves).Ok? ==>
      var b := RefreshBorrows(m, g, reset.o, slot, reset.reserves).value;
      var d := RefreshDeposits(m, g, b.totals.debt, slot, b.reserves, reset.o.deposits, true);
      d.Ok? ==> b.totals.adjusted == AdjustedWorth(b.borrows)
                && d.value.totals.allowed == WeightedWorth(d.value.reserves, g, d.value.deposits, false)
  {
    hide RefreshBorrows, RefreshDeposits, GoodBorrows, GoodDeposits, DebtValued, DepositValued, SomeDeposit;
    if RefreshBorrows(m, g, reset.o, slot, reset.reserves).Ok? {
      var b := RefreshBorrows(m, g, reset.o, slot, reset.reserves).value;
      if RefreshDeposits(m, g, b.totals.debt, slot, b.reserves, reset.o.deposits, true).Ok? {
        SwitchedValues(m, g, reset.o, slot, reset.reserves);
      }
    }
  }
}
