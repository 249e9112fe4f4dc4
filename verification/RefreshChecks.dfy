/** What a refresh demands of an obligation's reserves and what else it does to its slots:
    freshness, the rules of elevation groups, the debts' growth and the mark it leaves. */
module RefreshChecks {
  import opened Results
  import opened Arithmetic
  import opened FixedPoint
  import opened LastUpdates
  import opened Reserves
  import opened ReserveOperations
  import opened Markets
  import opened Obligations
  import opened Positions
  import opened MarketOperations
  import DebtPasses

  /** A reserve that may be used in a refresh at `slot`. */
  predicate Usable(r: Reserve, slot: U64) {
    !r.lastUpdate.stale && r.lastUpdate.slot == slot && r.version == 1
  }

  /** The passes leave marks, versions and configurations alone. */
  ghost predicate SameStanding(rs: Pool, rs': Pool) {
    && rs'.Keys == rs.Keys
    && forall k :: k in rs ==>
         rs'[k].lastUpdate == rs[k].lastUpdate && rs'[k].version == rs[k].version && rs'[k].config == rs[k].config
         && rs'[k].liquidity.cumulativeRate == rs[k].liquidity.cumulativeRate
  }

  lemma SameStandingTransitive(a: Pool, b: Pool, c: Pool)
    requires SameStanding(a, b) && SameStanding(b, c)
    ensures SameStanding(a, c)
  {
  }

  lemma SameStandingSelf(rs: Pool)
    ensures SameStanding(rs, rs)
  {
  }

  // ---- borrows ------------------------------------------------------------

  /** A debt's reserve is usable, and in a group it is the group's debt reserve. */
  ghost predicate BorrowAllowed(rs: Pool, g: Option<ElevationGroup>, slot: U64, b: Borrow) {
    b.Active() ==>
      && b.reserve in rs && Usable(rs[b.reserve], slot)
      && (g.Some? ==> g.value.id in rs[b.reserve].config.elevationGroups && b.reserve == g.value.debtReserve)
  }

  /** A debt has grown with the index, rounded down, and stands at the reserve's index. */
  ghost predicate Grown(rs: Pool, b: Borrow, b': Borrow) {
    && b'.reserve == b.reserve
    && (b.Active() && b.cumulativeRate > 0 ==>
          && b.reserve in rs
          && b'.cumulativeRate == rs[b.reserve].liquidity.cumulativeRate
          && b'.borrowed * b.cumulativeRate <= b.borrowed * b'.cumulativeRate < (b'.borrowed + 1) * b.cumulativeRate)
    && (!b.Active() ==> b' == b)
  }

  /** Exactly the price checks that all debts' reserves have passed. */
  ghost predicate ChecksOfBorrows(rs: Pool, bs: seq<Borrow>, n: nat, prices: PriceStatus)
    requires n <= |bs|
  {
    forall flag: PriceFlag :: flag in prices <==>
      forall j :: 0 <= j < n && bs[j].Active() && bs[j].reserve in rs ==> flag in rs[bs[j].reserve].lastUpdate.priceStatus
  }

  ghost predicate ObsoleteBorrow(rs: Pool, bs: seq<Borrow>, n: nat)
    requires n <= |bs|
  {
    exists j :: 0 <= j < n && bs[j].Active() && bs[j].reserve in rs && rs[bs[j].reserve].config.obsolete
  }

  lemma AccruedFloors(b: Borrow, rate: U256)
    requires AccruedDebt(b, rate).Ok? && b.cumulativeRate > 0
    ensures var b' := AccruedDebt(b, rate).value;
      && b'.cumulativeRate == rate
      && b'.borrowed * b.cumulativeRate <= b.borrowed * rate < (b'.borrowed + 1) * b.cumulativeRate
  {
    assert b.borrowed * rate >= 0 by { MulLeft(rate, 0, b.borrowed); }
    if rate > b.cumulativeRate {
      DivBounds(b.borrowed * rate, b.cumulativeRate);
      NextTimes(AccruedDebt(b, rate).value.borrowed, b.cumulativeRate);
    } else {
      NextTimes(b.borrowed, b.cumulativeRate);
    }
  }

  lemma NextTimes(x: nat, k: nat)
    ensures (x + 1) * k == x * k + k
  {
  }

  lemma AccruedKeepsReserve(b: Borrow, rate: U256)
    requires AccruedDebt(b, rate).Ok?
    ensures AccruedDebt(b, rate).value.reserve == b.reserve
  {
  }

  lemma RefreshBorrowChecks(m: Market, g: Option<ElevationGroup>, o: Obligation, slot: U64, p: BorrowPass, i: nat)
    requires i < |p.borrows| && RefreshBorrow(m, g, o, slot, p, i).Ok?
    ensures var q := RefreshBorrow(m, g, o, slot, p, i).value; var b := p.borrows[i];
      && SameStanding(p.reserves, q.reserves)
      && q.borrows == p.borrows[i := q.borrows[i]]
      && BorrowAllowed(p.reserves, g, slot, b) && Grown(p.reserves, b, q.borrows[i])
      && q.totals.prices == (if b.Active() then p.totals.prices * p.reserves[b.reserve].lastUpdate.priceStatus else p.totals.prices)
      && (q.totals.obsolete > 0 <==> p.totals.obsolete > 0 || (b.Active() && p.reserves[b.reserve].config.obsolete))
  {
    hide AccumulateReferrerFees, AccruedDebt, NeedRefreshable, TrackBorrow, ValueBorrow, Grown, Usable;
    var b := p.borrows[i];
    if b.Active() {
      var r := p.reserves[b.reserve];
      UsableMeans(r, slot);
      var accrued := AccruedDebt(b, r.liquidity.cumulativeRate).value;
      var amount := ToCeil(accrued.borrowed).value;
      TrackBorrowMeans(g, r, accrued, amount);
      var tracked := TrackBorrow(g, r, accrued, amount).value;
      var elapsed := o.lastUpdate.SlotsElapsed(slot).value;
      DebtPasses.AccumulateLeaves(tracked.0, o.referrer, m.referralFeeBps, elapsed, accrued.borrowed, b.borrowed);
      var paid := AccumulateReferrerFees(tracked.0, o.referrer, m.referralFeeBps, elapsed, accrued.borrowed, b.borrowed).value;
      ValueBorrowFlags(m, g, paid, tracked.1, amount, p.totals);
      GrownSlot(p.reserves, b, ValueBorrow(m, g, paid, tracked.1, amount, p.totals).value.0);
      AccruedKeepsReserve(b, r.liquidity.cumulativeRate);
    } else {
      UntouchedSlot(p.reserves, b);
    }
  }

  lemma UsableMeans(r: Reserve, slot: U64)
    requires NeedRefreshable(r, slot).Ok?
    ensures Usable(r, slot)
  {
    FreshMeansNow(r.lastUpdate, slot, NONE);
  }

  lemma TrackBorrowMeans(g: Option<ElevationGroup>, r: Reserve, b: Borrow, amount: U64)
    requires TrackBorrow(g, r, b, amount).Ok?
    ensures var t := TrackBorrow(g, r, b, amount).value;
      && t.0 == r.(outsideDebt := t.0.outsideDebt) && t.1 == b.(outsideDebt := t.1.outsideDebt)
      && (g.Some? ==> g.value.id in r.config.elevationGroups && b.reserve == g.value.debtReserve)
  {
  }

  lemma ValueBorrowFlags(m: Market, g: Option<ElevationGroup>, r: Reserve, b: Borrow, amount: U64, t: BorrowTotals)
    requires ValueBorrow(m, g, r, b, amount, t).Ok?
    ensures var v := ValueBorrow(m, g, r, b, amount, t).value;
      && v.0 == b.(marketValue := v.0.marketValue, adjustedValue := v.0.adjustedValue)
      && v.1.prices == t.prices * r.lastUpdate.priceStatus
      && v.1.obsolete == t.obsolete + if r.config.obsolete then 1 else 0
  {
    hide MarketValue, BorrowFactor, Mul;
  }

  lemma GrownSlot(rs: Pool, b: Borrow, b': Borrow)
    requires b.Active() && b.reserve in rs && AccruedDebt(b, rs[b.reserve].liquidity.cumulativeRate).Ok?
    requires var accrued := AccruedDebt(b, rs[b.reserve].liquidity.cumulativeRate).value;
      b'.reserve == accrued.reserve && b'.borrowed == accrued.borrowed && b'.cumulativeRate == accrued.cumulativeRate
    ensures Grown(rs, b, b')
  {
    hide AccruedDebt;
    AccruedKeepsReserve(b, rs[b.reserve].liquidity.cumulativeRate);
    if b.cumulativeRate > 0 { AccruedFloors(b, rs[b.reserve].liquidity.cumulativeRate); }
  }

  lemma UntouchedSlot(rs: Pool, b: Borrow)
    requires !b.Active()
    ensures Grown(rs, b, b)
  {
  }

  lemma EveryFlag(flag: PriceFlag)
    ensures flag in ALL_CHECKS
  {
    match flag {
      case PriceLoaded => case PriceAgeChecked => case TwapChecked => case TwapAgeChecked =>
      case HeuristicChecked => case PriceUsageAllowed =>
    }
  }

  lemma NothingToCheck(rs: Pool, bs: seq<Borrow>, ds: seq<Deposit>)
    ensures ChecksOfBorrows(rs, bs, 0, ALL_CHECKS) && ChecksOfDeposits(rs, ds, 0, ALL_CHECKS) && !ObsoleteBorrow(rs, bs, 0)
  {
    forall flag: PriceFlag ensures flag in ALL_CHECKS { EveryFlag(flag); }
  }

  lemma ChecksExtend(rs: Pool, bs: seq<Borrow>, n: nat, prices: PriceStatus, prices': PriceStatus, obsolete: bool, obsolete': bool)
    requires n < |bs| && ChecksOfBorrows(rs, bs, n, prices) && (obsolete <==> ObsoleteBorrow(rs, bs, n))
    requires bs[n].Active() ==> bs[n].reserve in rs
    requires prices' == if bs[n].Active() then prices * rs[bs[n].reserve].lastUpdate.priceStatus else prices
    requires obsolete' <==> obsolete || (bs[n].Active() && rs[bs[n].reserve].config.obsolete)
    ensures ChecksOfBorrows(rs, bs, n + 1, prices') && (obsolete' <==> ObsoleteBorrow(rs, bs, n + 1))
  {
    forall flag: PriceFlag ensures flag in prices' <==>
      forall j :: 0 <= j < n + 1 && bs[j].Active() && bs[j].reserve in rs ==> flag in rs[bs[j].reserve].lastUpdate.priceStatus
    {
      if flag in prices' {
        forall j | 0 <= j < n + 1 && bs[j].Active() && bs[j].reserve in rs ensures flag in rs[bs[j].reserve].lastUpdate.priceStatus {
          if j < n { assert flag in prices; }
        }
      }
    }
  }

  lemma DepositChecksExtend(rs: Pool, ds: seq<Deposit>, n: nat, prices: PriceStatus, prices': PriceStatus)
    requires n < |ds| && ChecksOfDeposits(rs, ds, n, prices) && (ds[n].Active() ==> ds[n].reserve in rs)
    requires prices' == if ds[n].Active() then prices * rs[ds[n].reserve].lastUpdate.priceStatus else prices
    ensures ChecksOfDeposits(rs, ds, n + 1, prices')
  {
    forall flag: PriceFlag ensures flag in prices' <==>
      forall j :: 0 <= j < n + 1 && ds[j].Active() && ds[j].reserve in rs ==> flag in rs[ds[j].reserve].lastUpdate.priceStatus
    {
      if flag in prices' {
        forall j | 0 <= j < n + 1 && ds[j].Active() && ds[j].reserve in rs ensures flag in rs[ds[j].reserve].lastUpdate.priceStatus {
          if j < n { assert flag in prices; }
        }
      }
    }
  }

  lemma {:induction false} RefreshBorrowsCheck(m: Market, g: Option<ElevationGroup>, o: Obligation, slot: U64, rs: Pool, n: nat)
    requires n <= |o.borrows| && RefreshBorrowsUpTo(m, g, o, slot, rs, n).Ok?
    ensures var p := RefreshBorrowsUpTo(m, g, o, slot, rs, n).value;
      && SameStanding(rs, p.reserves)
      && (forall j :: 0 <= j < n ==> BorrowAllowed(rs, g, slot, o.borrows[j]) && Grown(rs, o.borrows[j], p.borrows[j]))
      && (forall j :: n <= j < |o.borrows| ==> p.borrows[j] == o.borrows[j])
      && ChecksOfBorrows(rs, o.borrows, n, p.totals.prices)
      && (p.totals.obsolete > 0 <==> ObsoleteBorrow(rs, o.borrows, n))
  {
    hide RefreshBorrow, BorrowAllowed, Grown, Usable, ChecksOfBorrows, ObsoleteBorrow, SameStanding;
    if n == 0 {
      SameStandingSelf(rs);
      NothingToCheck(rs, o.borrows, []);
    } else {
      RefreshBorrowsCheck(m, g, o, slot, rs, n - 1);
      var p := RefreshBorrowsUpTo(m, g, o, slot, rs, n - 1).value;
      RefreshBorrowChecks(m, g, o, slot, p, n - 1);
      var q := RefreshBorrow(m, g, o, slot, p, n - 1).value;
      SameStandingSameRules(rs, p.reserves, g, slot, o.borrows[n - 1], q.borrows[n - 1]);
      SameStandingTransitive(rs, p.reserves, q.reserves);
      ChecksExtend(rs, o.borrows, n - 1, p.totals.prices, q.totals.prices, p.totals.obsolete > 0, q.totals.obsolete > 0);
    }
  }

  lemma SameStandingSameRules(rs: Pool, rs': Pool, g: Option<ElevationGroup>, slot: U64, b: Borrow, b': Borrow)
    requires SameStanding(rs, rs')
    ensures BorrowAllowed(rs', g, slot, b) <==> BorrowAllowed(rs, g, slot, b)
    ensures Grown(rs', b, b') <==> Grown(rs, b, b')
    ensures BorrowAllowed(rs, g, slot, b) && b.Active() ==>
      b.reserve in rs && rs'[b.reserve].lastUpdate == rs[b.reserve].lastUpdate && rs'[b.reserve].config == rs[b.reserve].config
  {
  }

  // ---- deposits -----------------------------------------------------------

  /** A deposit's reserve is usable, and in a group it belongs to the group without being
      its debt reserve. */
  ghost predicate DepositAllowed(rs: Pool, g: Option<ElevationGroup>, slot: U64, d: Deposit) {
    d.Active() ==>
      && d.reserve in rs && Usable(rs[d.reserve], slot)
      && (g.Some? ==> g.value.id in rs[d.reserve].config.elevationGroups && d.reserve != g.value.debtReserve)
  }

  ghost predicate ChecksOfDeposits(rs: Pool, ds: seq<Deposit>, n: nat, prices: PriceStatus)
    requires n <= |ds|
  {
    forall flag: PriceFlag :: flag in prices <==>
      forall j :: 0 <= j < n && ds[j].Active() && ds[j].reserve in rs ==> flag in rs[ds[j].reserve].lastUpdate.priceStatus
  }

  lemma RefreshDepositChecks(m: Market, g: Option<ElevationGroup>, debt: U64, slot: U64, p: DepositPass, i: nat)
    requires i < |p.deposits| && RefreshDeposit(m, g, debt, slot, p, i).Ok?
    ensures var q := RefreshDeposit(m, g, debt, slot, p, i).value; var d := p.deposits[i];
      && SameStanding(p.reserves, q.reserves)
      && q.deposits == p.deposits[i := q.deposits[i]]
      && DepositAllowed(p.reserves, g, slot, d) && q.deposits[i].reserve == d.reserve && q.deposits[i].amount == d.amount
      && q.totals.prices == (if d.Active() then p.totals.prices * p.reserves[d.reserve].lastUpdate.priceStatus else p.totals.prices)
      && q.totals.count == p.totals.count + (if d.Active() && d.amount > 0 then 1 else 0)
  {
    hide CollateralValue, MaxLtvPct, LiquidationThresholdPct, FromPercent, Mul;
    var d := p.deposits[i];
    if d.Active() { FreshMeansNow(p.reserves[d.reserve].lastUpdate, slot, NONE); }
  }

  function CountHeld(ds: seq<Deposit>): nat {
    if ds == [] then 0 else CountHeld(ds[..|ds| - 1]) + if ds[|ds| - 1].Active() && ds[|ds| - 1].amount > 0 then 1 else 0
  }

  lemma {:induction false} RefreshDepositsCheck(m: Market, g: Option<ElevationGroup>, debt: U64, slot: U64, rs: Pool, ds: seq<Deposit>, n: nat)
    requires n <= |ds| && RefreshDepositsUpTo(m, g, debt, slot, rs, ds, n).Ok?
    ensures var p := RefreshDepositsUpTo(m, g, debt, slot, rs, ds, n).value;
      && SameStanding(rs, p.reserves)
      && (forall j :: 0 <= j < n ==>
            DepositAllowed(rs, g, slot, ds[j]) && p.deposits[j].reserve == ds[j].reserve && p.deposits[j].amount == ds[j].amount)
      && (forall j :: n <= j < |ds| ==> p.deposits[j] == ds[j])
      && ChecksOfDeposits(rs, ds, n, p.totals.prices) && p.totals.count == CountHeld(ds[..n])
  {
    hide RefreshDeposit, DepositAllowed, Usable, ChecksOfDeposits, SameStanding;
    if n == 0 {
      SameStandingSelf(rs);
      NothingToCheck(rs, [], ds);
    } else {
      RefreshDepositsCheck(m, g, debt, slot, rs, ds, n - 1);
      var p := RefreshDepositsUpTo(m, g, debt, slot, rs, ds, n - 1).value;
      RefreshDepositChecks(m, g, debt, slot, p, n - 1);
      var q := RefreshDeposit(m, g, debt, slot, p, n - 1).value;
      SameDepositRules(rs, p.reserves, g, slot, ds[n - 1]);
      SameStandingTransitive(rs, p.reserves, q.reserves);
      DepositChecksExtend(rs, ds, n - 1, p.totals.prices, q.totals.prices);
      assert ds[..n][..n - 1] == ds[..n - 1];
    }
  }

  lemma SameDepositRules(rs: Pool, rs': Pool, g: Option<ElevationGroup>, slot: U64, d: Deposit)
    requires SameStanding(rs, rs')
    ensures DepositAllowed(rs', g, slot, d) <==> DepositAllowed(rs, g, slot, d)
    ensures DepositAllowed(rs, g, slot, d) && d.Active() ==>
      d.reserve in rs && rs'[d.reserve].lastUpdate == rs[d.reserve].lastUpdate
  {
  }

  // ---- both passes --------------------------------------------------------

  /** What both passes over the slots demand of the reserves before them. */
  ghost predicate SlotsAllowed(rs: Pool, g: Option<ElevationGroup>, slot: U64, o: Obligation, checkCount: bool) {
    && (forall j :: 0 <= j < |o.borrows| ==> BorrowAllowed(rs, g, slot, o.borrows[j]))
    && (forall j :: 0 <= j < |o.deposits| ==> DepositAllowed(rs, g, slot, o.deposits[j]))
    && (g.Some? ==> CountBorrows(o.borrows) <= 1)
    && (g.Some? && checkCount ==> CountHeld(o.deposits) <= g.value.maxReservesAsCollateral)
  }

  /** The prices of all reserves behind the obligation have passed the check. */
  ghost predicate AllPassed(rs: Pool, o: Obligation, flag: PriceFlag) {
    && (forall j :: 0 <= j < |o.borrows| && o.borrows[j].Active() && o.borrows[j].reserve in rs ==>
          flag in rs[o.borrows[j].reserve].lastUpdate.priceStatus)
    && (forall j :: 0 <= j < |o.deposits| && o.deposits[j].Active() && o.deposits[j].reserve in rs ==>
          flag in rs[o.deposits[j].reserve].lastUpdate.priceStatus)
  }

  lemma {:induction false} CountIsTotal(m: Market, g: Option<ElevationGroup>, o: Obligation, slot: U64, rs: Pool, n: nat)
    requires n <= |o.borrows| && RefreshBorrowsUpTo(m, g, o, slot, rs, n).Ok?
    ensures RefreshBorrowsUpTo(m, g, o, slot, rs, n).value.totals.count == CountBorrows(o.borrows[..n])
  {
    hide RefreshBorrow;
    if n == 0 {
    } else {
      CountIsTotal(m, g, o, slot, rs, n - 1);
      RefreshBorrowsCheck(m, g, o, slot, rs, n - 1);
      CountStep(m, g, o, slot, RefreshBorrowsUpTo(m, g, o, slot, rs, n - 1).value, n - 1);
      assert o.borrows[..n][..n - 1] == o.borrows[..n - 1];
    }
  }

  lemma CountStep(m: Market, g: Option<ElevationGroup>, o: Obligation, slot: U64, p: BorrowPass, i: nat)
    requires i < |p.borrows| && RefreshBorrow(m, g, o, slot, p, i).Ok?
    ensures RefreshBorrow(m, g, o, slot, p, i).value.totals.count == p.totals.count + if p.borrows[i].Active() then 1 else 0
  {
    hide AccumulateReferrerFees, AccruedDebt, MarketValue, BorrowFactor, Mul, TrackBorrow;
  }

  lemma PassesCheck(m: Market, g: Option<ElevationGroup>, o: Obligation, slot: U64, rs: Pool, checkCount: bool)
    requires RefreshBorrows(m, g, o, slot, rs).Ok?
    requires var b := RefreshBorrows(m, g, o, slot, rs).value;
      RefreshDeposits(m, g, b.totals.debt, slot, b.reserves, o.deposits, checkCount).Ok?
    ensures var b := RefreshBorrows(m, g, o, slot, rs).value;
      var d := RefreshDeposits(m, g, b.totals.debt, slot, b.reserves, o.deposits, checkCount).value;
      && SlotsAllowed(rs, g, slot, o, checkCount) && SameStanding(rs, d.reserves)
      && |b.borrows| == |o.borrows| && |d.deposits| == |o.deposits|
      && (forall j :: 0 <= j < |o.borrows| ==> Grown(rs, o.borrows[j], b.borrows[j]))
      && (forall j :: 0 <= j < |o.deposits| ==> d.deposits[j].reserve == o.deposits[j].reserve && d.deposits[j].amount == o.deposits[j].amount)
      && (forall flag: PriceFlag :: flag in b.totals.prices * d.totals.prices <==> AllPassed(rs, o, flag))
      && (b.totals.obsolete > 0 <==> ObsoleteBorrow(rs, o.borrows, |o.borrows|))
  {
    hide RefreshBorrowsUpTo, RefreshDepositsUpTo, BorrowAllowed, DepositAllowed, Grown, ObsoleteBorrow;
    var b := RefreshBorrows(m, g, o, slot, rs).value;
    RefreshBorrowsCheck(m, g, o, slot, rs, |o.borrows|);
    CountIsTotal(m, g, o, slot, rs, |o.borrows|);
    assert o.borrows[..|o.borrows|] == o.borrows;
    var d := RefreshDeposits(m, g, b.totals.debt, slot, b.reserves, o.deposits, checkCount).value;
    RefreshDepositsCheck(m, g, b.totals.debt, slot, b.reserves, o.deposits, |o.deposits|);
    assert o.deposits[..|o.deposits|] == o.deposits;
    SameStandingTransitive(rs, b.reserves, d.reserves);
    forall j | 0 <= j < |o.deposits| ensures DepositAllowed(rs, g, slot, o.deposits[j]) {
      SameDepositRules(rs, b.reserves, g, slot, o.deposits[j]);
    }
    PassedInBoth(rs, b.reserves, o, b.totals.prices, d.totals.prices);
  }

  lemma PassedInBoth(rs: Pool, rs': Pool, o: Obligation, prices: PriceStatus, prices': PriceStatus)
    requires SameStanding(rs, rs')
    requires ChecksOfBorrows(rs, o.borrows, |o.borrows|, prices) && ChecksOfDeposits(rs', o.deposits, |o.deposits|, prices')
    ensures forall flag: PriceFlag :: flag in prices * prices' <==> AllPassed(rs, o, flag)
  {
  }

  /** An accepted refresh: every reserve behind the obligation is refreshed in this slot and
      not deprecated, the rules of its group hold, every debt has grown with its index, and
      the obligation is fresh with exactly the price checks that all its reserves passed. */
  lemma AcceptedRefresh(m: Market, a: Accounts, slot: U64, checkCount: bool)
    requires RefreshObligation(m, a, slot, checkCount).Ok?
    ensures UsableElevationGroup(m, a.o.group).Ok?
    ensures var g := UsableElevationGroup(m, a.o.group).value; var a' := RefreshObligation(m, a, slot, checkCount).value;
      && SlotsAllowed(a.reserves, g, slot, a.o, checkCount)
      && |a'.o.borrows| == |a.o.borrows| && |a'.o.deposits| == |a.o.deposits|
      && (forall j :: 0 <= j < |a.o.borrows| ==> Grown(a.reserves, a.o.borrows[j], a'.o.borrows[j]))
      && (forall j :: 0 <= j < |a.o.deposits| ==>
            a'.o.deposits[j].reserve == a.o.deposits[j].reserve && a'.o.deposits[j].amount == a.o.deposits[j].amount)
      && a'.o.lastUpdate.slot == slot && !a'.o.lastUpdate.stale
      && (forall flag: PriceFlag :: flag in a'.o.lastUpdate.priceStatus <==> AllPassed(a.reserves, a.o, flag))
      && (a'.o.values.obsoleteBorrows > 0 <==> ObsoleteBorrow(a.reserves, a.o.borrows, |a.o.borrows|))
      && a'.o == a.o.(deposits := a'.o.deposits, borrows := a'.o.borrows, hasDebt := a'.o.hasDebt, values := a'.o.values,
                      lastUpdate := a'.o.lastUpdate)
  {
    hide RefreshBorrows, RefreshDeposits, UsableElevationGroup, SlotsAllowed, Grown, AllPassed, ObsoleteBorrow, Round;
    PassesCheck(m, UsableElevationGroup(m, a.o.group).value, a.o, slot, a.reserves, checkCount);
  }
}
