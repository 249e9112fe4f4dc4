/** The loops over an obligation's slots keep the trackers settled: refreshing borrows
    and deposits, moving the debt recorded against deposits, clearing what is recorded
    outside elevation groups. */
module DebtPasses {
  import opened Results
  import opened Arithmetic
  import opened FixedPoint
  import opened LastUpdates
  import opened Reserves
  import opened ReserveOperations
  import opened Markets
  import opened Obligations
  import opened Positions
  import opened MarketOperations
  import opened DebtTrackers

  /** The debts in whole tokens, each rounded up. */
  function WholeDebt(bs: seq<Borrow>): nat {
    if bs == [] then 0 else WholeDebt(bs[..|bs| - 1]) + Ceil(bs[|bs| - 1].borrowed)
  }

  lemma {:induction false} WholeDebtHas(bs: seq<Borrow>, i: nat)
    requires i < |bs|
    ensures Ceil(bs[i].borrowed) <= WholeDebt(bs)
  {
    if i == |bs| - 1 {
    } else {
      WholeDebtHas(bs[..|bs| - 1], i);
    }
  }

  // ---- debt recorded against deposits -------------------------------------

  function MovedDebt(change: Change, d: Deposit): nat {
    match change
    case More(amount) => d.groupDebt + amount
    case Less(amount) => SatSub(d.groupDebt, amount)
    case Clear => 0
  }

  /** A change the slot can afford: nothing saturates. */
  predicate Affordable(change: Change, d: Deposit) {
    change.Less? && d.Active() ==> change.amount <= d.groupDebt
  }

  function MovedDeposit(change: Change, d: Deposit): Deposit
    requires d.Active() ==> MovedDebt(change, d) < TWO_64
  {
    if d.Active() then d.(groupDebt := MovedDebt(change, d)) else d
  }

  lemma MoveDepositSettles(rs: Pool, o: Obligation, index: nat, change: Change, i: nat)
    requires ValidPool(rs) && Covers(rs, o) && o.group == index + 1 <= MAX_NUM_ELEVATION_GROUPS && i < |o.deposits|
    requires Affordable(change, o.deposits[i]) && MoveDeposit(GroupPass(rs, o.deposits), index, change, i).Ok?
    ensures var p := MoveDeposit(GroupPass(rs, o.deposits), index, change, i).value;
      && Settles(rs, o, p.reserves, o.(deposits := p.deposits))
      && (o.deposits[i].Active() ==> MovedDebt(change, o.deposits[i]) < TWO_64)
      && p.deposits == o.deposits[i := MovedDeposit(change, o.deposits[i])]
  {
    var d := o.deposits[i];
    if d.Active() {
      PartsAreCovered(rs, o);
      var moved := MoveGroupDebt(rs[d.reserve], d, index, change).value;
      DepositMoves(rs, o, i, moved.1, d.reserve, moved.0);
    } else {
      SettlesNothing(rs, o, o.(deposits := o.deposits));
    }
  }

  /** The loop moves every active slot and nothing else, and no tracker saturates. */
  lemma {:induction false} MoveDepositsSettle(rs: Pool, o: Obligation, index: nat, change: Change, n: nat)
    requires ValidPool(rs) && Covers(rs, o) && o.group == index + 1 <= MAX_NUM_ELEVATION_GROUPS && n <= |o.deposits|
    requires forall i :: 0 <= i < |o.deposits| ==> Affordable(change, o.deposits[i])
    requires MoveDepositsUpTo(rs, o.deposits, index, change, n).Ok?
    ensures var p := MoveDepositsUpTo(rs, o.deposits, index, change, n).value;
      && Settles(rs, o, p.reserves, o.(deposits := p.deposits))
      && (forall j :: 0 <= j < n && o.deposits[j].Active() ==> MovedDebt(change, o.deposits[j]) < TWO_64)
      && (forall j :: 0 <= j < n ==> p.deposits[j] == MovedDeposit(change, o.deposits[j]))
      && (forall j :: n <= j < |o.deposits| ==> p.deposits[j] == o.deposits[j])
  {
    hide Settles, Covers, ValidPool, MoveDeposit, MovedDebt, MovedDeposit;
    if n == 0 {
      SettlesNothing(rs, o, o.(deposits := o.deposits));
    } else {
      MoveDepositsSettle(rs, o, index, change, n - 1);
      var p := MoveDepositsUpTo(rs, o.deposits, index, change, n - 1).value;
      var o1 := o.(deposits := p.deposits);
      SettlesPools(rs, o, p.reserves, o1);
      SettlesCovers(rs, o, p.reserves, o1);
      assert o1.deposits[n - 1] == o.deposits[n - 1];
      MoveDepositSettles(p.reserves, o1, index, change, n - 1);
      var q := MoveDeposit(p, index, change, n - 1).value;
      SettlesTransitive(rs, o, p.reserves, o1, q.reserves, o.(deposits := q.deposits));
    }
  }

  // ---- debt recorded outside elevation groups -----------------------------

  lemma ClearBorrowSettles(rs: Pool, o: Obligation, i: nat)
    requires ValidPool(rs) && Covers(rs, o) && o.group <= MAX_NUM_ELEVATION_GROUPS && i < |o.borrows|
    requires ClearBorrow(OutsidePass(rs, o.borrows), i).Ok?
    ensures var p := ClearBorrow(OutsidePass(rs, o.borrows), i).value;
      && Settles(rs, o, p.reserves, o.(borrows := p.borrows))
      && p.borrows == o.borrows[i := if o.borrows[i].Active() then o.borrows[i].(outsideDebt := 0) else o.borrows[i]]
  {
    var b := o.borrows[i];
    if b.Active() {
      PartsAreCovered(rs, o);
      var r := rs[b.reserve];
      BorrowMoves(rs, o, i, b.(outsideDebt := 0), b.reserve, r.(outsideDebt := SatSub(r.outsideDebt, b.outsideDebt)));
    } else {
      SettlesNothing(rs, o, o.(borrows := o.borrows));
    }
  }

  lemma {:induction false} ClearBorrowsSettle(rs: Pool, o: Obligation, n: nat)
    requires ValidPool(rs) && Covers(rs, o) && o.group <= MAX_NUM_ELEVATION_GROUPS && n <= |o.borrows|
    requires ClearBorrowsUpTo(rs, o.borrows, n).Ok?
    ensures var p := ClearBorrowsUpTo(rs, o.borrows, n).value;
      && Settles(rs, o, p.reserves, o.(borrows := p.borrows))
      && (forall j :: 0 <= j < n ==>
            p.borrows[j] == if o.borrows[j].Active() then o.borrows[j].(outsideDebt := 0) else o.borrows[j])
      && (forall j :: n <= j < |o.borrows| ==> p.borrows[j] == o.borrows[j])
  {
    hide Settles, Covers, ValidPool, ClearBorrow;
    if n == 0 {
      SettlesNothing(rs, o, o.(borrows := o.borrows));
    } else {
      ClearBorrowsSettle(rs, o, n - 1);
      var p := ClearBorrowsUpTo(rs, o.borrows, n - 1).value;
      var o1 := o.(borrows := p.borrows);
      SettlesPools(rs, o, p.reserves, o1);
      SettlesCovers(rs, o, p.reserves, o1);
      ClearBorrowSettles(p.reserves, o1, n - 1);
      var q := ClearBorrow(p, n - 1).value;
      SettlesTransitive(rs, o, p.reserves, o1, q.reserves, o.(borrows := q.borrows));
    }
  }

  // ---- refreshing borrows -------------------------------------------------

  /** A refresh's effect on one borrow: its debt follows the reserve's index, and outside
      elevation groups the debt is recorded in whole tokens, rounded up. */
  ghost predicate BorrowRefreshed(outside: bool, r: Reserve, slot: U64, b: Borrow, b': Borrow) {
    && b'.reserve == b.reserve
    && b'.cumulativeRate == r.liquidity.cumulativeRate >= b.cumulativeRate > 0
    && b'.borrowed >= b.borrowed
    && b'.outsideDebt == (if outside then Ceil(b'.borrowed) else b.outsideDebt)
    && r.lastUpdate.slot == slot
  }

  ghost predicate BorrowSlotRefreshed(outside: bool, rs: Pool, slot: U64, b: Borrow, b': Borrow) {
    if b.Active() then b.reserve in rs && BorrowRefreshed(outside, rs[b.reserve], slot, b, b') else b' == b
  }

  lemma SameIndexSameRefresh(outside: bool, rs: Pool, o: Obligation, rs': Pool, o': Obligation, slot: U64, b: Borrow, b': Borrow)
    requires Settles(rs, o, rs', o') && BorrowSlotRefreshed(outside, rs', slot, b, b')
    ensures BorrowSlotRefreshed(outside, rs, slot, b, b')
  {
  }

  lemma AccruedGrows(b: Borrow, rate: U256)
    requires AccruedDebt(b, rate).Ok? && b.cumulativeRate > 0
    ensures var b' := AccruedDebt(b, rate).value;
      && b' == b.(borrowed := b'.borrowed, cumulativeRate := rate)
      && rate >= b.cumulativeRate && b'.borrowed >= b.borrowed
  {
    if rate > b.cumulativeRate {
      MulLeft(b.borrowed, b.cumulativeRate, rate);
      LeDiv(b.borrowed, b.borrowed * rate, b.cumulativeRate);
    }
  }

  /** Attributing referrer fees leaves the index, the trackers and the status alone. */
  lemma AccumulateLeaves(r: Reserve, referrer: Option<nat>, bps: U16, elapsed: U64, debt: Fraction, previous: Fraction)
    requires AccumulateReferrerFees(r, referrer, bps, elapsed, debt, previous).Ok?
    ensures var r' := AccumulateReferrerFees(r, referrer, bps, elapsed, debt, previous).value;
      && r'.lastUpdate == r.lastUpdate && r'.version == r.version && r'.config == r.config
      && r'.liquidity.cumulativeRate == r.liquidity.cumulativeRate
      && r'.outsideDebt == r.outsideDebt && r'.groupDebts == r.groupDebts
  {
    hide PendingShare, Credited;
  }

  lemma ValueBorrowLeaves(m: Market, g: Option<ElevationGroup>, r: Reserve, b: Borrow, amount: U64, t: BorrowTotals)
    requires ValueBorrow(m, g, r, b, amount, t).Ok?
    ensures var v := ValueBorrow(m, g, r, b, amount, t).value;
      && v.0 == b.(marketValue := v.0.marketValue, adjustedValue := v.0.adjustedValue)
      && v.1.debt == t.debt + amount && v.1.count == t.count + 1
  {
    hide MarketValue, BorrowFactor, Mul;
  }

  lemma RefreshBorrowSettles(m: Market, g: Option<ElevationGroup>, o: Obligation, slot: U64, rs: Pool, bs: seq<Borrow>,
                             t: BorrowTotals, i: nat)
    requires var oi := o.(borrows := bs); ValidPool(rs) && Covers(rs, oi) && o.group <= MAX_NUM_ELEVATION_GROUPS && i < |bs|
    requires bs[i].Active() ==> bs[i].cumulativeRate > 0
    requires RefreshBorrow(m, g, o, slot, BorrowPass(rs, bs, t), i).Ok?
    ensures var p := RefreshBorrow(m, g, o, slot, BorrowPass(rs, bs, t), i).value;
      && Settles(rs, o.(borrows := bs), p.reserves, o.(borrows := p.borrows))
      && p.borrows == bs[i := p.borrows[i]] && BorrowSlotRefreshed(g.None?, rs, slot, bs[i], p.borrows[i])
      && p.totals.debt == t.debt + (if bs[i].Active() then Ceil(p.borrows[i].borrowed) else 0)
      && p.totals.count == t.count + (if bs[i].Active() then 1 else 0)
  {
    hide AccumulateReferrerFees, ValueBorrow, AccruedDebt, Settles, Covers, BorrowFactor, MarketValue;
    var b := bs[i];
    var oi := o.(borrows := bs);
    if b.Active() {
      var r := rs[b.reserve];
      var accrued := AccruedDebt(b, r.liquidity.cumulativeRate).value;
      AccruedGrows(b, r.liquidity.cumulativeRate);
      var amount := ToCeil(accrued.borrowed).value;
      var tracked := TrackBorrow(g, r, accrued, amount).value;
      var elapsed := o.lastUpdate.SlotsElapsed(slot).value;
      AccumulateLeaves(tracked.0, o.referrer, m.referralFeeBps, elapsed, accrued.borrowed, b.borrowed);
      var paid := AccumulateReferrerFees(tracked.0, o.referrer, m.referralFeeBps, elapsed, accrued.borrowed, b.borrowed).value;
      ValueBorrowLeaves(m, g, paid, tracked.1, amount, t);
      var valued := ValueBorrow(m, g, paid, tracked.1, amount, t).value;
      PartsAreCovered(rs, oi);
      BorrowMoves(rs, oi, i, valued.0, b.reserve, paid);
      assert oi.(borrows := oi.borrows[i := valued.0]) == o.(borrows := bs[i := valued.0]);
    } else {
      SettlesNothing(rs, oi, oi);
    }
  }

  lemma SlotStaysActive(outside: bool, rs: Pool, slot: U64, b: Borrow, b': Borrow)
    requires BorrowSlotRefreshed(outside, rs, slot, b, b')
    ensures b'.Active() == b.Active() && (!b.Active() ==> b' == b)
  {
  }

  /** Each active slot is refreshed exactly once; the totals are those of the slots seen. */
  lemma {:induction false} RefreshBorrowsSettle(m: Market, g: Option<ElevationGroup>, o: Obligation, slot: U64, rs: Pool, n: nat)
    requires ValidPool(rs) && Covers(rs, o) && o.group <= MAX_NUM_ELEVATION_GROUPS && n <= |o.borrows|
    requires forall i :: 0 <= i < |o.borrows| ==>
      if o.borrows[i].Active() then o.borrows[i].cumulativeRate > 0 else o.borrows[i].borrowed == 0
    requires RefreshBorrowsUpTo(m, g, o, slot, rs, n).Ok?
    ensures var p := RefreshBorrowsUpTo(m, g, o, slot, rs, n).value;
      && Settles(rs, o, p.reserves, o.(borrows := p.borrows))
      && (forall j :: 0 <= j < n ==> BorrowSlotRefreshed(g.None?, rs, slot, o.borrows[j], p.borrows[j]))
      && (forall j :: n <= j < |o.borrows| ==> p.borrows[j] == o.borrows[j])
      && p.totals.debt == WholeDebt(p.borrows[..n]) && p.totals.count == CountBorrows(p.borrows[..n])
  {
    hide Settles, Covers, ValidPool, RefreshBorrow, BorrowSlotRefreshed;
    if n == 0 {
      SettlesNothing(rs, o, o.(borrows := o.borrows));
    } else {
      RefreshBorrowsSettle(m, g, o, slot, rs, n - 1);
      var p := RefreshBorrowsUpTo(m, g, o, slot, rs, n - 1).value;
      var o1 := o.(borrows := p.borrows);
      SettlesPools(rs, o, p.reserves, o1);
      SettlesCovers(rs, o, p.reserves, o1);
      RefreshBorrowSettles(m, g, o, slot, p.reserves, p.borrows, p.totals, n - 1);
      SameIndexSameRefresh(g.None?, rs, o, p.reserves, o1, slot, o.borrows[n - 1], RefreshBorrow(m, g, o, slot, p, n - 1).value.borrows[n - 1]);
      var q := RefreshBorrow(m, g, o, slot, p, n - 1).value;
      SettlesTransitive(rs, o, p.reserves, o1, q.reserves, o.(borrows := q.borrows));
      assert q.borrows[..n][..n - 1] == p.borrows[..n - 1];
      SlotStaysActive(g.None?, rs, slot, o.borrows[n - 1], q.borrows[n - 1]);
    }
  }

  // ---- refreshing deposits ------------------------------------------------

  lemma ValueDepositLeaves(m: Market, g: Option<ElevationGroup>, r: Reserve, d: Deposit, t: DepositTotals)
    requires ValueDeposit(m, g, r, d, t).Ok?
    ensures var v := ValueDeposit(m, g, r, d, t).value; v.0 == d.(marketValue := v.0.marketValue)
  {
    hide CollateralValue, MaxLtvPct, LiquidationThresholdPct, FromPercent, Mul;
  }

  /** A refresh's effect on one deposit: inside a group, the obligation's whole debt is
      recorded against it. */
  ghost predicate DepositRefreshed(inside: bool, debt: U64, d: Deposit, d': Deposit) {
    d' == d.(marketValue := d'.marketValue, groupDebt := if inside then debt else d.groupDebt)
  }

  lemma RefreshDepositSettles(m: Market, g: Option<ElevationGroup>, debt: U64, slot: U64, rs: Pool, o: Obligation,
                              t: DepositTotals, i: nat)
    requires ValidPool(rs) && Covers(rs, o) && o.group <= MAX_NUM_ELEVATION_GROUPS && i < |o.deposits|
    requires g.Some? ==> g.value.id == o.group
    requires RefreshDeposit(m, g, debt, slot, DepositPass(rs, o.deposits, t), i).Ok?
    ensures var p := RefreshDeposit(m, g, debt, slot, DepositPass(rs, o.deposits, t), i).value;
      && Settles(rs, o, p.reserves, o.(deposits := p.deposits))
      && p.deposits == o.deposits[i := p.deposits[i]]
      && (if o.deposits[i].Active() then
            o.deposits[i].reserve in rs && DepositRefreshed(g.Some?, debt, o.deposits[i], p.deposits[i])
          else p.deposits == o.deposits)
  {
    hide ValueDeposit, Settles, Covers;
    var d := o.deposits[i];
    if d.Active() {
      var r := rs[d.reserve];
      var tracked := TrackDeposit(g, r, d, debt).value;
      ValueDepositLeaves(m, g, tracked.0, tracked.1, t);
      var valued := ValueDeposit(m, g, tracked.0, tracked.1, t).value;
      PartsAreCovered(rs, o);
      DepositMoves(rs, o, i, valued.0, d.reserve, tracked.0);
    } else {
      SettlesNothing(rs, o, o.(deposits := o.deposits));
    }
  }

  lemma {:induction false} RefreshDepositsSettle(m: Market, g: Option<ElevationGroup>, debt: U64, slot: U64, rs: Pool,
                                                 o: Obligation, n: nat)
    requires ValidPool(rs) && Covers(rs, o) && o.group <= MAX_NUM_ELEVATION_GROUPS && n <= |o.deposits|
    requires g.Some? ==> g.value.id == o.group
    requires RefreshDepositsUpTo(m, g, debt, slot, rs, o.deposits, n).Ok?
    ensures var p := RefreshDepositsUpTo(m, g, debt, slot, rs, o.deposits, n).value;
      && Settles(rs, o, p.reserves, o.(deposits := p.deposits))
      && (forall j :: 0 <= j < n ==>
            if o.deposits[j].Active() then
              o.deposits[j].reserve in rs && DepositRefreshed(g.Some?, debt, o.deposits[j], p.deposits[j])
            else p.deposits[j] == o.deposits[j])
      && (forall j :: n <= j < |o.deposits| ==> p.deposits[j] == o.deposits[j])
  {
    hide Settles, Covers, ValidPool, RefreshDeposit;
    if n == 0 {
      SettlesNothing(rs, o, o.(deposits := o.deposits));
    } else {
      RefreshDepositsSettle(m, g, debt, slot, rs, o, n - 1);
      var p := RefreshDepositsUpTo(m, g, debt, slot, rs, o.deposits, n - 1).value;
      var o1 := o.(deposits := p.deposits);
      SettlesPools(rs, o, p.reserves, o1);
      SettlesCovers(rs, o, p.reserves, o1);
      RefreshDepositSettles(m, g, debt, slot, p.reserves, o1, p.totals, n - 1);
      var q := RefreshDeposit(m, g, debt, slot, p, n - 1).value;
      SettlesTransitive(rs, o, p.reserves, o1, q.reserves, o.(deposits := q.deposits));
    }
  }
}
