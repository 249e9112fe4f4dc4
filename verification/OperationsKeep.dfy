/** Every operation on an obligation settles the trackers exactly and keeps the
    obligation valid. */
module OperationsKeep {
  import opened Results
  import opened FixedPoint
  import opened Reserves
  import opened ReserveOperations
  import opened Markets
  import opened Obligations
  import opened MarketOperations
  import opened DebtTrackers
  import opened DebtPasses
  import opened ObligationInvariant

  /** The obligation's parts are covered by its reserves and it is valid. */
  ghost predicate Ready(rs: Pool, o: Obligation) {
    ValidPool(rs) && Covers(rs, o) && ValidObligation(rs, o)
  }

  ghost predicate Keeps(rs: Pool, o: Obligation, a: Accounts) {
    Settles(rs, o, a.reserves, a.o) && ValidObligation(a.reserves, a.o)
  }

  // ---- refresh ------------------------------------------------------------

  /** Every debt's index is one its reserve has had, and the current one if the reserve
      still stands at `slot`. */
  ghost predicate BorrowsCurrent(rs: Pool, slot: U64, bs: seq<Borrow>) {
    forall j :: 0 <= j < |bs| ==> Indexed(rs, bs[j]) && UpToDate(rs, slot, bs[j])
  }

  ghost predicate TrackedOutside(bs: seq<Borrow>) {
    forall j :: 0 <= j < |bs| ==> bs[j].outsideDebt == Ceil(bs[j].borrowed)
  }

  ghost predicate DepositsBacked(rs: Pool, ds: seq<Deposit>) {
    forall j :: 0 <= j < |ds| && ds[j].Active() ==> ds[j].reserve in rs
  }

  ghost predicate TrackedAgainst(ds: seq<Deposit>, debt: nat) {
    forall j :: 0 <= j < |ds| && ds[j].Active() ==> ds[j].groupDebt == debt
  }

  lemma RefreshedBorrowsAreGood(outside: bool, rs: Pool, slot: U64, bs: seq<Borrow>, bs': seq<Borrow>)
    requires GoodBorrows(bs) && |bs'| == |bs|
    requires forall j :: 0 <= j < |bs| ==> BorrowSlotRefreshed(outside, rs, slot, bs[j], bs'[j])
    requires !outside ==> NothingOutside(bs)
    ensures GoodBorrows(bs') && NoActiveBorrows(bs') == NoActiveBorrows(bs) && BorrowsCurrent(rs, slot, bs')
    ensures if outside then TrackedOutside(bs') else NothingOutside(bs')
  {
    forall j | 0 <= j < |bs| ensures bs[j].Active() ==> bs[j].borrowed > 0 { assert GoodBorrow(bs[j]); }
    BorrowsKeepShape(bs, bs');
    forall j | 0 <= j < |bs'|
      ensures Indexed(rs, bs'[j]) && UpToDate(rs, slot, bs'[j])
      ensures if outside then bs'[j].outsideDebt == Ceil(bs'[j].borrowed) else bs'[j].outsideDebt == 0
    {
      assert BorrowSlotRefreshed(outside, rs, slot, bs[j], bs'[j]);
      assert GoodBorrow(bs[j]);
    }
  }

  lemma CurrentWhileIndicesStay(rs: Pool, o: Obligation, rs': Pool, o': Obligation, slot: U64, bs: seq<Borrow>)
    requires Settles(rs, o, rs', o') && BorrowsCurrent(rs, slot, bs)
    ensures BorrowsCurrent(rs', slot, bs)
  {
    SettlesPools(rs, o, rs', o');
    hide Surplus;
    forall j | 0 <= j < |bs| ensures Indexed(rs', bs[j]) && UpToDate(rs', slot, bs[j]) {
      assert Indexed(rs, bs[j]) && UpToDate(rs, slot, bs[j]);
    }
  }

  lemma BorrowPassKeeps(m: Market, g: Option<ElevationGroup>, rs: Pool, o: Obligation, slot: U64)
    requires ValidPool(rs) && Covers(rs, o) && WellFormed(o) && (g.Some? <==> o.group != ELEVATION_GROUP_NONE)
    requires RefreshBorrows(m, g, o, slot, rs).Ok?
    ensures var b := RefreshBorrows(m, g, o, slot, rs).value;
      && Settles(rs, o, b.reserves, o.(borrows := b.borrows))
      && GoodBorrows(b.borrows) && b.totals.debt == WholeDebt(b.borrows)
      && NoActiveBorrows(b.borrows) == NoActiveBorrows(o.borrows) == (b.totals.count == 0)
      && BorrowsCurrent(b.reserves, slot, b.borrows)
      && if g.None? then TrackedOutside(b.borrows) else NothingOutside(b.borrows)
  {
    hide Settles, Covers, ValidPool, RefreshBorrowsUpTo, BorrowSlotRefreshed, GoodDeposits;
    var b := RefreshBorrows(m, g, o, slot, rs).value;
    forall i | 0 <= i < |o.borrows|
      ensures if o.borrows[i].Active() then o.borrows[i].cumulativeRate > 0 else o.borrows[i].borrowed == 0
    { assert GoodBorrow(o.borrows[i]); }
    RefreshBorrowsSettle(m, g, o, slot, rs, |o.borrows|);
    assert b.borrows[..|o.borrows|] == b.borrows;
    CountsAreActive(b.borrows);
    RefreshedBorrowsAreGood(g.None?, rs, slot, o.borrows, b.borrows);
    CurrentWhileIndicesStay(rs, o, b.reserves, o.(borrows := b.borrows), slot, b.borrows);
  }

  lemma RefreshedDepositsAreGood(inside: bool, debt: U64, ds: seq<Deposit>, ds': seq<Deposit>)
    requires GoodDeposits(ds) && |ds'| == |ds|
    requires forall j :: 0 <= j < |ds| ==> if ds[j].Active() then DepositRefreshed(inside, debt, ds[j], ds'[j]) else ds'[j] == ds[j]
    ensures GoodDeposits(ds')
    ensures inside ==> TrackedAgainst(ds', debt)
    ensures !inside && NothingAgainstDeposits(ds) ==> NothingAgainstDeposits(ds')
  {
    DepositsKeepShape(ds, ds');
  }

  lemma DepositPassKeeps(m: Market, g: Option<ElevationGroup>, debt: U64, rs: Pool, o: Obligation, slot: U64, checkCount: bool)
    requires ValidPool(rs) && Covers(rs, o) && GoodDeposits(o.deposits) && o.group <= MAX_NUM_ELEVATION_GROUPS
    requires if g.Some? then g.value.id == o.group else NothingAgainstDeposits(o.deposits)
    requires RefreshDeposits(m, g, debt, slot, rs, o.deposits, checkCount).Ok?
    ensures var d := RefreshDeposits(m, g, debt, slot, rs, o.deposits, checkCount).value;
      && Settles(rs, o, d.reserves, o.(deposits := d.deposits))
      && GoodDeposits(d.deposits) && DepositsBacked(d.reserves, d.deposits)
      && if g.None? then NothingAgainstDeposits(d.deposits) else TrackedAgainst(d.deposits, debt)
  {
    hide Settles, Covers, ValidPool, RefreshDepositsUpTo;
    var d := RefreshDeposits(m, g, debt, slot, rs, o.deposits, checkCount).value;
    RefreshDepositsSettle(m, g, debt, slot, rs, o, |o.deposits|);
    RefreshedDepositsAreGood(g.Some?, debt, o.deposits, d.deposits);
    SettlesPools(rs, o, d.reserves, o.(deposits := d.deposits));
  }

  /** The two passes of a refresh under the obligation's group, when the tracker family of
      the other kind is blank. */
  lemma PassesKeep(m: Market, g: Option<ElevationGroup>, rs: Pool, o: Obligation, slot: U64, checkCount: bool)
    requires ValidPool(rs) && Covers(rs, o) && WellFormed(o) && (g.Some? <==> o.group != ELEVATION_GROUP_NONE)
    requires g.Some? ==> g.value.id == o.group
    requires RefreshBorrows(m, g, o, slot, rs).Ok?
    requires var b := RefreshBorrows(m, g, o, slot, rs).value;
      RefreshDeposits(m, g, b.totals.debt, slot, b.reserves, o.deposits, checkCount).Ok?
    ensures var b := RefreshBorrows(m, g, o, slot, rs).value;
      var d := RefreshDeposits(m, g, b.totals.debt, slot, b.reserves, o.deposits, checkCount).value;
      && Settles(rs, o, d.reserves, o.(borrows := b.borrows, deposits := d.deposits))
      && GoodBorrows(b.borrows) && GoodDeposits(d.deposits)
      && NoActiveBorrows(b.borrows) == NoActiveBorrows(o.borrows) == (b.totals.count == 0)
      && BorrowsCurrent(d.reserves, slot, b.borrows) && DepositsBacked(d.reserves, d.deposits)
      && (if g.None? then TrackedOutside(b.borrows) && NothingAgainstDeposits(d.deposits)
          else TrackedAgainst(d.deposits, WholeDebt(b.borrows)) && NothingOutside(b.borrows))
  {
    hide Settles, Covers, ValidPool, RefreshBorrows, RefreshDeposits, GoodBorrows, GoodDeposits, BorrowsCurrent;
    var b := RefreshBorrows(m, g, o, slot, rs).value;
    BorrowPassKeeps(m, g, rs, o, slot);
    var o1 := o.(borrows := b.borrows);
    SettlesPools(rs, o, b.reserves, o1);
    SettlesCovers(rs, o, b.reserves, o1);
    DepositPassKeeps(m, g, b.totals.debt, b.reserves, o1, slot, checkCount);
    var d := RefreshDeposits(m, g, b.totals.debt, slot, b.reserves, o.deposits, checkCount).value;
    var o2 := o.(borrows := b.borrows, deposits := d.deposits);
    SettlesTransitive(rs, o, b.reserves, o1, d.reserves, o2);
    CurrentWhileIndicesStay(b.reserves, o1, d.reserves, o2, slot, b.borrows);
  }

  lemma RefreshKeeps(m: Market, a: Accounts, slot: U64, checkCount: bool)
    requires ValidMarket(m) && Ready(a.reserves, a.o) && RefreshObligation(m, a, slot, checkCount).Ok?
    ensures Keeps(a.reserves, a.o, RefreshObligation(m, a, slot, checkCount).value)
    ensures !RefreshObligation(m, a, slot, checkCount).value.o.lastUpdate.stale
  {
    hide RefreshBorrows, RefreshDeposits, RefreshedValues, Covers, Surplus, GoodBorrows, GoodDeposits;
    GroupIds(m, a.o.group);
    var g := UsableElevationGroup(m, a.o.group).value;
    PassesKeep(m, g, a.reserves, a.o, slot, checkCount);
    var a' := RefreshObligation(m, a, slot, checkCount).value;
    var b := RefreshBorrows(m, g, a.o, slot, a.reserves).value;
    var d := RefreshDeposits(m, g, b.totals.debt, slot, b.reserves, a.o.deposits, checkCount).value;
    var o1 := a.o.(borrows := b.borrows, deposits := d.deposits);
    SettlesPools(a.reserves, a.o, d.reserves, o1);
    SettlesNothing(d.reserves, o1, a'.o);
    SettlesTransitive(a.reserves, a.o, d.reserves, o1, a'.reserves, a'.o);
  }

  // ---- changing elevation group -------------------------------------------

  /** After a reset the obligation records no debt in either family. */
  lemma ResetKeeps(m: Market, rs: Pool, o: Obligation)
    requires ValidMarket(m) && ValidPool(rs) && Covers(rs, o) && WellFormed(o) && UsableElevationGroup(m, o.group).Ok?
    requires ResetTrackers(Accounts(rs, o), UsableElevationGroup(m, o.group).value).Ok?
    ensures var a := ResetTrackers(Accounts(rs, o), UsableElevationGroup(m, o.group).value).value;
      && Settles(rs, o, a.reserves, a.o)
      && a.o == o.(deposits := a.o.deposits, borrows := a.o.borrows)
      && GoodDeposits(a.o.deposits) && GoodBorrows(a.o.borrows)
      && NothingAgainstDeposits(a.o.deposits) && NothingOutside(a.o.borrows)
      && NoActiveBorrows(a.o.borrows) == NoActiveBorrows(o.borrows)
  {
    hide Settles, Covers, ValidPool, MoveDepositsUpTo, ClearBorrowsUpTo;
    GroupIds(m, o.group);
    var g := UsableElevationGroup(m, o.group).value;
    var a := ResetTrackers(Accounts(rs, o), g).value;
    if g.Some? {
      MoveDepositsSettle(rs, o, o.group - 1, Clear, |o.deposits|);
      forall j | 0 <= j < |o.deposits| ensures a.o.deposits[j].groupDebt == 0 { assert GoodDeposit(o.deposits[j]); }
      DepositsKeepShape(o.deposits, a.o.deposits);
    } else {
      ClearBorrowsSettle(rs, o, |o.borrows|);
      forall j | 0 <= j < |o.borrows|
        ensures a.o.borrows[j].outsideDebt == 0
        ensures o.borrows[j].Active() ==> a.o.borrows[j].borrowed > 0 && a.o.borrows[j].cumulativeRate > 0
      { assert GoodBorrow(o.borrows[j]); }
      BorrowsKeepShape(o.borrows, a.o.borrows);
    }
  }

  lemma RequestKeeps(m: Market, a: Accounts, newGroup: nat, slot: U64)
    requires ValidMarket(m) && Ready(a.reserves, a.o) && RequestElevationGroup(m, a, newGroup, slot).Ok?
    ensures Keeps(a.reserves, a.o, RequestElevationGroup(m, a, newGroup, slot).value)
    ensures var o := RequestElevationGroup(m, a, newGroup, slot).value.o;
      if newGroup == ELEVATION_GROUP_NONE then TrackedOutside(o.borrows) else TrackedAgainst(o.deposits, WholeDebt(o.borrows))
  {
    hide RefreshBorrows, RefreshDeposits, ResetTrackers, Covers, Settles, ValidPool, GoodBorrows, GoodDeposits, NeedGroupLimits;
    hide NothingAgainstDeposits, NothingOutside, BorrowsCurrent, TrackedOutside, TrackedAgainst, LoanToValue;
    var a' := RequestElevationGroup(m, a, newGroup, slot).value;
    ResetKeeps(m, a.reserves, a.o);
    var reset := ResetTrackers(a, UsableElevationGroup(m, a.o.group).value).value;
    SettlesPools(a.reserves, a.o, reset.reserves, reset.o);
    SettlesCovers(a.reserves, a.o, reset.reserves, reset.o);
    GroupIds(m, newGroup);
    var g := UsableElevationGroup(m, newGroup).value;
    var o1 := reset.o.(group := newGroup);
    BlankMoves(reset.reserves, reset.o, newGroup);
    SettlesCovers(reset.reserves, reset.o, reset.reserves, o1);
    SameBorrowPass(m, g, reset.o, o1, slot, reset.reserves);
    PassesKeep(m, g, reset.reserves, o1, slot, true);
    var b := RefreshBorrows(m, g, reset.o, slot, reset.reserves).value;
    var d := RefreshDeposits(m, g, b.totals.debt, slot, b.reserves, reset.o.deposits, true).value;
    var o2 := o1.(borrows := b.borrows, deposits := d.deposits);
    SettlesTransitive(a.reserves, a.o, reset.reserves, reset.o, reset.reserves, o1);
    SettlesTransitive(a.reserves, a.o, reset.reserves, o1, d.reserves, o2);
    SettlesPools(a.reserves, a.o, d.reserves, o2);
    SettlesNothing(d.reserves, o2, a'.o);
    SettlesTransitive(a.reserves, a.o, d.reserves, o2, a'.reserves, a'.o);
    BackedByPasses(d.reserves, slot, a'.o);
  }

  lemma BlankMoves(rs: Pool, o: Obligation, group: nat)
    requires ValidPool(rs) && NothingAgainstDeposits(o.deposits)
    ensures Settles(rs, o, rs, o.(group := group))
  {
    GroupMoves(rs, o, group);
  }

  lemma BackedByPasses(rs: Pool, slot: U64, o: Obligation)
    requires BorrowsCurrent(rs, slot, o.borrows) && DepositsBacked(rs, o.deposits)
    ensures Backed(rs, o)
  {
  }

  /** The borrow pass does not look at the obligation's group, which changes only afterwards. */
  lemma {:induction false} SameBorrows(m: Market, g: Option<ElevationGroup>, o: Obligation, o': Obligation, slot: U64, rs: Pool, n: nat)
    requires o'.borrows == o.borrows && o'.lastUpdate == o.lastUpdate && o'.referrer == o.referrer && n <= |o.borrows|
    ensures RefreshBorrowsUpTo(m, g, o', slot, rs, n) == RefreshBorrowsUpTo(m, g, o, slot, rs, n)
  {
    hide AccruedDebt, TrackBorrow, AccumulateReferrerFees, ValueBorrow, NeedRefreshable;
    if n == 0 {
    } else {
      SameBorrows(m, g, o, o', slot, rs, n - 1);
    }
  }

  lemma SameBorrowPass(m: Market, g: Option<ElevationGroup>, o: Obligation, o': Obligation, slot: U64, rs: Pool)
    requires o'.borrows == o.borrows && o'.lastUpdate == o.lastUpdate && o'.referrer == o.referrer
    ensures RefreshBorrows(m, g, o', slot, rs) == RefreshBorrows(m, g, o, slot, rs)
  {
    SameBorrows(m, g, o, o', slot, rs, |o.borrows|);
  }
}
