/** What the obligations owe is backed by what their reserves have outstanding: the
    debts, caught up with the current index, against the reserve's own total, over
    whole runs of a market. */
module DebtBacking {
  import opened Results
  import opened Arithmetic
  import opened FixedPoint
  import opened LastUpdates
  import WithdrawalCaps
  import opened Reserves
  import opened ReserveBooks
  import opened ReserveOperations
  import ExchangeRate
  import CompoundInterest
  import BorrowRateCurve
  import LazyInterest
  import opened Fees
  import opened Markets
  import opened Obligations
  import opened Orders
  import opened Positions
  import opened Liquidation
  import opened MarketOperations
  import opened DebtTrackers
  import opened ObligationInvariant
  import opened OperationsKeep
  import opened PositionsKeep
  import opened MarketOutcomes
  import opened MarketPrices
  import opened MarketRuns
  import Single = ReserveRuns

  // ---- debts in units of the index ----------------------------------------

  /** A debt to one reserve in units of its index: at index `R` it amounts to `R` of them. */
  function Units(b: Borrow, k: Key): real {
    if b.reserve == k && b.cumulativeRate > 0 then b.borrowed as real / b.cumulativeRate as real else 0.0
  }

  function SumUnits(bs: seq<Borrow>, k: Key): real {
    if bs == [] then 0.0 else SumUnits(bs[..|bs| - 1], k) + Units(bs[|bs| - 1], k)
  }

  function Index(r: Reserve): real {
    r.liquidity.cumulativeRate as real
  }

  /** What the reserve has outstanding beyond the debts of one obligation. */
  function Room(r: Reserve, bs: seq<Borrow>, k: Key): real {
    r.liquidity.borrowed as real - SumUnits(bs, k) * Index(r)
  }

  /** An operation adds to the reserves' totals at least what it adds to the debts. */
  ghost predicate Follows(rs: Pool, bs: seq<Borrow>, rs': Pool, bs': seq<Borrow>) {
    && rs'.Keys == rs.Keys
    && forall k :: k in rs ==> Index(rs'[k]) == Index(rs[k]) && Room(rs'[k], bs', k) >= Room(rs[k], bs, k)
  }

  lemma FollowsTransitive(rs: Pool, bs: seq<Borrow>, rs1: Pool, bs1: seq<Borrow>, rs2: Pool, bs2: seq<Borrow>)
    requires Follows(rs, bs, rs1, bs1) && Follows(rs1, bs1, rs2, bs2)
    ensures Follows(rs, bs, rs2, bs2)
  {
    hide Room, Index;
  }

  predicate SameTotal(r: Reserve, r': Reserve) {
    r'.liquidity.borrowed == r.liquidity.borrowed && r'.liquidity.cumulativeRate == r.liquidity.cumulativeRate
  }

  ghost predicate SameTotals(rs: Pool, rs': Pool) {
    rs'.Keys == rs.Keys && forall k :: k in rs ==> SameTotal(rs[k], rs'[k])
  }

  ghost predicate SameDebts(bs: seq<Borrow>, bs': seq<Borrow>) {
    && |bs'| == |bs|
    && forall j :: 0 <= j < |bs| ==>
         bs'[j].reserve == bs[j].reserve && bs'[j].borrowed == bs[j].borrowed && bs'[j].cumulativeRate == bs[j].cumulativeRate
  }

  lemma {:induction false} SameDebtsSameUnits(bs: seq<Borrow>, bs': seq<Borrow>, k: Key)
    requires SameDebts(bs, bs')
    ensures SumUnits(bs', k) == SumUnits(bs, k)
  {
    if bs == [] {
    } else {
      SameDebtsSameUnits(bs[..|bs| - 1], bs'[..|bs| - 1], k);
    }
  }

  lemma NothingFollows(rs: Pool, bs: seq<Borrow>, rs': Pool, bs': seq<Borrow>)
    requires SameTotals(rs, rs') && SameDebts(bs, bs')
    ensures Follows(rs, bs, rs', bs')
  {
    hide SameDebts;
    forall k | k in rs ensures Room(rs'[k], bs', k) == Room(rs[k], bs, k) { SameDebtsSameUnits(bs, bs', k); }
  }

  lemma TrackersFollow(rs: Pool, rs': Pool, bs: seq<Borrow>)
    requires rs'.Keys == rs.Keys && forall k :: k in rs ==> OnlyTrackers(rs[k], rs'[k])
    ensures Follows(rs, bs, rs', bs)
  {
    hide Follows;
    NothingFollows(rs, bs, rs', bs);
  }

  lemma {:induction false} UnitsUpdate(bs: seq<Borrow>, i: nat, b: Borrow, k: Key)
    requires i < |bs|
    ensures SumUnits(bs[i := b], k) == SumUnits(bs, k) - Units(bs[i], k) + Units(b, k)
  {
    hide Units;
    var last := |bs| - 1;
    if i < last {
      UnitsUpdate(bs[..last], i, b, k);
      assert bs[i := b][..last] == bs[..last][i := b];
    } else {
      assert bs[i := b][..last] == bs[..last];
    }
  }

  lemma NoUnitsElsewhere(b: Borrow, k: Key)
    requires b.reserve != k
    ensures Units(b, k) == 0.0
  {
  }

  /** One slot and its reserve change. */
  lemma SlotFollows(rs: Pool, bs: seq<Borrow>, i: nat, b: Borrow, k: Key, r: Reserve)
    requires k in rs && 0 !in rs && i < |bs| && bs[i].reserve in {0, k} && b.reserve in {0, k}
    requires Index(r) == Index(rs[k])
    requires (Units(b, k) - Units(bs[i], k)) * Index(r) <= (r.liquidity.borrowed - rs[k].liquidity.borrowed) as real
    ensures Follows(rs, bs, rs[k := r], bs[i := b])
  {
    hide Index, Room, Units, SumUnits;
    var rs', bs' := rs[k := r], bs[i := b];
    forall j | j in rs ensures Index(rs'[j]) == Index(rs[j]) && Room(rs'[j], bs', j) >= Room(rs[j], bs, j) {
      UnitsUpdate(bs, i, b, j);
      if j == k {
        RoomChange(rs[k], r, bs, bs', k, Units(b, k) - Units(bs[i], k));
      } else {
        NoUnitsElsewhere(bs[i], j);
        NoUnitsElsewhere(b, j);
        RoomChange(rs[j], rs[j], bs, bs', j, 0.0);
      }
    }
  }

  lemma RoomChange(r: Reserve, r': Reserve, bs: seq<Borrow>, bs': seq<Borrow>, k: Key, change: real)
    requires Index(r') == Index(r) && SumUnits(bs', k) == SumUnits(bs, k) + change
    ensures Room(r', bs', k) == Room(r, bs, k) + (r'.liquidity.borrowed - r.liquidity.borrowed) as real - change * Index(r)
  {
    hide SumUnits, Index;
    assert (SumUnits(bs, k) + change) * Index(r) == SumUnits(bs, k) * Index(r) + change * Index(r);
  }

  /** At the current index a debt is what it says. */
  lemma UnitsAtIndex(b: Borrow, k: Key)
    requires b.reserve == k && b.cumulativeRate > 0
    ensures Units(b, k) * (b.cumulativeRate as real) == b.borrowed as real
  {
  }

  lemma CrossDivide(a: real, b: real, c: real, d: real)
    requires b > 0.0 && d > 0.0 && a * d <= c * b
    ensures a / b <= c / d
  {
    var x, y := a / b, c / d;
    assert a == x * b && c == y * d;
    assert (x * b) * d == x * (b * d) && (y * d) * b == y * (b * d);
    assert (x - y) * (b * d) <= 0.0;
  }

  /** Accruing a debt rounds in its holder's favour. */
  lemma AccrualLowersUnits(b: Borrow, rate: U256, k: Key)
    requires AccruedDebt(b, rate).Ok? && rate > 0
    ensures Units(AccruedDebt(b, rate).value, k) <= Units(b, k)
  {
    var b' := AccruedDebt(b, rate).value;
    if rate > b.cumulativeRate > 0 && b.reserve == k {
      DivBounds(b.borrowed * rate, b.cumulativeRate);
      IntegersAsReals(b'.borrowed, b.cumulativeRate, b.borrowed, rate);
      CrossDivide(b'.borrowed as real, rate as real, b.borrowed as real, b.cumulativeRate as real);
    }
  }

  lemma IntegersAsReals(a: int, b: int, c: int, d: int)
    requires a * b <= c * d
    ensures (a as real) * (b as real) <= (c as real) * (d as real)
  {
    assert (a * b) as real == (a as real) * (b as real);
    assert (c * d) as real == (c as real) * (d as real);
  }

  // ---- the loops ----------------------------------------------------------

  lemma AccumulateKeepsTotal(r: Reserve, referrer: Option<nat>, bps: U16, elapsed: U64, debt: Fraction, previous: Fraction)
    requires AccumulateReferrerFees(r, referrer, bps, elapsed, debt, previous).Ok?
    ensures var r' := AccumulateReferrerFees(r, referrer, bps, elapsed, debt, previous).value;
      SameTotal(r, r')
  {
    hide PendingShare, Credited;
  }

  lemma ValuedKeepsDebt(m: Market, g: Option<ElevationGroup>, r: Reserve, b: Borrow, amount: U64, t: BorrowTotals, k: Key)
    requires ValueBorrow(m, g, r, b, amount, t).Ok?
    ensures var v := ValueBorrow(m, g, r, b, amount, t).value; v.0.reserve == b.reserve && Units(v.0, k) == Units(b, k)
  {
    hide MarketValue, BorrowFactor, Mul;
  }

  lemma RefreshBorrowFollows(m: Market, g: Option<ElevationGroup>, o: Obligation, slot: U64, p: BorrowPass, i: nat)
    requires i < |p.borrows| && 0 !in p.reserves && RefreshBorrow(m, g, o, slot, p, i).Ok?
    requires forall k :: k in p.reserves ==> p.reserves[k].liquidity.cumulativeRate > 0
    ensures var q := RefreshBorrow(m, g, o, slot, p, i).value; Follows(p.reserves, p.borrows, q.reserves, q.borrows)
  {
    hide AccumulateReferrerFees, ValueBorrow, AccruedDebt, Follows, Units;
    var b := p.borrows[i];
    if b.Active() {
      var r := p.reserves[b.reserve];
      var accrued := AccruedDebt(b, r.liquidity.cumulativeRate).value;
      AccrualLowersUnits(b, r.liquidity.cumulativeRate, b.reserve);
      AccruedReserve(b, r.liquidity.cumulativeRate);
      var amount := ToCeil(accrued.borrowed).value;
      var tracked := TrackBorrow(g, r, accrued, amount).value;
      TrackedUnits(g, r, accrued, amount, b.reserve);
      var elapsed := o.lastUpdate.SlotsElapsed(slot).value;
      AccumulateKeepsTotal(tracked.0, o.referrer, m.referralFeeBps, elapsed, accrued.borrowed, b.borrowed);
      var paid := AccumulateReferrerFees(tracked.0, o.referrer, m.referralFeeBps, elapsed, accrued.borrowed, b.borrowed).value;
      ValuedKeepsDebt(m, g, paid, tracked.1, amount, p.totals, b.reserve);
      var valued := ValueBorrow(m, g, paid, tracked.1, amount, p.totals).value;
      FewerUnits(Units(valued.0, b.reserve) - Units(b, b.reserve), Index(paid));
      SlotFollows(p.reserves, p.borrows, i, valued.0, b.reserve, paid);
    } else {
      NothingFollows(p.reserves, p.borrows, p.reserves, p.borrows);
    }
  }

  lemma FewerUnits(change: real, index: real)
    requires change <= 0.0 && index >= 0.0
    ensures change * index <= 0.0
  {
  }

  lemma AccruedReserve(b: Borrow, rate: U256)
    requires AccruedDebt(b, rate).Ok?
    ensures AccruedDebt(b, rate).value.reserve == b.reserve
  {
  }

  lemma TrackedUnits(g: Option<ElevationGroup>, r: Reserve, b: Borrow, amount: U64, k: Key)
    requires TrackBorrow(g, r, b, amount).Ok?
    ensures var t := TrackBorrow(g, r, b, amount).value;
      && t.0.liquidity == r.liquidity && t.1.reserve == b.reserve && Units(t.1, k) == Units(b, k)
  {
  }

  lemma {:induction false} RefreshBorrowsFollow(m: Market, g: Option<ElevationGroup>, o: Obligation, slot: U64, rs: Pool, n: nat)
    requires n <= |o.borrows| && 0 !in rs && RefreshBorrowsUpTo(m, g, o, slot, rs, n).Ok?
    requires forall k :: k in rs ==> rs[k].liquidity.cumulativeRate > 0
    ensures var p := RefreshBorrowsUpTo(m, g, o, slot, rs, n).value; Follows(rs, o.borrows, p.reserves, p.borrows)
  {
    hide RefreshBorrow, Room;
    if n == 0 {
    } else {
      RefreshBorrowsFollow(m, g, o, slot, rs, n - 1);
      var p := RefreshBorrowsUpTo(m, g, o, slot, rs, n - 1).value;
      RefreshBorrowFollows(m, g, o, slot, p, n - 1);
    }
  }

  lemma {:induction false} ClearingKeepsDebts(rs: Pool, bs: seq<Borrow>, n: nat)
    requires n <= |bs| && ClearBorrowsUpTo(rs, bs, n).Ok?
    ensures SameDebts(bs, ClearBorrowsUpTo(rs, bs, n).value.borrows)
  {
    if n == 0 {
    } else {
      ClearingKeepsDebts(rs, bs, n - 1);
    }
  }

  lemma PassesFollow(m: Market, g: Option<ElevationGroup>, o: Obligation, slot: U64, rs: Pool, ds: seq<Deposit>, check: bool)
    requires ValidPool(rs) && RefreshBorrows(m, g, o, slot, rs).Ok?
    requires var b := RefreshBorrows(m, g, o, slot, rs).value; RefreshDeposits(m, g, b.totals.debt, slot, b.reserves, ds, check).Ok?
    ensures var b := RefreshBorrows(m, g, o, slot, rs).value;
      Follows(rs, o.borrows, RefreshDeposits(m, g, b.totals.debt, slot, b.reserves, ds, check).value.reserves, b.borrows)
  {
    hide Follows, RefreshBorrowsUpTo, RefreshDepositsUpTo, OnlyTrackers;
    var b := RefreshBorrows(m, g, o, slot, rs).value;
    RefreshBorrowsFollow(m, g, o, slot, rs, |o.borrows|);
    RefreshingDepositsTouches(m, g, b.totals.debt, slot, b.reserves, ds, |ds|);
    var d := RefreshDeposits(m, g, b.totals.debt, slot, b.reserves, ds, check).value;
    TrackersFollow(b.reserves, d.reserves, b.borrows);
    FollowsTransitive(rs, o.borrows, b.reserves, b.borrows, d.reserves, b.borrows);
  }

  // ---- refreshing, changing group -----------------------------------------

  lemma RefreshFollows(m: Market, a: Accounts, slot: U64, check: bool)
    requires ValidPool(a.reserves) && RefreshObligation(m, a, slot, check).Ok?
    ensures var a' := RefreshObligation(m, a, slot, check).value; Follows(a.reserves, a.o.borrows, a'.reserves, a'.o.borrows)
  {
    hide Follows, RefreshBorrows, RefreshDeposits, RefreshedValues;
    PassesFollow(m, UsableElevationGroup(m, a.o.group).value, a.o, slot, a.reserves, a.o.deposits, check);
  }

  lemma ResetFollows(a: Accounts, g: Option<ElevationGroup>)
    requires ResetTrackers(a, g).Ok?
    ensures var a' := ResetTrackers(a, g).value;
      SameTotals(a.reserves, a'.reserves) && Follows(a.reserves, a.o.borrows, a'.reserves, a'.o.borrows)
  {
    hide MoveDepositsUpTo, ClearBorrowsUpTo, Follows;
    if g.Some? {
      MovingTouchesTrackers(a.reserves, a.o.deposits, g.value.id - 1, Clear, |a.o.deposits|);
    } else {
      ClearingTouchesTrackers(a.reserves, a.o.borrows, |a.o.borrows|);
      ClearingKeepsDebts(a.reserves, a.o.borrows, |a.o.borrows|);
    }
    var a' := ResetTrackers(a, g).value;
    NothingFollows(a.reserves, a.o.borrows, a'.reserves, a'.o.borrows);
  }

  lemma RequestFollows(m: Market, a: Accounts, newGroup: nat, slot: U64)
    requires ValidMarket(m) && Ready(a.reserves, a.o) && RequestElevationGroup(m, a, newGroup, slot).Ok?
    ensures var a' := RequestElevationGroup(m, a, newGroup, slot).value;
      Follows(a.reserves, a.o.borrows, a'.reserves, a'.o.borrows)
  {
    hide Follows, RefreshBorrows, RefreshDeposits, ResetTrackers, NeedGroupLimits, LoanToValue, UsableElevationGroup, SameTotals, Settles;
    hide ValidObligation, Covers, ValidPool;
    var oldG := UsableElevationGroup(m, a.o.group).value;
    ResetFollows(a, oldG);
    var reset := ResetTrackers(a, oldG).value;
    ResetPool(m, a);
    var g := UsableElevationGroup(m, newGroup).value;
    PassesFollow(m, g, reset.o, slot, reset.reserves, reset.o.deposits, true);
    var a' := RequestElevationGroup(m, a, newGroup, slot).value;
    FollowsTransitive(a.reserves, a.o.borrows, reset.reserves, reset.o.borrows, a'.reserves, a'.o.borrows);
  }

  lemma ResetPool(m: Market, a: Accounts)
    requires ValidMarket(m) && Ready(a.reserves, a.o) && UsableElevationGroup(m, a.o.group).Ok?
    requires ResetTrackers(a, UsableElevationGroup(m, a.o.group).value).Ok?
    ensures ValidPool(ResetTrackers(a, UsableElevationGroup(m, a.o.group).value).value.reserves)
  {
    hide ResetTrackers, UsableElevationGroup, Covers, WellFormed, Surplus;
    assert a == Accounts(a.reserves, a.o);
    ResetKeeps(m, a.reserves, a.o);
  }

  // ---- more debt ----------------------------------------------------------

  lemma LendOutTotal(r: Reserve, clock: Clock, quote: BorrowQuote, referrer: Option<nat>, bps: U16)
    requires LendOut(r, clock, quote, referrer, bps).Ok?
    ensures var r' := LendOut(r, clock, quote, referrer, bps).value;
      && r'.liquidity.borrowed == r.liquidity.borrowed + quote.borrowAmount
      && r'.liquidity.cumulativeRate == r.liquidity.cumulativeRate
  {
    hide WithdrawalCaps.Accumulate, Credited, Floor;
  }

  lemma TrackMoreKeepsDebts(a: Accounts, k: Key, i: nat, g: Option<ElevationGroup>, amount: U64)
    requires i < |a.o.borrows| && TrackMore(a, k, i, g, amount).Ok?
    ensures var t := TrackMore(a, k, i, g, amount).value; Follows(a.reserves, a.o.borrows, t.reserves, t.o.borrows)
  {
    hide MoveDepositsUpTo, Follows;
    if g.Some? {
      MovingTouchesTrackers(a.reserves, a.o.deposits, g.value.id - 1, More(amount), |a.o.deposits|);
    }
    var t := TrackMore(a, k, i, g, amount).value;
    NothingFollows(a.reserves, a.o.borrows, t.reserves, t.o.borrows);
  }

  /** A slot that takes new debt stands at the reserve's index: it is blank, or belongs to
      an obligation refreshed in the reserve's slot. */
  lemma NewDebtUnits(rs: Pool, o: Obligation, k: Key, debt: Fraction, slot: U64)
    requires Ready(rs, o) && k in rs && !o.lastUpdate.stale && o.lastUpdate.slot == slot == rs[k].lastUpdate.slot
    requires WithNewDebt(o, k, rs[k].liquidity.cumulativeRate, debt).Ok?
    ensures var n := WithNewDebt(o, k, rs[k].liquidity.cumulativeRate, debt).value;
      && n.0 < |o.borrows| && |n.1.borrows| == |o.borrows| && o.borrows[n.0].reserve in {0, k}
      && n.1.borrows == o.borrows[n.0 := n.1.borrows[n.0]] && n.1.borrows[n.0].reserve == k
      && (Units(n.1.borrows[n.0], k) - Units(o.borrows[n.0], k)) * Index(rs[k]) == debt as real
  {
    hide Covers, WellFormed, ExactlyTracked, Units;
    PoolHasNoZero(rs);
    var n := WithNewDebt(o, k, rs[k].liquidity.cumulativeRate, debt).value;
    var b, b' := o.borrows[n.0], n.1.borrows[n.0];
    if b.reserve == k {
      assert UpToDate(rs, slot, b);
      UnitsAtIndex(b, k);
    } else {
      NoUnitsElsewhere(b, k);
    }
    UnitsAtIndex(b', k);
    ChangeTimesIndex(Units(b', k), Units(b, k), Index(rs[k]));
  }

  lemma ChangeTimesIndex(units: real, before: real, index: real)
    ensures (units - before) * index == units * index - before * index
  {
  }

  lemma NewDebtFollows(rs: Pool, o: Obligation, k: Key, debt: Fraction, slot: U64, r: Reserve)
    requires Ready(rs, o) && k in rs && !o.lastUpdate.stale && o.lastUpdate.slot == slot == rs[k].lastUpdate.slot
    requires WithNewDebt(o, k, rs[k].liquidity.cumulativeRate, debt).Ok?
    requires r.liquidity.cumulativeRate == rs[k].liquidity.cumulativeRate
    requires r.liquidity.borrowed == rs[k].liquidity.borrowed + debt
    ensures Follows(rs, o.borrows, rs[k := r], WithNewDebt(o, k, rs[k].liquidity.cumulativeRate, debt).value.1.borrows)
  {
    hide Follows, Ready, WithNewDebt, Units;
    ReadyPool(rs, o);
    NewDebtUnits(rs, o, k, debt, slot);
    var n := WithNewDebt(o, k, rs[k].liquidity.cumulativeRate, debt).value;
    SlotFollows(rs, o.borrows, n.0, n.1.borrows[n.0], k, r);
  }

  lemma BorrowFollows(m: Market, a: Accounts, k: Key, amount: U64, clock: Clock)
    requires Ready(a.reserves, a.o) && BorrowLiquidity(m, a, k, amount, clock).Ok?
    ensures var a' := BorrowLiquidity(m, a, k, amount, clock).value; Follows(a.reserves, a.o.borrows, a'.reserves, a'.o.borrows)
  {
    hide Follows, Ready, BorrowQuoteOf, LendOut, WithNewDebt, TrackMore, NeedOrdersSupported, NeedBelowUtilizationLimit, PostBorrow,
         Units;
    var r := a.reserves[k];
    var quote := BorrowQuoteOf(m, a, r, amount, clock.slot).value;
    FreshMeansNow(r.lastUpdate, clock.slot, ALL_CHECKS);
    LendOutTotal(r, clock, quote, a.o.referrer, m.referralFeeBps);
    var r' := LendOut(r, clock, quote, a.o.referrer, m.referralFeeBps).value;
    NewDebtFollows(a.reserves, a.o, k, quote.borrowAmount, clock.slot, r');
    var place := WithNewDebt(a.o, k, r'.liquidity.cumulativeRate, quote.borrowAmount).value;
    var before := Accounts(a.reserves[k := r'], place.1);
    var g := ElevationGroupOf(m, place.1.group).value;
    TrackMoreKeepsDebts(before, k, place.0, g, ToCeil(quote.borrowAmount).value);
    var a' := BorrowLiquidity(m, a, k, amount, clock).value;
    FollowsTransitive(a.reserves, a.o.borrows, before.reserves, place.1.borrows, a'.reserves, a'.o.borrows);
  }

  lemma ReadyPool(rs: Pool, o: Obligation)
    requires Ready(rs, o)
    ensures ValidPool(rs) && 0 !in rs && ValidObligation(rs, o)
  {
  }

  // ---- less debt ----------------------------------------------------------

  lemma TrackLessKeepsDebts(a: Accounts, k: Key, i: nat, amount: U64)
    requires i < |a.o.borrows| && TrackLess(a, k, i, amount).Ok?
    ensures var t := TrackLess(a, k, i, amount).value; SameTotals(a.reserves, t.reserves) && SameDebts(a.o.borrows, t.o.borrows)
  {
    hide MoveDepositsUpTo;
    if a.o.group != ELEVATION_GROUP_NONE {
      MovingTouchesTrackers(a.reserves, a.o.deposits, a.o.group - 1, Less(amount), |a.o.deposits|);
    }
  }

  /** Settling part of a debt that stands at the index takes that much off it. */
  lemma SettledUnits(b: Borrow, settle: Fraction, k: Key)
    requires b.reserve == k != 0 && b.cumulativeRate > 0 && RepaidSlot(b, settle).Ok?
    ensures var b' := RepaidSlot(b, settle).value;
      b'.reserve in {0, k} && (Units(b', k) - Units(b, k)) * (b.cumulativeRate as real) == -(settle as real)
  {
    hide Units;
    var b' := RepaidSlot(b, settle).value;
    UnitsAtIndex(b, k);
    if settle == b.borrowed { NoUnitsElsewhere(b', k); } else { UnitsAtIndex(b', k); }
    ChangeTimesIndex(Units(b', k), Units(b, k), b.cumulativeRate as real);
  }

  /** The reserve's total falls by at most what was settled: it is floored at zero. */
  lemma SettledSlotFollows(rs: Pool, bs: seq<Borrow>, i: nat, k: Key, settle: Fraction, r: Reserve)
    requires k in rs && 0 !in rs && i < |bs| && bs[i].reserve == k && RepaidSlot(bs[i], settle).Ok?
    requires 0 < bs[i].cumulativeRate == rs[k].liquidity.cumulativeRate == r.liquidity.cumulativeRate
    requires r.liquidity.borrowed >= rs[k].liquidity.borrowed - settle
    ensures Follows(rs, bs, rs[k := r], bs[i := RepaidSlot(bs[i], settle).value])
  {
    hide Follows, Units, RepaidSlot;
    SettledUnits(bs[i], settle, k);
    SlotFollows(rs, bs, i, RepaidSlot(bs[i], settle).value, k, r);
  }

  lemma TakenTotal(r: Reserve, clock: Clock, quote: RepayQuote)
    ensures TakeBack(r, clock, quote).Ok? ==>
      var r' := TakeBack(r, clock, quote).value;
      r'.liquidity.cumulativeRate == r.liquidity.cumulativeRate && r'.liquidity.borrowed >= r.liquidity.borrowed - quote.settle
    ensures TakeBackInLiquidation(r, quote.repay, quote.settle).Ok? ==>
      var r' := TakeBackInLiquidation(r, quote.repay, quote.settle).value;
      r'.liquidity.cumulativeRate == r.liquidity.cumulativeRate && r'.liquidity.borrowed >= r.liquidity.borrowed - quote.settle
    ensures Forgive(r, quote.settle).Ok? ==>
      var r' := Forgive(r, quote.settle).value;
      r'.liquidity.cumulativeRate == r.liquidity.cumulativeRate && r'.liquidity.borrowed >= r.liquidity.borrowed - quote.settle
  {
    hide WithdrawalCaps.Accumulate, TotalSupply;
  }

  lemma RepaidSameDebts(bs: seq<Borrow>, bs': seq<Borrow>, i: nat, settle: Fraction)
    requires SameDebts(bs, bs') && i < |bs| && RepaidSlot(bs'[i], settle).Ok?
    ensures RepaidSlot(bs[i], settle).Ok?
    ensures SameDebts(bs[i := RepaidSlot(bs[i], settle).value], bs'[i := RepaidSlot(bs'[i], settle).value])
  {
  }

  lemma RepayFollows(m: Market, a: Accounts, k: Key, amount: U64, clock: Clock)
    requires Ready(a.reserves, a.o) && RepayLiquidity(m, a, k, amount, clock).Ok?
    ensures var a' := RepayLiquidity(m, a, k, amount, clock).value.0; Follows(a.reserves, a.o.borrows, a'.reserves, a'.o.borrows)
  {
    hide Follows, Ready, TakeBack, TrackLess, NeedOrdersSupported, PostRepay, CalculateRepay, AccruedDebt, PositionOfBorrow, RepaidSlot,
         SameTotals, SameDebts, ValidPool, ValidObligation;
    var r := a.reserves[k];
    ReadyPool(a.reserves, a.o);
    FreshMeansNow(r.lastUpdate, clock.slot, NONE);
    var i := PositionOfBorrow(a.o.borrows, k).value;
    FreshDebtIsCurrent(a.reserves, a.o, i, clock.slot, NONE);
    DebtHasIndex(a.reserves, a.o, i);
    var quote := CalculateRepay(amount, a.o.borrows[i].borrowed).value;
    assert a.o.(borrows := a.o.borrows[i := a.o.borrows[i]]) == a.o;
    TakenTotal(r, clock, quote);
    var rs1 := a.reserves[k := TakeBack(r, clock, quote).value];
    TrackLessKeepsDebts(Accounts(rs1, a.o), k, i, quote.repay);
    var t := TrackLess(Accounts(rs1, a.o), k, i, quote.repay).value;
    RepaidSameDebts(a.o.borrows, t.o.borrows, i, quote.settle);
    SettledSlotFollows(a.reserves, a.o.borrows, i, k, quote.settle, rs1[k]);
    var bs1 := a.o.borrows[i := RepaidSlot(a.o.borrows[i], quote.settle).value];
    var a' := RepayLiquidity(m, a, k, amount, clock).value.0;
    NothingFollows(rs1, bs1, a'.reserves, a'.o.borrows);
    FollowsTransitive(a.reserves, a.o.borrows, rs1, bs1, a'.reserves, a'.o.borrows);
  }

  lemma DebtHasIndex(rs: Pool, o: Obligation, i: nat)
    requires ValidObligation(rs, o) && i < |o.borrows| && o.borrows[i].Active()
    ensures o.borrows[i].cumulativeRate > 0 && o.borrows[i].reserve in rs
  {
    assert Indexed(rs, o.borrows[i]);
  }

  /** Trackers first, then the reserve and the slot: liquidations and socialized losses. */
  lemma TrackedSettlementFollows(a: Accounts, k: Key, i: nat, whole: U64, settle: Fraction, taken: Reserve)
    requires Ready(a.reserves, a.o) && k in a.reserves && i < |a.o.borrows| && a.o.borrows[i].reserve == k
    requires a.o.borrows[i].cumulativeRate == a.reserves[k].liquidity.cumulativeRate
    requires TrackLess(a, k, i, whole).Ok?
    requires var t := TrackLess(a, k, i, whole).value;
      && k in t.reserves && i < |t.o.borrows|
      && taken.liquidity.cumulativeRate == t.reserves[k].liquidity.cumulativeRate
      && taken.liquidity.borrowed >= t.reserves[k].liquidity.borrowed - settle
      && RepaidSlot(t.o.borrows[i], settle).Ok?
    ensures var t := TrackLess(a, k, i, whole).value;
      Follows(a.reserves, a.o.borrows, t.reserves[k := taken], t.o.borrows[i := RepaidSlot(t.o.borrows[i], settle).value])
  {
    hide Follows, Ready, TrackLess, RepaidSlot, ValidObligation;
    ReadyPool(a.reserves, a.o);
    DebtHasIndex(a.reserves, a.o, i);
    TrackLessKeepsDebts(a, k, i, whole);
    var t := TrackLess(a, k, i, whole).value;
    NothingFollows(a.reserves, a.o.borrows, t.reserves, t.o.borrows);
    SettledSlotFollows(t.reserves, t.o.borrows, i, k, settle, taken);
    FollowsTransitive(a.reserves, a.o.borrows, t.reserves, t.o.borrows, t.reserves[k := taken],
                      t.o.borrows[i := RepaidSlot(t.o.borrows[i], settle).value]);
  }

  lemma SocializeFollows(a: Accounts, k: Key, amount: U64, slot: U64)
    requires Ready(a.reserves, a.o) && SocializeLoss(a, k, amount, slot).Ok?
    ensures var a' := SocializeLoss(a, k, amount, slot).value; Follows(a.reserves, a.o.borrows, a'.reserves, a'.o.borrows)
  {
    hide Follows, Ready, TrackLess, RepaidSlot, Forgive, PositionOfBorrow, ValidObligation, ValidPool, AccruedDebt;
    ReadyPool(a.reserves, a.o);
    FreshMeansNow(a.reserves[k].lastUpdate, slot, ALL_CHECKS);
    var i := PositionOfBorrow(a.o.borrows, k).value;
    FreshDebtIsCurrent(a.reserves, a.o, i, slot, ALL_CHECKS);
    var forgiven: Fraction := Min(FromInt(amount), a.o.borrows[i].borrowed);
    TrackLessLengths(a, k, i, ToCeil(forgiven).value);
    var t := TrackLess(a, k, i, ToCeil(forgiven).value).value;
    TakenTotal(t.reserves[k], Clock(0, 0), RepayQuote(forgiven, 0));
    TrackedSettlementFollows(a, k, i, ToCeil(forgiven).value, forgiven, Forgive(t.reserves[k], forgiven).value);
  }

  // ---- liquidation --------------------------------------------------------

  lemma LiquidationDebtFresh(m: Market, o: Obligation, debtKey: Key, debt: Reserve, collateralKey: Key, collateral: Reserve,
                             amount: U64, clock: Clock)
    requires LiquidationOf(m, o, debtKey, debt, collateralKey, collateral, amount, clock).Ok?
    ensures debt.lastUpdate.slot == clock.slot && NeedFreshObligation(o, clock.slot, LIQUIDATION_CHECKS).Ok?
  {
    hide CalculateLiquidation, UsableElevationGroup, PositionOfBorrow, PositionOfDeposit;
    FreshMeansNow(debt.lastUpdate, clock.slot, LIQUIDATION_CHECKS);
  }

  lemma SettlementFollows(a: Accounts, debtKey: Key, l: Liquidated)
    requires Ready(a.reserves, a.o) && l.borrowIndex < |a.o.borrows| && l.depositIndex < |a.o.deposits|
    requires debtKey in a.reserves && a.o.borrows[l.borrowIndex].reserve == debtKey
    requires a.o.borrows[l.borrowIndex].cumulativeRate == a.reserves[debtKey].liquidity.cumulativeRate
    requires SettleLiquidation(a, debtKey, l).Ok?
    ensures var s := SettleLiquidation(a, debtKey, l).value.accounts; Follows(a.reserves, a.o.borrows, s.reserves, s.o.borrows)
  {
    hide Follows, Ready, TrackLess, RepaidSlot, TakeBackInLiquidation, WithdrawnSlot;
    var repay, settle := l.quote.amounts.repay, l.quote.amounts.settle;
    TrackLessLengths(a, debtKey, l.borrowIndex, repay);
    var t := TrackLess(a, debtKey, l.borrowIndex, repay).value;
    TakenTotal(t.reserves[debtKey], Clock(0, 0), RepayQuote(settle, repay));
    TrackedSettlementFollows(a, debtKey, l.borrowIndex, repay, settle,
                             TakeBackInLiquidation(t.reserves[debtKey], repay, settle).value);
  }

  lemma PayoutKeepsTotal(before: Reserve, clock: Clock, bps: U16, group: nat, recorded: U64, full: bool, q: Quote, redeem: U64,
                         minReceived: U64)
    requires before.lastUpdate.slot == clock.slot && Refreshed(before, clock, None, bps).Ok?
    requires var f := Refreshed(before, clock, None, bps).value;
      var tracked := if full then TrackFullWithdraw(f, group, recorded) else Ok(f);
      tracked.Ok? && RedeemForLiquidator(tracked.value, clock, q, redeem, minReceived).Ok?
    ensures var f := Refreshed(before, clock, None, bps).value;
      var tracked := if full then TrackFullWithdraw(f, group, recorded) else Ok(f);
      var r := RedeemForLiquidator(tracked.value, clock, q, redeem, minReceived).value.0;
      SameTotal(before, r)
  {
    hide Refreshed, RedeemForLiquidator;
    RefreshedInSlot(before, clock, bps);
    var f := Refreshed(before, clock, None, bps).value;
    var tracked := if full then TrackFullWithdraw(f, group, recorded) else Ok(f);
    RedeemKeepsTotal(tracked.value, clock, q, redeem, minReceived);
  }

  lemma RedeemKeepsTotal(r: Reserve, clock: Clock, q: Quote, redeem: U64, minReceived: U64)
    requires RedeemForLiquidator(r, clock, q, redeem, minReceived).Ok?
    ensures var r' := RedeemForLiquidator(r, clock, q, redeem, minReceived).value.0;
      SameTotal(r, r')
  {
    hide TotalSupply, CurrentRate, ExchangeRate.CollateralToLiquidity, ProtocolFee;
  }

  lemma LiquidateFollows(m: Market, a: Accounts, debtKey: Key, collateralKey: Key, amount: U64, minReceived: U64, clock: Clock)
    requires Ready(a.reserves, a.o) && Liquidate(m, a, debtKey, collateralKey, amount, minReceived, clock).Ok?
    ensures var a' := Liquidate(m, a, debtKey, collateralKey, amount, minReceived, clock).value.0;
      Follows(a.reserves, a.o.borrows, a'.reserves, a'.o.borrows)
  {
    hide Follows, Ready, LiquidationOf, SettleLiquidation, Refreshed, RedeemableNow, TrackFullWithdraw, RedeemForLiquidator,
         OrdersSettled, ValidObligation, ValidPool, AccruedDebt;
    var l := LiquidationOf(m, a.o, debtKey, a.reserves[debtKey], collateralKey, a.reserves[collateralKey], amount, clock).value;
    LiquidationMeans(m, a.o, debtKey, a.reserves[debtKey], collateralKey, a.reserves[collateralKey], amount, clock);
    LiquidationDebtFresh(m, a.o, debtKey, a.reserves[debtKey], collateralKey, a.reserves[collateralKey], amount, clock);
    ReadyPool(a.reserves, a.o);
    FreshDebtIsCurrent(a.reserves, a.o, l.borrowIndex, clock.slot, LIQUIDATION_CHECKS);
    SettlementFollows(a, debtKey, l);
    SettleKeepsSlots(a, debtKey, l, collateralKey);
    var settled := SettleLiquidation(a, debtKey, l).value;
    var before := settled.accounts.reserves[collateralKey];
    var refreshed := Refreshed(before, clock, None, m.referralFeeBps).value;
    PayoutKeepsTotal(before, clock, m.referralFeeBps, a.o.group, settled.groupDebt,
                     a.o.deposits[l.depositIndex].amount == l.quote.amounts.withdraw, l.quote,
                     RedeemableNow(refreshed, l.quote.amounts.withdraw).value, minReceived);
    OrdersSettledMeans(settled.accounts.o, l.quote.params.reason, l.quote.amounts.repay);
    var a' := Liquidate(m, a, debtKey, collateralKey, amount, minReceived, clock).value.0;
    NothingFollows(settled.accounts.reserves, settled.accounts.o.borrows, a'.reserves, a'.o.borrows);
    FollowsTransitive(a.reserves, a.o.borrows, settled.accounts.reserves, settled.accounts.o.borrows, a'.reserves, a'.o.borrows);
  }

  // ---- the other actions --------------------------------------------------

  lemma DepositFollows(m: Market, a: Accounts, k: Key, amount: U64, slot: U64, check: bool)
    requires DepositCollateral(m, a, k, amount, slot, check).Ok?
    ensures var a' := DepositCollateral(m, a, k, amount, slot, check).value; Follows(a.reserves, a.o.borrows, a'.reserves, a'.o.borrows)
  {
    hide Follows, NeedOrdersSupported, LiquidityOf, PostDeposit, SingleTokenDebt, UsableElevationGroup;
    var a' := DepositCollateral(m, a, k, amount, slot, check).value;
    NothingFollows(a.reserves, a.o.borrows, a'.reserves, a'.o.borrows);
  }

  lemma WithdrawFollows(m: Market, a: Accounts, k: Key, amount: U64, slot: U64, check: WithdrawalCheck)
    requires WithdrawCollateral(m, a, k, amount, slot, check).Ok?
    ensures var a' := WithdrawCollateral(m, a, k, amount, slot, check).value.0; Follows(a.reserves, a.o.borrows, a'.reserves, a'.o.borrows)
  {
    hide Follows, WithdrawalOf, LiquidityOf, PostWithdraw;
    var a' := WithdrawCollateral(m, a, k, amount, slot, check).value.0;
    NothingFollows(a.reserves, a.o.borrows, a'.reserves, a'.o.borrows);
  }

  /** Whatever an accepted action does to an obligation's debts, its reserves follow. */
  lemma ActFollows(m: Market, a: Accounts, clock: Clock, action: Action, a': Accounts)
    requires ValidMarket(m) && Ready(a.reserves, a.o) && Act(m, a, clock, action) == Ok(a')
    ensures Follows(a.reserves, a.o.borrows, a'.reserves, a'.o.borrows)
  {
    hide Ready, Follows, RefreshObligation, DepositCollateral, WithdrawCollateral, BorrowLiquidity, RepayLiquidity,
         RequestElevationGroup, Liquidate, SocializeLoss, SetOrder, MarkForDeleveraging;
    ReadyPool(a.reserves, a.o);
    match action {
      case Refresh(check) => RefreshFollows(m, a, clock.slot, check);
      case DepositInto(k, amount, check) => DepositFollows(m, a, k, amount, clock.slot, check);
      case WithdrawFrom(k, amount, check) => WithdrawFollows(m, a, k, amount, clock.slot, check);
      case BorrowFrom(k, amount) => BorrowFollows(m, a, k, amount, clock);
      case RepayTo(k, amount) => RepayFollows(m, a, k, amount, clock);
      case RequestGroup(group) => RequestFollows(m, a, group, clock.slot);
      case LiquidateWith(debtKey, collateralKey, amount, minReceived) =>
        LiquidateFollows(m, a, debtKey, collateralKey, amount, minReceived, clock);
      case Socialize(k, amount) => SocializeFollows(a, k, amount, clock.slot);
      case PlaceOrder(index, order) => OrderLeavesDebts(m, a, index, order);
      case Mark(pct) => MarkLeavesDebts(m, a, pct, clock.timestamp);
    }
  }

  lemma OrderLeavesDebts(m: Market, a: Accounts, index: nat, order: Order)
    requires SetOrder(m, a.o, index, order).Ok?
    ensures Follows(a.reserves, a.o.borrows, a.reserves, SetOrder(m, a.o, index, order).value.borrows)
  {
    hide ValidateOrder, Supported, Follows;
    NothingFollows(a.reserves, a.o.borrows, a.reserves, a.o.borrows);
  }

  lemma MarkLeavesDebts(m: Market, a: Accounts, pct: U8, timestamp: U64)
    requires MarkForDeleveraging(m, a.o, pct, timestamp).Ok?
    ensures Follows(a.reserves, a.o.borrows, a.reserves, MarkForDeleveraging(m, a.o, pct, timestamp).value.borrows)
  {
    hide Follows;
    NothingFollows(a.reserves, a.o.borrows, a.reserves, a.o.borrows);
  }

  // ---- operations on the reserve alone ------------------------------------

  /** What an event lends out, or takes back, on flash loans of a reserve. */
  function FlashChange(e: Event, k: Key): int {
    if e.step.OnReserve? && e.step.k == k && e.step.op.FlashBorrowOp? then FromInt(e.step.op.amount)
    else if e.step.OnReserve? && e.step.k == k && e.step.op.FlashRepayOp? then -(FromInt(e.step.op.amount) as int)
    else 0
  }

  predicate RefreshesReserve(e: Event, k: Key) {
    e.step.OnReserve? && e.step.k == k && e.step.op.Refresh?
  }

  lemma FlashTotals(r: Reserve, clock: Clock, amount: U64, referrer: Option<nat>, bps: U16)
    ensures FlashBorrow(r, amount).Ok? ==>
      var r' := FlashBorrow(r, amount).value;
      r'.liquidity.cumulativeRate == r.liquidity.cumulativeRate && r'.liquidity.borrowed == r.liquidity.borrowed + FromInt(amount)
    ensures FlashRepay(r, clock, amount, referrer, bps).Ok? ==>
      var r' := FlashRepay(r, clock, amount, referrer, bps).value.reserve;
      r'.liquidity.cumulativeRate == r.liquidity.cumulativeRate && r'.liquidity.borrowed >= r.liquidity.borrowed - FromInt(amount)
  {
    hide CalculateFees, Credited, TotalSupply, Floor;
  }

  lemma SupplierTotals(r: Reserve, clock: Clock, amount: U64)
    ensures DepositLiquidity(r, clock, amount).Ok? ==> SameTotal(r, DepositLiquidity(r, clock, amount).value.reserve)
    ensures RedeemCollateral(r, clock, amount, true).Ok? ==> SameTotal(r, RedeemCollateral(r, clock, amount, true).value.reserve)
  {
    hide CurrentRate, ExchangeRate.QuoteDeposit, ExchangeRate.CollateralToLiquidity, WithdrawalCaps.Accumulate, TotalSupply;
  }

  lemma FeeTotals(r: Reserve, slot: U64, claimant: nat)
    ensures RedeemFees(r, slot).Ok? ==> SameTotal(r, RedeemFees(r, slot).value.reserve)
    ensures WithdrawReferrerFees(r, slot, claimant).Ok? ==> SameTotal(r, WithdrawReferrerFees(r, slot, claimant).value.reserve)
  {
  }

  /** The factor a refresh at `slot` compounds with. */
  function GrowthFactor(r: Reserve, slot: U64): nat {
    hide CompoundInterest.ApproximateCompoundedInterest, BorrowRateCurve.GetBorrowRate, UtilizationRate;
    var elapsed := r.lastUpdate.SlotsElapsed(slot);
    var utilization := UtilizationRate(r.liquidity);
    if elapsed.Err? || elapsed.value == 0 || utilization.Err? then ONE
    else
      var rate := BorrowRateCurve.GetBorrowRate(r.config.curve, utilization.value);
      if rate.Err? || rate.value + FromBps(r.config.hostFixedInterestRateBps) >= TWO_128 then ONE
      else
        var f := CompoundInterest.ApproximateCompoundedInterest(rate.value + FromBps(r.config.hostFixedInterestRateBps), elapsed.value);
        if f.Err? then ONE else f.value
  }

  /** A refresh takes total and index by that one factor, and floors both. */
  lemma RefreshCompounds(r: Reserve, clock: Clock, price: Option<PriceQuote>, bps: U16)
    requires Refreshed(r, clock, price, bps).Ok?
    ensures var r' := Refreshed(r, clock, price, bps).value; var f := GrowthFactor(r, clock.slot);
      && f >= ONE
      && r'.liquidity.borrowed == MulFloor(r.liquidity.borrowed, f)
      && r'.liquidity.cumulativeRate == MulFloor(r.liquidity.cumulativeRate, f)
  {
    hide CompoundInterest.ApproximateCompoundedInterest, UtilizationRate, BorrowRateCurve.GetBorrowRate, Compounded, MulFloor;
    var elapsed := r.lastUpdate.SlotsElapsed(clock.slot).value;
    if elapsed > 0 {
      var u := UtilizationRate(r.liquidity).value;
      var rate := BorrowRateCurve.GetBorrowRate(r.config.curve, u).value;
      CompoundedBy(r.liquidity, rate, FromBps(r.config.hostFixedInterestRateBps), elapsed,
                   FromPercent(r.config.protocolTakeRatePct), FromBps(bps));
    } else {
      MulFloorUnit(r.liquidity.borrowed, ONE);
      MulFloorUnit(r.liquidity.cumulativeRate, ONE);
    }
  }

  lemma CompoundedBy(l: Liquidity, variableRate: Fraction, fixedRate: Fraction, slots: U64, takeRate: Fraction, referralRate: Fraction)
    requires Compounded(l, variableRate, fixedRate, slots, takeRate, referralRate).Ok?
    ensures variableRate + fixedRate < TWO_128
    ensures CompoundInterest.ApproximateCompoundedInterest(variableRate + fixedRate, slots).Ok?
    ensures var m := Compounded(l, variableRate, fixedRate, slots, takeRate, referralRate).value;
      var f := CompoundInterest.ApproximateCompoundedInterest(variableRate + fixedRate, slots).value;
      && f >= ONE && m.borrowed == MulFloor(l.borrowed, f) && m.cumulativeRate == MulFloor(l.cumulativeRate, f)
  {
    hide CompoundInterest.ApproximateCompoundedInterest, MulRate, MulFloor;
    CompoundInterest.AtLeastOne(variableRate + fixedRate, slots);
    MulRateIsFloor(l.cumulativeRate, CompoundInterest.ApproximateCompoundedInterest(variableRate + fixedRate, slots).value);
  }

  // ---- refreshing over and over -------------------------------------------

  datatype RefreshArgs = RefreshArgs(clock: Clock, price: Option<PriceQuote>, referralFeeBps: U16)

  function RefreshedBy(r: Reserve, args: seq<RefreshArgs>): Result<Reserve> {
    if args == [] then Ok(r)
    else
      var before :- RefreshedBy(r, args[..|args| - 1]);
      var last := args[|args| - 1];
      Refreshed(before, last.clock, last.price, last.referralFeeBps)
  }

  function GrowthFactors(r: Reserve, args: seq<RefreshArgs>): seq<nat> {
    hide GrowthFactor, Refreshed;
    if args == [] then []
    else
      var n := |args| - 1;
      var before := RefreshedBy(r, args[..n]);
      GrowthFactors(r, args[..n]) + [if before.Ok? then GrowthFactor(before.value, args[n].clock.slot) else ONE]
  }

  /** However often a reserve is refreshed, its debt and its index are compounded by one
      and the same list of factors: the eager accrual that lazily accrued debts follow. */
  lemma {:induction false} RefreshesCompound(r: Reserve, args: seq<RefreshArgs>)
    requires RefreshedBy(r, args).Ok?
    ensures var r' := RefreshedBy(r, args).value; var fs := GrowthFactors(r, args);
      && |fs| == |args| && LazyInterest.Factors(fs)
      && r'.liquidity.borrowed == LazyInterest.Compound(r.liquidity.borrowed, fs)
      && r'.liquidity.cumulativeRate == LazyInterest.Compound(r.liquidity.cumulativeRate, fs)
  {
    hide GrowthFactor, Refreshed, MulFloor;
    if args == [] {
    } else {
      var n := |args| - 1;
      RefreshesCompound(r, args[..n]);
      RefreshCompounds(RefreshedBy(r, args[..n]).value, args[n].clock, args[n].price, args[n].referralFeeBps);
      assert GrowthFactors(r, args)[..n] == GrowthFactors(r, args[..n]);
    }
  }

  // ---- the whole market ---------------------------------------------------

  function AllUnits(os: seq<Obligation>, k: Key): real {
    if os == [] then 0.0 else AllUnits(os[..|os| - 1], k) + SumUnits(os[|os| - 1].borrows, k)
  }

  /** What the reserve has outstanding beyond the debts of all obligations. */
  function Cover(s: State, k: Key): real
    requires k in s.reserves
  {
    s.reserves[k].liquidity.borrowed as real - AllUnits(s.obligations, k) * Index(s.reserves[k])
  }

  lemma {:induction false} AllUnitsUpdate(os: seq<Obligation>, i: nat, o: Obligation, k: Key)
    requires i < |os|
    ensures AllUnits(os[i := o], k) == AllUnits(os, k) - SumUnits(os[i].borrows, k) + SumUnits(o.borrows, k)
  {
    hide SumUnits;
    var last := |os| - 1;
    if i < last {
      AllUnitsUpdate(os[..last], i, o, k);
      assert os[i := o][..last] == os[..last][i := o];
    } else {
      assert os[i := o][..last] == os[..last];
    }
  }

  lemma FollowingKeepsCover(s: State, i: nat, a: Accounts, k: Key)
    requires i < |s.obligations| && k in s.reserves && Follows(s.reserves, s.obligations[i].borrows, a.reserves, a.o.borrows)
    ensures var s' := State(a.reserves, s.obligations[i := a.o]);
      k in s'.reserves && Index(s'.reserves[k]) == Index(s.reserves[k]) && Cover(s', k) >= Cover(s, k)
  {
    hide Index, SumUnits, AllUnits;
    AllUnitsUpdate(s.obligations, i, a.o, k);
    var index := Index(s.reserves[k]);
    var all, before, after := AllUnits(s.obligations, k), SumUnits(s.obligations[i].borrows, k), SumUnits(a.o.borrows, k);
    assert Index(a.reserves[k]) == index && Room(a.reserves[k], a.o.borrows, k) >= Room(s.reserves[k], s.obligations[i].borrows, k);
    assert (all - before + after) * index == all * index - before * index + after * index;
  }

  lemma BlankHasNoUnits(s: State, referrer: Option<nat>, orders: nat, slot: U64, k: Key)
    ensures AllUnits(s.obligations + [NewObligation(referrer, orders, slot)], k) == AllUnits(s.obligations, k)
  {
    var o := NewObligation(referrer, orders, slot);
    NoBorrowsNoUnits(o.borrows, k);
    assert (s.obligations + [o])[..|s.obligations|] == s.obligations;
  }

  lemma {:induction false} NoBorrowsNoUnits(bs: seq<Borrow>, k: Key)
    requires forall j :: 0 <= j < |bs| ==> bs[j] == NO_BORROW
    ensures SumUnits(bs, k) == 0.0
  {
    if bs == [] {
    } else {
      NoBorrowsNoUnits(bs[..|bs| - 1], k);
    }
  }

  /** Refreshes aside, an operation on a reserve alone moves its total by its flash loans. */
  lemma ReserveStepTotals(r: Reserve, k: Key, e: Event)
    requires e.step.OnReserve? && e.step.k == k && !e.step.op.Refresh? && WithoutObligation(e.step.op)
    requires Single.Perform(r, e.step.op).Ok?
    ensures var r' := Single.Perform(r, e.step.op).value.reserve;
      && r'.liquidity.cumulativeRate == r.liquidity.cumulativeRate
      && r'.liquidity.borrowed >= r.liquidity.borrowed + FlashChange(e, k)
  {
    hide DepositLiquidity, RedeemCollateral, RedeemFees, WithdrawReferrerFees, FlashBorrow, FlashRepay;
    match e.step.op {
      case DepositOp(clock, amount) => SupplierTotals(r, clock, amount);
      case RedeemOp(clock, amount) => SupplierTotals(r, clock, amount);
      case RedeemFeesOp(slot) => FeeTotals(r, slot, 0);
      case WithdrawReferrerFeesOp(slot, claimant) => FeeTotals(r, slot, claimant);
      case FlashBorrowOp(amount) => FlashTotals(r, Clock(0, 0), amount, None, 0);
      case FlashRepayOp(clock, amount, referrer, bps) => FlashTotals(r, clock, amount, referrer, bps);
    }
  }

  lemma CoverMoves(s: State, s': State, k: Key, change: int)
    requires k in s.reserves && k in s'.reserves && AllUnits(s'.obligations, k) == AllUnits(s.obligations, k)
    requires s'.reserves[k].liquidity.cumulativeRate == s.reserves[k].liquidity.cumulativeRate
    requires s'.reserves[k].liquidity.borrowed >= s.reserves[k].liquidity.borrowed + change
    ensures Index(s'.reserves[k]) == Index(s.reserves[k]) && Cover(s', k) >= Cover(s, k) + change as real
  {
    hide AllUnits;
    var owed, owed' := AllUnits(s.obligations, k) * Index(s.reserves[k]), AllUnits(s'.obligations, k) * Index(s'.reserves[k]);
    assert owed' == owed;
    assert Cover(s', k) == s'.reserves[k].liquidity.borrowed as real - owed';
    assert Cover(s, k) == s.reserves[k].liquidity.borrowed as real - owed;
  }

  /** Any accepted step but a refresh of the reserve keeps its index, and what it has
      outstanding beyond the debts falls by no more than what flash loans return. */
  lemma StepKeepsCover(s: State, e: Event, s': State, k: Key)
    requires ValidState(s) && ValidMarket(e.market) && k in s.reserves && Next(s, e) == Ok(s') && !RefreshesReserve(e, k)
    ensures
      && k in s'.reserves && Index(s'.reserves[k]) == Index(s.reserves[k])
      && Cover(s', k) >= Cover(s, k) + FlashChange(e, k) as real
  {
    hide ValidState, Act, Single.Perform, Ready, Follows, NewObligation, SumUnits, AllUnits, Cover, Index;
    match e.step {
      case Open(referrer, orders) =>
        BlankHasNoUnits(s, referrer, orders, e.clock.slot, k);
        CoverMoves(s, s', k, 0);
      case OnReserve(j, op) =>
        if j == k { ReserveStepTotals(s.reserves[k], k, e); }
        CoverMoves(s, s', k, FlashChange(e, k));
      case OnObligation(i, action) =>
        var a := Accounts(s.reserves, s.obligations[i]);
        ConservedCovers(s, i);
        var a' := Act(e.market, a, e.clock, action).value;
        ActFollows(e.market, a, e.clock, action, a');
        FollowingKeepsCover(s, i, a', k);
    }
  }

  // ---- runs ---------------------------------------------------------------

  function Refreshes(es: seq<Event>, k: Key): nat {
    if es == [] then 0 else Refreshes(es[..|es| - 1], k) + if RefreshesReserve(es[|es| - 1], k) then 1 else 0
  }

  /** What is out on flash loans of the reserve after the events. */
  function FlashOut(es: seq<Event>, k: Key): int {
    if es == [] then 0 else FlashOut(es[..|es| - 1], k) + FlashChange(es[|es| - 1], k)
  }

  /** Flash repays return what flash borrows took before, as their pairing demands. */
  ghost predicate FlashesCovered(es: seq<Event>, k: Key) {
    forall n :: 0 <= n <= |es| ==> FlashOut(es[..n], k) >= 0
  }

  /** The bound on the debts: what the reserve has outstanding apart from flash loans, and
      as many ulps for each refresh as the index has grown since the start. */
  ghost predicate NearlyCovered(s: State, k: Key, start: real, out: int, refreshes: nat)
    requires k in s.reserves && start > 0.0
  {
    Cover(s, k) + refreshes as real * (Index(s.reserves[k]) / start) >= out as real
  }

  lemma GrowthRatio(total: nat, index: nat, f: nat)
    requires f >= ONE && index > 0
    ensures MulFloor(index, f) >= index
    ensures total * MulFloor(index, f) <= (MulFloor(total, f) + 1) * index
  {
    MulFloorUnit(index, f);
    MulBounds(total, f);
    MulBounds(index, f);
    GrowthProducts(total, index, MulFloor(total, f), MulFloor(index, f), f, ONE);
  }

  lemma GrowthProducts(total: nat, index: nat, total': nat, index': nat, f: nat, o: nat)
    requires o > 0 && total * f < total' * o + o && index' * o <= index * f
    ensures total * index' <= (total' + 1) * index
  {
    MulLeft(total, index' * o, index * f);
    MulLeft(index, total * f, total' * o + o);
    assert total * (index' * o) == o * (total * index');
    assert total * (index * f) == index * (total * f);
    assert index * (total' * o + o) == o * ((total' + 1) * index);
    MulCancel(o, total * index', (total' + 1) * index);
  }

  /** One accrual costs the bound one more ulp, scaled from now on. */
  lemma AccrualArithmetic(units: real, total: real, total': real, index: real, index': real, out: real, slack: real)
    requires 0.0 < index <= index' && total * index' <= (total' + 1.0) * index
    requires total - units * index + slack * index >= out >= 0.0
    ensures total' - units * index' + slack * index' + 1.0 >= out
  {
    var growth := GrowthOf(index, index');
    ScaledBacking(units, total, index, out, slack, growth);
    TotalGrows(total, total' + 1.0, index, index', growth);
  }

  lemma GrowthOf(index: real, index': real) returns (growth: real)
    requires 0.0 < index <= index'
    ensures index' == growth * index && growth >= 1.0
  {
    growth := index' / index;
    CancelIndex(1.0, growth, index);
  }

  lemma TotalGrows(total: real, bound: real, index: real, index': real, growth: real)
    requires 0.0 < index && index' == growth * index && total * index' <= bound * index
    ensures total * growth <= bound
  {
    calc {
      (total * growth) * index;
      total * (growth * index);
      total * index';
    }
    CancelIndex(total * growth, bound, index);
  }

  lemma ScaledBacking(units: real, total: real, index: real, out: real, slack: real, growth: real)
    requires total - units * index + slack * index >= out >= 0.0 && growth >= 1.0
    ensures total * growth - units * (growth * index) + slack * (growth * index) >= out
  {
    var room := total - units * index + slack * index;
    assert room * growth == total * growth - (units * index) * growth + (slack * index) * growth;
    assert (units * index) * growth == units * (growth * index);
    assert (slack * index) * growth == slack * (growth * index);
    GrowsBy(room, growth);
  }

  lemma GrowsBy(x: real, growth: real)
    requires x >= 0.0 && growth >= 1.0
    ensures x * growth >= x
  {
    assert x * (growth - 1.0) >= 0.0;
  }

  lemma CancelIndex(a: real, b: real, index: real)
    requires index > 0.0 && a * index <= b * index
    ensures a <= b
  {
    assert (a - b) * index <= 0.0;
  }

  lemma AtLeastOnce(index: real, start: real)
    requires 0.0 < start <= index
    ensures index / start >= 1.0
  {
    CrossDivide(start, start, index, start);
  }

  lemma SlackGrows(refreshes: nat, index: real, start: real)
    requires 0.0 < start <= index
    ensures (refreshes as real / start) * index == refreshes as real * (index / start)
    ensures (refreshes + 1) as real * (index / start) >= refreshes as real * (index / start) + 1.0
  {
    var growth := index / start;
    AtLeastOnce(index, start);
    assert growth * start == index;
    var n := refreshes as real;
    assert (refreshes + 1) as real * growth == n * growth + growth;
    assert (n / start) * start == n;
    assert (n / start) * index == ((n / start) * start) * growth;
  }

  lemma RefreshStep(s: State, e: Event, s': State, k: Key)
    requires k in s.reserves && Next(s, e) == Ok(s') && RefreshesReserve(e, k)
    ensures var op := e.step.op;
      && Refreshed(s.reserves[k], op.clock, op.price, op.referralFeeBps).Ok?
      && s' == s.(reserves := s.reserves[k := Refreshed(s.reserves[k], op.clock, op.price, op.referralFeeBps).value])
  {
    hide Refreshed;
  }

  lemma RefreshStaysCovered(s: State, k: Key, args: RefreshArgs, start: real, out: int, refreshes: nat)
    requires ValidState(s) && k in s.reserves && Refreshed(s.reserves[k], args.clock, args.price, args.referralFeeBps).Ok?
    requires 0.0 < start <= Index(s.reserves[k]) && out >= 0 && NearlyCovered(s, k, start, out, refreshes)
    ensures var s' := s.(reserves := s.reserves[k := Refreshed(s.reserves[k], args.clock, args.price, args.referralFeeBps).value]);
      && Index(s'.reserves[k]) >= Index(s.reserves[k])
      && NearlyCovered(s', k, start, out, refreshes + 1)
  {
    hide ValidState, Refreshed, AllUnits, MulFloor, GrowthFactor;
    var r := s.reserves[k];
    RefreshCompounds(r, args.clock, args.price, args.referralFeeBps);
    var r' := Refreshed(r, args.clock, args.price, args.referralFeeBps).value;
    GrowthRatio(r.liquidity.borrowed, r.liquidity.cumulativeRate, GrowthFactor(r, args.clock.slot));
    IntegersAsReals(r.liquidity.borrowed, r'.liquidity.cumulativeRate, r'.liquidity.borrowed + 1, r.liquidity.cumulativeRate);
    SlackGrows(refreshes, Index(r), start);
    SlackGrows(refreshes, Index(r'), start);
    AccrualArithmetic(AllUnits(s.obligations, k), r.liquidity.borrowed as real, r'.liquidity.borrowed as real, Index(r), Index(r'),
                      out as real, refreshes as real / start);
  }

  lemma StepStaysCovered(s: State, e: Event, s': State, k: Key, start: real, out: int, refreshes: nat)
    requires ValidState(s) && ValidMarket(e.market) && k in s.reserves && Next(s, e) == Ok(s')
    requires 0.0 < start <= Index(s.reserves[k]) && out >= 0 && NearlyCovered(s, k, start, out, refreshes)
    ensures k in s'.reserves && Index(s'.reserves[k]) >= Index(s.reserves[k])
    ensures NearlyCovered(s', k, start, out + FlashChange(e, k), refreshes + if RefreshesReserve(e, k) then 1 else 0)
  {
    hide ValidState, Next, Cover, Refreshed;
    if RefreshesReserve(e, k) {
      RefreshStep(s, e, s', k);
      RefreshStaysCovered(s, k, RefreshArgs(e.step.op.clock, e.step.op.price, e.step.op.referralFeeBps), start, out, refreshes);
    } else {
      StepKeepsCover(s, e, s', k);
    }
  }

  lemma {:induction false} RunsStayCovered(s: State, es: seq<Event>, t: State, k: Key)
    requires ValidState(s) && ValidMarkets(es) && Run(s, es) == Ok(t) && k in s.reserves
    requires Cover(s, k) >= 0.0 && FlashesCovered(es, k)
    ensures k in t.reserves && 0.0 < Index(s.reserves[k]) <= Index(t.reserves[k])
    ensures NearlyCovered(t, k, Index(s.reserves[k]), FlashOut(es, k), Refreshes(es, k))
  {
    hide ValidState, Next, Index, Cover, NearlyCovered, FlashesCovered;
    IndexPositive(s, k);
    if es == [] {
      CoveredAtStart(s, k);
    } else {
      var n := |es| - 1;
      var front := es[..n];
      CoveredPrefix(es, k);
      var mid := Run(s, front).value;
      RunsStayCovered(s, front, mid, k);
      RunsConserveTrackers(s, front);
      CoveredAll(front, k);
      StepStaysCovered(mid, es[n], t, k, Index(s.reserves[k]), FlashOut(front, k), Refreshes(front, k));
    }
  }

  lemma CoveredAtStart(s: State, k: Key)
    requires k in s.reserves && Index(s.reserves[k]) > 0.0 && Cover(s, k) >= 0.0
    ensures NearlyCovered(s, k, Index(s.reserves[k]), 0, 0)
  {
  }

  /** Over every run of a market, for every reserve: if its total covered the debts at the
      start, then the debts of all obligations, caught up with the current index, exceed
      what the reserve has outstanding apart from flash loans by at most one ulp for each
      of its refreshes, times the growth of the index. */
  lemma RunsBackDebts(s: State, es: seq<Event>, t: State, k: Key)
    requires ValidState(s) && ValidMarkets(es) && Run(s, es) == Ok(t) && k in s.reserves
    requires Cover(s, k) >= 0.0 && FlashesCovered(es, k)
    ensures k in t.reserves && 0.0 < Index(s.reserves[k]) <= Index(t.reserves[k])
    ensures AllUnits(t.obligations, k) * Index(t.reserves[k]) <=
      (t.reserves[k].liquidity.borrowed - FlashOut(es, k)) as real
      + Refreshes(es, k) as real * (Index(t.reserves[k]) / Index(s.reserves[k]))
  {
    hide ValidState, Run, Index, AllUnits, FlashOut, Refreshes, FlashesCovered;
    RunsStayCovered(s, es, t, k);
  }

  lemma IndexPositive(s: State, k: Key)
    requires ValidState(s) && k in s.reserves
    ensures Index(s.reserves[k]) > 0.0
  {
  }

  lemma CoveredPrefix(es: seq<Event>, k: Key)
    requires es != [] && FlashesCovered(es, k)
    ensures FlashesCovered(es[..|es| - 1], k)
  {
    hide FlashOut;
    var front := es[..|es| - 1];
    assert forall n :: 0 <= n <= |front| ==> front[..n] == es[..n];
  }

  lemma UnitsWithinSum(bs: seq<Borrow>, j: nat, k: Key)
    requires j < |bs|
    ensures 0.0 <= Units(bs[j], k) <= SumUnits(bs, k)
  {
    UnitsUpdate(bs, j, NO_BORROW, k);
    UnitsNotNegative(bs[j := NO_BORROW], k);
  }

  lemma {:induction false} UnitsNotNegative(bs: seq<Borrow>, k: Key)
    ensures SumUnits(bs, k) >= 0.0
  {
    if bs == [] {
    } else {
      UnitsNotNegative(bs[..|bs| - 1], k);
    }
  }

  lemma {:induction false} SumWithinAll(os: seq<Obligation>, i: nat, k: Key)
    requires i < |os|
    ensures SumUnits(os[i].borrows, k) <= AllUnits(os, k)
  {
    var last := |os| - 1;
    UnitsNotNegative(os[last].borrows, k);
    if i < last { SumWithinAll(os[..last], i, k); } else { AllNotNegative(os[..last], k); }
  }

  lemma {:induction false} AllNotNegative(os: seq<Obligation>, k: Key)
    ensures AllUnits(os, k) >= 0.0
  {
    if os == [] {
    } else {
      AllNotNegative(os[..|os| - 1], k);
      UnitsNotNegative(os[|os| - 1].borrows, k);
    }
  }

  /** So no single debt, once accrued, exceeds its reserve's total by more than that: the
      cap on settled debt in a repay can only swallow the rounding. */
  lemma NoDebtOutgrowsReserve(s: State, es: seq<Event>, t: State, k: Key, i: nat, j: nat)
    requires ValidState(s) && ValidMarkets(es) && Run(s, es) == Ok(t) && k in s.reserves
    requires Cover(s, k) >= 0.0 && FlashesCovered(es, k)
    requires i < |t.obligations| && j < |t.obligations[i].borrows| && t.obligations[i].borrows[j].reserve == k
    ensures k in t.reserves && Index(s.reserves[k]) > 0.0
    ensures var accrued := AccruedDebt(t.obligations[i].borrows[j], t.reserves[k].liquidity.cumulativeRate);
      accrued.Ok? ==>
        accrued.value.borrowed as real <= t.reserves[k].liquidity.borrowed as real
          + Refreshes(es, k) as real * (Index(t.reserves[k]) / Index(s.reserves[k]))
  {
    hide Run, ValidState, Index, AllUnits, FlashOut, Refreshes, FlashesCovered, AccruedDebt;
    RunsBackDebts(s, es, t, k);
    CoveredAll(es, k);
    if AccruedDebt(t.obligations[i].borrows[j], t.reserves[k].liquidity.cumulativeRate).Ok? {
      OneOfAll(t, k, i, j);
    }
  }

  lemma OneOfAll(t: State, k: Key, i: nat, j: nat)
    requires k in t.reserves && Index(t.reserves[k]) > 0.0
    requires i < |t.obligations| && j < |t.obligations[i].borrows| && t.obligations[i].borrows[j].reserve == k
    requires AccruedDebt(t.obligations[i].borrows[j], t.reserves[k].liquidity.cumulativeRate).Ok?
    ensures AccruedDebt(t.obligations[i].borrows[j], t.reserves[k].liquidity.cumulativeRate).value.borrowed as real
      <= AllUnits(t.obligations, k) * Index(t.reserves[k])
  {
    hide Units, SumUnits, AllUnits, AccruedDebt;
    var b := t.obligations[i].borrows[j];
    var rate := t.reserves[k].liquidity.cumulativeRate;
    AccrualLowersUnits(b, rate, k);
    AccruedAtIndex(b, rate);
    UnitsAtIndex(AccruedDebt(b, rate).value, k);
    UnitsWithinSum(t.obligations[i].borrows, j, k);
    SumWithinAll(t.obligations, i, k);
    ProductMono(Units(AccruedDebt(b, rate).value, k), AllUnits(t.obligations, k), Index(t.reserves[k]));
  }

  lemma CoveredAll(es: seq<Event>, k: Key)
    requires FlashesCovered(es, k)
    ensures FlashOut(es, k) >= 0
  {
    assert es[..|es|] == es;
  }

  lemma AccruedAtIndex(b: Borrow, rate: U256)
    requires AccruedDebt(b, rate).Ok?
    ensures var b' := AccruedDebt(b, rate).value; b'.reserve == b.reserve && b'.cumulativeRate == rate
  {
  }

  lemma ProductMono(a: real, b: real, index: real)
    requires a <= b && index >= 0.0
    ensures a * index <= b * index
  {
    assert (b - a) * index >= 0.0;
  }
}
