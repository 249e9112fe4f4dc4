/** The loops of lending_market/lending_operations.rs as the program runs them: over
    the slots of a loaded obligation, updating slots and reserves in place.  Each
    method is proved against the function it stands for; after an error the
    transaction is rolled back, so only the error is stated. */
module MarketObjects {
  import opened Results
  import opened Arithmetic
  import opened FixedPoint
  import opened LastUpdates
  import opened Reserves
  import opened ReserveOperations
  import opened Fees
  import opened Markets
  import opened Obligations
  import opened Orders
  import opened Positions
  import opened Liquidation
  import opened MarketOperations
  import opened ObligationObjects

  // ---- an error in one slot is the error of the whole pass ----------------

  lemma {:induction false} BorrowErrorStays(m: Market, g: Option<ElevationGroup>, o: Obligation, slot: U64, rs: Pool, i: nat, n: nat)
    requires i <= n <= |o.borrows| && RefreshBorrowsUpTo(m, g, o, slot, rs, i).Err?
    ensures RefreshBorrowsUpTo(m, g, o, slot, rs, n) == Err(RefreshBorrowsUpTo(m, g, o, slot, rs, i).error)
    decreases n
  {
    hide RefreshBorrow;
    if i == n {
    } else {
      BorrowErrorStays(m, g, o, slot, rs, i, n - 1);
    }
  }

  lemma {:induction false} DepositErrorStays(m: Market, g: Option<ElevationGroup>, debt: U64, slot: U64, rs: Pool, ds: seq<Deposit>, i: nat, n: nat)
    requires i <= n <= |ds| && RefreshDepositsUpTo(m, g, debt, slot, rs, ds, i).Err?
    ensures RefreshDepositsUpTo(m, g, debt, slot, rs, ds, n) == Err(RefreshDepositsUpTo(m, g, debt, slot, rs, ds, i).error)
    decreases n
  {
    hide RefreshDeposit;
    if i == n {
    } else {
      DepositErrorStays(m, g, debt, slot, rs, ds, i, n - 1);
    }
  }

  lemma {:induction false} MoveErrorStays(rs: Pool, ds: seq<Deposit>, index: nat, change: Change, i: nat, n: nat)
    requires i <= n <= |ds| && MoveDepositsUpTo(rs, ds, index, change, i).Err?
    ensures MoveDepositsUpTo(rs, ds, index, change, n) == Err(MoveDepositsUpTo(rs, ds, index, change, i).error)
    decreases n
  {
    hide MoveDeposit;
    if i == n {
    } else {
      MoveErrorStays(rs, ds, index, change, i, n - 1);
    }
  }

  lemma {:induction false} ClearErrorStays(rs: Pool, bs: seq<Borrow>, i: nat, n: nat)
    requires i <= n <= |bs| && ClearBorrowsUpTo(rs, bs, i).Err?
    ensures ClearBorrowsUpTo(rs, bs, n) == Err(ClearBorrowsUpTo(rs, bs, i).error)
    decreases n
  {
    hide ClearBorrow;
    if i == n {
    } else {
      ClearErrorStays(rs, bs, i, n - 1);
    }
  }

  /** Of the obligation, the borrow pass reads the slots, the last update and the referrer. */
  lemma BorrowStepReads(m: Market, g: Option<ElevationGroup>, o: Obligation, o': Obligation, slot: U64, p: BorrowPass, i: nat)
    requires i < |p.borrows| && o'.lastUpdate == o.lastUpdate && o'.referrer == o.referrer
    ensures RefreshBorrow(m, g, o', slot, p, i) == RefreshBorrow(m, g, o, slot, p, i)
  {
    hide AccruedDebt, TrackBorrow, AccumulateReferrerFees, ValueBorrow, NeedRefreshable;
  }

  lemma AccrualKeepsSlot(b: Borrow, rate: U256)
    ensures AccruedDebt(b, rate).Ok? ==>
      AccruedDebt(b, rate).value.reserve == b.reserve && AccruedDebt(b, rate).value.outsideDebt == b.outsideDebt
  {
  }

  /** A pass step touches its own slot only. */
  lemma BorrowStepFrame(m: Market, g: Option<ElevationGroup>, o: Obligation, slot: U64, p: BorrowPass, i: nat)
    requires i < |p.borrows| && RefreshBorrow(m, g, o, slot, p, i).Ok?
    ensures |RefreshBorrow(m, g, o, slot, p, i).value.borrows| == |p.borrows|
    ensures forall j :: 0 <= j < |p.borrows| && j != i ==> RefreshBorrow(m, g, o, slot, p, i).value.borrows[j] == p.borrows[j]
    ensures RefreshBorrow(m, g, o, slot, p, i).value.totals.count == p.totals.count + if p.borrows[i].Active() then 1 else 0
  {
    hide AccruedDebt, TrackBorrow, AccumulateReferrerFees, MarketValue, BorrowFactor, NeedRefreshable;
  }

  lemma DepositStepFrame(m: Market, g: Option<ElevationGroup>, debt: U64, slot: U64, p: DepositPass, i: nat)
    requires i < |p.deposits| && RefreshDeposit(m, g, debt, slot, p, i).Ok?
    ensures |RefreshDeposit(m, g, debt, slot, p, i).value.deposits| == |p.deposits|
    ensures forall j :: 0 <= j < |p.deposits| && j != i ==> RefreshDeposit(m, g, debt, slot, p, i).value.deposits[j] == p.deposits[j]
  {
    hide TrackDeposit, ValueDeposit, NeedRefreshable;
  }

  lemma LtvCheckReads(o: Obligation, o': Obligation, initialLtv: Fraction, adjustedDebt: Fraction, deposited: Fraction)
    requires o'.marginCallStartedAt == o.marginCallStartedAt
    ensures NeedLtvNotWorse(o', initialLtv, adjustedDebt, deposited) == NeedLtvNotWorse(o, initialLtv, adjustedDebt, deposited)
  {
  }

  /** The reserves and the obligation a transaction has loaded. */
  class LoadedAccounts {
    var reserves: Pool
    const obligation: ObligationAccount

    constructor (reserves: Pool, obligation: ObligationAccount)
      ensures this.reserves == reserves && this.obligation == obligation
    {
      this.reserves, this.obligation := reserves, obligation;
    }

    function View(): Accounts
      reads this, obligation, obligation.deposits, obligation.borrows, obligation.orders
    {
      Accounts(reserves, obligation.View())
    }

    /** One active slot of `refresh_obligation_borrows`. */
    method RefreshBorrowSlot(m: Market, g: Option<ElevationGroup>, slot: U64, i: nat, t: BorrowTotals) returns (r: Result<BorrowTotals>)
      requires i < obligation.borrows.Length
      modifies this`reserves, obligation`hasDebt, obligation.borrows
      ensures match RefreshBorrow(m, g, old(obligation.View()), slot, BorrowPass(old(reserves), old(obligation.borrows[..]), t), i)
        case Ok(p) => r == Ok(p.totals) && reserves == p.reserves && obligation.borrows[..] == p.borrows
                      && obligation.hasDebt == (old(obligation.hasDebt) || old(obligation.borrows[i].Active()))
        case Err(e) => r == Err(e)
    {
      hide AccruedDebt, AccumulateReferrerFees, ValueBorrow, NeedRefreshable;
      if !obligation.borrows[i].Active() {
        return Ok(t);
      }
      var k := obligation.borrows[i].reserve;
      var reserve :- Load(reserves, k);
      var _ :- NeedRefreshable(reserve, slot);
      var previous := obligation.borrows[i].borrowed;
      AccrualKeepsSlot(obligation.borrows[i], reserve.liquidity.cumulativeRate);
      var _ :- obligation.AccrueInterest(i, reserve.liquidity.cumulativeRate);
      var amount :- ToCeil(obligation.borrows[i].borrowed);
      if g.Some? {
        if g.value.id !in reserve.config.elevationGroups {
          return Err(InconsistentElevationGroup);
        }
        if k != g.value.debtReserve {
          return Err(ElevationGroupHasAnotherDebtReserve);
        }
      } else {
        var total :- Narrow64(SatSub(reserve.outsideDebt, obligation.borrows[i].outsideDebt) + amount);
        reserve := reserve.(outsideDebt := total);
        obligation.borrows[i] := obligation.borrows[i].(outsideDebt := amount);
      }
      var elapsed :- obligation.lastUpdate.SlotsElapsed(slot);
      reserve :- AccumulateReferrerFees(reserve, obligation.referrer, m.referralFeeBps, elapsed, obligation.borrows[i].borrowed, previous);
      var valued :- ValueBorrow(m, g, reserve, obligation.borrows[i], amount, t);
      reserves := reserves[k := reserve];
      obligation.borrows[i] := valued.0;
      obligation.hasDebt := true;
      return Ok(valued.1);
    }

    /** `refresh_obligation_borrows`. */
    method RefreshObligationBorrows(m: Market, g: Option<ElevationGroup>, slot: U64) returns (r: Result<BorrowTotals>)
      modifies this`reserves, obligation`hasDebt, obligation.borrows
      ensures match RefreshBorrows(m, g, old(obligation.View()), slot, old(reserves))
        case Ok(p) => r == Ok(p.totals) && reserves == p.reserves && obligation.borrows[..] == p.borrows
                      && obligation.hasDebt == (old(obligation.hasDebt) || p.totals.count > 0)
        case Err(e) => r == Err(e)
    {
      hide RefreshBorrow;
      var totals := NO_BORROWS;
      ghost var o := obligation.View();
      for i := 0 to obligation.borrows.Length
        invariant RefreshBorrowsUpTo(m, g, o, slot, old(reserves), i) == Ok(BorrowPass(reserves, obligation.borrows[..], totals))
        invariant forall j :: i <= j < obligation.borrows.Length ==> obligation.borrows[j] == old(obligation.borrows[j])
        invariant obligation.hasDebt == (old(obligation.hasDebt) || totals.count > 0)
      {
        BorrowStepReads(m, g, o, obligation.View(), slot, BorrowPass(reserves, obligation.borrows[..], totals), i);
        if RefreshBorrowsUpTo(m, g, o, slot, old(reserves), i + 1).Err? {
          BorrowErrorStays(m, g, o, slot, old(reserves), i + 1, obligation.borrows.Length);
        } else {
          BorrowStepFrame(m, g, o, slot, BorrowPass(reserves, obligation.borrows[..], totals), i);
        }
        totals :- RefreshBorrowSlot(m, g, slot, i, totals);
      }
      if g.Some? && totals.count > 1 {
        return Err(InconsistentElevationGroup);
      }
      return Ok(totals);
    }
  
    /** One slot of `refresh_obligation_deposits`. */
    method RefreshDepositSlot(m: Market, g: Option<ElevationGroup>, debt: U64, slot: U64, i: nat, t: DepositTotals)
      returns (r: Result<DepositTotals>)
      requires i < obligation.deposits.Length
      modifies this`reserves, obligation.deposits
      ensures match RefreshDeposit(m, g, debt, slot, DepositPass(old(reserves), old(obligation.deposits[..]), t), i)
        case Ok(p) => r == Ok(p.totals) && reserves == p.reserves && obligation.deposits[..] == p.deposits
        case Err(e) => r == Err(e)
    {
      hide ValueDeposit, NeedRefreshable;
      if !obligation.deposits[i].Active() {
        return Ok(t);
      }
      var k := obligation.deposits[i].reserve;
      var reserve :- Load(reserves, k);
      var _ :- NeedRefreshable(reserve, slot);
      if g.Some? {
        var index :- GroupIndex(g.value);
        var tracker :- GroupDebt(reserve, index);
        if g.value.id !in reserve.config.elevationGroups {
          return Err(InconsistentElevationGroup);
        }
        if k == g.value.debtReserve {
          return Err(ElevationGroupDebtReserveAsCollateral);
        }
        var total :- Narrow64(SatSub(tracker, obligation.deposits[i].groupDebt) + debt);
        reserve := reserve.(groupDebts := reserve.groupDebts[index := total]);
        obligation.deposits[i] := obligation.deposits[i].(groupDebt := debt);
      }
      var valued :- ValueDeposit(m, g, reserve, obligation.deposits[i], t);
      reserves := reserves[k := reserve];
      obligation.deposits[i] := valued.0;
      return Ok(valued.1);
    }

    /** `refresh_obligation_deposits`. */
    method RefreshObligationDeposits(m: Market, g: Option<ElevationGroup>, debt: U64, slot: U64, checkCount: bool)
      returns (r: Result<DepositTotals>)
      modifies this`reserves, obligation.deposits
      ensures match RefreshDeposits(m, g, debt, slot, old(reserves), old(obligation.deposits[..]), checkCount)
        case Ok(p) => r == Ok(p.totals) && reserves == p.reserves && obligation.deposits[..] == p.deposits
        case Err(e) => r == Err(e)
    {
      hide RefreshDeposit;
      var totals := NO_DEPOSITS;
      ghost var ds := obligation.deposits[..];
      for i := 0 to obligation.deposits.Length
        invariant RefreshDepositsUpTo(m, g, debt, slot, old(reserves), ds, i) == Ok(DepositPass(reserves, obligation.deposits[..], totals))
        invariant forall j :: i <= j < obligation.deposits.Length ==> obligation.deposits[j] == old(obligation.deposits[j])
      {
        if RefreshDepositsUpTo(m, g, debt, slot, old(reserves), ds, i + 1).Err? {
          DepositErrorStays(m, g, debt, slot, old(reserves), ds, i + 1, obligation.deposits.Length);
        } else {
          DepositStepFrame(m, g, debt, slot, DepositPass(reserves, obligation.deposits[..], totals), i);
        }
        totals :- RefreshDepositSlot(m, g, debt, slot, i, totals);
      }
      if checkCount && g.Some? && totals.count > g.value.maxReservesAsCollateral {
        return Err(ObligationCollateralExceedsElevationGroupLimit);
      }
      return Ok(totals);
    }

    /** `refresh_obligation`. */
    method Refresh(m: Market, slot: U64, checkCount: bool) returns (r: Result<()>)
      modifies this`reserves, obligation, obligation.borrows, obligation.deposits
      ensures match RefreshObligation(m, old(View()), slot, checkCount)
        case Ok(a) => r.Ok? && View() == a
        case Err(e) => r == Err(e)
    {
      hide RefreshBorrows, RefreshDeposits, RefreshedValues, UsableElevationGroup;
      var g :- UsableElevationGroup(m, obligation.group);
      var b :- RefreshObligationBorrows(m, g, slot);
      var d :- RefreshObligationDeposits(m, g, b.debt, slot, checkCount);
      var values :- RefreshedValues(m, b, d);
      obligation.values := values;
      obligation.lastUpdate := obligation.lastUpdate.Updated(slot, Some(b.prices * d.prices));
      return Ok(());
    }

    /** The loops over the active deposits in `update_elevation_group_debt_trackers_on_borrow`,
        `..._on_repay` and `reset_elevation_group_debts`. */
    method MoveGroupDebts(index: nat, change: Change) returns (r: Result<()>)
      modifies this`reserves, obligation.deposits
      ensures match MoveDepositsUpTo(old(reserves), old(obligation.deposits[..]), index, change, obligation.deposits.Length)
        case Ok(p) => r.Ok? && reserves == p.reserves && obligation.deposits[..] == p.deposits
        case Err(e) => r == Err(e)
    {
      ghost var ds := obligation.deposits[..];
      for i := 0 to obligation.deposits.Length
        invariant MoveDepositsUpTo(old(reserves), ds, index, change, i) == Ok(GroupPass(reserves, obligation.deposits[..]))
      {
        if MoveDepositsUpTo(old(reserves), ds, index, change, i + 1).Err? {
          MoveErrorStays(old(reserves), ds, index, change, i + 1, obligation.deposits.Length);
        }
        var d := obligation.deposits[i];
        if d.Active() {
          var reserve :- Load(reserves, d.reserve);
          var moved :- MoveGroupDebt(reserve, d, index, change);
          reserves := reserves[d.reserve := moved.0];
          obligation.deposits[i] := moved.1;
        }
      }
      return Ok(());
    }

    /** The other branch of `reset_elevation_group_debts`. */
    method ClearOutsideDebts() returns (r: Result<()>)
      modifies this`reserves, obligation.borrows
      ensures match ClearBorrowsUpTo(old(reserves), old(obligation.borrows[..]), obligation.borrows.Length)
        case Ok(p) => r.Ok? && reserves == p.reserves && obligation.borrows[..] == p.borrows
        case Err(e) => r == Err(e)
    {
      ghost var bs := obligation.borrows[..];
      for i := 0 to obligation.borrows.Length
        invariant ClearBorrowsUpTo(old(reserves), bs, i) == Ok(OutsidePass(reserves, obligation.borrows[..]))
      {
        if ClearBorrowsUpTo(old(reserves), bs, i + 1).Err? {
          ClearErrorStays(old(reserves), bs, i + 1, obligation.borrows.Length);
        }
        var b := obligation.borrows[i];
        if b.Active() {
          var reserve :- Load(reserves, b.reserve);
          reserves := reserves[b.reserve := reserve.(outsideDebt := SatSub(reserve.outsideDebt, b.outsideDebt))];
          obligation.borrows[i] := b.(outsideDebt := 0);
        }
      }
      return Ok(());
    }

    /** `reset_elevation_group_debts`. */
    method ResetElevationGroupDebts(g: Option<ElevationGroup>) returns (r: Result<()>)
      modifies this`reserves, obligation.deposits, obligation.borrows
      ensures match ResetTrackers(old(View()), g)
        case Ok(a) => r.Ok? && View() == a
        case Err(e) => r == Err(e)
    {
      if g.Some? {
        var index :- GroupIndex(g.value);
        r := MoveGroupDebts(index, Clear);
      } else {
        r := ClearOutsideDebts();
      }
    }

    /** `update_elevation_group_debt_trackers_on_repay`. */
    method TrackRepay(k: Key, i: nat, amount: U64) returns (r: Result<()>)
      requires i < obligation.borrows.Length
      modifies this`reserves, obligation.deposits, obligation.borrows
      ensures match TrackLess(old(View()), k, i, amount)
        case Ok(a) => r.Ok? && View() == a
        case Err(e) => r == Err(e)
    {
      if obligation.group != ELEVATION_GROUP_NONE {
        r := MoveGroupDebts(obligation.group - 1, Less(amount));
      } else {
        var reserve :- Load(reserves, k);
        reserves := reserves[k := reserve.(outsideDebt := SatSub(reserve.outsideDebt, amount))];
        obligation.borrows[i] := obligation.borrows[i].(outsideDebt := SatSub(obligation.borrows[i].outsideDebt, amount));
        return Ok(());
      }
    }

    /** `update_elevation_group_debt_trackers_on_borrow`. */
    method TrackBorrowed(k: Key, i: nat, g: Option<ElevationGroup>, amount: U64) returns (r: Result<()>)
      requires i < obligation.borrows.Length
      modifies this`reserves, obligation.deposits, obligation.borrows
      ensures match TrackMore(old(View()), k, i, g, amount)
        case Ok(a) => r.Ok? && View() == a
        case Err(e) => r == Err(e)
    {
      if g.Some? {
        var index :- GroupIndex(g.value);
        if g.value.debtReserve != k {
          return Err(ElevationGroupHasAnotherDebtReserve);
        }
        r := MoveGroupDebts(index, More(amount));
      } else {
        var reserve :- Load(reserves, k);
        if reserve.outsideDebt + amount >= TWO_64 {
          return Err(MathOverflow);
        }
        if reserve.outsideDebt + amount > reserve.config.borrowLimitOutsideElevationGroup {
          return Err(BorrowLimitExceeded);
        }
        var own :- Narrow64(obligation.borrows[i].outsideDebt + amount);
        reserves := reserves[k := reserve.(outsideDebt := reserve.outsideDebt + amount)];
        obligation.borrows[i] := obligation.borrows[i].(outsideDebt := own);
        return Ok(());
      }
    }
  
    /** The obligation's side of settling debt: the slot, `has_debt` and the stale mark. */
    method LessDebt(i: nat, settle: Fraction) returns (r: Result<()>)
      requires i < obligation.borrows.Length
      modifies obligation`hasDebt, obligation`lastUpdate, obligation.borrows
      ensures match WithLessDebt(old(obligation.View()), i, settle)
        case Ok(o) => r.Ok? && obligation.View() == o
        case Err(e) => r == Err(e)
    {
      var _ :- obligation.Repay(settle, i);
      obligation.UpdateHasDebt();
      obligation.MarkStale();
      return Ok(());
    }

    /** The obligation's side of taking debt. */
    method NewDebt(k: Key, rate: U256, debt: Fraction) returns (r: Result<nat>)
      modifies obligation`hasDebt, obligation`lastUpdate, obligation.borrows
      ensures match WithNewDebt(old(obligation.View()), k, rate, debt)
        case Ok(place) => r == Ok(place.0) && obligation.View() == place.1
        case Err(e) => r == Err(e)
    {
      var i :- obligation.FindOrAddLiquidity(k, rate);
      var borrowed :- Add(obligation.borrows[i].borrowed, debt);
      obligation.borrows[i] := obligation.borrows[i].(borrowed := borrowed);
      obligation.hasDebt := true;
      obligation.MarkStale();
      return Ok(i);
    }

    // ---- whole operations ---------------------------------------------------

    /** `repay_obligation_liquidity`: accrue, size, cap, trackers, reserve, obligation, checks. */
    method RepayObligationLiquidity(m: Market, k: Key, amount: U64, clock: Clock) returns (r: Result<U64>)
      modifies this`reserves, obligation`hasDebt, obligation`lastUpdate, obligation.deposits, obligation.borrows
      ensures match RepayLiquidity(m, old(View()), k, amount, clock)
        case Ok(out) => r == Ok(out.1) && View() == out.0
        case Err(e) => r == Err(e)
    {
      hide CalculateRepay, PostRepay, NeedOrdersSupported, NeedFresh, NeedFreshObligation, TrackLess, TakeBack, AccruedDebt, WithLessDebt, PositionOfBorrow;
      var _ :- Need(amount != 0, InvalidAmount);
      var reserve :- Load(reserves, k);
      var _ :- NeedFresh(reserve, clock.slot, NONE);
      var _ :- NeedFreshObligation(obligation.View(), clock.slot, NONE);
      var i :- PositionOfBorrow(obligation.borrows[..], k);
      var _ :- Need(obligation.borrows[i].borrowed != 0, ObligationLiquidityEmpty);
      var _ :- obligation.AccrueInterest(i, reserve.liquidity.cumulativeRate);
      var quote :- CalculateRepay(amount, obligation.borrows[i].borrowed);
      var taken :- TakeBack(reserve, clock, quote);
      reserves := reserves[k := taken];
      var _ :- TrackRepay(k, i, quote.repay);
      var _ :- LessDebt(i, quote.settle);
      var _ :- NeedOrdersSupported(obligation.View());
      var after :- Load(reserves, k);
      var _ :- PostRepay(obligation.values, after, quote.settle, obligation.group != ELEVATION_GROUP_NONE,
                         obligation.borrows[i].marketValue, m.minNetValue);
      return Ok(quote.repay);
    }

    /** `socialize_loss`. */
    method Socialize(k: Key, amount: U64, slot: U64) returns (r: Result<()>)
      modifies this`reserves, obligation`hasDebt, obligation`lastUpdate, obligation.deposits, obligation.borrows, obligation.orders
      ensures match SocializeLoss(old(View()), k, amount, slot)
        case Ok(a) => r.Ok? && View() == a
        case Err(e) => r == Err(e)
    {
      hide NeedFresh, NeedFreshObligation, TrackLess, Forgive, WithLessDebt;
      var reserve :- Load(reserves, k);
      var _ :- NeedFresh(reserve, slot, ALL_CHECKS);
      var _ :- NeedFreshObligation(obligation.View(), slot, ALL_CHECKS);
      var _ :- Need(NoActiveDeposits(obligation.deposits[..]), CannotSocializeObligationWithCollateral);
      var _ :- Need(!NoActiveBorrows(obligation.borrows[..]), ObligationEmpty);
      var i :- PositionOfBorrow(obligation.borrows[..], k);
      var forgiven: Fraction := Min(FromInt(amount), obligation.borrows[i].borrowed);
      var whole :- ToCeil(forgiven);
      var _ :- TrackRepay(k, i, whole);
      var tracked :- Load(reserves, k);
      var after :- Forgive(tracked, forgiven);
      reserves := reserves[k := after];
      var _ :- LessDebt(i, forgiven);
      if !obligation.hasDebt {
        var _ := RemoveAllOrders(obligation.orders);
      }
      assert !obligation.hasDebt ==> obligation.orders[..] == seq(obligation.orders.Length, _ => NO_ORDER);
      return Ok(());
    }

    /** `find_or_add_collateral_to_deposits` with
        `update_elevation_group_debt_trackers_on_new_deposit`: the slot and its reserve. */
    method AddDeposit(g: Option<ElevationGroup>, reserve: Reserve, k: Key, debt: Option<U64>, checkCount: bool)
      returns (r: Result<(nat, Reserve)>)
      modifies obligation.deposits
      ensures match SlotForDeposit(g, reserve, old(obligation.View()), k, debt, checkCount)
        case Ok(place) => r == Ok((place.0, place.2)) && obligation.deposits[..] == old(obligation.deposits[..])[place.0 := place.1]
        case Err(e) => r == Err(e)
    {
      var count := CountDeposits(obligation.deposits[..]);
      var found :- obligation.FindOrAddCollateral(k);
      if !found.1 || g.None? {
        return Ok((found.0, reserve));
      }
      var _ :- Need(g.value.debtReserve != k, ElevationGroupDebtReserveAsCollateral);
      var _ :- Need(!checkCount || count + 1 <= g.value.maxReservesAsCollateral, ObligationCollateralExceedsElevationGroupLimit);
      var index :- GroupIndex(g.value);
      var _ :- Need(debt.Some?, ObligationElevationGroupMultipleDebtReserve);
      var tracker :- GroupDebt(reserve, index);
      var total :- Narrow64(tracker + debt.value);
      obligation.deposits[found.0] := obligation.deposits[found.0].(groupDebt := debt.value);
      return Ok((found.0, reserve.(groupDebts := reserve.groupDebts[index := total])));
    }

    /** `deposit_obligation_collateral`. */
    method DepositObligationCollateral(m: Market, k: Key, amount: U64, slot: U64, checkCount: bool) returns (r: Result<()>)
      modifies this`reserves, obligation`lastUpdate, obligation.deposits
      ensures match DepositCollateral(m, old(View()), k, amount, slot, checkCount)
        case Ok(a) => r.Ok? && View() == a
        case Err(e) => r == Err(e)
    {
      hide DepositGroup, SingleTokenDebt, SlotForDeposit, NeedOrdersSupported, LiquidityOf, PostDeposit;
      var _ :- Need(amount != 0, InvalidAmount);
      var reserve :- Load(reserves, k);
      var g :- DepositGroup(m, obligation.View(), reserve, slot);
      var debt :- SingleTokenDebt(obligation.borrows[..]);
      var place :- AddDeposit(g, reserve, k, debt, checkCount);
      var d := obligation.deposits[place.0];
      var _ :- Need(d.amount + amount < TWO_64, MathOverflow);
      obligation.deposits[place.0] := d.(amount := d.amount + amount);
      assert obligation.deposits[..] == old(obligation.deposits[..])[place.0 := d.(amount := d.amount + amount)];
      obligation.MarkStale();
      var _ :- NeedOrdersSupported(obligation.View());
      reserve := Stale(place.1);
      reserves := reserves[k := reserve];
      var liquidity :- LiquidityOf(reserve, amount);
      var _ :- PostDeposit(obligation.values, reserve, liquidity, d.marketValue, m.minNetValue);
      return Ok(());
    }

    /** `withdraw_obligation_collateral`, once checked and sized. */
    method WithdrawObligationCollateral(m: Market, k: Key, amount: U64, slot: U64, check: WithdrawalCheck) returns (r: Result<U64>)
      modifies this`reserves, obligation`lastUpdate, obligation.deposits
      ensures match WithdrawCollateral(m, old(View()), k, amount, slot, check)
        case Ok(out) => r == Ok(out.1) && View() == out.0
        case Err(e) => r == Err(e)
    {
      hide WithdrawalOf, LiquidityOf, PostWithdraw;
      var reserve :- Load(reserves, k);
      var w :- WithdrawalOf(m, View(), reserve, k, amount, slot, check);
      var recorded := obligation.deposits[w.index].groupDebt;
      var full :- obligation.Withdraw(w.amount, w.index);
      obligation.MarkStale();
      if full && obligation.group != ELEVATION_GROUP_NONE {
        var index := obligation.group - 1;
        var tracker :- GroupDebt(reserve, index);
        reserve := reserve.(groupDebts := reserve.groupDebts[index := SatSub(tracker, recorded)]);
      }
      reserves := reserves[k := reserve];
      var liquidity :- LiquidityOf(reserve, w.amount);
      var _ :- PostWithdraw(obligation.values, reserve, liquidity, w.thresholdPct, obligation.deposits[w.index].marketValue,
                            m.minNetValue);
      return Ok(w.amount);
    }

    /** `borrow_obligation_liquidity`, once checked and sized. */
    method BorrowObligationLiquidity(m: Market, k: Key, amount: U64, clock: Clock) returns (r: Result<BorrowQuote>)
      modifies this`reserves, obligation`hasDebt, obligation`lastUpdate, obligation.deposits, obligation.borrows
      ensures match BorrowLiquidity(m, old(View()), k, amount, clock)
        case Ok(a) => r.Ok? && View() == a
        case Err(e) => r == Err(e)
    {
      hide BorrowQuoteOf, LendOut, WithNewDebt, NeedOrdersSupported, NeedBelowUtilizationLimit, ElevationGroupOf, TrackMore, PostBorrow;
      var reserve :- Load(reserves, k);
      var quote :- BorrowQuoteOf(m, View(), reserve, amount, clock.slot);
      var whole :- ToCeil(quote.borrowAmount);
      reserve :- LendOut(reserve, clock, quote, obligation.referrer, m.referralFeeBps);
      reserves := reserves[k := reserve];
      var i :- NewDebt(k, reserve.liquidity.cumulativeRate, quote.borrowAmount);
      var _ :- NeedOrdersSupported(obligation.View());
      var _ :- NeedBelowUtilizationLimit(reserve);
      var g :- ElevationGroupOf(m, obligation.group);
      var _ :- TrackBorrowed(k, i, g, whole);
      var after :- Load(reserves, k);
      var _ :- PostBorrow(obligation.values, after, quote.borrowAmount, obligation.group != ELEVATION_GROUP_NONE,
                          obligation.borrows[i].marketValue, m.minNetValue);
      return Ok(quote);
    }
  
    /** `request_elevation_group`. */
    method RequestGroup(m: Market, newGroup: nat, slot: U64) returns (r: Result<()>)
      modifies this`reserves, obligation, obligation.deposits, obligation.borrows
      ensures match RequestElevationGroup(m, old(View()), newGroup, slot)
        case Ok(a) => r.Ok? && View() == a
        case Err(e) => r == Err(e)
    {
      hide NeedRefreshedAndBacked, UsableElevationGroup, ResetTrackers, NeedUsableForNewLoans, RefreshBorrows, RefreshDeposits,
           NeedLtvNotWorse, NeedGroupLimits, LoanToValue;
      var _ :- NeedRefreshedAndBacked(obligation.View(), slot);
      var _ :- Need(obligation.group != newGroup, ElevationGroupAlreadyActivated);
      var initialLtv :- LoanToValue(obligation.values);
      var oldG :- UsableElevationGroup(m, obligation.group);
      var _ :- ResetElevationGroupDebts(oldG);
      var g :- UsableElevationGroup(m, newGroup);
      var _ :- NeedUsableForNewLoans(g);
      var b :- RefreshObligationBorrows(m, g, slot);
      var d :- RefreshObligationDeposits(m, g, b.debt, slot, true);
      var _ :- Need(b.adjusted <= d.allowed, UnhealthyElevationGroupLtv);
      LtvCheckReads(old(obligation.View()), obligation.View(), initialLtv, b.adjusted, d.value);
      var _ :- NeedLtvNotWorse(obligation.View(), initialLtv, b.adjusted, d.value);
      obligation.group := newGroup;
      obligation.values := obligation.values.(borrowingDisabled := d.borrowingDisabled);
      obligation.MarkStale();
      var _ :- NeedGroupLimits(reserves, g, obligation.borrows[..], obligation.deposits[..]);
      var _ :- Need(NoActiveBorrows(obligation.borrows[..]) || newGroup != ELEVATION_GROUP_NONE || !obligation.values.borrowingDisabled,
                    BorrowingDisabledOutsideElevationGroup);
      return Ok(());
    }

    /** The debt's two sides and the obligation's side of the collateral in a liquidation;
        returns what was still recorded against the collateral. */
    method Settle(debtKey: Key, l: Liquidated) returns (r: Result<U64>)
      requires l.borrowIndex < obligation.borrows.Length && l.depositIndex < obligation.deposits.Length
      modifies this`reserves, obligation`hasDebt, obligation`lastUpdate, obligation.deposits, obligation.borrows
      ensures match SettleLiquidation(old(View()), debtKey, l)
        case Ok(s) => r == Ok(s.groupDebt) && View() == s.accounts
        case Err(e) => r == Err(e)
    {
      hide TrackLess, WithLessDebt, TakeBackInLiquidation;
      var _ :- TrackRepay(debtKey, l.borrowIndex, l.quote.amounts.repay);
      var recorded := obligation.deposits[l.depositIndex].groupDebt;
      var reserve :- Load(reserves, debtKey);
      var taken :- TakeBackInLiquidation(reserve, l.quote.amounts.repay, l.quote.amounts.settle);
      var _ :- Need(l.quote.amounts.withdraw != 0, LiquidationTooSmall);
      reserves := reserves[debtKey := taken];
      var _ :- LessDebt(l.borrowIndex, l.quote.amounts.settle);
      var _ :- obligation.Withdraw(l.quote.amounts.withdraw, l.depositIndex);
      return Ok(recorded);
    }

    /** `liquidate_and_redeem`, once checked and sized. */
    method LiquidateAndRedeem(m: Market, debtKey: Key, collateralKey: Key, amount: U64, minReceived: U64, clock: Clock)
      returns (r: Result<Receipt>)
      modifies this`reserves, obligation`hasDebt, obligation`lastUpdate, obligation.deposits, obligation.borrows, obligation.orders
      ensures match Liquidate(m, old(View()), debtKey, collateralKey, amount, minReceived, clock)
        case Ok(out) => r == Ok(out.1) && View() == out.0
        case Err(e) => r == Err(e)
    {
      hide LiquidationOf, SettleLiquidation, Refreshed, RedeemableNow, TrackFullWithdraw, RedeemForLiquidator, Consumed;
      var debt :- Load(reserves, debtKey);
      var collateral :- Load(reserves, collateralKey);
      var l :- LiquidationOf(m, obligation.View(), debtKey, debt, collateralKey, collateral, amount, clock);
      var full := obligation.deposits[l.depositIndex].amount == l.quote.amounts.withdraw;
      var recorded :- Settle(debtKey, l);
      var executed := if l.quote.params.reason.ObligationOrder? then Some(l.quote.params.reason.index) else None;
      if obligation.hasDebt && executed.Some? && executed.value >= obligation.orders.Length {
        return Err(Panic);
      }
      var _ :- obligation.SettleOrders(if obligation.hasDebt then executed else None, l.quote.amounts.repay);
      var reserve :- Load(reserves, collateralKey);
      reserve :- Refreshed(reserve, clock, None, m.referralFeeBps);
      var redeem :- RedeemableNow(reserve, l.quote.amounts.withdraw);
      if full {
        reserve :- TrackFullWithdraw(reserve, obligation.group, recorded);
      }
      var out :- RedeemForLiquidator(reserve, clock, l.quote, redeem, minReceived);
      reserves := reserves[collateralKey := out.0];
      return Ok(out.1);
    }
  }
}
