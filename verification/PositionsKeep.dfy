/** Deposits, withdrawals, borrows, repays, liquidations and socialized losses settle
    the trackers exactly and keep the obligation valid. */
module PositionsKeep {
  import opened Results
  import opened Arithmetic
  import opened FixedPoint
  import opened LastUpdates
  import opened Reserves
  import opened ReserveOperations
  import opened WithdrawalCaps
  import opened Fees
  import opened Markets
  import opened Obligations
  import opened Positions
  import opened Liquidation
  import opened LiquidationSafety
  import opened MarketOperations
  import opened DebtTrackers
  import opened DebtPasses
  import opened ObligationInvariant
  import opened OperationsKeep

  // ---- what the reserve's side leaves alone -------------------------------

  ghost predicate TrackersKept(r: Reserve, r': Reserve) {
    SameIndex(r, r') && r'.outsideDebt == r.outsideDebt && r'.groupDebts == r.groupDebts
  }

  lemma LendOutLeaves(r: Reserve, clock: Clock, quote: BorrowQuote, referrer: Option<nat>, bps: U16)
    requires LendOut(r, clock, quote, referrer, bps).Ok?
    ensures TrackersKept(r, LendOut(r, clock, quote, referrer, bps).value)
    ensures quote.receiveAmount > 0
  {
    hide Accumulate, Credited;
  }

  lemma TakeBackLeaves(r: Reserve, clock: Clock, quote: RepayQuote)
    ensures TakeBack(r, clock, quote).Ok? ==> TrackersKept(r, TakeBack(r, clock, quote).value)
    ensures TakeBackInLiquidation(r, quote.repay, quote.settle).Ok? ==>
      TrackersKept(r, TakeBackInLiquidation(r, quote.repay, quote.settle).value)
  {
    hide Accumulate;
  }

  lemma ForgiveLeaves(r: Reserve, amount: Fraction)
    requires Forgive(r, amount).Ok?
    ensures TrackersKept(r, Forgive(r, amount).value)
  {
    hide TotalSupply;
  }

  /** A refresh in a slot the reserve has already seen accrues nothing. */
  lemma RefreshedInSlot(r: Reserve, clock: Clock, bps: U16)
    requires r.lastUpdate.slot == clock.slot && Refreshed(r, clock, None, bps).Ok?
    ensures TrackersKept(r, Refreshed(r, clock, None, bps).value)
    ensures Refreshed(r, clock, None, bps).value.liquidity == r.liquidity
  {
  }

  lemma RedeemLeavesTrackers(r: Reserve, clock: Clock, q: Quote, redeem: U64, minReceived: U64)
    requires RedeemForLiquidator(r, clock, q, redeem, minReceived).Ok?
    ensures TrackersKept(r, RedeemForLiquidator(r, clock, q, redeem, minReceived).value.0)
  {
    hide TotalSupply, CurrentRate, ExchangeRate.CollateralToLiquidity, Accumulate, ProtocolFee;
  }

  // ---- deposit ------------------------------------------------------------

  lemma DepositKeeps(m: Market, a: Accounts, k: Key, amount: U64, slot: U64, checkCount: bool)
    requires ValidMarket(m) && Ready(a.reserves, a.o) && DepositCollateral(m, a, k, amount, slot, checkCount).Ok?
    ensures Keeps(a.reserves, a.o, DepositCollateral(m, a, k, amount, slot, checkCount).value)
  {
    hide Ready, Keeps, WellFormed, ValidPool, NeedOrdersSupported, LiquidityOf, PostDeposit, SlotForDeposit, SingleTokenDebt, NeedFresh,
         NeedSameGroup, NeedNotMarked;
    GroupIds(m, a.o.group);
    var g := UsableElevationGroup(m, a.o.group).value;
    var r := a.reserves[k];
    var debt := SingleTokenDebt(a.o.borrows).value;
    var place := SlotForDeposit(g, r, a.o, k, debt, checkCount).value;
    ReadyParts(a.reserves, a.o, k);
    SlotForDepositMeans(g, r, a.o, k, debt, checkCount);
    var d := place.1.(amount := place.1.amount + amount);
    PlacedDepositKeeps(a.reserves, a.o, place.0, k, d, Stale(place.2));
  }

  lemma ReadyParts(rs: Pool, o: Obligation, k: Key)
    requires Ready(rs, o) && k in rs
    ensures WellFormed(o) && Shaped(rs[k]) && k != 0
  {
  }

  /** A deposit slot is filled or grows, with what its reserve tracks. */
  lemma PlacedDepositKeeps(rs: Pool, o: Obligation, i: nat, k: Key, d: Deposit, r: Reserve)
    requires Ready(rs, o) && k in rs && i < |o.deposits| && o.deposits[i].reserve in {0, k}
    requires d.reserve == k && d.amount > 0 && (o.group == 0 ==> d.groupDebt == 0)
    requires forall j :: 0 <= j < |o.deposits| && j != i ==> o.deposits[j].reserve != k
    requires Shaped(r) && SameIndex(rs[k], r) && r.outsideDebt == rs[k].outsideDebt
    requires forall g :: 0 <= g < MAX_NUM_ELEVATION_GROUPS && g + 1 != o.group ==> r.groupDebts[g] == rs[k].groupDebts[g]
    requires 0 < o.group <= MAX_NUM_ELEVATION_GROUPS ==>
      r.groupDebts[o.group - 1] - d.groupDebt == rs[k].groupDebts[o.group - 1] - DepositShare(o.deposits[i], k)
    ensures Keeps(rs, o, Accounts(rs[k := r], Touched(o.(deposits := o.deposits[i := d]))))
  {
    hide Covers, Settles, GoodBorrows, GoodDeposits;
    var o1 := o.(deposits := o.deposits[i := d]);
    var rs' := rs[k := r];
    DepositMoves(rs, o, i, d, k, r);
    SettlesPools(rs, o, rs', o1);
    SettlesNothing(rs', o1, Touched(o1));
    SettlesTransitive(rs, o, rs', o1, rs', Touched(o1));
    DepositSlotKeepsShape(o.deposits, i, d);
    StaleAndBacked(rs, rs', o, Touched(o1));
  }

  /** The slot found for a deposit: the reserve's own, or a blank one that starts out with
      the obligation's debt recorded against it, on both sides. */
  lemma SlotForDepositMeans(g: Option<ElevationGroup>, r: Reserve, o: Obligation, k: Key, debt: Option<U64>, checkCount: bool)
    requires WellFormed(o) && Shaped(r) && k != 0 && SlotForDeposit(g, r, o, k, debt, checkCount).Ok?
    requires if g.Some? then g.value.id == o.group > 0 else o.group == 0
    ensures var s := SlotForDeposit(g, r, o, k, debt, checkCount).value;
      && o.deposits[s.0].reserve in {0, k} && s.1.reserve == k
      && (forall j :: 0 <= j < |o.deposits| && j != s.0 ==> o.deposits[j].reserve != k)
      && s.2 == r.(groupDebts := s.2.groupDebts) && Shaped(s.2)
      && (forall i :: 0 <= i < MAX_NUM_ELEVATION_GROUPS && i + 1 != o.group ==> s.2.groupDebts[i] == r.groupDebts[i])
      && (o.group > 0 ==> s.2.groupDebts[o.group - 1] - s.1.groupDebt == r.groupDebts[o.group - 1] - DepositShare(o.deposits[s.0], k))
      && (o.group == 0 ==> s.1.groupDebt == 0)
  {
    var s := SlotForDeposit(g, r, o, k, debt, checkCount).value;
    assert GoodDeposit(o.deposits[s.0]);
  }

  /** A stale obligation only has to be backed: its indices may not be ahead of the reserves'. */
  lemma StaleAndBacked(rs: Pool, rs': Pool, o: Obligation, o': Obligation)
    requires Backed(rs, o) && PoolAdvances(rs, rs') && WellFormed(o') && o'.lastUpdate.stale
    requires forall i :: 0 <= i < |o'.deposits| && o'.deposits[i].Active() ==> o'.deposits[i].reserve in rs
    requires forall i :: 0 <= i < |o'.borrows| ==>
      o'.borrows[i].Active() ==> o'.borrows[i].reserve in rs
                                 && 0 < o'.borrows[i].cumulativeRate <= rs[o'.borrows[i].reserve].liquidity.cumulativeRate
    ensures ValidObligation(rs', o')
  {
    hide WellFormed;
  }

  // ---- withdraw -----------------------------------------------------------

  lemma WithdrawnSlotMeans(d: Deposit, amount: U64)
    requires GoodDeposit(d) && d.Active() && WithdrawnSlot(d, amount).Ok?
    ensures GoodDeposit(WithdrawnSlot(d, amount).value)
    ensures WithdrawnSlot(d, amount).value == if amount == d.amount then NO_DEPOSIT else d.(amount := d.amount - amount)
  {
  }

  /** A slot is emptied or reduced; emptying takes what it recorded from the reserve. */
  lemma TakenDepositSettles(rs: Pool, o: Obligation, i: nat, k: Key, d: Deposit, r: Reserve, full: bool)
    requires ValidPool(rs) && Covers(rs, o) && WellFormed(o) && i < |o.deposits| && o.deposits[i].reserve == k && k in rs
    requires TrackersKept(rs[k], r)
    requires if full then d == NO_DEPOSIT else d.reserve == k && d.groupDebt == o.deposits[i].groupDebt
    requires full ==> TrackFullWithdraw(r, o.group, o.deposits[i].groupDebt).Ok?
    ensures var r' := if full then TrackFullWithdraw(r, o.group, o.deposits[i].groupDebt).value else r;
      && SameIndex(r, r') && r'.liquidity == r.liquidity && r'.collateralSupply == r.collateralSupply && r'.lastUpdate == r.lastUpdate
      && Settles(rs, o, rs[k := r'], o.(deposits := o.deposits[i := d]))
  {
    var r' := if full then TrackFullWithdraw(r, o.group, o.deposits[i].groupDebt).value else r;
    PartsAreCovered(rs, o);
    DepositMoves(rs, o, i, d, k, r');
  }

  lemma WithdrawKeeps(m: Market, a: Accounts, k: Key, amount: U64, slot: U64, check: WithdrawalCheck)
    requires ValidMarket(m) && Ready(a.reserves, a.o) && WithdrawCollateral(m, a, k, amount, slot, check).Ok?
    ensures Keeps(a.reserves, a.o, WithdrawCollateral(m, a, k, amount, slot, check).value.0)
  {
    hide Covers, Settles, WithdrawalOf, LiquidityOf, PostWithdraw, TrackFullWithdraw, GoodBorrows, GoodDeposits, WithdrawnSlot;
    var r := a.reserves[k];
    var w := WithdrawalOf(m, a, r, k, amount, slot, check).value;
    var d := a.o.deposits[w.index];
    var d' := WithdrawnSlot(d, w.amount).value;
    GoodDepositAt(a.o.deposits, w.index);
    WithdrawnSlotMeans(d, w.amount);
    var a' := WithdrawCollateral(m, a, k, amount, slot, check).value.0;
    TakenDepositSettles(a.reserves, a.o, w.index, k, d', r, w.amount == d.amount);
    var o1 := a.o.(deposits := a.o.deposits[w.index := d']);
    SettlesPools(a.reserves, a.o, a'.reserves, o1);
    SettlesNothing(a'.reserves, o1, a'.o);
    SettlesTransitive(a.reserves, a.o, a'.reserves, o1, a'.reserves, a'.o);
    OnlySlot(a.o.deposits, w.index);
    DepositSlotKeepsShape(a.o.deposits, w.index, d');
    StaleAndBacked(a.reserves, a'.reserves, a.o, a'.o);
  }

  lemma GoodDepositAt(ds: seq<Deposit>, i: nat)
    requires GoodDeposits(ds) && i < |ds|
    ensures GoodDeposit(ds[i])
  {
  }

  /** No other slot holds an active slot's reserve. */
  lemma OnlySlot(ds: seq<Deposit>, i: nat)
    requires GoodDeposits(ds) && i < |ds| && ds[i].Active()
    ensures forall j :: 0 <= j < |ds| && j != i ==> ds[j].reserve != ds[i].reserve
  {
  }

  lemma OnlyBorrowSlot(bs: seq<Borrow>, i: nat)
    requires GoodBorrows(bs) && i < |bs| && bs[i].Active()
    ensures GoodBorrow(bs[i])
    ensures forall j :: 0 <= j < |bs| && j != i ==> bs[j].reserve != bs[i].reserve
  {
  }

  // ---- borrow -------------------------------------------------------------

  lemma BorrowIsPositive(r: Reserve, amount: U64, maxValue: Fraction, remaining: Fraction, bps: U16, inGroup: bool, hasReferrer: bool)
    requires CalculateBorrow(r, amount, maxValue, remaining, bps, inGroup, hasReferrer).Ok?
    requires CalculateBorrow(r, amount, maxValue, remaining, bps, inGroup, hasReferrer).value.receiveAmount > 0
    ensures CalculateBorrow(r, amount, maxValue, remaining, bps, inGroup, hasReferrer).value.borrowAmount > 0
  {
    hide LargestBorrow, CalculateFees, AdjustedValue;
  }

  /** The new debt's slot: the reserve's own, whose index need not be current, or a blank
      one that starts at the reserve's index. */
  lemma WithNewDebtMeans(rs: Pool, o: Obligation, k: Key, rate: U256, debt: Fraction)
    requires ValidPool(rs) && k in rs && WellFormed(o) && Backed(rs, o) && rate == rs[k].liquidity.cumulativeRate && debt > 0
    requires WithNewDebt(o, k, rate, debt).Ok?
    ensures var n := WithNewDebt(o, k, rate, debt).value;
      && |n.1.borrows| == |o.borrows| && n.1.borrows[n.0].reserve == k
      && n.1 == o.(borrows := n.1.borrows, hasDebt := true, lastUpdate := n.1.lastUpdate) && n.1.lastUpdate.stale
      && Settles(rs, o, rs, n.1) && WellFormed(n.1) && Backed(rs, n.1)
  {
    hide Covers, Settles, GoodDeposits, GoodBorrows;
    var place := SlotForBorrow(o.borrows, k, rate).value;
    var b := place.1.(borrowed := place.1.borrowed + debt);
    var n := WithNewDebt(o, k, rate, debt).value;
    NewDebtSlot(rs, o, k, rate, debt);
    BorrowMoves(rs, o, place.0, b, k, rs[k]);
    assert rs[k := rs[k]] == rs;
    var o1 := o.(borrows := o.borrows[place.0 := b]);
    SettlesNothing(rs, o1, n.1);
    SettlesTransitive(rs, o, rs, o1, rs, n.1);
    BorrowSlotKeepsShape(o.borrows, place.0, b);
    assert n.1.borrows[place.0].Active();
  }

  lemma NewDebtSlot(rs: Pool, o: Obligation, k: Key, rate: U256, debt: Fraction)
    requires ValidPool(rs) && k in rs && WellFormed(o) && Backed(rs, o) && rate == rs[k].liquidity.cumulativeRate && debt > 0
    requires WithNewDebt(o, k, rate, debt).Ok?
    ensures var s := SlotForBorrow(o.borrows, k, rate).value;
      var b := s.1.(borrowed := s.1.borrowed + debt);
      && o.borrows[s.0].reserve in {0, k} && s.1.reserve == k
      && BorrowShare(s.1, k) == BorrowShare(o.borrows[s.0], k) && s.1.outsideDebt == o.borrows[s.0].outsideDebt
      && (forall j :: 0 <= j < |o.borrows| && j != s.0 ==> o.borrows[j].reserve != k)
      && GoodBorrow(b) && Indexed(rs, b)
  {
    var s := SlotForBorrow(o.borrows, k, rate).value;
    assert GoodBorrow(o.borrows[s.0]) && Indexed(rs, o.borrows[s.0]);
  }

  lemma TrackMoreSettles(rs: Pool, o: Obligation, k: Key, i: nat, g: Option<ElevationGroup>, amount: U64)
    requires ValidPool(rs) && Covers(rs, o) && WellFormed(o) && Backed(rs, o) && o.lastUpdate.stale
    requires i < |o.borrows| && o.borrows[i].reserve == k && k in rs
    requires if g.Some? then g.value.id == o.group > 0 else o.group == 0
    requires TrackMore(Accounts(rs, o), k, i, g, amount).Ok?
    ensures Keeps(rs, o, TrackMore(Accounts(rs, o), k, i, g, amount).value)
  {
    hide Covers, Settles, GoodDeposits, GoodBorrows, MoveDepositsUpTo;
    var a' := TrackMore(Accounts(rs, o), k, i, g, amount).value;
    if g.Some? {
      MoveDepositsSettle(rs, o, o.group - 1, More(amount), |o.deposits|);
      GroupMovesKeepShape(More(amount), o.deposits, a'.o.deposits);
      SettlesPools(rs, o, a'.reserves, a'.o);
      StaleAndBacked(rs, a'.reserves, o, a'.o);
    } else {
      var b := o.borrows[i].(outsideDebt := o.borrows[i].outsideDebt + amount);
      BorrowMoves(rs, o, i, b, k, a'.reserves[k]);
      OnlyBorrowSlot(o.borrows, i);
      BorrowSlotKeepsShape(o.borrows, i, b);
      assert Indexed(rs, o.borrows[i]);
      BorrowSlotStaysActive(o.borrows, i, b);
      StaleAndBacked(rs, a'.reserves, o, a'.o);
    }
  }

  lemma BorrowSlotStaysActive(bs: seq<Borrow>, i: nat, b: Borrow)
    requires i < |bs| && bs[i].Active() && b.Active()
    ensures NoActiveBorrows(bs[i := b]) == NoActiveBorrows(bs)
  {
    assert bs[i := b][i].Active();
  }

  lemma GroupMovesKeepShape(change: Change, ds: seq<Deposit>, ds': seq<Deposit>)
    requires GoodDeposits(ds) && |ds'| == |ds|
    requires forall j :: 0 <= j < |ds| && ds[j].Active() ==> MovedDebt(change, ds[j]) < TWO_64
    requires forall j :: 0 <= j < |ds| ==> ds'[j] == MovedDeposit(change, ds[j])
    ensures GoodDeposits(ds')
    ensures forall j :: 0 <= j < |ds| ==> ds'[j].reserve == ds[j].reserve
  {
    DepositsKeepShape(ds, ds');
  }

  lemma BorrowKeeps(m: Market, a: Accounts, k: Key, amount: U64, clock: Clock)
    requires ValidMarket(m) && Ready(a.reserves, a.o) && BorrowLiquidity(m, a, k, amount, clock).Ok?
    ensures Keeps(a.reserves, a.o, BorrowLiquidity(m, a, k, amount, clock).value)
  {
    hide Covers, Settles, BorrowQuoteOf, LendOut, WithNewDebt, TrackMore, NeedOrdersSupported, NeedBelowUtilizationLimit, PostBorrow;
    hide GoodDeposits, GoodBorrows, WellFormed, Backed;
    var r := a.reserves[k];
    var quote := BorrowQuoteOf(m, a, r, amount, clock.slot).value;
    BorrowGroup(m, a, r, amount, clock.slot);
    LendOutLeaves(r, clock, quote, a.o.referrer, m.referralFeeBps);
    BorrowQuotePositive(m, a, r, amount, clock.slot);
    var r' := LendOut(r, clock, quote, a.o.referrer, m.referralFeeBps).value;
    var rs1 := a.reserves[k := r'];
    ReserveMoves(a.reserves, a.o, k, r');
    BackedWhileSettled(a.reserves, a.o, rs1, a.o);
    WithNewDebtMeans(rs1, a.o, k, r'.liquidity.cumulativeRate, quote.borrowAmount);
    var place := WithNewDebt(a.o, k, r'.liquidity.cumulativeRate, quote.borrowAmount).value;
    var whole := ToCeil(quote.borrowAmount).value;
    var g := ElevationGroupOf(m, a.o.group).value;
    SettlesTransitive(a.reserves, a.o, rs1, a.o, rs1, place.1);
    SettlesCovers(a.reserves, a.o, rs1, place.1);
    TrackMoreSettles(rs1, place.1, k, place.0, g, whole);
    var a' := TrackMore(Accounts(rs1, place.1), k, place.0, g, whole).value;
    SettlesTransitive(a.reserves, a.o, rs1, place.1, a'.reserves, a'.o);
  }

  lemma BackedWhileSettled(rs: Pool, o: Obligation, rs': Pool, o': Obligation)
    requires Settles(rs, o, rs', o') && Backed(rs, o)
    ensures ValidPool(rs') && Backed(rs', o)
  {
  }

  lemma BorrowGroup(m: Market, a: Accounts, r: Reserve, amount: U64, slot: U64)
    requires ValidMarket(m) && BorrowQuoteOf(m, a, r, amount, slot).Ok?
    ensures ElevationGroupOf(m, a.o.group).Ok?
    ensures var g := ElevationGroupOf(m, a.o.group).value; if g.Some? then g.value.id == a.o.group > 0 else a.o.group == 0
  {
    hide CalculateBorrow, UtilizationRate, NeedRefreshedAndBacked;
    GroupIds(m, a.o.group);
  }

  lemma BorrowQuotePositive(m: Market, a: Accounts, r: Reserve, amount: U64, slot: U64)
    requires BorrowQuoteOf(m, a, r, amount, slot).Ok? && BorrowQuoteOf(m, a, r, amount, slot).value.receiveAmount > 0
    ensures BorrowQuoteOf(m, a, r, amount, slot).value.borrowAmount > 0
  {
    hide CalculateBorrow, BorrowQuoteOf;
    BorrowIsPositive(r, amount, a.o.values.allowedBorrow - a.o.values.adjustedDebt,
                     SatSub(FromInt(r.config.borrowLimit), r.liquidity.borrowed), m.referralFeeBps,
                     a.o.group != ELEVATION_GROUP_NONE, a.o.referrer.Some?);
  }

  // ---- less debt ----------------------------------------------------------

  /** A fresh obligation can take any part of one of its debts, rounded up, off its
      trackers and its reserves' without saturating. */
  lemma FreshPartsAreAffordable(o: Obligation, i: nat, amount: U64)
    requires ExactlyTracked(o) && !o.lastUpdate.stale && i < |o.borrows| && amount <= Ceil(o.borrows[i].borrowed)
    ensures o.group == ELEVATION_GROUP_NONE ==> amount <= o.borrows[i].outsideDebt == Ceil(o.borrows[i].borrowed)
    ensures o.group != ELEVATION_GROUP_NONE ==> forall j :: 0 <= j < |o.deposits| ==> Affordable(Less(amount), o.deposits[j])
  {
    WholeDebtHas(o.borrows, i);
  }

  lemma TrackLessSettles(rs: Pool, o: Obligation, k: Key, i: nat, amount: U64)
    requires ValidPool(rs) && Covers(rs, o) && WellFormed(o) && Backed(rs, o) && ExactlyTracked(o) && !o.lastUpdate.stale
    requires i < |o.borrows| && o.borrows[i].reserve == k && k in rs && amount <= Ceil(o.borrows[i].borrowed)
    requires TrackLess(Accounts(rs, o), k, i, amount).Ok?
    ensures var a := TrackLess(Accounts(rs, o), k, i, amount).value;
      && Settles(rs, o, a.reserves, a.o) && WellFormed(a.o) && Backed(a.reserves, a.o)
      && a.o == o.(deposits := a.o.deposits, borrows := a.o.borrows)
      && |a.o.borrows| == |o.borrows| && a.o.borrows[i] == o.borrows[i].(outsideDebt := a.o.borrows[i].outsideDebt)
      && |a.o.deposits| == |o.deposits|
      && (forall j :: 0 <= j < |o.deposits| ==> a.o.deposits[j] == o.deposits[j].(groupDebt := a.o.deposits[j].groupDebt))
      && (amount == Ceil(o.borrows[i].borrowed) ==> a.o.borrows[i].outsideDebt == 0)
  {
    hide Covers, Settles, GoodDeposits, GoodBorrows, MoveDepositsUpTo, ExactlyTracked, ValidPool;
    var a := TrackLess(Accounts(rs, o), k, i, amount).value;
    FreshPartsAreAffordable(o, i, amount);
    if o.group != ELEVATION_GROUP_NONE {
      MoveDepositsSettle(rs, o, o.group - 1, Less(amount), |o.deposits|);
      GroupMovesKeepShape(Less(amount), o.deposits, a.o.deposits);
      BackedWhileSettled(rs, o, a.reserves, a.o);
    } else {
      OutsideLessSettles(rs, o, k, i, amount);
    }
  }

  lemma OutsideLessSettles(rs: Pool, o: Obligation, k: Key, i: nat, amount: U64)
    requires ValidPool(rs) && Covers(rs, o) && WellFormed(o) && Backed(rs, o) && o.group == ELEVATION_GROUP_NONE
    requires i < |o.borrows| && o.borrows[i].reserve == k && k in rs && amount <= o.borrows[i].outsideDebt
    ensures var rs' := rs[k := rs[k].(outsideDebt := SatSub(rs[k].outsideDebt, amount))];
      var o' := o.(borrows := o.borrows[i := o.borrows[i].(outsideDebt := SatSub(o.borrows[i].outsideDebt, amount))]);
      Settles(rs, o, rs', o') && WellFormed(o') && Backed(rs', o')
  {
    hide Covers, Settles, GoodDeposits, GoodBorrows;
    var b := o.borrows[i].(outsideDebt := SatSub(o.borrows[i].outsideDebt, amount));
    var r := rs[k].(outsideDebt := SatSub(rs[k].outsideDebt, amount));
    PartsAreCovered(rs, o);
    BorrowMoves(rs, o, i, b, k, r);
    OnlyBorrowSlot(o.borrows, i);
    BorrowSlotKeepsShape(o.borrows, i, b);
    BorrowSlotStaysActive(o.borrows, i, b);
    BackedWhileSettled(rs, o, rs[k := r], o.(borrows := o.borrows[i := b]));
    assert Indexed(rs[k := r], o.borrows[i]);
  }

  /** Settling debt; a slot that is cleared must no longer record any. */
  lemma WithLessDebtSettles(rs: Pool, o: Obligation, i: nat, settle: Fraction)
    requires ValidPool(rs) && WellFormed(o) && Backed(rs, o) && i < |o.borrows| && o.borrows[i].Active()
    requires settle == o.borrows[i].borrowed ==> o.borrows[i].outsideDebt == 0
    requires WithLessDebt(o, i, settle).Ok?
    ensures var o' := WithLessDebt(o, i, settle).value;
      && Settles(rs, o, rs, o') && WellFormed(o') && Backed(rs, o')
      && o' == o.(borrows := o'.borrows, hasDebt := o'.hasDebt, lastUpdate := o.lastUpdate.MarkedStale())
      && |o'.borrows| == |o.borrows|
  {
    hide Settles, GoodDeposits, GoodBorrows;
    var b := RepaidSlot(o.borrows[i], settle).value;
    var o' := WithLessDebt(o, i, settle).value;
    var k := o.borrows[i].reserve;
    assert Indexed(rs, o.borrows[i]);
    OnlyBorrowSlot(o.borrows, i);
    BorrowMoves(rs, o, i, b, k, rs[k]);
    assert rs[k := rs[k]] == rs;
    BorrowSlotKeepsShape(o.borrows, i, b);
    var o1 := o.(borrows := o.borrows[i := b]);
    SettlesNothing(rs, o1, o');
    SettlesTransitive(rs, o, rs, o1, rs, o');
  }

  lemma WholeRepay(quote: RepayQuote, amount: U64, debt: Fraction)
    requires CalculateRepay(amount, debt) == Ok(quote)
    ensures quote.settle <= debt && quote.repay == Ceil(quote.settle) <= Ceil(debt)
  {
    CeilMono(quote.settle, debt, ONE);
  }

  lemma RepayKeeps(m: Market, a: Accounts, k: Key, amount: U64, clock: Clock)
    requires ValidMarket(m) && Ready(a.reserves, a.o) && RepayLiquidity(m, a, k, amount, clock).Ok?
    ensures Keeps(a.reserves, a.o, RepayLiquidity(m, a, k, amount, clock).value.0)
  {
    hide Covers, Settles, ValidPool, TakeBack, TrackLess, WithLessDebt, NeedOrdersSupported, PostRepay, CalculateRepay, AccruedDebt;
    hide WellFormed, Backed, InStep, ExactlyTracked, PositionOfBorrow;
    var r := a.reserves[k];
    FreshMeansNow(r.lastUpdate, clock.slot, NONE);
    FreshMeansNow(a.o.lastUpdate, clock.slot, NONE);
    var i := PositionOfBorrow(a.o.borrows, k).value;
    PoolHasNoZero(a.reserves);
    FreshDebtIsCurrent(a.reserves, a.o, i, clock.slot, NONE);
    var quote := CalculateRepay(amount, a.o.borrows[i].borrowed).value;
    WholeRepay(quote, amount, a.o.borrows[i].borrowed);
    assert a.o.(borrows := a.o.borrows[i := a.o.borrows[i]]) == a.o;
    TakeBackLeaves(r, clock, quote);
    var taken := TakeBack(r, clock, quote).value;
    SettleDebtKeeps(a.reserves, a.o, k, i, taken, quote.repay, quote.settle);
  }

  lemma PoolHasNoZero(rs: Pool)
    requires ValidPool(rs)
    ensures 0 !in rs
  {
  }

  /** A repay's two steps on trackers and debt, after the reserve took the tokens. */
  lemma SettleDebtKeeps(rs: Pool, o: Obligation, k: Key, i: nat, taken: Reserve, repay: U64, settle: Fraction)
    requires Ready(rs, o) && !o.lastUpdate.stale && k in rs && i < |o.borrows| && o.borrows[i].reserve == k
    requires TrackersKept(rs[k], taken) && settle <= o.borrows[i].borrowed && repay == Ceil(settle)
    requires TrackLess(Accounts(rs[k := taken], o), k, i, repay).Ok?
    ensures var t := TrackLess(Accounts(rs[k := taken], o), k, i, repay).value;
      && |t.o.borrows| == |o.borrows|
      && (WithLessDebt(t.o, i, settle).Ok? ==> Keeps(rs, o, Accounts(t.reserves, WithLessDebt(t.o, i, settle).value)))
  {
    hide Covers, Settles, ValidPool, TrackLess, WithLessDebt, WellFormed, ExactlyTracked, Backed;
    PoolHasNoZero(rs);
    var rs1 := rs[k := taken];
    ReserveMoves(rs, o, k, taken);
    SettlesPools(rs, o, rs1, o);
    SettlesCovers(rs, o, rs1, o);
    BackedWhileSettled(rs, o, rs1, o);
    CeilMono(settle, o.borrows[i].borrowed, ONE);
    TrackLessSettles(rs1, o, k, i, repay);
    var t := TrackLess(Accounts(rs1, o), k, i, repay).value;
    SettlesPools(rs1, o, t.reserves, t.o);
    if WithLessDebt(t.o, i, settle).Ok? {
      WithLessDebtSettles(t.reserves, t.o, i, settle);
      var o' := WithLessDebt(t.o, i, settle).value;
      SettlesTransitive(rs, o, rs1, o, t.reserves, t.o);
      SettlesTransitive(rs, o, t.reserves, t.o, t.reserves, o');
      StaleIsValid(t.reserves, o');
    }
  }

  lemma StaleIsValid(rs: Pool, o: Obligation)
    requires WellFormed(o) && Backed(rs, o) && o.lastUpdate.stale
    ensures ValidObligation(rs, o)
  {
  }

  // ---- socialized losses --------------------------------------------------

  lemma SocializeKeeps(a: Accounts, k: Key, amount: U64, slot: U64)
    requires Ready(a.reserves, a.o) && SocializeLoss(a, k, amount, slot).Ok?
    ensures Keeps(a.reserves, a.o, SocializeLoss(a, k, amount, slot).value)
  {
    hide Covers, Settles, ValidPool, TrackLess, WithLessDebt, Forgive, WellFormed, Backed, InStep, ExactlyTracked;
    FreshMeansNow(a.o.lastUpdate, slot, ALL_CHECKS);
    PoolHasNoZero(a.reserves);
    var i := PositionOfBorrow(a.o.borrows, k).value;
    var forgiven: Fraction := Min(FromInt(amount), a.o.borrows[i].borrowed);
    var whole := ToCeil(forgiven).value;
    CeilMono(forgiven, a.o.borrows[i].borrowed, ONE);
    TrackLessSettles(a.reserves, a.o, k, i, whole);
    var t := TrackLess(a, k, i, whole).value;
    SettlesPools(a.reserves, a.o, t.reserves, t.o);
    ForgiveLeaves(t.reserves[k], forgiven);
    var rs1 := t.reserves[k := Forgive(t.reserves[k], forgiven).value];
    ReserveMoves(t.reserves, t.o, k, rs1[k]);
    SettlesPools(t.reserves, t.o, rs1, t.o);
    BackedWhileSettled(t.reserves, t.o, rs1, t.o);
    WithLessDebtSettles(rs1, t.o, i, forgiven);
    var o' := WithLessDebt(t.o, i, forgiven).value;
    var a' := SocializeLoss(a, k, amount, slot).value;
    SettlesTransitive(a.reserves, a.o, t.reserves, t.o, rs1, t.o);
    SettlesTransitive(a.reserves, a.o, rs1, t.o, rs1, o');
    SettlesNothing(rs1, o', a'.o);
    SettlesTransitive(a.reserves, a.o, rs1, o', a'.reserves, a'.o);
    OrdersDoNotMatter(rs1, o', a'.o.orders);
    StaleIsValid(rs1, a'.o);
  }

  lemma OrdersDoNotMatter(rs: Pool, o: Obligation, orders: seq<Order>)
    requires WellFormed(o) && Backed(rs, o)
    ensures WellFormed(o.(orders := orders)) && Backed(rs, o.(orders := orders))
  {
  }

  // ---- liquidation --------------------------------------------------------

  lemma LiquidationMeans(m: Market, o: Obligation, debtKey: Key, debt: Reserve, collateralKey: Key, collateral: Reserve,
                         amount: U64, clock: Clock)
    requires LiquidationOf(m, o, debtKey, debt, collateralKey, collateral, amount, clock).Ok?
    ensures var l := LiquidationOf(m, o, debtKey, debt, collateralKey, collateral, amount, clock).value;
      var b := o.borrows[l.borrowIndex]; var d := o.deposits[l.depositIndex];
      && collateral.lastUpdate.slot == clock.slot
      && l.quote.amounts.settle <= b.borrowed
      && l.quote.amounts.repay == Ceil(l.quote.amounts.settle) <= amount
      && (d.amount > 0 ==> l.quote.amounts.withdraw <= d.amount)
  {
    hide CalculateLiquidation, UsableElevationGroup, PositionOfBorrow, PositionOfDeposit;
    var l := LiquidationOf(m, o, debtKey, debt, collateralKey, collateral, amount, clock).value;
    FreshMeansNow(collateral.lastUpdate, clock.slot, LIQUIDATION_CHECKS);
    var g := UsableElevationGroup(m, o.group).value;
    QuoteWithinBounds(Inputs(m, collateral, debt, o, clock.timestamp), amount, o.borrows[l.borrowIndex], o.deposits[l.depositIndex],
                      debt.config.borrowFactorPct >= o.values.highestBorrowFactorPct,
                      LiquidationThresholdPct(collateral.config, g) <= o.values.lowestLiquidationLtvPct);
  }

  lemma TrackLessLengths(a: Accounts, k: Key, i: nat, amount: U64)
    requires i < |a.o.borrows| && TrackLess(a, k, i, amount).Ok?
    ensures var t := TrackLess(a, k, i, amount).value;
      |t.o.borrows| == |a.o.borrows| && |t.o.deposits| == |a.o.deposits|
  {
    hide MoveDepositsUpTo;
  }

  /** The debt side of a liquidation. */
  lemma LiquidationDebtSettles(a: Accounts, debtKey: Key, i: nat, repay: U64, settle: Fraction)
    requires Ready(a.reserves, a.o) && !a.o.lastUpdate.stale && i < |a.o.borrows| && a.o.borrows[i].reserve == debtKey
    requires settle <= a.o.borrows[i].borrowed && repay == Ceil(settle)
    requires debtKey in a.reserves && TrackLess(a, debtKey, i, repay).Ok?
    requires var t := TrackLess(a, debtKey, i, repay).value;
      && debtKey in t.reserves && |t.o.borrows| == |a.o.borrows|
      && TakeBackInLiquidation(t.reserves[debtKey], repay, settle).Ok? && WithLessDebt(t.o, i, settle).Ok?
    ensures var t := TrackLess(a, debtKey, i, repay).value;
      var rs1 := t.reserves[debtKey := TakeBackInLiquidation(t.reserves[debtKey], repay, settle).value];
      var o1 := WithLessDebt(t.o, i, settle).value;
      && Settles(a.reserves, a.o, rs1, o1) && WellFormed(o1) && Backed(rs1, o1) && o1.lastUpdate.stale
      && o1.deposits == t.o.deposits && |o1.deposits| == |a.o.deposits| && o1.group == a.o.group
      && forall j :: 0 <= j < |o1.deposits| ==> o1.deposits[j] == a.o.deposits[j].(groupDebt := o1.deposits[j].groupDebt)
  {
    hide Covers, Settles, ValidPool, TrackLess, WithLessDebt, TakeBackInLiquidation, WellFormed, Backed, InStep, ExactlyTracked;
    PoolHasNoZero(a.reserves);
    CeilMono(settle, a.o.borrows[i].borrowed, ONE);
    TrackLessSettles(a.reserves, a.o, debtKey, i, repay);
    var t := TrackLess(a, debtKey, i, repay).value;
    SettlesPools(a.reserves, a.o, t.reserves, t.o);
    TakeBackLeaves(t.reserves[debtKey], Clock(0, 0), RepayQuote(settle, repay));
    var rs1 := t.reserves[debtKey := TakeBackInLiquidation(t.reserves[debtKey], repay, settle).value];
    ReserveMoves(t.reserves, t.o, debtKey, rs1[debtKey]);
    SettlesPools(t.reserves, t.o, rs1, t.o);
    BackedWhileSettled(t.reserves, t.o, rs1, t.o);
    WithLessDebtSettles(rs1, t.o, i, settle);
    SettlesTransitive(a.reserves, a.o, t.reserves, t.o, rs1, t.o);
    SettlesTransitive(a.reserves, a.o, rs1, t.o, rs1, WithLessDebt(t.o, i, settle).value);
  }

  /** The collateral side: the deposit slot and its reserve, which is refreshed on the way
      and may pay the liquidator out. */
  lemma LiquidationCollateralSettles(rs: Pool, o: Obligation, j: nat, k: Key, withdraw: U64, refreshed: Reserve, r: Reserve)
    requires ValidPool(rs) && Covers(rs, o) && WellFormed(o) && Backed(rs, o) && o.lastUpdate.stale
    requires j < |o.deposits| && o.deposits[j].reserve == k && k in rs && TrackersKept(rs[k], refreshed)
    requires WithdrawnSlot(o.deposits[j], withdraw).Ok?
    requires if withdraw == o.deposits[j].amount then
        TrackFullWithdraw(refreshed, o.group, o.deposits[j].groupDebt).Ok?
        && TrackersKept(TrackFullWithdraw(refreshed, o.group, o.deposits[j].groupDebt).value, r)
      else TrackersKept(refreshed, r)
    ensures Keeps(rs, o, Accounts(rs[k := r], o.(deposits := o.deposits[j := WithdrawnSlot(o.deposits[j], withdraw).value])))
  {
    hide Covers, Settles, GoodBorrows, GoodDeposits, WithdrawnSlot, TrackFullWithdraw;
    var d := o.deposits[j];
    GoodDepositAt(o.deposits, j);
    WithdrawnSlotMeans(d, withdraw);
    var d' := WithdrawnSlot(d, withdraw).value;
    var full := withdraw == d.amount;
    TakenDepositSettles(rs, o, j, k, d', refreshed, full);
    var r1 := if full then TrackFullWithdraw(refreshed, o.group, d.groupDebt).value else refreshed;
    var o1 := o.(deposits := o.deposits[j := d']);
    var rs1 := rs[k := r1];
    SettlesPools(rs, o, rs1, o1);
    ReserveMoves(rs1, o1, k, r);
    assert rs1[k := r] == rs[k := r];
    SettlesTransitive(rs, o, rs1, o1, rs[k := r], o1);
    OnlySlot(o.deposits, j);
    DepositSlotKeepsShape(o.deposits, j, d');
    SettlesPools(rs, o, rs[k := r], o1);
    StaleAndBacked(rs, rs[k := r], o, o1);
  }

  lemma LiquidateKeeps(m: Market, a: Accounts, debtKey: Key, collateralKey: Key, amount: U64, minReceived: U64, clock: Clock)
    requires ValidMarket(m) && Ready(a.reserves, a.o) && Liquidate(m, a, debtKey, collateralKey, amount, minReceived, clock).Ok?
    ensures Keeps(a.reserves, a.o, Liquidate(m, a, debtKey, collateralKey, amount, minReceived, clock).value.0)
  {
    hide Covers, Settles, ValidPool, TrackLess, WithLessDebt, TakeBackInLiquidation, WellFormed, Backed, InStep, ExactlyTracked;
    hide LiquidationOf, WithdrawnSlot, TrackFullWithdraw, Refreshed, RedeemableNow, RedeemForLiquidator, OrdersSettled;
    var l := LiquidationOf(m, a.o, debtKey, a.reserves[debtKey], collateralKey, a.reserves[collateralKey], amount, clock).value;
    LiquidationMeans(m, a.o, debtKey, a.reserves[debtKey], collateralKey, a.reserves[collateralKey], amount, clock);
    var repay, settle, withdraw := l.quote.amounts.repay, l.quote.amounts.settle, l.quote.amounts.withdraw;
    TrackLessLengths(a, debtKey, l.borrowIndex, repay);
    LiquidationDebtSettles(a, debtKey, l.borrowIndex, repay, settle);
    var t := TrackLess(a, debtKey, l.borrowIndex, repay).value;
    var rs1 := t.reserves[debtKey := TakeBackInLiquidation(t.reserves[debtKey], repay, settle).value];
    var o1 := WithLessDebt(t.o, l.borrowIndex, settle).value;
    SettlesPools(a.reserves, a.o, rs1, o1);
    SettlesCovers(a.reserves, a.o, rs1, o1);
    var refreshed := Refreshed(rs1[collateralKey], clock, None, m.referralFeeBps).value;
    RefreshedInSlot(rs1[collateralKey], clock, m.referralFeeBps);
    var tracked := if withdraw == o1.deposits[l.depositIndex].amount
                   then TrackFullWithdraw(refreshed, a.o.group, o1.deposits[l.depositIndex].groupDebt).value else refreshed;
    var redeem := RedeemableNow(refreshed, withdraw).value;
    RedeemLeavesTrackers(tracked, clock, l.quote, redeem, minReceived);
    var out := RedeemForLiquidator(tracked, clock, l.quote, redeem, minReceived).value;
    LiquidationCollateralSettles(rs1, o1, l.depositIndex, collateralKey, withdraw, refreshed, out.0);
    var o2 := o1.(deposits := o1.deposits[l.depositIndex := WithdrawnSlot(o1.deposits[l.depositIndex], withdraw).value]);
    var a' := Liquidate(m, a, debtKey, collateralKey, amount, minReceived, clock).value.0;
    var rs2 := rs1[collateralKey := out.0];
    SettlesTransitive(a.reserves, a.o, rs1, o1, rs2, o2);
    OrdersSettledMeans(o2, l.quote.params.reason, repay);
    SettlesPools(a.reserves, a.o, rs2, o2);
    SettlesNothing(rs2, o2, a'.o);
    SettlesTransitive(a.reserves, a.o, rs2, o2, a'.reserves, a'.o);
    OrdersDoNotMatter(rs2, o2, a'.o.orders);
    StaleIsValid(rs2, a'.o);
  }

  lemma OrdersSettledMeans(o: Obligation, reason: Reason, repay: U64)
    requires OrdersSettled(o, reason, repay).Ok?
    ensures OrdersSettled(o, reason, repay).value == o.(orders := OrdersSettled(o, reason, repay).value.orders)
  {
  }
}
