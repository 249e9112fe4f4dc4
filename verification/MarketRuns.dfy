/** Whole runs of a lending market: all its reserves and all its obligations. */
module MarketRuns {
  import opened Results
  import opened FixedPoint
  import opened LastUpdates
  import opened WithdrawalCaps
  import opened CompoundInterest
  import opened Reserves
  import opened ReserveBooks
  import opened ExchangeRate
  import opened Fees
  import opened ReserveOperations
  import opened Markets
  import opened Obligations
  import opened Orders
  import opened Positions
  import opened MarketOperations
  import opened DebtTrackers
  import opened DebtPasses
  import opened ObligationInvariant
  import opened OperationsKeep
  import opened PositionsKeep
  import Single = ReserveRuns

  datatype State = State(reserves: Pool, obligations: seq<Obligation>)

  /** What a transaction can do to one obligation and the reserves behind it. */
  datatype Action =
    | Refresh(checkCount: bool)
    | DepositInto(k: Key, amount: U64, checkCount: bool)
    | WithdrawFrom(k: Key, amount: U64, check: WithdrawalCheck)
    | BorrowFrom(k: Key, amount: U64)
    | RepayTo(k: Key, amount: U64)
    | RequestGroup(group: nat)
    | LiquidateWith(debtKey: Key, collateralKey: Key, amount: U64, minReceived: U64)
    | Socialize(k: Key, amount: U64)
    | PlaceOrder(index: nat, order: Order)
    | Mark(targetLtvPct: U8)

  datatype Step =
    | Open(referrer: Option<nat>, orders: nat)
    | OnReserve(k: Key, op: Single.Op)
    | OnObligation(i: nat, action: Action)

  /** A transaction step sees the market's configuration and the clock of its time. */
  datatype Event = Event(market: Market, clock: Clock, step: Step)

  function Act(m: Market, a: Accounts, clock: Clock, action: Action): Result<Accounts> {
    hide RefreshObligation, DepositCollateral, WithdrawCollateral, BorrowLiquidity, RepayLiquidity, RequestElevationGroup,
         Liquidate, SocializeLoss, SetOrder, MarkForDeleveraging;
    match action
    case Refresh(checkCount) => RefreshObligation(m, a, clock.slot, checkCount)
    case DepositInto(k, amount, checkCount) => DepositCollateral(m, a, k, amount, clock.slot, checkCount)
    case WithdrawFrom(k, amount, check) =>
      var out :- WithdrawCollateral(m, a, k, amount, clock.slot, check);
      Ok(out.0)
    case BorrowFrom(k, amount) => BorrowLiquidity(m, a, k, amount, clock)
    case RepayTo(k, amount) =>
      var out :- RepayLiquidity(m, a, k, amount, clock);
      Ok(out.0)
    case RequestGroup(group) => RequestElevationGroup(m, a, group, clock.slot)
    case LiquidateWith(debtKey, collateralKey, amount, minReceived) =>
      var out :- Liquidate(m, a, debtKey, collateralKey, amount, minReceived, clock);
      Ok(out.0)
    case Socialize(k, amount) => SocializeLoss(a, k, amount, clock.slot)
    case PlaceOrder(index, order) =>
      var o :- SetOrder(m, a.o, index, order);
      Ok(a.(o := o))
    case Mark(pct) =>
      var o :- MarkForDeleveraging(m, a.o, pct, clock.timestamp);
      Ok(a.(o := o))
  }

  /** The operations on a reserve that involve no obligation. */
  predicate WithoutObligation(op: Single.Op) {
    op.Refresh? || op.DepositOp? || op.RedeemOp? || op.RedeemFeesOp? || op.WithdrawReferrerFeesOp?
    || op.FlashBorrowOp? || op.FlashRepayOp?
  }

  /** A new obligation is blank. */
  function NewObligation(referrer: Option<nat>, orders: nat, slot: U64): Obligation {
    Obligation(LastUpdate(slot, true, NONE), seq(MAX_DEPOSITS, _ => NO_DEPOSIT), seq(MAX_BORROWS, _ => NO_BORROW),
               ELEVATION_GROUP_NONE, false, referrer, Values(0, 0, 0, 0, 0, 0, 0, 0, 0, 0, false),
               seq(orders, _ => NO_ORDER), 0, 0)
  }

  function Next(s: State, e: Event): Result<State> {
    hide Act, Single.Perform;
    match e.step
    case Open(referrer, orders) => Ok(s.(obligations := s.obligations + [NewObligation(referrer, orders, e.clock.slot)]))
    case OnReserve(k, op) =>
      if k !in s.reserves || !WithoutObligation(op) then Err(InvalidAccountInput)
      else
        var effect :- Single.Perform(s.reserves[k], op);
        Ok(s.(reserves := s.reserves[k := effect.reserve]))
    case OnObligation(i, action) =>
      if i >= |s.obligations| then Err(InvalidAccountInput)
      else
        var a :- Act(e.market, Accounts(s.reserves, s.obligations[i]), e.clock, action);
        Ok(State(a.reserves, s.obligations[i := a.o]))
  }

  function Run(s: State, es: seq<Event>): Result<State> {
    hide Next;
    if es == [] then Ok(s)
    else
      var before :- Run(s, es[..|es| - 1]);
      Next(before, es[|es| - 1])
  }

  // ---- the invariant ------------------------------------------------------

  function SumOwed(os: seq<Obligation>, g: nat, k: Key): nat {
    if os == [] then 0 else SumOwed(os[..|os| - 1], g, k) + Owed(os[|os| - 1], g, k)
  }

  /** Each tracker of each reserve is exactly the sum of the obligations' parts. */
  ghost predicate Conserved(s: State)
    requires ValidPool(s.reserves)
  {
    forall k, g: nat :: k in s.reserves && g <= MAX_NUM_ELEVATION_GROUPS ==> Tracked(s.reserves[k], g) == SumOwed(s.obligations, g, k)
  }

  ghost predicate AllValid(rs: Pool, os: seq<Obligation>) {
    forall i :: 0 <= i < |os| ==> ValidObligation(rs, os[i])
  }

  ghost predicate ValidState(s: State) {
    ValidPool(s.reserves) && Conserved(s) && AllValid(s.reserves, s.obligations)
  }

  lemma {:induction false} SumUpdate(os: seq<Obligation>, i: nat, o: Obligation, g: nat, k: Key)
    requires i < |os|
    ensures SumOwed(os[i := o], g, k) == SumOwed(os, g, k) - Owed(os[i], g, k) + Owed(o, g, k)
    ensures Owed(os[i], g, k) <= SumOwed(os, g, k)
  {
    hide Owed;
    var last := |os| - 1;
    if i < last {
      SumUpdate(os[..last], i, o, g, k);
      assert os[i := o][..last] == os[..last][i := o];
    } else {
      assert os[i := o][..last] == os[..last];
    }
  }

  /** What all obligations together account for covers each of them. */
  lemma ConservedCovers(s: State, i: nat)
    requires ValidState(s) && i < |s.obligations|
    ensures Ready(s.reserves, s.obligations[i])
  {
    hide ValidObligation, Owed, Tracked;
    forall k, g: nat | k in s.reserves && g <= MAX_NUM_ELEVATION_GROUPS ensures Surplus(s.reserves, s.obligations[i], g, k) >= 0 {
      SumUpdate(s.obligations, i, s.obligations[i], g, k);
    }
  }

  /** An operation that settles one obligation keeps the whole state valid. */
  lemma SettlingKeepsState(s: State, i: nat, a: Accounts)
    requires ValidState(s) && i < |s.obligations| && Keeps(s.reserves, s.obligations[i], a)
    ensures ValidState(State(a.reserves, s.obligations[i := a.o]))
  {
    hide ValidObligation, Owed, Tracked, ValidPool;
    var o := s.obligations[i];
    var s' := State(a.reserves, s.obligations[i := a.o]);
    SettlesPools(s.reserves, o, a.reserves, a.o);
    forall k, g: nat | k in s'.reserves && g <= MAX_NUM_ELEVATION_GROUPS
      ensures Tracked(s'.reserves[k], g) == SumOwed(s'.obligations, g, k)
    {
      SumUpdate(s.obligations, i, a.o, g, k);
      assert Surplus(a.reserves, a.o, g, k) == Surplus(s.reserves, o, g, k);
    }
    SettlingAdvances(s.reserves, o, a.reserves, a.o);
    forall j | 0 <= j < |s'.obligations| ensures ValidObligation(s'.reserves, s'.obligations[j]) {
      if j != i { ValidWhilePoolAdvances(s.reserves, s'.reserves, s.obligations[j]); }
    }
  }

  /** Every accepted action on an obligation settles and keeps it valid. */
  lemma ActKeeps(m: Market, a: Accounts, clock: Clock, action: Action)
    requires ValidMarket(m) && Ready(a.reserves, a.o) && Act(m, a, clock, action).Ok?
    ensures Keeps(a.reserves, a.o, Act(m, a, clock, action).value)
  {
    hide Ready, Keeps, RefreshObligation, DepositCollateral, WithdrawCollateral, BorrowLiquidity, RepayLiquidity,
         RequestElevationGroup, Liquidate, SocializeLoss, SetOrder, MarkForDeleveraging;
    match action {
      case Refresh(checkCount) => RefreshKeeps(m, a, clock.slot, checkCount);
      case DepositInto(k, amount, checkCount) => DepositKeeps(m, a, k, amount, clock.slot, checkCount);
      case WithdrawFrom(k, amount, check) => WithdrawKeeps(m, a, k, amount, clock.slot, check);
      case BorrowFrom(k, amount) => BorrowKeeps(m, a, k, amount, clock);
      case RepayTo(k, amount) => RepayKeeps(m, a, k, amount, clock);
      case RequestGroup(group) => RequestKeeps(m, a, group, clock.slot);
      case LiquidateWith(debtKey, collateralKey, amount, minReceived) =>
        LiquidateKeeps(m, a, debtKey, collateralKey, amount, minReceived, clock);
      case Socialize(k, amount) => SocializeKeeps(a, k, amount, clock.slot);
      case PlaceOrder(index, order) => SetOrderKeeps(m, a, index, order);
      case Mark(pct) => MarkKeeps(m, a, pct, clock.timestamp);
    }
  }

  lemma SetOrderKeeps(m: Market, a: Accounts, index: nat, order: Order)
    requires Ready(a.reserves, a.o) && SetOrder(m, a.o, index, order).Ok?
    ensures Keeps(a.reserves, a.o, a.(o := SetOrder(m, a.o, index, order).value))
  {
    hide Covers, Settles, ValidateOrder, Supported;
    SettlesNothing(a.reserves, a.o, SetOrder(m, a.o, index, order).value);
  }

  lemma MarkKeeps(m: Market, a: Accounts, pct: U8, timestamp: U64)
    requires Ready(a.reserves, a.o) && MarkForDeleveraging(m, a.o, pct, timestamp).Ok?
    ensures Keeps(a.reserves, a.o, a.(o := MarkForDeleveraging(m, a.o, pct, timestamp).value))
  {
    hide Covers, Settles;
    SettlesNothing(a.reserves, a.o, MarkForDeleveraging(m, a.o, pct, timestamp).value);
  }

  // ---- operations on reserves alone ---------------------------------------

  ghost predicate TrackersStay(r: Reserve, r': Reserve) {
    Advances(r, r') && r'.outsideDebt == r.outsideDebt && r'.groupDebts == r.groupDebts
  }

  lemma RefreshAdvances(r: Reserve, clock: Clock, price: Option<PriceQuote>, bps: U16)
    requires Refreshed(r, clock, price, bps).Ok?
    ensures TrackersStay(r, Refreshed(r, clock, price, bps).value)
  {
    hide ApproximateCompoundedInterest, SplitInterest, UtilizationRate, BorrowRateCurve.GetBorrowRate, InterestBooked;
    var elapsed := r.lastUpdate.SlotsElapsed(clock.slot).value;
    if elapsed > 0 {
      var u := UtilizationRate(r.liquidity).value;
      var rate := BorrowRateCurve.GetBorrowRate(r.config.curve, u).value;
      IndexGrows(r.liquidity, rate, FromBps(r.config.hostFixedInterestRateBps), elapsed,
                 FromPercent(r.config.protocolTakeRatePct), FromBps(bps));
    }
  }

  lemma IndexGrows(l: Liquidity, variableRate: Fraction, fixedRate: Fraction, slots: U64, takeRate: Fraction, referralRate: Fraction)
    requires Compounded(l, variableRate, fixedRate, slots, takeRate, referralRate).Ok?
    ensures Compounded(l, variableRate, fixedRate, slots, takeRate, referralRate).value.cumulativeRate >= l.cumulativeRate
  {
    hide ApproximateCompoundedInterest, SplitInterest, MulFloor, MulRate;
    var sum := variableRate + fixedRate;
    AtLeastOne(sum, slots);
    var f := ApproximateCompoundedInterest(sum, slots).value;
    MulRateIsFloor(l.cumulativeRate, f);
    MulFloorUnit(l.cumulativeRate, f);
  }

  lemma SupplierStepsStay(r: Reserve, clock: Clock, amount: U64, addToCaps: bool)
    ensures DepositLiquidity(r, clock, amount).Ok? ==> TrackersStay(r, DepositLiquidity(r, clock, amount).value.reserve)
    ensures RedeemCollateral(r, clock, amount, addToCaps).Ok? ==>
      TrackersStay(r, RedeemCollateral(r, clock, amount, addToCaps).value.reserve)
  {
    hide CurrentRate, QuoteDeposit, CollateralToLiquidity, Accumulate, TotalSupply;
  }

  lemma FeeStepsStay(r: Reserve, slot: U64, claimant: nat)
    ensures RedeemFees(r, slot).Ok? ==> TrackersStay(r, RedeemFees(r, slot).value.reserve)
    ensures WithdrawReferrerFees(r, slot, claimant).Ok? ==> TrackersStay(r, WithdrawReferrerFees(r, slot, claimant).value.reserve)
  {
  }

  lemma FlashStepsStay(r: Reserve, clock: Clock, amount: U64, referrer: Option<nat>, bps: U16)
    ensures FlashBorrow(r, amount).Ok? ==> TrackersStay(r, FlashBorrow(r, amount).value)
    ensures FlashRepay(r, clock, amount, referrer, bps).Ok? ==>
      TrackersStay(r, FlashRepay(r, clock, amount, referrer, bps).value.reserve)
  {
    hide CalculateFees, Credited, TotalSupply;
  }

  lemma ReserveStepStays(r: Reserve, op: Single.Op)
    requires WithoutObligation(op) && Single.Perform(r, op).Ok?
    ensures TrackersStay(r, Single.Perform(r, op).value.reserve)
  {
    hide TrackersStay, Refreshed, DepositLiquidity, RedeemCollateral, RedeemFees, WithdrawReferrerFees, FlashBorrow, FlashRepay;
    match op {
      case Refresh(clock, price, bps) => RefreshAdvances(r, clock, price, bps);
      case DepositOp(clock, amount) => SupplierStepsStay(r, clock, amount, false);
      case RedeemOp(clock, amount) => SupplierStepsStay(r, clock, amount, true);
      case RedeemFeesOp(slot) => FeeStepsStay(r, slot, 0);
      case WithdrawReferrerFeesOp(slot, claimant) => FeeStepsStay(r, slot, claimant);
      case FlashBorrowOp(amount) => FlashStepsStay(r, Clock(0, 0), amount, None, 0);
      case FlashRepayOp(clock, amount, referrer, bps) => FlashStepsStay(r, clock, amount, referrer, bps);
    }
  }

  lemma ReserveStepKeepsState(s: State, k: Key, r: Reserve)
    requires ValidState(s) && k in s.reserves && TrackersStay(s.reserves[k], r)
    ensures ValidState(s.(reserves := s.reserves[k := r]))
  {
    hide ValidObligation, Owed;
    var rs := s.reserves[k := r];
    forall j | 0 <= j < |s.obligations| ensures ValidObligation(rs, s.obligations[j]) {
      ValidWhilePoolAdvances(s.reserves, rs, s.obligations[j]);
    }
  }

  // ---- new obligations ----------------------------------------------------

  lemma BlankOwesNothing(referrer: Option<nat>, orders: nat, slot: U64, g: nat, k: Key)
    ensures Owed(NewObligation(referrer, orders, slot), g, k) == 0
  {
    var o := NewObligation(referrer, orders, slot);
    NothingAgainst(o.deposits, k);
    NothingFrom(o.borrows, k);
  }

  lemma BlankIsValid(rs: Pool, referrer: Option<nat>, orders: nat, slot: U64)
    ensures ValidObligation(rs, NewObligation(referrer, orders, slot))
  {
  }

  lemma OpeningKeepsState(s: State, referrer: Option<nat>, orders: nat, slot: U64)
    requires ValidState(s)
    ensures ValidState(s.(obligations := s.obligations + [NewObligation(referrer, orders, slot)]))
  {
    hide ValidObligation, Owed, Tracked, ValidPool, NewObligation;
    var o := NewObligation(referrer, orders, slot);
    var os := s.obligations + [o];
    BlankIsValid(s.reserves, referrer, orders, slot);
    forall k, g: nat | k in s.reserves && g <= MAX_NUM_ELEVATION_GROUPS
      ensures SumOwed(os, g, k) == SumOwed(s.obligations, g, k)
    {
      BlankOwesNothing(referrer, orders, slot, g, k);
      assert os[..|os| - 1] == s.obligations;
    }
    PoolStaysShaped(s);
  }

  lemma PoolStaysShaped(s: State)
    requires ValidState(s)
    ensures forall k :: k in s.reserves ==> Shaped(s.reserves[k])
  {
  }

  // ---- runs ---------------------------------------------------------------

  ghost predicate ValidMarkets(es: seq<Event>) {
    forall i :: 0 <= i < |es| ==> ValidMarket(es[i].market)
  }

  /** One accepted step keeps the trackers conserved and every obligation valid. */
  lemma StepKeepsState(s: State, e: Event)
    requires ValidState(s) && ValidMarket(e.market) && Next(s, e).Ok?
    ensures ValidState(Next(s, e).value)
  {
    hide ValidState, Act, Single.Perform, Keeps, Ready, TrackersStay, NewObligation;
    match e.step {
      case Open(referrer, orders) => OpeningKeepsState(s, referrer, orders, e.clock.slot);
      case OnReserve(k, op) =>
        ReserveStepStays(s.reserves[k], op);
        ReserveStepKeepsState(s, k, Single.Perform(s.reserves[k], op).value.reserve);
      case OnObligation(i, action) =>
        var a := Accounts(s.reserves, s.obligations[i]);
        ConservedCovers(s, i);
        ActKeeps(e.market, a, e.clock, action);
        SettlingKeepsState(s, i, Act(e.market, a, e.clock, action).value);
    }
  }

  /** Tracker conservation over every run: from a valid state, whatever the markets'
      configurations and the clocks, every tracker of every reserve stays exactly the sum
      of the obligations' parts, and every obligation stays valid. */
  lemma {:induction false} RunsConserveTrackers(s: State, es: seq<Event>)
    requires ValidState(s) && ValidMarkets(es) && Run(s, es).Ok?
    ensures ValidState(Run(s, es).value)
  {
    hide ValidState, Next;
    if es == [] {
    } else {
      var front := es[..|es| - 1];
      RunsConserveTrackers(s, front);
      StepKeepsState(Run(s, front).value, es[|es| - 1]);
    }
  }

  /** A market without obligations whose trackers are zero is valid. */
  lemma FreshMarketIsValid(rs: Pool)
    requires ValidPool(rs)
    requires forall k :: k in rs ==> rs[k].outsideDebt == 0 && forall g :: 0 <= g < MAX_NUM_ELEVATION_GROUPS ==> rs[k].groupDebts[g] == 0
    ensures ValidState(State(rs, []))
  {
  }

  /** No subtraction of a tracker ever saturates: in every reachable state each part is
      within its reserve's tracker, and a fresh obligation's whole tokens of debt are
      within each of its parts. */
  lemma NoTrackerSaturates(s: State, es: seq<Event>, t: State, i: nat)
    requires ValidState(s) && ValidMarkets(es) && Run(s, es) == Ok(t) && i < |t.obligations|
    ensures var o := t.obligations[i];
      && (forall j :: 0 <= j < |o.borrows| && o.borrows[j].Active() ==>
            o.borrows[j].reserve in t.reserves && o.borrows[j].outsideDebt <= t.reserves[o.borrows[j].reserve].outsideDebt)
      && (forall j :: 0 <= j < |o.deposits| && o.deposits[j].Active() ==>
            o.deposits[j].reserve in t.reserves && Shaped(t.reserves[o.deposits[j].reserve])
            && (0 < o.group <= MAX_NUM_ELEVATION_GROUPS ==>
                  o.deposits[j].groupDebt <= t.reserves[o.deposits[j].reserve].groupDebts[o.group - 1]))
      && (!o.lastUpdate.stale && o.group == ELEVATION_GROUP_NONE ==>
            forall j :: 0 <= j < |o.borrows| ==> Ceil(o.borrows[j].borrowed) <= o.borrows[j].outsideDebt)
      && (!o.lastUpdate.stale && o.group != ELEVATION_GROUP_NONE ==>
            forall j, b :: 0 <= j < |o.deposits| && o.deposits[j].Active() && 0 <= b < |o.borrows| ==>
              Ceil(o.borrows[b].borrowed) <= o.deposits[j].groupDebt)
  {
    hide Run, Conserved, Surplus, Tracked, Owed;
    RunsConserveTrackers(s, es);
    var o := t.obligations[i];
    ConservedCovers(t, i);
    PartsAreCovered(t.reserves, o);
    PartsAreBacked(t.reserves, o);
    forall b | 0 <= b < |o.borrows| ensures Ceil(o.borrows[b].borrowed) <= WholeDebt(o.borrows) { WholeDebtHas(o.borrows, b); }
  }

  lemma PartsAreBacked(rs: Pool, o: Obligation)
    requires ValidPool(rs) && ValidObligation(rs, o)
    ensures forall j :: 0 <= j < |o.borrows| && o.borrows[j].Active() ==> o.borrows[j].reserve in rs
    ensures forall j :: 0 <= j < |o.deposits| && o.deposits[j].Active() ==>
      o.deposits[j].reserve in rs && Shaped(rs[o.deposits[j].reserve])
  {
    forall j | 0 <= j < |o.borrows| && o.borrows[j].Active() ensures o.borrows[j].reserve in rs { assert Indexed(rs, o.borrows[j]); }
  }

  /** In every reachable state the index of a debt never exceeds its reserve's, and equals
      it when both stand at the same slot and the obligation is not stale: accruing it is
      then a no-op, and never an error. */
  lemma FreshnessMeansCurrentIndex(s: State, es: seq<Event>, t: State, i: nat, j: nat)
    requires ValidState(s) && ValidMarkets(es) && Run(s, es) == Ok(t)
    requires i < |t.obligations| && j < |t.obligations[i].borrows| && t.obligations[i].borrows[j].Active()
    ensures var o := t.obligations[i]; var b := o.borrows[j];
      && b.reserve in t.reserves
      && var r := t.reserves[b.reserve];
         && AccruedDebt(b, r.liquidity.cumulativeRate) != Err(NegativeInterestRate)
         && (!o.lastUpdate.stale && o.lastUpdate.slot == r.lastUpdate.slot ==>
               b.cumulativeRate == r.liquidity.cumulativeRate && AccruedDebt(b, r.liquidity.cumulativeRate) == Ok(b))
  {
    hide Run, Conserved, WellFormed, ExactlyTracked;
    RunsConserveTrackers(s, es);
    assert ValidObligation(t.reserves, t.obligations[i]);
    IndexNeverFalls(t.reserves, t.obligations[i], j);
    var b := t.obligations[i].borrows[j];
    assert Indexed(t.reserves, b);
    if !t.obligations[i].lastUpdate.stale { assert UpToDate(t.reserves, t.obligations[i].lastUpdate.slot, b); }
  }
}
