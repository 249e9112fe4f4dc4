/** Whole runs of one reserve: its books, its collateral supply, its referrers'
    accounts and the balance of its token vault. */
module ReserveRuns {
  import opened Results
  import opened Arithmetic
  import opened FixedPoint
  import opened LastUpdates
  import WithdrawalCaps
  import opened Reserves
  import opened ReserveBooks
  import opened ExchangeRate
  import opened Fees
  import opened ReserveOperations

  /** The reserve together with the tokens its supply vault holds. */
  datatype Books = Books(reserve: Reserve, vault: U64)

  /** The tokens a handler moves through the vault. A liquidation's withdraw reserve may be
      its repay reserve as well: then `repaid` comes in before `withdrawn` goes out. */
  datatype Transfer =
    | Inward(amount: U64)
    | Outward(amount: U64)
    | Liquidated(withdrawn: U64, repaid: U64)
    | NoTransfer

  datatype Op =
    | Refresh(clock: Clock, price: Option<PriceQuote>, referralFeeBps: U16)
    | DepositOp(clock: Clock, amount: U64)
    | RedeemOp(clock: Clock, amount: U64)
    | RedeemFeesOp(slot: U64)
    | WithdrawReferrerFeesOp(slot: U64, claimant: nat)
    | AccumulateOp(referrer: Option<nat>, referralFeeBps: U16, slotsElapsed: U64, debt: Fraction, previousDebt: Fraction)
    | BorrowOp(clock: Clock, amount: U64, maxValue: Fraction, remaining: Fraction, referralFeeBps: U16,
               inGroup: bool, referrer: Option<nat>)
    | RepayOp(clock: Clock, amount: U64, debt: Fraction)
    | LiquidationRepayOp(settle: Fraction)
    | LiquidationRedeemOp(clock: Clock, collateral: U64, referralFeeBps: U16)
    | SameReserveLiquidationOp(clock: Clock, settle: Fraction, collateral: U64, referralFeeBps: U16)
    | FlashBorrowOp(amount: U64)
    | FlashRepayOp(clock: Clock, amount: U64, referrer: Option<nat>, referralFeeBps: U16)
    | SocializeOp(forgiven: Fraction)

  datatype Effect = Effect(reserve: Reserve, transfer: Transfer)

  /** The withdraw reserve of a liquidation is refreshed before it redeems. */
  function RedeemInLiquidation(r: Reserve, clock: Clock, collateral: U64, referralFeeBps: U16): Result<Outcome> {
    var refreshed :- Refreshed(r, clock, None, referralFeeBps);
    RedeemCollateral(refreshed, clock, collateral, false)
  }

  /** What one operation does to the reserve and which transfer goes with it. */
  function Perform(r: Reserve, op: Op): Result<Effect> {
    match op
    case Refresh(clock, price, bps) =>
      var r' :- Refreshed(r, clock, price, bps);
      Ok(Effect(r', NoTransfer))
    case DepositOp(clock, amount) =>
      var o :- DepositLiquidity(r, clock, amount);
      Ok(Effect(o.reserve, Inward(o.amount)))
    case RedeemOp(clock, amount) =>
      var o :- RedeemCollateral(r, clock, amount, true);
      Ok(Effect(o.reserve, Outward(o.amount)))
    case RedeemFeesOp(slot) =>
      var o :- RedeemFees(r, slot);
      Ok(Effect(o.reserve, Outward(o.amount)))
    case WithdrawReferrerFeesOp(slot, referrer) =>
      var o :- WithdrawReferrerFees(r, slot, referrer);
      Ok(Effect(o.reserve, Outward(o.amount)))
    case AccumulateOp(referrer, bps, elapsed, debt, previous) =>
      var r' :- AccumulateReferrerFees(r, referrer, bps, elapsed, debt, previous);
      Ok(Effect(r', NoTransfer))
    case BorrowOp(clock, amount, maxValue, remaining, bps, inGroup, referrer) =>
      var quote :- CalculateBorrow(r, amount, maxValue, remaining, bps, inGroup, referrer.Some?);
      var r' :- LendOut(r, clock, quote, referrer, bps);
      var out :- Narrow64(quote.borrowFee + quote.receiveAmount);
      Ok(Effect(r', Outward(out)))
    case RepayOp(clock, amount, debt) =>
      var quote :- CalculateRepay(amount, debt);
      var r' :- TakeBack(r, clock, quote);
      Ok(Effect(r', Inward(quote.repay)))
    case LiquidationRepayOp(settle) =>
      var repay :- ToCeil(settle);
      var r' :- TakeBackInLiquidation(r, repay, settle);
      Ok(Effect(r', Inward(repay)))
    case LiquidationRedeemOp(clock, collateral, bps) =>
      var o :- RedeemInLiquidation(r, clock, collateral, bps);
      Ok(Effect(o.reserve, Liquidated(o.amount, 0)))
    case SameReserveLiquidationOp(clock, settle, collateral, bps) =>
      var repay :- ToCeil(settle);
      var repaid :- TakeBackInLiquidation(r, repay, settle);
      var o :- RedeemInLiquidation(repaid, clock, collateral, bps);
      Ok(Effect(o.reserve, Liquidated(o.amount, repay)))
    case FlashBorrowOp(amount) =>
      var r' :- FlashBorrow(r, amount);
      Ok(Effect(r', Outward(amount)))
    case FlashRepayOp(clock, amount, referrer, bps) =>
      var o :- FlashRepay(r, clock, amount, referrer, bps);
      Ok(Effect(o.reserve, Inward(o.amount)))
    case SocializeOp(amount) =>
      var r' :- Forgive(r, amount);
      Ok(Effect(r', NoTransfer))
  }

  /** The token transfers themselves; they fail when the vault cannot hold or cover them. */
  function Transferred(vault: U64, t: Transfer): Result<U64> {
    match t
    case Inward(a) => Narrow64(vault + a)
    case Outward(a) => Narrow64(vault - a)
    case Liquidated(withdrawn, repaid) =>
      var filled :- Narrow64(vault + repaid);
      Narrow64(filled - withdrawn)
    case NoTransfer => Ok(vault)
  }

  function Step(b: Books, op: Op): Result<Books> {
    var e :- Perform(b.reserve, op);
    var vault :- Transferred(b.vault, e.transfer);
    Ok(Books(e.reserve, vault))
  }

  // ---- what every step keeps ----------------------------------------------

  function Unclaimed(ledger: seq<ReferrerState>): nat {
    if ledger == [] then 0 else Unclaimed(ledger[..|ledger| - 1]) + ledger[|ledger| - 1].unclaimed
  }

  /** The referrers' accounts add up to what the reserve owes referrers. */
  ghost predicate LedgerBalanced(r: Reserve) {
    && Unclaimed(r.ledger) == r.liquidity.referrerFees
    && forall k :: 0 <= k < |r.ledger| ==> r.ledger[k].unclaimed <= r.ledger[k].cumulative
  }

  /** A reserve in use: its configuration is accepted, it is not deprecated, its assets
      cover its fee ledgers, and collateral tokens are worth something. */
  ghost predicate Sound(r: Reserve) {
    && ValidConfig(r.config)
    && r.version == PROGRAM_VERSION
    && NetSupply(r.liquidity) >= 0
    && (r.collateralSupply > 0 ==> NetSupply(r.liquidity) > 0)
  }

  /** Collateral tokens are worth at least as much after as before. */
  ghost predicate PriceKept(r: Reserve, r': Reserve) {
    NetSupply(r'.liquidity) * r.collateralSupply >= NetSupply(r.liquidity) * r'.collateralSupply
  }

  lemma PriceKeptTransitive(a: Reserve, b: Reserve, c: Reserve)
    requires Sound(a) && Sound(b) && Sound(c)
    requires b.collateralSupply > 0 && PriceKept(a, b) && PriceKept(b, c)
    ensures PriceKept(a, c)
  {
    CrossMultiply(NetSupply(a.liquidity), a.collateralSupply, NetSupply(b.liquidity), b.collateralSupply,
                  NetSupply(c.liquidity), c.collateralSupply);
  }

  lemma CrossMultiply(la: nat, ca: nat, lb: nat, cb: nat, lc: nat, cc: nat)
    requires cb > 0 && lb * ca >= la * cb && lc * cb >= lb * cc
    ensures lc * ca >= la * cc
  {
    MulLeft(cc, la * cb, lb * ca);
    MulLeft(ca, lb * cc, lc * cb);
    assert cc * (la * cb) == cb * (la * cc);
    assert ca * (lc * cb) == cb * (lc * ca);
    assert cc * (lb * ca) == ca * (lb * cc);
    MulCancel(cb, la * cc, lc * ca);
  }

  // ---- share price, operation by operation --------------------------------

  lemma DepositKeepsPrice(r: Reserve, clock: Clock, amount: U64)
    requires Sound(r) && DepositLiquidity(r, clock, amount).Ok?
    ensures var r' := DepositLiquidity(r, clock, amount).value.reserve;
      Sound(r') && (r.collateralSupply > 0 ==> PriceKept(r, r'))
  {
    hide QuoteDeposit, NetSupply, WithdrawalCaps.Accumulate, ValidConfig, PriceKept, Deposited;
    var rate := CurrentRate(r).value;
    var q := QuoteDeposit(rate, amount).value;
    TotalSupplyIsNet(r.liquidity);
    hide TotalSupply;
    QuoteIsTight(rate, amount);
    var r' := DepositLiquidity(r, clock, amount).value.reserve;
    DepositedNet(r.liquidity, q.liquidity);
    MintedPriceKept(r, r', q.liquidity, q.collateral);
  }

  /** Paying at least the value of what is minted keeps the price; the first shares of a
      reserve without any are minted one to one. */
  lemma MintedPriceKept(r: Reserve, r': Reserve, paid: nat, minted: nat)
    requires Sound(r) && NetSupply(r'.liquidity) == NetSupply(r.liquidity) + paid * ONE
    requires r'.collateralSupply == r.collateralSupply + minted && r'.version == r.version && r'.config == r.config
    requires r.collateralSupply > 0 ==> minted * NetSupply(r.liquidity) <= paid * ONE * r.collateralSupply
    requires r.collateralSupply == 0 ==> minted <= paid
    ensures Sound(r') && (r.collateralSupply > 0 ==> PriceKept(r, r'))
  {
    hide NetSupply, ValidConfig;
    if r.collateralSupply > 0 {
      DepositArithmetic(NetSupply(r.liquidity), r.collateralSupply, paid * ONE, minted);
    }
  }

  lemma DepositedNet(l: Liquidity, amount: U64)
    requires Deposited(l, amount).Ok?
    ensures NetSupply(Deposited(l, amount).value) == NetSupply(l) + amount * ONE
  {
  }

  lemma WithdrawnNet(l: Liquidity, amount: U64)
    requires Withdrawn(l, amount).Ok?
    ensures NetSupply(Withdrawn(l, amount).value) == NetSupply(l) - amount * ONE
  {
  }

  lemma DepositArithmetic(l: nat, c: nat, paid: nat, minted: nat)
    requires minted * l <= paid * c
    ensures (l + paid) * c >= l * (c + minted)
  {
  }

  lemma RedeemArithmetic(l: nat, c: nat, taken: nat, burned: nat)
    requires burned <= c && l > 0 && c > 0 && taken * c <= burned * l
    ensures taken <= l
    ensures burned < c ==> taken < l
    ensures (l - taken) * c >= l * (c - burned)
  {
    MulLeft(l, burned, c);
    if taken > l { MulLeft(c, l + 1, taken); }
    if burned < c && taken >= l {
      MulLeft(l, burned + 1, c);
      MulLeft(c, l, taken);
    }
  }

  lemma RedeemedKeepsPrice(r: Reserve, amount: U64)
    requires Sound(r) && Redeemed(r, amount).Ok?
    ensures var r' := Redeemed(r, amount).value.reserve;
      Sound(r') && PriceKept(r, r')
  {
    hide CollateralToLiquidity, NetSupply;
    TotalSupplyIsNet(r.liquidity);
    hide TotalSupply;
    var rate := CurrentRate(r).value;
    CollateralToLiquidityMeaning(rate, amount);
    var l := NetSupply(r.liquidity);
    var c := r.collateralSupply;
    var taken := CollateralToLiquidity(rate, amount).value;
    WithdrawnNet(r.liquidity, taken);
    if c > 0 {
      DivBounds(amount * l, c * ONE);
      assert taken * (c * ONE) == taken * ONE * c;
      RedeemArithmetic(l, c, taken * ONE, amount);
    } else {
      assert amount == 0 && taken == 0 by { DivExact(0, ONE); }
    }
  }

  lemma RedeemKeepsPrice(r: Reserve, clock: Clock, amount: U64, addToCaps: bool)
    requires Sound(r) && RedeemCollateral(r, clock, amount, addToCaps).Ok?
    ensures var r' := RedeemCollateral(r, clock, amount, addToCaps).value.reserve;
      Sound(r') && PriceKept(r, r')
  {
    hide Redeemed, TotalSupply;
    RedeemedKeepsPrice(r, amount);
  }

  /** Steps that leave the collateral supply alone and do not lower the net supply. */
  lemma NetGrowthKeepsPrice(r: Reserve, r': Reserve)
    requires Sound(r) && NetSupply(r'.liquidity) >= NetSupply(r.liquidity)
    requires r'.collateralSupply == r.collateralSupply && r'.version == r.version && r'.config == r.config
    ensures Sound(r') && PriceKept(r, r')
  {
    MulLeft(r.collateralSupply, NetSupply(r.liquidity), NetSupply(r'.liquidity));
  }

  lemma RatesAtMostOne(takePct: U8, referralFeeBps: U16)
    requires takePct <= 100 && referralFeeBps <= 10_000
    ensures FromPercent(takePct) <= ONE && FromBps(referralFeeBps) <= ONE
  {
  }

  lemma RefreshKeepsPrice(r: Reserve, clock: Clock, price: Option<PriceQuote>, bps: U16)
    requires Sound(r) && bps <= 10_000 && Refreshed(r, clock, price, bps).Ok?
    ensures var r' := Refreshed(r, clock, price, bps).value;
      Sound(r') && PriceKept(r, r')
  {
    hide Compounded, UtilizationRate;
    var r' := Refreshed(r, clock, price, bps).value;
    var elapsed := r.lastUpdate.SlotsElapsed(clock.slot).value;
    if elapsed > 0 {
      var u := UtilizationRate(r.liquidity).value;
      var rate := BorrowRateCurve.GetBorrowRate(r.config.curve, u).value;
      RatesAtMostOne(r.config.protocolTakeRatePct, bps);
      CompoundingIsSound(r.liquidity, rate, FromBps(r.config.hostFixedInterestRateBps), elapsed,
                         FromPercent(r.config.protocolTakeRatePct), FromBps(bps));
    }
    NetGrowthKeepsPrice(r, r');
  }

  lemma BorrowKeepsPrice(r: Reserve, clock: Clock, quote: BorrowQuote, referrer: Option<nat>, bps: U16)
    requires Sound(r) && LendOut(r, clock, quote, referrer, bps).Ok?
    ensures var r' := LendOut(r, clock, quote, referrer, bps).value; Sound(r') && PriceKept(r, r')
  {
    hide NetSupply, Borrowed, ReferrerFeeRetained;
    var l := Borrowed(r.liquidity, quote.borrowAmount).value;
    BorrowedNet(r.liquidity, quote.borrowAmount);
    NeutralSteps(l, quote.referrerFee, 0, false);
    NetGrowthKeepsPrice(r, LendOut(r, clock, quote, referrer, bps).value);
  }

  lemma RepayKeepsPrice(r: Reserve, repay: U64, settle: Fraction)
    requires Sound(r) && settle <= FromInt(repay)
    ensures forall clock :: TakeBack(r, clock, RepayQuote(settle, repay)).Ok? ==>
      var r' := TakeBack(r, clock, RepayQuote(settle, repay)).value; Sound(r') && PriceKept(r, r')
    ensures TakeBackInLiquidation(r, repay, settle).Ok? ==>
      var r' := TakeBackInLiquidation(r, repay, settle).value; Sound(r') && PriceKept(r, r')
  {
    hide NetSupply, Repaid;
    if Repaid(r.liquidity, repay, settle).Ok? {
      RepaidNet(r.liquidity, repay, settle);
      forall clock | TakeBack(r, clock, RepayQuote(settle, repay)).Ok?
        ensures var r' := TakeBack(r, clock, RepayQuote(settle, repay)).value; Sound(r') && PriceKept(r, r')
      {
        NetGrowthKeepsPrice(r, TakeBack(r, clock, RepayQuote(settle, repay)).value);
      }
      if TakeBackInLiquidation(r, repay, settle).Ok? {
        NetGrowthKeepsPrice(r, TakeBackInLiquidation(r, repay, settle).value);
      }
    }
  }

  lemma FeeStepsKeepPrice(r: Reserve, slot: U64, claimant: nat)
    requires Sound(r)
    ensures RedeemFees(r, slot).Ok? ==> Sound(RedeemFees(r, slot).value.reserve) && PriceKept(r, RedeemFees(r, slot).value.reserve)
    ensures WithdrawReferrerFees(r, slot, claimant).Ok? ==>
      var r' := WithdrawReferrerFees(r, slot, claimant).value.reserve; Sound(r') && PriceKept(r, r')
  {
    hide NetSupply, FeesRedeemed, ReferrerFeesWithdrawn;
    if RedeemFees(r, slot).Ok? {
      NeutralSteps(r.liquidity, RedeemFees(r, slot).value.amount, 0, false);
      NetGrowthKeepsPrice(r, RedeemFees(r, slot).value.reserve);
    }
    if WithdrawReferrerFees(r, slot, claimant).Ok? {
      NeutralSteps(r.liquidity, WithdrawReferrerFees(r, slot, claimant).value.amount, 0, false);
      NetGrowthKeepsPrice(r, WithdrawReferrerFees(r, slot, claimant).value.reserve);
    }
  }

  lemma AccumulateKeepsPrice(r: Reserve, referrer: Option<nat>, bps: U16, elapsed: U64, debt: Fraction, previous: Fraction)
    requires Sound(r) && AccumulateReferrerFees(r, referrer, bps, elapsed, debt, previous).Ok?
    ensures var r' := AccumulateReferrerFees(r, referrer, bps, elapsed, debt, previous).value; Sound(r') && PriceKept(r, r')
  {
    hide NetSupply, PendingShare, PendingAttributed;
    if r.liquidity.referralRate != 0 {
      var fee := PendingShare(r, elapsed, debt, previous).value;
      NeutralSteps(r.liquidity, 0, fee, true);
      NeutralSteps(r.liquidity, 0, fee, false);
    }
    NetGrowthKeepsPrice(r, AccumulateReferrerFees(r, referrer, bps, elapsed, debt, previous).value);
  }

  lemma FlashBorrowKeepsPrice(r: Reserve, amount: U64)
    requires Sound(r) && FlashBorrow(r, amount).Ok?
    ensures Sound(FlashBorrow(r, amount).value) && PriceKept(r, FlashBorrow(r, amount).value)
  {
    BorrowedNet(r.liquidity, FromInt(amount));
    NetGrowthKeepsPrice(r, FlashBorrow(r, amount).value);
  }

  lemma FlashRepayKeepsPrice(r: Reserve, clock: Clock, amount: U64, referrer: Option<nat>, bps: U16)
    requires Sound(r) && FlashRepay(r, clock, amount, referrer, bps).Ok?
    ensures var r' := FlashRepay(r, clock, amount, referrer, bps).value.reserve; Sound(r') && PriceKept(r, r')
  {
    hide CalculateFees, Repaid, ReferrerFeeRetained, TotalSupply;
    var fees := CalculateFees(FromInt(amount), r.config.flashLoanFee, Exclusive, bps, referrer.Some?).value;
    var l := Repaid(r.liquidity, amount, FromInt(amount)).value;
    RepaidNet(r.liquidity, amount, FromInt(amount));
    var checked := LimitsChecked(r.(liquidity := l), clock.timestamp).value;
    NeutralSteps(checked.liquidity, fees.referrer, 0, false);
    NetGrowthKeepsPrice(r, FlashRepay(r, clock, amount, referrer, bps).value.reserve);
  }

  lemma LiquidationRedeemKeepsPrice(r: Reserve, clock: Clock, collateral: U64, bps: U16)
    requires Sound(r) && bps <= 10_000 && RedeemInLiquidation(r, clock, collateral, bps).Ok?
    ensures r.collateralSupply > 0
    ensures var r' := RedeemInLiquidation(r, clock, collateral, bps).value.reserve; Sound(r') && PriceKept(r, r')
  {
    hide Refreshed, RedeemCollateral, PriceKept;
    RefreshKeepsPrice(r, clock, None, bps);
    var b := Refreshed(r, clock, None, bps).value;
    RedeemKeepsPrice(b, clock, collateral, false);
    RefreshKeepsSupply(r, clock, bps);
    RedeemNeedsSupply(b, clock, collateral);
    PriceKeptTransitive(r, b, RedeemCollateral(b, clock, collateral, false).value.reserve);
  }

  lemma RefreshKeepsSupply(r: Reserve, clock: Clock, bps: U16)
    requires Refreshed(r, clock, None, bps).Ok?
    ensures Refreshed(r, clock, None, bps).value.collateralSupply == r.collateralSupply
  {
    hide Compounded, UtilizationRate;
  }

  lemma RedeemNeedsSupply(r: Reserve, clock: Clock, collateral: U64)
    requires RedeemCollateral(r, clock, collateral, false).Ok?
    ensures r.collateralSupply > 0
  {
    hide TotalSupply, CollateralToLiquidity, LimitsChecked;
  }

  lemma SameReserveLiquidationKeepsPrice(r: Reserve, clock: Clock, settle: Fraction, collateral: U64, bps: U16)
    requires Sound(r) && bps <= 10_000 && Perform(r, SameReserveLiquidationOp(clock, settle, collateral, bps)).Ok?
    ensures var r' := Perform(r, SameReserveLiquidationOp(clock, settle, collateral, bps)).value.reserve;
      Sound(r') && PriceKept(r, r')
  {
    hide TakeBackInLiquidation, RedeemInLiquidation, PriceKept;
    FloorCeil(settle);
    var repay := ToCeil(settle).value;
    RepayKeepsPrice(r, repay, settle);
    var a := TakeBackInLiquidation(r, repay, settle).value;
    LiquidationRedeemKeepsPrice(a, clock, collateral, bps);
    PriceKeptTransitive(r, a, RedeemInLiquidation(a, clock, collateral, bps).value.reserve);
  }

  predicate RatesInRange(op: Op) {
    match op
    case Refresh(_, _, bps) => bps <= 10_000
    case BorrowOp(_, _, _, _, bps, _, _) => bps <= 10_000
    case LiquidationRedeemOp(_, _, bps) => bps <= 10_000
    case SameReserveLiquidationOp(_, _, _, bps) => bps <= 10_000
    case FlashRepayOp(_, _, _, bps) => bps <= 10_000
    case _ => true
  }

  /** No operation other than socializing a loss lowers the price of a collateral token
      or makes the assets fall below the fee ledgers. */
  lemma StepKeepsPrice(r: Reserve, op: Op)
    requires Sound(r) && RatesInRange(op) && !op.SocializeOp? && Perform(r, op).Ok?
    ensures var r' := Perform(r, op).value.reserve;
      Sound(r') && (r.collateralSupply > 0 ==> PriceKept(r, r'))
  {
    hide PriceKept, DepositLiquidity, RedeemCollateral, RedeemFees, WithdrawReferrerFees, AccumulateReferrerFees,
         CalculateBorrow, LendOut, TakeBack, TakeBackInLiquidation, RedeemInLiquidation, FlashBorrow, FlashRepay, Refreshed;
    match op
    case Refresh(clock, price, bps) => RefreshKeepsPrice(r, clock, price, bps);
    case DepositOp(clock, amount) => DepositKeepsPrice(r, clock, amount);
    case RedeemOp(clock, amount) => RedeemKeepsPrice(r, clock, amount, true);
    case RedeemFeesOp(slot) => FeeStepsKeepPrice(r, slot, 0);
    case WithdrawReferrerFeesOp(slot, claimant) => FeeStepsKeepPrice(r, slot, claimant);
    case AccumulateOp(referrer, bps, elapsed, debt, previous) => AccumulateKeepsPrice(r, referrer, bps, elapsed, debt, previous);
    case BorrowOp(clock, amount, maxValue, remaining, bps, inGroup, referrer) =>
      BorrowKeepsPrice(r, clock, CalculateBorrow(r, amount, maxValue, remaining, bps, inGroup, referrer.Some?).value, referrer, bps);
    case RepayOp(clock, amount, debt) =>
      var q := CalculateRepay(amount, debt).value;
      RepayKeepsPrice(r, q.repay, q.settle);
      assert q == RepayQuote(q.settle, q.repay);
    case LiquidationRepayOp(settle) =>
      FloorCeil(settle);
      RepayKeepsPrice(r, ToCeil(settle).value, settle);
    case LiquidationRedeemOp(clock, collateral, bps) => LiquidationRedeemKeepsPrice(r, clock, collateral, bps);
    case SameReserveLiquidationOp(clock, settle, collateral, bps) =>
      SameReserveLiquidationKeepsPrice(r, clock, settle, collateral, bps);
    case FlashBorrowOp(amount) => FlashBorrowKeepsPrice(r, amount);
    case FlashRepayOp(clock, amount, referrer, bps) => FlashRepayKeepsPrice(r, clock, amount, referrer, bps);
  }

  /** Socializing a loss takes exactly the forgiven debt from the suppliers; either their
      tokens keep some value or the reserve is deprecated. */
  lemma SocializeLowersOrDeprecates(r: Reserve, amount: Fraction)
    requires Sound(r) && Perform(r, SocializeOp(amount)).Ok?
    ensures var r' := Perform(r, SocializeOp(amount)).value.reserve;
      && NetSupply(r'.liquidity) == NetSupply(r.liquidity) - amount
      && r'.collateralSupply == r.collateralSupply
      && (if amount < NetSupply(r.liquidity) then Sound(r') && NetSupply(r'.liquidity) > 0 else r'.version == MAX_U64)
  {
    TotalSupplyIsNet(r.liquidity);
  }

  /** A refresh touches neither the tokens nor the referrers' accounts. */
  lemma RefreshLeaves(r: Reserve, clock: Clock, price: Option<PriceQuote>, bps: U16)
    requires Refreshed(r, clock, price, bps).Ok?
    ensures var r' := Refreshed(r, clock, price, bps).value;
      r'.liquidity.available == r.liquidity.available && SameLedger(r, r')
  {
    hide Compounded, UtilizationRate;
    var elapsed := r.lastUpdate.SlotsElapsed(clock.slot).value;
    if elapsed > 0 {
      var rate := BorrowRateCurve.GetBorrowRate(r.config.curve, UtilizationRate(r.liquidity).value).value;
      CompoundingLeaves(r.liquidity, rate, FromBps(r.config.hostFixedInterestRateBps), elapsed,
                        FromPercent(r.config.protocolTakeRatePct), FromBps(bps));
    }
  }

  ghost predicate SameLedger(r: Reserve, r': Reserve) {
    r'.ledger == r.ledger && r'.liquidity.referrerFees == r.liquidity.referrerFees
  }

  lemma DepositLeaves(r: Reserve, clock: Clock, amount: U64)
    requires DepositLiquidity(r, clock, amount).Ok?
    ensures var o := DepositLiquidity(r, clock, amount).value;
      SameLedger(r, o.reserve) && o.reserve.liquidity.available == r.liquidity.available + o.amount
  {
    hide QuoteDeposit, TotalSupply;
  }

  lemma RedeemLeaves(r: Reserve, clock: Clock, amount: U64, addToCaps: bool)
    requires RedeemCollateral(r, clock, amount, addToCaps).Ok?
    ensures var o := RedeemCollateral(r, clock, amount, addToCaps).value;
      SameLedger(r, o.reserve) && o.reserve.liquidity.available == r.liquidity.available - o.amount
  {
    hide CollateralToLiquidity, TotalSupply;
  }

  lemma LiquidationRedeemLeaves(r: Reserve, clock: Clock, collateral: U64, bps: U16)
    requires RedeemInLiquidation(r, clock, collateral, bps).Ok?
    ensures var o := RedeemInLiquidation(r, clock, collateral, bps).value;
      SameLedger(r, o.reserve) && o.reserve.liquidity.available == r.liquidity.available - o.amount
  {
    hide Refreshed, RedeemCollateral;
    RefreshLeaves(r, clock, None, bps);
    RedeemLeaves(Refreshed(r, clock, None, bps).value, clock, collateral, false);
  }

  lemma RedeemFeesLeaves(r: Reserve, slot: U64)
    requires RedeemFees(r, slot).Ok?
    ensures var o := RedeemFees(r, slot).value;
      SameLedger(r, o.reserve) && o.reserve.liquidity.available == r.liquidity.available - o.amount
  {
  }

  lemma RepayLeaves(r: Reserve, clock: Clock, quote: RepayQuote)
    ensures TakeBack(r, clock, quote).Ok? ==>
      var r' := TakeBack(r, clock, quote).value;
      SameLedger(r, r') && r'.liquidity.available == r.liquidity.available + quote.repay
    ensures TakeBackInLiquidation(r, quote.repay, quote.settle).Ok? ==>
      var r' := TakeBackInLiquidation(r, quote.repay, quote.settle).value;
      SameLedger(r, r') && r'.liquidity.available == r.liquidity.available + quote.repay
  {
  }

  lemma FlashBorrowLeaves(r: Reserve, amount: U64)
    requires FlashBorrow(r, amount).Ok?
    ensures SameLedger(r, FlashBorrow(r, amount).value)
    ensures FlashBorrow(r, amount).value.liquidity.available == r.liquidity.available - amount
  {
    FromIntExact(amount);
  }

  lemma ForgiveLeaves(r: Reserve, amount: Fraction)
    requires Forgive(r, amount).Ok?
    ensures SameLedger(r, Forgive(r, amount).value)
    ensures Forgive(r, amount).value.liquidity.available == r.liquidity.available
  {
    hide TotalSupply;
  }

  // ---- the referrers' ledger ----------------------------------------------

  lemma {:induction false} UnclaimedUpdate(ledger: seq<ReferrerState>, k: nat, state: ReferrerState)
    requires k < |ledger|
    ensures Unclaimed(ledger[k := state]) == Unclaimed(ledger) + state.unclaimed - ledger[k].unclaimed
  {
    var n := |ledger| - 1;
    if k == n {
      assert ledger[k := state][..n] == ledger[..n];
    } else {
      UnclaimedUpdate(ledger[..n], k, state);
      assert ledger[k := state][..n] == ledger[..n][k := state];
    }
  }

  lemma CreditedBalance(r: Reserve, referrer: nat, fee: Fraction)
    requires LedgerBalanced(r) && Credited(r.ledger, referrer, fee).Ok?
    ensures var ledger := Credited(r.ledger, referrer, fee).value;
      && Unclaimed(ledger) == Unclaimed(r.ledger) + fee
      && forall k :: 0 <= k < |ledger| ==> ledger[k].unclaimed <= ledger[k].cumulative
  {
    UnclaimedUpdate(r.ledger, referrer, Credited(r.ledger, referrer, fee).value[referrer]);
  }

  lemma PaidReferrerBalance(r: Reserve, referrer: Option<nat>, bps: U16, fee: U64)
    requires LedgerBalanced(r) && ReferrerPaid(r, referrer, bps, fee).Ok?
    ensures LedgerBalanced(ReferrerPaid(r, referrer, bps, fee).value)
  {
    hide Credited;
    if referrer.Some? && bps > 0 {
      CreditedBalance(r, referrer.value, FromInt(fee));
    }
  }

  lemma AccumulateBalance(r: Reserve, referrer: Option<nat>, bps: U16, elapsed: U64, debt: Fraction, previous: Fraction)
    requires LedgerBalanced(r) && AccumulateReferrerFees(r, referrer, bps, elapsed, debt, previous).Ok?
    ensures LedgerBalanced(AccumulateReferrerFees(r, referrer, bps, elapsed, debt, previous).value)
  {
    hide Credited, PendingShare;
    if r.liquidity.referralRate != 0 && referrer.Some? && bps > 0 {
      CreditedBalance(r, referrer.value, PendingShare(r, elapsed, debt, previous).value);
    }
  }

  lemma WithdrawReferrerBalance(r: Reserve, slot: U64, claimant: nat)
    requires LedgerBalanced(r) && WithdrawReferrerFees(r, slot, claimant).Ok?
    ensures LedgerBalanced(WithdrawReferrerFees(r, slot, claimant).value.reserve)
  {
    var r' := WithdrawReferrerFees(r, slot, claimant).value.reserve;
    UnclaimedUpdate(r.ledger, claimant, r'.ledger[claimant]);
  }

  lemma SameLedgerBalance(r: Reserve, r': Reserve)
    requires LedgerBalanced(r) && SameLedger(r, r')
    ensures LedgerBalanced(r')
  {
  }

  /** Every operation keeps the sum of the referrers' unclaimed amounts equal to the
      reserve's referrer fees, and no referrer's claim above what was credited. */
  lemma StepKeepsLedger(r: Reserve, op: Op)
    requires LedgerBalanced(r) && Perform(r, op).Ok?
    ensures LedgerBalanced(Perform(r, op).value.reserve)
  {
    hide LedgerBalanced, Refreshed, DepositLiquidity, RedeemCollateral, RedeemFees, WithdrawReferrerFees,
         AccumulateReferrerFees, CalculateBorrow, LendOut, TakeBack, TakeBackInLiquidation, RedeemInLiquidation, FlashBorrow,
         FlashRepay, Forgive;
    var r' := Perform(r, op).value.reserve;
    match op
    case Refresh(clock, price, bps) => RefreshBalance(r, clock, price, bps);
    case DepositOp(clock, amount) => DepositLeaves(r, clock, amount); SameLedgerBalance(r, r');
    case RedeemOp(clock, amount) => RedeemLeaves(r, clock, amount, true); SameLedgerBalance(r, r');
    case RedeemFeesOp(slot) => RedeemFeesLeaves(r, slot); SameLedgerBalance(r, r');
    case WithdrawReferrerFeesOp(slot, claimant) => WithdrawReferrerBalance(r, slot, claimant);
    case AccumulateOp(referrer, bps, elapsed, debt, previous) => AccumulateBalance(r, referrer, bps, elapsed, debt, previous);
    case BorrowOp(clock, amount, maxValue, remaining, bps, inGroup, referrer) =>
      LendOutBalance(r, clock, CalculateBorrow(r, amount, maxValue, remaining, bps, inGroup, referrer.Some?).value, referrer, bps);
    case RepayOp(clock, amount, debt) => RepayLeaves(r, clock, CalculateRepay(amount, debt).value); SameLedgerBalance(r, r');
    case LiquidationRepayOp(settle) =>
      RepayLeaves(r, Clock(0, 0), RepayQuote(settle, ToCeil(settle).value));
      SameLedgerBalance(r, r');
    case LiquidationRedeemOp(clock, collateral, bps) => LiquidationRedeemLeaves(r, clock, collateral, bps); SameLedgerBalance(r, r');
    case SameReserveLiquidationOp(clock, settle, collateral, bps) =>
      var a := TakeBackInLiquidation(r, ToCeil(settle).value, settle).value;
      RepayLeaves(r, clock, RepayQuote(settle, ToCeil(settle).value));
      SameLedgerBalance(r, a);
      LiquidationRedeemLeaves(a, clock, collateral, bps);
      SameLedgerBalance(a, r');
    case FlashBorrowOp(amount) => FlashBorrowLeaves(r, amount); SameLedgerBalance(r, r');
    case FlashRepayOp(clock, amount, referrer, bps) => FlashRepayBalance(r, clock, amount, referrer, bps);
    case SocializeOp(amount) => ForgiveLeaves(r, amount); SameLedgerBalance(r, r');
  }

  lemma RefreshBalance(r: Reserve, clock: Clock, price: Option<PriceQuote>, bps: U16)
    requires LedgerBalanced(r) && Refreshed(r, clock, price, bps).Ok?
    ensures LedgerBalanced(Refreshed(r, clock, price, bps).value)
  {
    RefreshLeaves(r, clock, price, bps);
    SameLedgerBalance(r, Refreshed(r, clock, price, bps).value);
  }

  lemma LendOutBalance(r: Reserve, clock: Clock, quote: BorrowQuote, referrer: Option<nat>, bps: U16)
    requires LedgerBalanced(r) && LendOut(r, clock, quote, referrer, bps).Ok?
    ensures LedgerBalanced(LendOut(r, clock, quote, referrer, bps).value)
  {
    hide ReferrerPaid, LedgerBalanced;
    var cap := WithdrawalCaps.Accumulate(r.debtCap, ToCeil(quote.borrowAmount).value, clock.timestamp, WithdrawalCaps.AddAmount).value;
    var lent := Stale(r.(debtCap := cap, liquidity := Borrowed(r.liquidity, quote.borrowAmount).value));
    SameLedgerBalance(r, lent);
    PaidReferrerBalance(lent, referrer, bps, quote.referrerFee);
  }

  lemma FlashRepayBalance(r: Reserve, clock: Clock, amount: U64, referrer: Option<nat>, bps: U16)
    requires LedgerBalanced(r) && FlashRepay(r, clock, amount, referrer, bps).Ok?
    ensures LedgerBalanced(FlashRepay(r, clock, amount, referrer, bps).value.reserve)
  {
    hide ReferrerPaid, LedgerBalanced, CalculateFees, TotalSupply;
    var fees := CalculateFees(FromInt(amount), r.config.flashLoanFee, Exclusive, bps, referrer.Some?).value;
    var checked := Stale(LimitsChecked(r.(liquidity := Repaid(r.liquidity, amount, FromInt(amount)).value), clock.timestamp).value);
    SameLedgerBalance(r, checked);
    PaidReferrerBalance(checked, referrer, bps, fees.referrer);
  }

  /** Attributing pending fees moves them between ledgers without loss. */
  lemma AccumulateConservesFees(r: Reserve, referrer: Option<nat>, bps: U16, elapsed: U64, debt: Fraction, previous: Fraction)
    requires AccumulateReferrerFees(r, referrer, bps, elapsed, debt, previous).Ok?
    ensures var l, l' := r.liquidity, AccumulateReferrerFees(r, referrer, bps, elapsed, debt, previous).value.liquidity;
      && l'.protocolFees + l'.referrerFees + l'.pendingFees == l.protocolFees + l.referrerFees + l.pendingFees
      && l'.pendingFees <= l.pendingFees
      && l'.borrowed == l.borrowed && l'.available == l.available
  {
    hide PendingShare;
  }

  // ---- the vault ----------------------------------------------------------

  const TWO_63: nat := 0x8000_0000_0000_0000

  type I64 = WithdrawalCaps.I64

  /** `LendingAction`, the last argument of the check after the transfers. */
  datatype LendingAction =
    | Additive(amount: U64)
    | Subtractive(amount: U64)
    | SubtractiveSigned(net: I64)

  /** `x as i64`, which wraps. */
  function AsI64(x: U64): I64 {
    if x < TWO_63 then x as int else x as int - TWO_64
  }

  function SubtractI64(a: I64, b: I64): Result<I64> {
    if -(TWO_63 as int) <= a - b < TWO_63 then Ok(a - b) else Err(Overflow)
  }

  /** The action a handler reports: liquidations cast both amounts to signed integers and
      subtract them (handler_liquidate_obligation_and_redeem_reserve_collateral.rs:209-222). */
  function Reported(t: Transfer): Result<Option<LendingAction>> {
    match t
    case Inward(a) => Ok(Some(Additive(a)))
    case Outward(a) => Ok(Some(Subtractive(a)))
    case Liquidated(withdrawn, repaid) =>
      var net :- SubtractI64(AsI64(withdrawn), AsI64(repaid));
      Ok(Some(SubtractiveSigned(net)))
    case NoTransfer => Ok(None)
  }

  /** `u64::try_from(initial as i64 - net)`. */
  function SubtractSigned(initial: U64, net: I64): Result<U64> {
    var d :- SubtractI64(AsI64(initial), net);
    if d < 0 then Err(MathOverflow) else Ok(d)
  }

  /** `post_transfer_vault_balance_liquidity_reserve_checks` (lending_checks.rs:357-430). */
  function PostTransferChecks(vault': U64, available': U64, vault: U64, available: U64, action: LendingAction): Result<()> {
    var before :- Narrow64(vault - available);
    var after :- Narrow64(vault' - available');
    var _ :- Need(before == after, ReserveTokenBalanceMismatch);
    match action
    case Additive(a) =>
      var v :- Narrow64(vault + a);
      var _ :- Need(v == vault', ReserveVaultBalanceMismatch);
      var l :- Narrow64(available + a);
      Need(l == available', ReserveAccountingMismatch)
    case Subtractive(a) =>
      var v :- Narrow64(vault - a);
      var _ :- Need(v == vault', ReserveVaultBalanceMismatch);
      var l :- Narrow64(available - a);
      Need(l == available', ReserveAccountingMismatch)
    case SubtractiveSigned(net) =>
      var v :- SubtractSigned(vault, net);
      var _ :- Need(v == vault', ReserveVaultBalanceMismatch);
      var l :- SubtractSigned(available, net);
      Need(l == available', ReserveAccountingMismatch)
  }

  /** The check as the handler makes it, with the action it reports. */
  function HandlerCheck(vault': U64, available': U64, vault: U64, available: U64, t: Transfer): Result<()> {
    var action :- Reported(t);
    if action.None? then Ok(()) else PostTransferChecks(vault', available', vault, available, action.value)
  }

  /** How far a transfer moves the vault upwards. */
  function Delta(t: Transfer): int {
    match t
    case Inward(a) => a as int
    case Outward(a) => -(a as int)
    case Liquidated(withdrawn, repaid) => repaid - withdrawn
    case NoTransfer => 0
  }

  lemma NoReferrerNoShare(amount: Fraction, rate: U64, mode: FeeCalculation, bps: U16, hasReferrer: bool)
    requires !hasReferrer || bps == 0
    ensures CalculateFees(amount, rate, mode, bps, hasReferrer).Ok? ==>
      CalculateFees(amount, rate, mode, bps, hasReferrer).value.referrer == 0
  {
    hide FeeAmount;
  }

  lemma NoReferrerNoFee(r: Reserve, amount: U64, maxValue: Fraction, remaining: Fraction, bps: U16, inGroup: bool, hasReferrer: bool)
    requires CalculateBorrow(r, amount, maxValue, remaining, bps, inGroup, hasReferrer).Ok?
    ensures !hasReferrer || bps == 0 ==>
      CalculateBorrow(r, amount, maxValue, remaining, bps, inGroup, hasReferrer).value.referrerFee == 0
  {
    hide CalculateFees, LargestBorrow, AdjustedValue;
    if !hasReferrer || bps == 0 {
      forall a: Fraction, mode ensures CalculateFees(a, r.config.borrowFee, mode, bps, hasReferrer).Ok? ==>
        CalculateFees(a, r.config.borrowFee, mode, bps, hasReferrer).value.referrer == 0
      {
        NoReferrerNoShare(a, r.config.borrowFee, mode, bps, hasReferrer);
      }
    }
  }

  lemma LendOutAvailable(r: Reserve, clock: Clock, quote: BorrowQuote, referrer: Option<nat>, bps: U16)
    requires LendOut(r, clock, quote, referrer, bps).Ok?
    requires referrer.None? || bps == 0 ==> quote.referrerFee == 0
    ensures LendOut(r, clock, quote, referrer, bps).value.liquidity.available ==
      r.liquidity.available - Floor(quote.borrowAmount) + quote.referrerFee
  {
    hide Floor, Credited;
  }

  lemma FlashRepayAvailable(r: Reserve, clock: Clock, amount: U64, referrer: Option<nat>, bps: U16)
    requires FlashRepay(r, clock, amount, referrer, bps).Ok?
    ensures var o := FlashRepay(r, clock, amount, referrer, bps).value;
      o.reserve.liquidity.available == r.liquidity.available + o.amount
  {
    hide CalculateFees, Credited, TotalSupply;
    if referrer.None? || bps == 0 {
      NoReferrerNoShare(FromInt(amount), r.config.flashLoanFee, Exclusive, bps, referrer.Some?);
    }
  }

  lemma WithdrawReferrerLeaves(r: Reserve, slot: U64, claimant: nat)
    requires WithdrawReferrerFees(r, slot, claimant).Ok?
    ensures var o := WithdrawReferrerFees(r, slot, claimant).value;
      o.reserve.liquidity.available == r.liquidity.available - o.amount
  {
  }

  /** The books move by exactly what the handler transfers: a borrow keeps the
      referrer's fee in the vault, a flash repay brings it. */
  lemma BooksMoveWithTransfers(r: Reserve, op: Op)
    requires RatesInRange(op) && ValidConfig(r.config) && Perform(r, op).Ok?
    ensures var e := Perform(r, op).value;
      e.reserve.liquidity.available == r.liquidity.available + Delta(e.transfer)
  {
    hide SameLedger, Refreshed, DepositLiquidity, RedeemCollateral, RedeemFees, WithdrawReferrerFees,
         AccumulateReferrerFees, CalculateBorrow, LendOut, TakeBack, TakeBackInLiquidation, RedeemInLiquidation, FlashBorrow,
         FlashRepay, Forgive;
    match op
    case Refresh(clock, price, bps) => RefreshLeaves(r, clock, price, bps);
    case DepositOp(clock, amount) => DepositLeaves(r, clock, amount);
    case RedeemOp(clock, amount) => RedeemLeaves(r, clock, amount, true);
    case RedeemFeesOp(slot) => RedeemFeesLeaves(r, slot);
    case WithdrawReferrerFeesOp(slot, claimant) => WithdrawReferrerLeaves(r, slot, claimant);
    case AccumulateOp(referrer, bps, elapsed, debt, previous) => AccumulateConservesFees(r, referrer, bps, elapsed, debt, previous);
    case BorrowOp(clock, amount, maxValue, remaining, bps, inGroup, referrer) =>
      BorrowSplitsExactly(r, amount, maxValue, remaining, bps, inGroup, referrer.Some?);
      NoReferrerNoFee(r, amount, maxValue, remaining, bps, inGroup, referrer.Some?);
      LendOutAvailable(r, clock, CalculateBorrow(r, amount, maxValue, remaining, bps, inGroup, referrer.Some?).value, referrer, bps);
    case RepayOp(clock, amount, debt) => RepayLeaves(r, clock, CalculateRepay(amount, debt).value);
    case LiquidationRepayOp(settle) => RepayLeaves(r, Clock(0, 0), RepayQuote(settle, ToCeil(settle).value));
    case LiquidationRedeemOp(clock, collateral, bps) => LiquidationRedeemLeaves(r, clock, collateral, bps);
    case SameReserveLiquidationOp(clock, settle, collateral, bps) =>
      var a := TakeBackInLiquidation(r, ToCeil(settle).value, settle).value;
      RepayLeaves(r, clock, RepayQuote(settle, ToCeil(settle).value));
      LiquidationRedeemLeaves(a, clock, collateral, bps);
    case FlashBorrowOp(amount) => FlashBorrowLeaves(r, amount);
    case FlashRepayOp(clock, amount, referrer, bps) => FlashRepayAvailable(r, clock, amount, referrer, bps);
    case SocializeOp(amount) => ForgiveLeaves(r, amount);
  }

  /** When the check lets a liquidation's transfers through. Casting keeps the order of two
      amounts only if both or neither reach 2^63; the other way round it works out only for
      balances that are as large. */
  predicate FitsSigned(vault: U64, available: U64, withdrawn: U64, repaid: U64) {
    && vault + repaid - withdrawn < TWO_63
    && if withdrawn < TWO_63 <==> repaid < TWO_63 then vault < TWO_63 else available >= TWO_63 && withdrawn - repaid >= TWO_63
  }

  /** The check after the transfers accepts whatever the books followed, except that a
      liquidation's must fit the signed arithmetic. */
  lemma ChecksAcceptFollowedTransfers(vault': U64, available': U64, vault: U64, available: U64, t: Transfer)
    requires available <= vault
    requires vault' == vault + Delta(t) && available' == available + Delta(t)
    ensures HandlerCheck(vault', available', vault, available, t).Ok? <==>
      (t.Liquidated? ==> FitsSigned(vault, available, t.withdrawn, t.repaid))
  {
  }

  /** For balances below 2^63 what is left to ask is that both amounts or neither reach it. */
  lemma SmallVaultsFitSigned(vault: U64, available: U64, withdrawn: U64, repaid: U64)
    requires available <= vault < TWO_63 && vault + repaid - withdrawn < TWO_63
    ensures FitsSigned(vault, available, withdrawn, repaid) <==> (withdrawn < TWO_63 <==> repaid < TWO_63)
  {
  }

  /** Transfers that the books follow and the check refuses: a large vault; a small one
      whose reserve takes part with two large amounts on either side of 2^63. And a large
      vault that passes. */
  lemma SignedChecksFail()
    ensures var vault: U64 := 0x8000_0000_0000_0001;
      HandlerCheck(vault - 1, vault - 1, vault, vault, Liquidated(1, 0)) == Err(MathOverflow)
    ensures HandlerCheck(200_000_000_000_000_000, 200_000_000_000_000_000, 500_000_000_000_000_000, 500_000_000_000_000_000,
                         Liquidated(9_300_000_000_000_000_000, 9_000_000_000_000_000_000)) == Err(Overflow)
    ensures HandlerCheck(50, 50, 0x8000_0000_0000_0064, 0x8000_0000_0000_0064, Liquidated(0x8000_0000_0000_0032, 0)).Ok?
  {
  }

  /** A handler whose operation succeeds never finds the vault short, leaves the same
      surplus of tokens over books, and passes its check after the transfers, unless it is
      a liquidation that does not fit the signed arithmetic. */
  lemma StepKeepsVaultSurplus(b: Books, op: Op)
    requires RatesInRange(op) && ValidConfig(b.reserve.config)
    requires b.reserve.liquidity.available <= b.vault && Perform(b.reserve, op).Ok?
    ensures Step(b, op) != Err(Underflow)
    ensures Step(b, op).Ok? ==>
      var b' := Step(b, op).value; var t := Perform(b.reserve, op).value.transfer;
      && b'.vault - b'.reserve.liquidity.available == b.vault - b.reserve.liquidity.available
      && (HandlerCheck(b'.vault, b'.reserve.liquidity.available, b.vault, b.reserve.liquidity.available, t).Ok? <==>
            (t.Liquidated? ==> FitsSigned(b.vault, b.reserve.liquidity.available, t.withdrawn, t.repaid)))
  {
    hide Perform, ValidConfig, HandlerCheck, FitsSigned;
    BooksMoveWithTransfers(b.reserve, op);
    if Step(b, op).Ok? {
      var b' := Step(b, op).value;
      ChecksAcceptFollowedTransfers(b'.vault, b'.reserve.liquidity.available, b.vault, b.reserve.liquidity.available,
                                    Perform(b.reserve, op).value.transfer);
    }
  }

  // ---- runs ---------------------------------------------------------------

  /** The books after a sequence of operations that all succeeded. */
  function Run(b: Books, ops: seq<Op>): Result<Books> {
    if ops == [] then Ok(b)
    else
      var before :- Run(b, ops[..|ops| - 1]);
      Step(before, ops[|ops| - 1])
  }

  /** Books that add up, whatever the assets are worth. */
  ghost predicate BooksBalanced(b: Books) {
    ValidConfig(b.reserve.config) && LedgerBalanced(b.reserve) && b.reserve.liquidity.available <= b.vault
  }

  ghost predicate BooksSound(b: Books) {
    Sound(b.reserve) && LedgerBalanced(b.reserve) && b.reserve.liquidity.available <= b.vault
  }

  predicate AllInRange(ops: seq<Op>) {
    forall i :: 0 <= i < |ops| ==> RatesInRange(ops[i])
  }

  lemma LendOutKeepsConfig(r: Reserve, clock: Clock, quote: BorrowQuote, referrer: Option<nat>, bps: U16)
    requires LendOut(r, clock, quote, referrer, bps).Ok?
    ensures LendOut(r, clock, quote, referrer, bps).value.config == r.config
  {
    hide WithdrawalCaps.Accumulate, Borrowed, Credited, ReferrerFeeRetained;
  }

  lemma FlashRepayKeepsConfig(r: Reserve, clock: Clock, amount: U64, referrer: Option<nat>, bps: U16)
    requires FlashRepay(r, clock, amount, referrer, bps).Ok?
    ensures FlashRepay(r, clock, amount, referrer, bps).value.reserve.config == r.config
  {
    hide CalculateFees, Repaid, Credited, TotalSupply, ReferrerFeeRetained;
  }

  lemma RefreshKeepsConfig(r: Reserve, clock: Clock, price: Option<PriceQuote>, bps: U16)
    requires Refreshed(r, clock, price, bps).Ok?
    ensures Refreshed(r, clock, price, bps).value.config == r.config
  {
    hide Accrued;
  }

  lemma RedeemKeepsConfig(r: Reserve, clock: Clock, amount: U64, addToCaps: bool)
    requires RedeemCollateral(r, clock, amount, addToCaps).Ok?
    ensures RedeemCollateral(r, clock, amount, addToCaps).value.reserve.config == r.config
  {
    hide CurrentRate, CollateralToLiquidity, TotalSupply, WithdrawalCaps.Accumulate;
  }

  lemma LiquidationRedeemKeepsConfig(r: Reserve, clock: Clock, collateral: U64, bps: U16)
    requires RedeemInLiquidation(r, clock, collateral, bps).Ok?
    ensures RedeemInLiquidation(r, clock, collateral, bps).value.reserve.config == r.config
  {
    hide Refreshed, RedeemCollateral;
    RefreshKeepsConfig(r, clock, None, bps);
    RedeemKeepsConfig(Refreshed(r, clock, None, bps).value, clock, collateral, false);
  }

  /** No operation touches the configuration. */
  lemma PerformKeepsConfig(r: Reserve, op: Op)
    requires Perform(r, op).Ok?
    ensures Perform(r, op).value.reserve.config == r.config
  {
    hide Refreshed, RedeemCollateral, RedeemInLiquidation, LendOut, FlashRepay, CalculateBorrow, CurrentRate, QuoteDeposit,
         TotalSupply, WithdrawalCaps.Accumulate, Repaid, PendingShare, Credited, PendingAttributed, FeesRedeemed,
         ReferrerFeesWithdrawn, CalculateRepay, Forgiven;
    match op {
      case Refresh(clock, price, bps) => RefreshKeepsConfig(r, clock, price, bps);
      case RedeemOp(clock, amount) => RedeemKeepsConfig(r, clock, amount, true);
      case BorrowOp(clock, amount, maxValue, remaining, bps, inGroup, referrer) =>
        LendOutKeepsConfig(r, clock, CalculateBorrow(r, amount, maxValue, remaining, bps, inGroup, referrer.Some?).value, referrer, bps);
      case LiquidationRedeemOp(clock, collateral, bps) => LiquidationRedeemKeepsConfig(r, clock, collateral, bps);
      case SameReserveLiquidationOp(clock, settle, collateral, bps) =>
        LiquidationRedeemKeepsConfig(TakeBackInLiquidation(r, ToCeil(settle).value, settle).value, clock, collateral, bps);
      case FlashRepayOp(clock, amount, referrer, bps) => FlashRepayKeepsConfig(r, clock, amount, referrer, bps);
      case _ =>
    }
  }

  /** Any one operation, socializing a loss included, keeps the books balanced and the
      vault's surplus as it is. */
  lemma StepKeepsBalance(b: Books, op: Op)
    requires BooksBalanced(b) && RatesInRange(op) && Step(b, op).Ok?
    ensures var b' := Step(b, op).value;
      BooksBalanced(b') && b'.vault - b'.reserve.liquidity.available == b.vault - b.reserve.liquidity.available
  {
    hide Perform, ValidConfig, LedgerBalanced, HandlerCheck, FitsSigned;
    PerformKeepsConfig(b.reserve, op);
    StepKeepsLedger(b.reserve, op);
    StepKeepsVaultSurplus(b, op);
  }

  /** Over every run of operations, socialized losses and deprecation included, the
      referrers' accounts add up and the vault's surplus over the books is constant. */
  lemma {:induction false} RunsKeepBalance(b: Books, ops: seq<Op>)
    requires BooksBalanced(b) && AllInRange(ops) && Run(b, ops).Ok?
    ensures var e := Run(b, ops).value;
      && BooksBalanced(e)
      && e.vault - e.reserve.liquidity.available == b.vault - b.reserve.liquidity.available
  {
    hide BooksBalanced, Step;
    if ops == [] {
    } else {
      var front := ops[..|ops| - 1];
      RunsKeepBalance(b, front);
      StepKeepsBalance(Run(b, front).value, ops[|ops| - 1]);
    }
  }

  /** Whenever a loss is socialized the suppliers can bear it and keep something. */
  ghost predicate LossesBorne(b: Books, ops: seq<Op>) {
    forall i :: 0 <= i < |ops| && ops[i].SocializeOp? && Run(b, ops[..i]).Ok? ==>
      ops[i].forgiven < NetSupply(Run(b, ops[..i]).value.reserve.liquidity)
  }

  predicate NoLosses(ops: seq<Op>) {
    forall i :: 0 <= i < |ops| ==> !ops[i].SocializeOp?
  }

  /** Collateral tokens existed all along. */
  ghost predicate HeldThroughout(b: Books, ops: seq<Op>) {
    forall i :: 0 <= i < |ops| && Run(b, ops[..i]).Ok? ==> Run(b, ops[..i]).value.reserve.collateralSupply > 0
  }

  lemma SoundStep(b: Books, op: Op)
    requires BooksSound(b) && RatesInRange(op) && Step(b, op).Ok?
    requires op.SocializeOp? ==> op.forgiven < NetSupply(b.reserve.liquidity)
    ensures BooksSound(Step(b, op).value)
    ensures !op.SocializeOp? && b.reserve.collateralSupply > 0 ==> PriceKept(b.reserve, Step(b, op).value.reserve)
  {
    hide Perform, Sound, LedgerBalanced, PriceKept, HandlerCheck, FitsSigned;
    SoundConfig(b.reserve);
    StepKeepsBalance(b, op);
    if op.SocializeOp? { SocializeLowersOrDeprecates(b.reserve, op.forgiven); } else { StepKeepsPrice(b.reserve, op); }
  }

  lemma SoundConfig(r: Reserve)
    requires Sound(r)
    ensures ValidConfig(r.config)
  {
  }

  lemma Prefixes(b: Books, ops: seq<Op>)
    requires ops != []
    ensures LossesBorne(b, ops) ==> LossesBorne(b, ops[..|ops| - 1])
    ensures HeldThroughout(b, ops) ==> HeldThroughout(b, ops[..|ops| - 1])
  {
    hide Run, NetSupply;
    var front := ops[..|ops| - 1];
    assert forall i :: 0 <= i <= |front| ==> front[..i] == ops[..i];
  }

  /** Over every run whose losses the suppliers can bear, the reserve stays solvent
      (`total_supply` never underflows), its referrers' accounts add up and its vault's
      surplus is constant; without losses, and as long as collateral tokens exist all
      along, their price has not fallen. */
  lemma {:induction false} RunsKeepEverything(b: Books, ops: seq<Op>)
    requires BooksSound(b) && AllInRange(ops) && LossesBorne(b, ops) && Run(b, ops).Ok?
    ensures var e := Run(b, ops).value;
      && BooksSound(e)
      && TotalSupply(e.reserve.liquidity) != Err(Underflow)
      && e.vault - e.reserve.liquidity.available == b.vault - b.reserve.liquidity.available
      && (NoLosses(ops) && HeldThroughout(b, ops) ==> PriceKept(b.reserve, e.reserve))
  {
    hide PriceKept, Step, LedgerBalanced, LossesBorne, HeldThroughout;
    if ops == [] {
      SelfPrice(b.reserve);
    } else {
      var n := |ops| - 1;
      var front := ops[..n];
      Prefixes(b, ops);
      RunsKeepEverything(b, front);
      var m := Run(b, front).value;
      LastStep(b, ops);
      SoundStep(m, ops[n]);
      if NoLosses(ops) && HeldThroughout(b, ops) {
        PriceKeptTransitive(b.reserve, m.reserve, Run(b, ops).value.reserve);
      }
      SoundConfig(m.reserve);
      StepKeepsBalance(m, ops[n]);
    }
    TotalSupplyIsNet(Run(b, ops).value.reserve.liquidity);
  }

  lemma LastStep(b: Books, ops: seq<Op>)
    requires ops != [] && Run(b, ops[..|ops| - 1]).Ok?
    ensures var m := Run(b, ops[..|ops| - 1]).value; var op := ops[|ops| - 1];
      && (LossesBorne(b, ops) && op.SocializeOp? ==> op.forgiven < NetSupply(m.reserve.liquidity))
      && (HeldThroughout(b, ops) ==> m.reserve.collateralSupply > 0)
  {
    hide Run, NetSupply;
  }

  lemma SelfPrice(r: Reserve)
    ensures PriceKept(r, r)
  {
  }

  // ---- deposit and redeem -------------------------------------------------

  /** Whoever deposits and redeems at once gets back at most the charge and at least the
      charge less one token, and was charged at most what was offered. */
  lemma DepositRedeemRoundTrip(r: Reserve, clock: Clock, amount: U64)
    requires Sound(r) && r.collateralSupply > 0 && DepositLiquidity(r, clock, amount).Ok?
    ensures var d := DepositLiquidity(r, clock, amount).value;
      && d.amount <= amount
      && (Redeemed(d.reserve, d.reserve.collateralSupply - r.collateralSupply).Ok? ==>
            d.amount - 1 <= Redeemed(d.reserve, d.reserve.collateralSupply - r.collateralSupply).value.amount <= d.amount)
  {
    hide QuoteDeposit, CollateralToLiquidity, NetSupply;
    var d := DepositLiquidity(r, clock, amount).value;
    TotalSupplyIsNet(r.liquidity);
    TotalSupplyIsNet(d.reserve.liquidity);
    DepositKeepsPrice(r, clock, amount);
    hide TotalSupply;
    var rate := CurrentRate(r).value;
    QuoteIsTight(rate, amount);
    var q := QuoteDeposit(rate, amount).value;
    DepositedNet(r.liquidity, q.liquidity);
    var c := q.collateral;
    if Redeemed(d.reserve, c).Ok? {
      var after := CurrentRate(d.reserve).value;
      CollateralToLiquidityMeaning(after, c);
      RoundTripArithmetic(NetSupply(r.liquidity), r.collateralSupply, q.liquidity, c, ONE,
                          NetSupply(d.reserve.liquidity), d.reserve.collateralSupply);
    }
  }

  lemma RoundTripArithmetic(l: nat, c: nat, paid: nat, minted: nat, o: nat, l': nat, c': nat)
    requires l > 0 && c > 0 && o > 0 && c' > 0
    requires minted * l <= paid * o * c < minted * l + c * o
    requires l' == l + paid * o && c' == c + minted
    ensures c' * o > 0
    ensures paid - 1 <= minted * l' / (c' * o) <= paid
  {
    var t := paid * o;
    var unit := c' * o;
    var n := minted * l';
    MulLeft(o, 1, c');
    assert n == minted * l + minted * t;
    assert paid * unit == t * c + t * minted by {
      MulSwap(paid, c', o);
      assert c' * t == t * c + t * minted;
    }
    assert minted * t == t * minted;
    AtMostWhole(n, paid, unit);
    if paid > 0 {
      assert (paid - 1) * unit == paid * unit - unit;
      assert unit == c * o + minted * o && minted * o >= 0;
      LeDiv(paid - 1, n, unit);
    }
  }

  lemma AtMostWhole(n: nat, k: nat, d: nat)
    requires d > 0 && n <= k * d
    ensures n / d <= k
  {
    DivMono(n, k * d, d);
    DivExact(k, d);
  }
}
