/** What a refresh writes into an obligation: every slot at its reserve's current price,
    and totals that are the sums over the slots. */
module RefreshMeaning {
  import opened Results
  import opened Arithmetic
  import opened FixedPoint
  import opened LastUpdates
  import opened Reserves
  import opened ReserveOperations
  import opened Markets
  import opened Obligations
  import opened Positions
  import opened MarketOperations
  import opened ObligationInvariant

  // ---- reference definitions ----------------------------------------------

  function DebtWorth(bs: seq<Borrow>): nat {
    if bs == [] then 0 else DebtWorth(bs[..|bs| - 1]) + bs[|bs| - 1].marketValue
  }

  function AdjustedWorth(bs: seq<Borrow>): nat {
    if bs == [] then 0 else AdjustedWorth(bs[..|bs| - 1]) + bs[|bs| - 1].adjustedValue
  }

  function DepositWorth(ds: seq<Deposit>): nat {
    if ds == [] then 0 else DepositWorth(ds[..|ds| - 1]) + ds[|ds| - 1].marketValue
  }

  /** Deposits weighted by their loan-to-value or by their liquidation threshold. */
  function WeightedWorth(rs: Pool, g: Option<ElevationGroup>, ds: seq<Deposit>, liquidation: bool): nat {
    if ds == [] then 0 else WeightedWorth(rs, g, ds[..|ds| - 1], liquidation) + Weight(rs, g, ds[|ds| - 1], liquidation)
  }

  function Weight(rs: Pool, g: Option<ElevationGroup>, d: Deposit, liquidation: bool): nat {
    if d.Active() && d.reserve in rs then
      var c := rs[d.reserve].config;
      MulFloor(d.marketValue, FromPercent(if liquidation then LiquidationThresholdPct(c, g) else MaxLtvPct(c, g)))
    else 0
  }

  /** The reserves price alike. */
  ghost predicate SamePrices(rs: Pool, rs': Pool) {
    rs'.Keys == rs.Keys
    && forall k :: k in rs ==> rs'[k].config == rs[k].config && rs'[k].liquidity.price == rs[k].liquidity.price
                               && rs'[k].liquidity.decimals == rs[k].liquidity.decimals
  }

  /** The debt is valued at its reserve's price and borrow factor. */
  ghost predicate DebtValued(rs: Pool, g: Option<ElevationGroup>, b: Borrow) {
    b.Active() ==>
      && b.reserve in rs
      && MarketValue(rs[b.reserve].liquidity, b.borrowed) == Ok(b.marketValue)
      && BorrowFactor(rs[b.reserve].config, g.Some?).Ok?
      && Mul(b.marketValue, BorrowFactor(rs[b.reserve].config, g.Some?).value) == Ok(b.adjustedValue)
  }

  lemma PricesAreSame(rs: Pool, rs': Pool, g: Option<ElevationGroup>, b: Borrow)
    requires SamePrices(rs, rs') && DebtValued(rs', g, b)
    ensures DebtValued(rs, g, b)
  {
  }

  // ---- borrows ------------------------------------------------------------

  lemma AccumulateKeepsPrices(r: Reserve, referrer: Option<nat>, bps: U16, elapsed: U64, debt: Fraction, previous: Fraction)
    requires AccumulateReferrerFees(r, referrer, bps, elapsed, debt, previous).Ok?
    ensures var r' := AccumulateReferrerFees(r, referrer, bps, elapsed, debt, previous).value;
      r'.config == r.config && r'.liquidity.price == r.liquidity.price && r'.liquidity.decimals == r.liquidity.decimals
  {
    hide PendingShare, Credited;
  }

  lemma ValueBorrowMeans(m: Market, g: Option<ElevationGroup>, r: Reserve, b: Borrow, amount: U64, t: BorrowTotals)
    requires ValueBorrow(m, g, r, b, amount, t).Ok?
    ensures var v := ValueBorrow(m, g, r, b, amount, t).value;
      && MarketValue(r.liquidity, b.borrowed) == Ok(v.0.marketValue)
      && BorrowFactor(r.config, g.Some?).Ok?
      && Mul(v.0.marketValue, BorrowFactor(r.config, g.Some?).value) == Ok(v.0.adjustedValue)
      && v.1.value == t.value + v.0.marketValue && v.1.adjusted == t.adjusted + v.0.adjustedValue
      && v.0 == b.(marketValue := v.0.marketValue, adjustedValue := v.0.adjustedValue)
  {
    hide MarketValue, BorrowFactor, Mul;
  }

  lemma RefreshBorrowMeans(m: Market, g: Option<ElevationGroup>, o: Obligation, slot: U64, p: BorrowPass, i: nat)
    requires i < |p.borrows| && RefreshBorrow(m, g, o, slot, p, i).Ok?
    ensures var q := RefreshBorrow(m, g, o, slot, p, i).value;
      && SamePrices(p.reserves, q.reserves)
      && q.borrows == p.borrows[i := q.borrows[i]] && DebtValued(p.reserves, g, q.borrows[i])
      && q.totals.value == p.totals.value + (if p.borrows[i].Active() then q.borrows[i].marketValue else 0)
      && q.totals.adjusted == p.totals.adjusted + (if p.borrows[i].Active() then q.borrows[i].adjustedValue else 0)
      && q.borrows[i].Active() == p.borrows[i].Active() && (!p.borrows[i].Active() ==> q.borrows[i] == p.borrows[i])
  {
    hide AccumulateReferrerFees, ValueBorrow, AccruedDebt, MarketValue, BorrowFactor, Mul;
    var b := p.borrows[i];
    if b.Active() {
      var r := p.reserves[b.reserve];
      AccruedReserve(b, r.liquidity.cumulativeRate);
      var accrued := AccruedDebt(b, r.liquidity.cumulativeRate).value;
      var amount := ToCeil(accrued.borrowed).value;
      var tracked := TrackBorrow(g, r, accrued, amount).value;
      var elapsed := o.lastUpdate.SlotsElapsed(slot).value;
      AccumulateKeepsPrices(tracked.0, o.referrer, m.referralFeeBps, elapsed, accrued.borrowed, b.borrowed);
      var paid := AccumulateReferrerFees(tracked.0, o.referrer, m.referralFeeBps, elapsed, accrued.borrowed, b.borrowed).value;
      ValueBorrowMeans(m, g, paid, tracked.1, amount, p.totals);
      SamePriceSameValue(r, paid, accrued.borrowed);
    }
  }

  lemma AccruedReserve(b: Borrow, rate: U256)
    ensures AccruedDebt(b, rate).Ok? ==> AccruedDebt(b, rate).value.reserve == b.reserve
  {
  }

  lemma SamePriceSameValue(r: Reserve, r': Reserve, amount: Fraction)
    requires r'.liquidity.price == r.liquidity.price && r'.liquidity.decimals == r.liquidity.decimals
    ensures MarketValue(r'.liquidity, amount) == MarketValue(r.liquidity, amount)
  {
  }

  lemma SamePricesTransitive(a: Pool, b: Pool, c: Pool)
    requires SamePrices(a, b) && SamePrices(b, c)
    ensures SamePrices(a, c)
  {
  }

  lemma {:induction false} RefreshBorrowsMean(m: Market, g: Option<ElevationGroup>, o: Obligation, slot: U64, rs: Pool, n: nat)
    requires n <= |o.borrows| && RefreshBorrowsUpTo(m, g, o, slot, rs, n).Ok?
    requires forall i :: 0 <= i < |o.borrows| && !o.borrows[i].Active() ==> o.borrows[i].marketValue == 0 && o.borrows[i].adjustedValue == 0
    ensures var p := RefreshBorrowsUpTo(m, g, o, slot, rs, n).value;
      && SamePrices(rs, p.reserves)
      && (forall j :: 0 <= j < n ==> DebtValued(rs, g, p.borrows[j]))
      && (forall j :: n <= j < |o.borrows| ==> p.borrows[j] == o.borrows[j])
      && p.totals.value == DebtWorth(p.borrows[..n]) && p.totals.adjusted == AdjustedWorth(p.borrows[..n])
  {
    hide RefreshBorrow, DebtValued, SamePrices;
    if n == 0 {
      SamePool(rs);
    } else {
      RefreshBorrowsMean(m, g, o, slot, rs, n - 1);
      var p := RefreshBorrowsUpTo(m, g, o, slot, rs, n - 1).value;
      RefreshBorrowMeans(m, g, o, slot, p, n - 1);
      var q := RefreshBorrow(m, g, o, slot, p, n - 1).value;
      SamePricesTransitive(rs, p.reserves, q.reserves);
      PricesAreSame(rs, p.reserves, g, q.borrows[n - 1]);
      assert q.borrows[..n][..n - 1] == p.borrows[..n - 1];
    }
  }

  lemma SamePool(rs: Pool)
    ensures SamePrices(rs, rs)
  {
  }

  // ---- deposits -----------------------------------------------------------

  lemma ValueDepositMeans(m: Market, g: Option<ElevationGroup>, r: Reserve, d: Deposit, t: DepositTotals)
    requires ValueDeposit(m, g, r, d, t).Ok?
    ensures var v := ValueDeposit(m, g, r, d, t).value;
      && CollateralValue(r, d.amount) == Ok(v.0.marketValue) && v.0 == d.(marketValue := v.0.marketValue)
      && v.1.value == t.value + v.0.marketValue
      && v.1.allowed == t.allowed + MulFloor(v.0.marketValue, FromPercent(MaxLtvPct(r.config, g)))
      && v.1.unhealthy == t.unhealthy + MulFloor(v.0.marketValue, FromPercent(LiquidationThresholdPct(r.config, g)))
      && v.1.lowestMaxLtvPct <= t.lowestMaxLtvPct && v.1.lowestMaxLtvPct <= MaxLtvPct(r.config, g)
      && v.1.lowestLiquidationLtvPct <= t.lowestLiquidationLtvPct
      && (v.0.marketValue >= FromInt(m.minValueSkipLtvChecks) && LiquidationThresholdPct(r.config, g) > 0 ==>
            v.1.lowestLiquidationLtvPct <= LiquidationThresholdPct(r.config, g))
  {
    hide CollateralValue, MaxLtvPct, LiquidationThresholdPct, FromPercent, MulFloor;
  }

  /** The deposit is worth the liquidity its collateral stands for. */
  ghost predicate DepositValued(rs: Pool, d: Deposit) {
    d.Active() ==> d.reserve in rs && CollateralValue(rs[d.reserve], d.amount) == Ok(d.marketValue)
  }

  /** The deposit pass leaves the books of every reserve alone. */
  ghost predicate SameBooks(rs: Pool, rs': Pool) {
    rs'.Keys == rs.Keys
    && forall k :: k in rs ==> rs'[k].config == rs[k].config && rs'[k].liquidity == rs[k].liquidity
                               && rs'[k].collateralSupply == rs[k].collateralSupply
  }

  lemma RefreshDepositMeans(m: Market, g: Option<ElevationGroup>, debt: U64, slot: U64, p: DepositPass, i: nat)
    requires i < |p.deposits| && RefreshDeposit(m, g, debt, slot, p, i).Ok?
    ensures var q := RefreshDeposit(m, g, debt, slot, p, i).value;
      && SameBooks(p.reserves, q.reserves)
      && q.deposits == p.deposits[i := q.deposits[i]] && DepositValued(p.reserves, q.deposits[i])
      && q.totals.value == p.totals.value + (if p.deposits[i].Active() then q.deposits[i].marketValue else 0)
      && q.totals.allowed == p.totals.allowed + Weight(p.reserves, g, q.deposits[i], false)
      && q.totals.unhealthy == p.totals.unhealthy + Weight(p.reserves, g, q.deposits[i], true)
      && q.deposits[i].Active() == p.deposits[i].Active() && (!p.deposits[i].Active() ==> q.deposits[i] == p.deposits[i])
  {
    hide ValueDeposit, CollateralValue, MaxLtvPct, LiquidationThresholdPct, FromPercent, MulFloor;
    var d := p.deposits[i];
    if d.Active() {
      var r := p.reserves[d.reserve];
      var tracked := TrackDeposit(g, r, d, debt).value;
      ValueDepositMeans(m, g, tracked.0, tracked.1, p.totals);
      TrackedValue(r, tracked.0, d.amount);
    }
  }

  lemma TrackedValue(r: Reserve, r': Reserve, amount: U64)
    requires r'.liquidity == r.liquidity && r'.collateralSupply == r.collateralSupply
    ensures CollateralValue(r', amount) == CollateralValue(r, amount)
  {
    hide TotalSupply, ExchangeRate.FractionCollateralToLiquidity, MarketValue;
  }

  lemma SameBooksSameWeights(rs: Pool, rs': Pool, g: Option<ElevationGroup>, d: Deposit)
    requires SameBooks(rs, rs')
    ensures DepositValued(rs', d) ==> DepositValued(rs, d)
    ensures Weight(rs', g, d, false) == Weight(rs, g, d, false) && Weight(rs', g, d, true) == Weight(rs, g, d, true)
  {
    hide CollateralValue, MulFloor, FromPercent, MaxLtvPct, LiquidationThresholdPct;
    if d.Active() && d.reserve in rs { TrackedValue(rs[d.reserve], rs'[d.reserve], d.amount); }
  }

  lemma SameBooksTransitive(a: Pool, b: Pool, c: Pool)
    requires SameBooks(a, b) && SameBooks(b, c)
    ensures SameBooks(a, c)
  {
  }

  lemma {:induction false} RefreshDepositsMean(m: Market, g: Option<ElevationGroup>, debt: U64, slot: U64, rs: Pool, ds: seq<Deposit>, n: nat)
    requires n <= |ds| && RefreshDepositsUpTo(m, g, debt, slot, rs, ds, n).Ok?
    requires forall i :: 0 <= i < |ds| && !ds[i].Active() ==> ds[i].marketValue == 0
    ensures var p := RefreshDepositsUpTo(m, g, debt, slot, rs, ds, n).value;
      && SameBooks(rs, p.reserves)
      && (forall j :: 0 <= j < n ==> DepositValued(rs, p.deposits[j]))
      && (forall j :: n <= j < |ds| ==> p.deposits[j] == ds[j])
      && p.totals.value == DepositWorth(p.deposits[..n])
      && p.totals.allowed == WeightedWorth(rs, g, p.deposits[..n], false)
      && p.totals.unhealthy == WeightedWorth(rs, g, p.deposits[..n], true)
  {
    hide RefreshDeposit, DepositValued, SameBooks, Weight;
    if n == 0 {
      SameBooksSelf(rs);
    } else {
      RefreshDepositsMean(m, g, debt, slot, rs, ds, n - 1);
      var p := RefreshDepositsUpTo(m, g, debt, slot, rs, ds, n - 1).value;
      RefreshDepositMeans(m, g, debt, slot, p, n - 1);
      var q := RefreshDeposit(m, g, debt, slot, p, n - 1).value;
      SameBooksTransitive(rs, p.reserves, q.reserves);
      SameBooksSameWeights(rs, p.reserves, g, q.deposits[n - 1]);
      assert q.deposits[..n][..n - 1] == p.deposits[..n - 1];
    }
  }

  lemma SameBooksSelf(rs: Pool)
    ensures SameBooks(rs, rs)
  {
  }

  // ---- the whole refresh --------------------------------------------------

  /** A refresh values every debt and every deposit at its reserve's price and sums them
      up: the debt with and without borrow factors, the deposits, and the deposits weighted
      by their loan-to-value (capped by the market) and by their liquidation threshold. */
  lemma RefreshSumsUp(m: Market, a: Accounts, slot: U64, checkCount: bool)
    requires WellFormed(a.o) && RefreshObligation(m, a, slot, checkCount).Ok?
    ensures UsableElevationGroup(m, a.o.group).Ok?
    ensures var g := UsableElevationGroup(m, a.o.group).value;
      var a' := RefreshObligation(m, a, slot, checkCount).value; var v := a'.o.values;
      && (forall j :: 0 <= j < |a'.o.borrows| ==> DebtValued(a'.reserves, g, a'.o.borrows[j]))
      && (forall j :: 0 <= j < |a'.o.deposits| ==> DepositValued(a'.reserves, a'.o.deposits[j]))
      && v.debt == DebtWorth(a'.o.borrows) && v.adjustedDebt == AdjustedWorth(a'.o.borrows)
      && v.deposited == DepositWorth(a'.o.deposits)
      && v.allowedBorrow == Min(WeightedWorth(a'.reserves, g, a'.o.deposits, false), FromInt(m.globalAllowedBorrowValue))
      && v.unhealthyBorrow == WeightedWorth(a'.reserves, g, a'.o.deposits, true)
  {
    hide RefreshBorrowsUpTo, RefreshDepositsUpTo, UsableElevationGroup, DebtValued, DepositValued, SamePrices, SameBooks, Round;
    var g := UsableElevationGroup(m, a.o.group).value;
    var b := RefreshBorrows(m, g, a.o, slot, a.reserves).value;
    forall i | 0 <= i < |a.o.borrows| && !a.o.borrows[i].Active()
      ensures a.o.borrows[i].marketValue == 0 && a.o.borrows[i].adjustedValue == 0
    { assert GoodBorrow(a.o.borrows[i]); }
    RefreshBorrowsMean(m, g, a.o, slot, a.reserves, |a.o.borrows|);
    assert b.borrows[..|a.o.borrows|] == b.borrows;
    var d := RefreshDeposits(m, g, b.totals.debt, slot, b.reserves, a.o.deposits, checkCount).value;
    forall i | 0 <= i < |a.o.deposits| && !a.o.deposits[i].Active() ensures a.o.deposits[i].marketValue == 0 {
      assert GoodDeposit(a.o.deposits[i]);
    }
    RefreshDepositsMean(m, g, b.totals.debt, slot, b.reserves, a.o.deposits, |a.o.deposits|);
    assert d.deposits[..|a.o.deposits|] == d.deposits;
    PassesPriceAlike(a.reserves, b.reserves, d.reserves, g, b.borrows, d.deposits);
  }

  /** What was valued along the way is valued alike in the pool at the end. */
  lemma PassesPriceAlike(rs0: Pool, rs1: Pool, rs2: Pool, g: Option<ElevationGroup>, bs: seq<Borrow>, ds: seq<Deposit>)
    requires SamePrices(rs0, rs1) && SameBooks(rs1, rs2)
    ensures forall j :: 0 <= j < |bs| && DebtValued(rs0, g, bs[j]) ==> DebtValued(rs2, g, bs[j])
    ensures forall j :: 0 <= j < |ds| && DepositValued(rs1, ds[j]) ==> DepositValued(rs2, ds[j])
    ensures WeightedWorth(rs2, g, ds, false) == WeightedWorth(rs1, g, ds, false)
    ensures WeightedWorth(rs2, g, ds, true) == WeightedWorth(rs1, g, ds, true)
  {
    hide CollateralValue, MarketValue, BorrowFactor, Weight, DebtValued;
    assert SamePrices(rs2, rs0);
    forall j | 0 <= j < |bs| && DebtValued(rs0, g, bs[j]) ensures DebtValued(rs2, g, bs[j]) {
      PricesAreSame(rs2, rs0, g, bs[j]);
    }
    assert SameBooks(rs2, rs1);
    forall j | 0 <= j < |ds| && DepositValued(rs1, ds[j]) ensures DepositValued(rs2, ds[j]) {
      SameBooksSameWeights(rs2, rs1, g, ds[j]);
    }
    SameWorth(rs1, rs2, g, ds);
  }

  lemma {:induction false} SameWorth(rs: Pool, rs': Pool, g: Option<ElevationGroup>, ds: seq<Deposit>)
    requires SameBooks(rs, rs')
    ensures WeightedWorth(rs', g, ds, false) == WeightedWorth(rs, g, ds, false)
    ensures WeightedWorth(rs', g, ds, true) == WeightedWorth(rs, g, ds, true)
  {
    hide Weight, SameBooks;
    if ds == [] {
    } else {
      SameWorth(rs, rs', g, ds[..|ds| - 1]);
      SameBooksSameWeights(rs, rs', g, ds[|ds| - 1]);
    }
  }
}
