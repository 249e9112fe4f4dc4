/** The extremes and flags a refresh stores: they decide which debt and which collateral
    a liquidator has to take first, and whether the obligation may borrow. */
module RefreshExtremes {
  import opened Results
  import opened Arithmetic
  import opened FixedPoint
  import opened LastUpdates
  import opened Reserves
  import opened ReserveOperations
  import opened Markets
  import opened Obligations
  import opened Positions
  import opened MarketOperations
  import opened ObligationInvariant
  import opened RefreshMeaning

  // ---- collateral ---------------------------------------------------------

  /** A deposit whose liquidation threshold counts: worth enough, threshold not zero. */
  predicate Counts(m: Market, g: Option<ElevationGroup>, c: ReserveConfig, d: Deposit) {
    d.marketValue >= FromInt(m.minValueSkipLtvChecks) && LiquidationThresholdPct(c, g) > 0
  }

  /** `lowest` is at most every threshold that counts, and one of them unless it is 255. */
  ghost predicate LowestThreshold(m: Market, rs: Pool, g: Option<ElevationGroup>, ds: seq<Deposit>, n: nat, lowest: U8)
    requires n <= |ds|
  {
    && (forall j :: 0 <= j < n && ds[j].Active() && ds[j].reserve in rs && Counts(m, g, rs[ds[j].reserve].config, ds[j]) ==>
          lowest <= LiquidationThresholdPct(rs[ds[j].reserve].config, g))
    && (lowest < 255 ==> exists j :: 0 <= j < n && ds[j].Active() && ds[j].reserve in rs
                                     && Counts(m, g, rs[ds[j].reserve].config, ds[j])
                                     && lowest == LiquidationThresholdPct(rs[ds[j].reserve].config, g))
  }

  predicate IsObsolete(c: ReserveConfig) {
    c.obsolete
  }

  predicate ForbidsBorrowing(c: ReserveConfig) {
    c.disableUsageAsCollOutsideEmode
  }

  /** Some active deposit's reserve has the property. */
  ghost predicate SomeDeposit(rs: Pool, ds: seq<Deposit>, n: nat, property: ReserveConfig -> bool)
    requires n <= |ds|
  {
    exists j :: 0 <= j < n && ds[j].Active() && ds[j].reserve in rs && property(rs[ds[j].reserve].config)
  }

  lemma ValueDepositExtremes(m: Market, g: Option<ElevationGroup>, r: Reserve, d: Deposit, t: DepositTotals)
    requires ValueDeposit(m, g, r, d, t).Ok?
    ensures var v := ValueDeposit(m, g, r, d, t).value;
      && v.1.lowestLiquidationLtvPct == (if Counts(m, g, r.config, v.0)
                                         then Min(t.lowestLiquidationLtvPct, LiquidationThresholdPct(r.config, g))
                                         else t.lowestLiquidationLtvPct)
      && (v.1.obsolete > 0 <==> t.obsolete > 0 || r.config.obsolete)
      && (v.1.borrowingDisabled <==> t.borrowingDisabled || (g.None? && r.config.disableUsageAsCollOutsideEmode))
      && v.0 == d.(marketValue := v.0.marketValue)
  {
    hide CollateralValue, MaxLtvPct, LiquidationThresholdPct, FromPercent, Mul;
  }

  lemma RefreshDepositExtremes(m: Market, g: Option<ElevationGroup>, debt: U64, slot: U64, p: DepositPass, i: nat)
    requires i < |p.deposits| && RefreshDeposit(m, g, debt, slot, p, i).Ok?
    ensures var q := RefreshDeposit(m, g, debt, slot, p, i).value; var d := q.deposits[i];
      if p.deposits[i].Active() then
        && d.Active() && d.reserve in p.reserves
        && var c := p.reserves[d.reserve].config;
           && q.totals.lowestLiquidationLtvPct == (if Counts(m, g, c, d)
                                                   then Min(p.totals.lowestLiquidationLtvPct, LiquidationThresholdPct(c, g))
                                                   else p.totals.lowestLiquidationLtvPct)
           && (q.totals.obsolete > 0 <==> p.totals.obsolete > 0 || c.obsolete)
           && (q.totals.borrowingDisabled <==> p.totals.borrowingDisabled || (g.None? && c.disableUsageAsCollOutsideEmode))
      else !d.Active() && q.totals == p.totals
  {
    hide ValueDeposit, MaxLtvPct, LiquidationThresholdPct, FromPercent, Counts;
    var d := p.deposits[i];
    if d.Active() {
      var tracked := TrackDeposit(g, p.reserves[d.reserve], d, debt).value;
      ValueDepositExtremes(m, g, tracked.0, tracked.1, p.totals);
    }
  }

  lemma {:induction false} RefreshDepositsExtremes(m: Market, g: Option<ElevationGroup>, debt: U64, slot: U64, rs: Pool,
                                                   ds: seq<Deposit>, n: nat)
    requires n <= |ds| && RefreshDepositsUpTo(m, g, debt, slot, rs, ds, n).Ok?
    requires forall i :: 0 <= i < |ds| && !ds[i].Active() ==> ds[i].marketValue == 0
    ensures var p := RefreshDepositsUpTo(m, g, debt, slot, rs, ds, n).value;
      && LowestThreshold(m, rs, g, p.deposits, n, p.totals.lowestLiquidationLtvPct)
      && (p.totals.obsolete > 0 <==> SomeDeposit(rs, p.deposits, n, IsObsolete))
      && (p.totals.borrowingDisabled <==> g.None? && SomeDeposit(rs, p.deposits, n, ForbidsBorrowing))
  {
    hide RefreshDeposit, Counts, LiquidationThresholdPct, SameBooks, Weight, DepositValued;
    if n == 0 {
    } else {
      RefreshDepositsExtremes(m, g, debt, slot, rs, ds, n - 1);
      RefreshDepositsMean(m, g, debt, slot, rs, ds, n - 1);
      var p := RefreshDepositsUpTo(m, g, debt, slot, rs, ds, n - 1).value;
      RefreshDepositExtremes(m, g, debt, slot, p, n - 1);
      RefreshDepositMeans(m, g, debt, slot, p, n - 1);
      var q := RefreshDeposit(m, g, debt, slot, p, n - 1).value;
      SameConfigs(rs, p.reserves);
      LowestExtends(m, rs, p.reserves, g, p.deposits, q.deposits, n, p.totals.lowestLiquidationLtvPct, q.totals.lowestLiquidationLtvPct);
      SomeExtends(rs, p.deposits, q.deposits, n, IsObsolete);
      SomeExtends(rs, p.deposits, q.deposits, n, ForbidsBorrowing);
    }
  }

  lemma SameConfigs(rs: Pool, rs': Pool)
    requires SameBooks(rs, rs')
    ensures rs'.Keys == rs.Keys && forall k :: k in rs ==> rs'[k].config == rs[k].config
  {
  }

  lemma LowestExtends(m: Market, rs: Pool, rs': Pool, g: Option<ElevationGroup>, ds: seq<Deposit>, ds': seq<Deposit>, n: nat,
                      lowest: U8, lowest': U8)
    requires 0 < n <= |ds| == |ds'| && LowestThreshold(m, rs, g, ds, n - 1, lowest) && ds' == ds[n - 1 := ds'[n - 1]]
    requires rs'.Keys == rs.Keys && forall k :: k in rs ==> rs'[k].config == rs[k].config
    requires var d := ds'[n - 1];
      if d.Active() then
        d.reserve in rs'
        && lowest' == (if Counts(m, g, rs'[d.reserve].config, d)
                       then Min(lowest, LiquidationThresholdPct(rs'[d.reserve].config, g)) else lowest)
      else lowest' == lowest
    ensures LowestThreshold(m, rs, g, ds', n, lowest')
  {
    hide Counts, LiquidationThresholdPct;
    if lowest' < 255 {
      if lowest' == lowest && lowest < 255 {
        var j :| 0 <= j < n - 1 && ds[j].Active() && ds[j].reserve in rs && Counts(m, g, rs[ds[j].reserve].config, ds[j])
                 && lowest == LiquidationThresholdPct(rs[ds[j].reserve].config, g);
        assert ds'[j] == ds[j];
      } else {
        assert ds'[n - 1].Active();
      }
    }
  }

  lemma SomeExtends(rs: Pool, ds: seq<Deposit>, ds': seq<Deposit>, n: nat, property: ReserveConfig -> bool)
    requires 0 < n <= |ds| == |ds'| && ds' == ds[n - 1 := ds'[n - 1]]
    ensures SomeDeposit(rs, ds', n, property) <==>
      SomeDeposit(rs, ds, n - 1, property)
      || (ds'[n - 1].Active() && ds'[n - 1].reserve in rs && property(rs[ds'[n - 1].reserve].config))
  {
    if SomeDeposit(rs, ds, n - 1, property) {
      var j :| 0 <= j < n - 1 && ds[j].Active() && ds[j].reserve in rs && property(rs[ds[j].reserve].config);
      assert ds'[j] == ds[j];
    }
  }

  // ---- debt ---------------------------------------------------------------

  /** `highest` is at least every borrow factor of a debt that is worth enough, and the
      factor of one of them unless it is one. */
  ghost predicate HighestFactor(m: Market, rs: Pool, g: Option<ElevationGroup>, bs: seq<Borrow>, n: nat, highest: Fraction)
    requires n <= |bs|
  {
    && highest >= ONE
    && (forall j :: 0 <= j < n && bs[j].Active() && bs[j].reserve in rs && bs[j].marketValue >= FromInt(m.minValueSkipBfChecks) ==>
          BorrowFactor(rs[bs[j].reserve].config, g.Some?).Ok? && highest >= BorrowFactor(rs[bs[j].reserve].config, g.Some?).value)
    && (highest > ONE ==> exists j :: 0 <= j < n && bs[j].Active() && bs[j].reserve in rs
                                      && bs[j].marketValue >= FromInt(m.minValueSkipBfChecks)
                                      && BorrowFactor(rs[bs[j].reserve].config, g.Some?) == Ok(highest))
  }

  lemma RefreshBorrowHighest(m: Market, g: Option<ElevationGroup>, o: Obligation, slot: U64, p: BorrowPass, i: nat)
    requires i < |p.borrows| && RefreshBorrow(m, g, o, slot, p, i).Ok?
    ensures var q := RefreshBorrow(m, g, o, slot, p, i).value; var b := q.borrows[i];
      if p.borrows[i].Active() then
        && b.Active() && b.reserve in p.reserves && BorrowFactor(p.reserves[b.reserve].config, g.Some?).Ok?
        && var factor := BorrowFactor(p.reserves[b.reserve].config, g.Some?).value;
           q.totals.highestFactor == if b.marketValue >= FromInt(m.minValueSkipBfChecks)
                                     then Max(p.totals.highestFactor, factor) else p.totals.highestFactor
      else !b.Active() && q.totals == p.totals
  {
    hide AccumulateReferrerFees, AccruedDebt, MarketValue, BorrowFactor, Mul;
    var b := p.borrows[i];
    if b.Active() {
      var r := p.reserves[b.reserve];
      AccruedReserve(b, r.liquidity.cumulativeRate);
      var accrued := AccruedDebt(b, r.liquidity.cumulativeRate).value;
      var amount := ToCeil(accrued.borrowed).value;
      var tracked := TrackBorrow(g, r, accrued, amount).value;
      var elapsed := o.lastUpdate.SlotsElapsed(slot).value;
      AccumulateKeepsPrices(tracked.0, o.referrer, m.referralFeeBps, elapsed, accrued.borrowed, b.borrowed);
    }
  }

  lemma {:induction false} RefreshBorrowsHighest(m: Market, g: Option<ElevationGroup>, o: Obligation, slot: U64, rs: Pool, n: nat)
    requires n <= |o.borrows| && RefreshBorrowsUpTo(m, g, o, slot, rs, n).Ok?
    requires forall i :: 0 <= i < |o.borrows| && !o.borrows[i].Active() ==> o.borrows[i].marketValue == 0 && o.borrows[i].adjustedValue == 0
    ensures var p := RefreshBorrowsUpTo(m, g, o, slot, rs, n).value;
      HighestFactor(m, rs, g, p.borrows, n, p.totals.highestFactor)
  {
    hide RefreshBorrow, SamePrices, DebtValued, BorrowFactor;
    if n == 0 {
    } else {
      RefreshBorrowsHighest(m, g, o, slot, rs, n - 1);
      RefreshBorrowsMean(m, g, o, slot, rs, n - 1);
      var p := RefreshBorrowsUpTo(m, g, o, slot, rs, n - 1).value;
      RefreshBorrowHighest(m, g, o, slot, p, n - 1);
      RefreshBorrowMeans(m, g, o, slot, p, n - 1);
      var q := RefreshBorrow(m, g, o, slot, p, n - 1).value;
      SamePricedConfigs(rs, p.reserves);
      HighestExtends(m, rs, p.reserves, g, p.borrows, q.borrows, n, p.totals.highestFactor, q.totals.highestFactor);
    }
  }

  lemma SamePricedConfigs(rs: Pool, rs': Pool)
    requires SamePrices(rs, rs')
    ensures rs'.Keys == rs.Keys && forall k :: k in rs ==> rs'[k].config == rs[k].config
  {
  }

  lemma HighestExtends(m: Market, rs: Pool, rs': Pool, g: Option<ElevationGroup>, bs: seq<Borrow>, bs': seq<Borrow>, n: nat,
                       highest: Fraction, highest': Fraction)
    requires 0 < n <= |bs| == |bs'| && HighestFactor(m, rs, g, bs, n - 1, highest) && bs' == bs[n - 1 := bs'[n - 1]]
    requires rs'.Keys == rs.Keys && forall k :: k in rs ==> rs'[k].config == rs[k].config
    requires var b := bs'[n - 1];
      if b.Active() then
        && b.reserve in rs' && BorrowFactor(rs'[b.reserve].config, g.Some?).Ok?
        && highest' == (if b.marketValue >= FromInt(m.minValueSkipBfChecks)
                        then Max(highest, BorrowFactor(rs'[b.reserve].config, g.Some?).value) else highest)
      else highest' == highest
    ensures HighestFactor(m, rs, g, bs', n, highest')
  {
    hide BorrowFactor;
    if highest' > ONE {
      if highest' == highest {
        var j :| 0 <= j < n - 1 && bs[j].Active() && bs[j].reserve in rs && bs[j].marketValue >= FromInt(m.minValueSkipBfChecks)
                 && BorrowFactor(rs[bs[j].reserve].config, g.Some?) == Ok(highest);
        assert bs'[j] == bs[j];
      } else {
        assert bs'[n - 1].Active();
      }
    }
  }

  // ---- the whole refresh --------------------------------------------------

  /** The values a refresh stores name the lowest liquidation threshold among the deposits
      that count and the highest borrow factor among the debts that count, and flag obsolete
      collateral and collateral that forbids borrowing outside elevation groups. */
  lemma RefreshFindsExtremes(m: Market, a: Accounts, slot: U64, checkCount: bool)
    requires WellFormed(a.o) && RefreshObligation(m, a, slot, checkCount).Ok?
    ensures UsableElevationGroup(m, a.o.group).Ok?
    ensures var g := UsableElevationGroup(m, a.o.group).value;
      var a' := RefreshObligation(m, a, slot, checkCount).value; var v, ds, bs := a'.o.values, a'.o.deposits, a'.o.borrows;
      && v.lowestLiquidationLtvPct < 256 && LowestThreshold(m, a'.reserves, g, ds, |ds|, v.lowestLiquidationLtvPct)
      && (exists highest: Fraction :: HighestFactor(m, a'.reserves, g, bs, |bs|, highest) && v.highestBorrowFactorPct == Round(highest * 100))
      && (v.obsoleteDeposits > 0 <==> SomeDeposit(a'.reserves, ds, |ds|, IsObsolete))
      && (v.borrowingDisabled <==> g.None? && SomeDeposit(a'.reserves, ds, |ds|, ForbidsBorrowing))
  {
    hide RefreshBorrowsUpTo, RefreshDepositsUpTo, UsableElevationGroup, DebtValued, DepositValued, SamePrices, SameBooks, Round,
         LowestThreshold, HighestFactor, SomeDeposit;
    var g := UsableElevationGroup(m, a.o.group).value;
    var b := RefreshBorrows(m, g, a.o, slot, a.reserves).value;
    forall i | 0 <= i < |a.o.borrows| && !a.o.borrows[i].Active()
      ensures a.o.borrows[i].marketValue == 0 && a.o.borrows[i].adjustedValue == 0
    { assert GoodBorrow(a.o.borrows[i]); }
    RefreshBorrowsMean(m, g, a.o, slot, a.reserves, |a.o.borrows|);
    RefreshBorrowsHighest(m, g, a.o, slot, a.reserves, |a.o.borrows|);
    var d := RefreshDeposits(m, g, b.totals.debt, slot, b.reserves, a.o.deposits, checkCount).value;
    forall i | 0 <= i < |a.o.deposits| && !a.o.deposits[i].Active() ensures a.o.deposits[i].marketValue == 0 {
      assert GoodDeposit(a.o.deposits[i]);
    }
    RefreshDepositsMean(m, g, b.totals.debt, slot, b.reserves, a.o.deposits, |a.o.deposits|);
    RefreshDepositsExtremes(m, g, b.totals.debt, slot, b.reserves, a.o.deposits, |a.o.deposits|);
    SamePricedConfigs(a.reserves, b.reserves);
    SameConfigs(b.reserves, d.reserves);
    FactorsOfConfigs(m, a.reserves, d.reserves, g, b.borrows, b.totals.highestFactor);
    ThresholdsOfConfigs(m, b.reserves, d.reserves, g, d.deposits, d.totals.lowestLiquidationLtvPct);
    SomeOfConfigs(b.reserves, d.reserves, d.deposits, IsObsolete);
    SomeOfConfigs(b.reserves, d.reserves, d.deposits, ForbidsBorrowing);
  }

  lemma FactorsOfConfigs(m: Market, rs: Pool, rs': Pool, g: Option<ElevationGroup>, bs: seq<Borrow>, highest: Fraction)
    requires rs'.Keys == rs.Keys && forall k :: k in rs ==> rs'[k].config == rs[k].config
    requires HighestFactor(m, rs, g, bs, |bs|, highest)
    ensures HighestFactor(m, rs', g, bs, |bs|, highest)
  {
    hide BorrowFactor;
  }

  lemma ThresholdsOfConfigs(m: Market, rs: Pool, rs': Pool, g: Option<ElevationGroup>, ds: seq<Deposit>, lowest: U8)
    requires rs'.Keys == rs.Keys && forall k :: k in rs ==> rs'[k].config == rs[k].config
    requires LowestThreshold(m, rs, g, ds, |ds|, lowest)
    ensures LowestThreshold(m, rs', g, ds, |ds|, lowest)
  {
    hide Counts, LiquidationThresholdPct;
  }

  lemma SomeOfConfigs(rs: Pool, rs': Pool, ds: seq<Deposit>, property: ReserveConfig -> bool)
    requires rs'.Keys == rs.Keys && forall k :: k in rs ==> rs'[k].config == rs[k].config
    ensures SomeDeposit(rs', ds, |ds|, property) <==> SomeDeposit(rs, ds, |ds|, property)
  {
  }
}
