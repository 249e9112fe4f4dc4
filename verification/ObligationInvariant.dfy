/** What every obligation of the market satisfies between transactions. */
module ObligationInvariant {
  import opened Results
  import opened FixedPoint
  import opened LastUpdates
  import opened Reserves
  import opened Markets
  import opened Obligations
  import opened MarketOperations
  import opened DebtTrackers
  import opened DebtPasses

  // ---- slots --------------------------------------------------------------

  predicate GoodDeposit(d: Deposit) {
    if d.Active() then d.amount > 0 else d == NO_DEPOSIT
  }

  predicate GoodBorrow(b: Borrow) {
    if b.Active() then b.borrowed > 0 && b.cumulativeRate > 0 else b == NO_BORROW
  }

  /** Active slots hold something and no reserve twice; inactive slots are blank. */
  ghost predicate GoodDeposits(ds: seq<Deposit>) {
    && |ds| == MAX_DEPOSITS
    && (forall i :: 0 <= i < |ds| ==> GoodDeposit(ds[i]))
    && forall i, j :: 0 <= i < j < |ds| && ds[i].Active() ==> ds[i].reserve != ds[j].reserve
  }

  ghost predicate GoodBorrows(bs: seq<Borrow>) {
    && |bs| == MAX_BORROWS
    && (forall i :: 0 <= i < |bs| ==> GoodBorrow(bs[i]))
    && forall i, j :: 0 <= i < j < |bs| && bs[i].Active() ==> bs[i].reserve != bs[j].reserve
  }

  ghost predicate NothingAgainstDeposits(ds: seq<Deposit>) {
    forall i :: 0 <= i < |ds| ==> ds[i].groupDebt == 0
  }

  ghost predicate NothingOutside(bs: seq<Borrow>) {
    forall i :: 0 <= i < |bs| ==> bs[i].outsideDebt == 0
  }

  /** Only the tracker family of the obligation's own kind is in use, and `has_debt`
      says whether some borrow is active. */
  ghost predicate WellFormed(o: Obligation) {
    && GoodDeposits(o.deposits) && GoodBorrows(o.borrows)
    && o.group <= MAX_NUM_ELEVATION_GROUPS
    && (o.group == ELEVATION_GROUP_NONE ==> NothingAgainstDeposits(o.deposits))
    && (o.group != ELEVATION_GROUP_NONE ==> NothingOutside(o.borrows))
    && o.hasDebt == !NoActiveBorrows(o.borrows)
  }

  // ---- indices and trackers -----------------------------------------------

  /** A debt's index is one its reserve has had. */
  ghost predicate Indexed(rs: Pool, b: Borrow) {
    b.Active() ==> b.reserve in rs && 0 < b.cumulativeRate <= rs[b.reserve].liquidity.cumulativeRate
  }

  /** If the reserve has not moved on since `slot`, the debt's index is the current one. */
  ghost predicate UpToDate(rs: Pool, slot: U64, b: Borrow) {
    b.Active() && b.reserve in rs ==>
      && slot <= rs[b.reserve].lastUpdate.slot
      && (slot == rs[b.reserve].lastUpdate.slot ==> b.cumulativeRate == rs[b.reserve].liquidity.cumulativeRate)
  }

  ghost predicate Backed(rs: Pool, o: Obligation) {
    && (forall i :: 0 <= i < |o.deposits| ==> o.deposits[i].Active() ==> o.deposits[i].reserve in rs)
    && (forall i :: 0 <= i < |o.borrows| ==> Indexed(rs, o.borrows[i]))
  }

  /** An obligation not marked stale is in step with its reserves. */
  ghost predicate InStep(rs: Pool, o: Obligation) {
    !o.lastUpdate.stale ==> forall i :: 0 <= i < |o.borrows| ==> UpToDate(rs, o.lastUpdate.slot, o.borrows[i])
  }

  /** An obligation not marked stale records its debts exactly, in whole tokens rounded up. */
  ghost predicate ExactlyTracked(o: Obligation) {
    !o.lastUpdate.stale ==>
      if o.group == ELEVATION_GROUP_NONE then
        forall i :: 0 <= i < |o.borrows| ==> o.borrows[i].outsideDebt == Ceil(o.borrows[i].borrowed)
      else
        forall i :: 0 <= i < |o.deposits| && o.deposits[i].Active() ==> o.deposits[i].groupDebt == WholeDebt(o.borrows)
  }

  ghost predicate ValidObligation(rs: Pool, o: Obligation) {
    WellFormed(o) && Backed(rs, o) && InStep(rs, o) && ExactlyTracked(o)
  }

  /** A reserve moves on: slots and indices only grow, and the index only with the slot. */
  ghost predicate Advances(r: Reserve, r': Reserve) {
    && r.lastUpdate.slot <= r'.lastUpdate.slot
    && r.liquidity.cumulativeRate <= r'.liquidity.cumulativeRate
    && (r.lastUpdate.slot == r'.lastUpdate.slot ==> r.liquidity.cumulativeRate == r'.liquidity.cumulativeRate)
  }

  ghost predicate PoolAdvances(rs: Pool, rs': Pool) {
    rs'.Keys == rs.Keys && forall k :: k in rs ==> Advances(rs[k], rs'[k])
  }

  lemma ValidWhilePoolAdvances(rs: Pool, rs': Pool, o: Obligation)
    requires ValidObligation(rs, o) && PoolAdvances(rs, rs')
    ensures ValidObligation(rs', o)
  {
    hide WellFormed, ExactlyTracked;
  }

  lemma SettlingAdvances(rs: Pool, o: Obligation, rs': Pool, o': Obligation)
    requires Settles(rs, o, rs', o')
    ensures PoolAdvances(rs, rs')
  {
    hide Surplus;
  }

  /** Freshness implies index agreement: whoever is fresh in the current slot owes at the
      current index of every reserve it borrows from. */
  lemma FreshDebtIsCurrent(rs: Pool, o: Obligation, i: nat, slot: U64, minimum: PriceStatus)
    requires ValidObligation(rs, o) && i < |o.borrows| && o.borrows[i].Active()
    requires NeedFreshObligation(o, slot, minimum).Ok?
    requires rs[o.borrows[i].reserve].lastUpdate.slot == slot
    ensures o.borrows[i].cumulativeRate == rs[o.borrows[i].reserve].liquidity.cumulativeRate
    ensures AccruedDebt(o.borrows[i], rs[o.borrows[i].reserve].liquidity.cumulativeRate) == Ok(o.borrows[i])
  {
    FreshMeansNow(o.lastUpdate, slot, minimum);
    assert UpToDate(rs, o.lastUpdate.slot, o.borrows[i]);
  }

  /** No debt ever sees its index fall. */
  lemma IndexNeverFalls(rs: Pool, o: Obligation, i: nat)
    requires ValidObligation(rs, o) && i < |o.borrows| && o.borrows[i].Active()
    ensures var r := AccruedDebt(o.borrows[i], rs[o.borrows[i].reserve].liquidity.cumulativeRate);
      r != Err(NegativeInterestRate) && r != Err(DivisionByZero)
  {
    assert Indexed(rs, o.borrows[i]);
  }

  // ---- keeping the shape --------------------------------------------------

  lemma DepositsKeepShape(ds: seq<Deposit>, ds': seq<Deposit>)
    requires GoodDeposits(ds) && |ds'| == |ds|
    requires forall i :: 0 <= i < |ds| ==> ds'[i].reserve == ds[i].reserve && ds'[i].amount == ds[i].amount
    requires forall i :: 0 <= i < |ds| && !ds[i].Active() ==> ds'[i] == ds[i]
    ensures GoodDeposits(ds')
  {
    forall i | 0 <= i < |ds'| ensures GoodDeposit(ds'[i]) { assert GoodDeposit(ds[i]); }
  }

  lemma BorrowsKeepShape(bs: seq<Borrow>, bs': seq<Borrow>)
    requires GoodBorrows(bs) && |bs'| == |bs|
    requires forall i :: 0 <= i < |bs| ==> bs'[i].reserve == bs[i].reserve
    requires forall i :: 0 <= i < |bs| && bs[i].Active() ==> bs'[i].borrowed > 0 && bs'[i].cumulativeRate > 0
    requires forall i :: 0 <= i < |bs| && !bs[i].Active() ==> bs'[i] == bs[i]
    ensures GoodBorrows(bs') && NoActiveBorrows(bs') == NoActiveBorrows(bs)
  {
    forall i | 0 <= i < |bs'| ensures GoodBorrow(bs'[i]) { assert GoodBorrow(bs[i]); }
    if NoActiveBorrows(bs') {
      forall i | 0 <= i < |bs| ensures !bs[i].Active() { assert !bs'[i].Active(); }
    }
  }

  /** A slot is emptied, changed, or filled for a reserve that had none. */
  lemma DepositSlotKeepsShape(ds: seq<Deposit>, i: nat, d: Deposit)
    requires GoodDeposits(ds) && i < |ds| && GoodDeposit(d)
    requires d.Active() ==> forall j :: 0 <= j < |ds| && j != i ==> ds[j].reserve != d.reserve
    ensures GoodDeposits(ds[i := d])
  {
  }

  lemma BorrowSlotKeepsShape(bs: seq<Borrow>, i: nat, b: Borrow)
    requires GoodBorrows(bs) && i < |bs| && GoodBorrow(b)
    requires b.Active() ==> forall j :: 0 <= j < |bs| && j != i ==> bs[j].reserve != b.reserve
    ensures GoodBorrows(bs[i := b])
  {
  }

  lemma {:induction false} CountsAreActive(bs: seq<Borrow>)
    ensures CountBorrows(bs) > 0 <==> !NoActiveBorrows(bs)
  {
    if bs == [] {
    } else {
      var front := bs[..|bs| - 1];
      CountsAreActive(front);
      if NoActiveBorrows(bs) { assert NoActiveBorrows(front); }
      if NoActiveBorrows(front) && !bs[|bs| - 1].Active() {
        forall i | 0 <= i < |bs| ensures !bs[i].Active() { if i < |bs| - 1 { assert front[i] == bs[i]; } }
      }
    }
  }

  lemma GroupIds(m: Market, id: nat)
    requires ValidMarket(m) && UsableElevationGroup(m, id).Ok?
    ensures id <= MAX_NUM_ELEVATION_GROUPS
    ensures var g := UsableElevationGroup(m, id).value; (g.None? <==> id == 0) && (g.Some? ==> g.value.id == id)
  {
  }
}
