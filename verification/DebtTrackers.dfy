/** The two families of duplicated debt trackers and their sums.

    A reserve tracks, outside elevation groups, the debt borrowed from it and, for
    each group, the debt borrowed against it; the obligations hold the parts.  Group
    0 stands for "outside". */
module DebtTrackers {
  import opened FixedPoint
  import opened Reserves
  import opened Obligations
  import opened MarketOperations

  // ---- an obligation's parts ----------------------------------------------

  function DepositShare(d: Deposit, k: Key): nat {
    if d.reserve == k then d.groupDebt else 0
  }

  function BorrowShare(b: Borrow, k: Key): nat {
    if b.reserve == k then b.outsideDebt else 0
  }

  function AgainstDeposits(ds: seq<Deposit>, k: Key): nat {
    if ds == [] then 0 else AgainstDeposits(ds[..|ds| - 1], k) + DepositShare(ds[|ds| - 1], k)
  }

  function FromBorrows(bs: seq<Borrow>, k: Key): nat {
    if bs == [] then 0 else FromBorrows(bs[..|bs| - 1], k) + BorrowShare(bs[|bs| - 1], k)
  }

  /** What the obligation contributes to the tracker of reserve `k` for group `g`. */
  function Owed(o: Obligation, g: nat, k: Key): nat {
    if g == 0 then FromBorrows(o.borrows, k) else if o.group == g then AgainstDeposits(o.deposits, k) else 0
  }

  lemma {:induction false} AgainstUpdate(ds: seq<Deposit>, i: nat, d: Deposit, k: Key)
    requires i < |ds|
    ensures AgainstDeposits(ds[i := d], k) == AgainstDeposits(ds, k) - DepositShare(ds[i], k) + DepositShare(d, k)
    ensures DepositShare(ds[i], k) <= AgainstDeposits(ds, k)
  {
    var last := |ds| - 1;
    if i < last {
      AgainstUpdate(ds[..last], i, d, k);
      assert ds[i := d][..last] == ds[..last][i := d];
    } else {
      assert ds[i := d][..last] == ds[..last];
    }
  }

  lemma {:induction false} FromUpdate(bs: seq<Borrow>, i: nat, b: Borrow, k: Key)
    requires i < |bs|
    ensures FromBorrows(bs[i := b], k) == FromBorrows(bs, k) - BorrowShare(bs[i], k) + BorrowShare(b, k)
    ensures BorrowShare(bs[i], k) <= FromBorrows(bs, k)
  {
    var last := |bs| - 1;
    if i < last {
      FromUpdate(bs[..last], i, b, k);
      assert bs[i := b][..last] == bs[..last][i := b];
    } else {
      assert bs[i := b][..last] == bs[..last];
    }
  }

  lemma {:induction false} NothingAgainst(ds: seq<Deposit>, k: Key)
    requires forall i :: 0 <= i < |ds| ==> ds[i].groupDebt == 0
    ensures AgainstDeposits(ds, k) == 0
  {
    if ds == [] {
    } else {
      NothingAgainst(ds[..|ds| - 1], k);
    }
  }

  lemma {:induction false} NothingFrom(bs: seq<Borrow>, k: Key)
    requires forall i :: 0 <= i < |bs| ==> bs[i].outsideDebt == 0
    ensures FromBorrows(bs, k) == 0
  {
    if bs == [] {
    } else {
      NothingFrom(bs[..|bs| - 1], k);
    }
  }

  // ---- a reserve's trackers -----------------------------------------------

  predicate Shaped(r: Reserve) {
    |r.groupDebts| == MAX_NUM_ELEVATION_GROUPS
  }

  function Tracked(r: Reserve, g: nat): U64
    requires Shaped(r) && g <= MAX_NUM_ELEVATION_GROUPS
  {
    if g == 0 then r.outsideDebt else r.groupDebts[g - 1]
  }

  /** Every reserve has an address, its 32 group trackers and a cumulative rate of at least one. */
  ghost predicate ValidPool(rs: Pool) {
    0 !in rs && forall k :: k in rs ==> Shaped(rs[k]) && rs[k].liquidity.cumulativeRate >= ONE
  }

  /** What a reserve tracks beyond what one obligation contributes. */
  ghost function Surplus(rs: Pool, o: Obligation, g: nat, k: Key): int
    requires k in rs && Shaped(rs[k]) && g <= MAX_NUM_ELEVATION_GROUPS
  {
    Tracked(rs[k], g) - Owed(o, g, k)
  }

  /** Each tracker is at least the obligation's part of it. */
  ghost predicate Covers(rs: Pool, o: Obligation)
    requires ValidPool(rs)
  {
    forall k, g: nat :: k in rs && g <= MAX_NUM_ELEVATION_GROUPS ==> Surplus(rs, o, g, k) >= 0
  }

  /** A reserve's interest index and the slot it stands at are untouched. */
  ghost predicate SameIndex(r: Reserve, r': Reserve) {
    r'.lastUpdate.slot == r.lastUpdate.slot && r'.liquidity.cumulativeRate == r.liquidity.cumulativeRate
  }

  /** An operation on one obligation moves every reserve's trackers by exactly what it
      moves the obligation's parts, and leaves all indices alone. */
  ghost predicate Settles(rs: Pool, o: Obligation, rs': Pool, o': Obligation) {
    && ValidPool(rs) && ValidPool(rs') && rs'.Keys == rs.Keys
    && (forall k :: k in rs ==> SameIndex(rs[k], rs'[k]))
    && (forall k, g: nat :: k in rs && g <= MAX_NUM_ELEVATION_GROUPS ==> Surplus(rs', o', g, k) == Surplus(rs, o, g, k))
  }

  lemma SettlesNothing(rs: Pool, o: Obligation, o': Obligation)
    requires ValidPool(rs) && o'.deposits == o.deposits && o'.borrows == o.borrows && o'.group == o.group
    ensures Settles(rs, o, rs, o')
  {
  }

  lemma SettlesPools(rs: Pool, o: Obligation, rs': Pool, o': Obligation)
    requires Settles(rs, o, rs', o')
    ensures ValidPool(rs) && ValidPool(rs') && rs'.Keys == rs.Keys
    ensures forall k :: k in rs ==> SameIndex(rs[k], rs'[k])
  {
  }

  lemma SettlesTransitive(rs0: Pool, o0: Obligation, rs1: Pool, o1: Obligation, rs2: Pool, o2: Obligation)
    requires Settles(rs0, o0, rs1, o1) && Settles(rs1, o1, rs2, o2)
    ensures Settles(rs0, o0, rs2, o2)
  {
    hide Owed, Tracked;
    forall k, g: nat | k in rs0 && g <= MAX_NUM_ELEVATION_GROUPS
      ensures Surplus(rs2, o2, g, k) == Surplus(rs0, o0, g, k)
    {
      assert Surplus(rs1, o1, g, k) == Surplus(rs0, o0, g, k);
    }
  }

  lemma SettlesCovers(rs: Pool, o: Obligation, rs': Pool, o': Obligation)
    requires Settles(rs, o, rs', o') && Covers(rs, o)
    ensures Covers(rs', o')
  {
    hide Owed, Tracked;
    forall k, g: nat | k in rs' && g <= MAX_NUM_ELEVATION_GROUPS ensures Surplus(rs', o', g, k) >= 0 {
      assert Surplus(rs', o', g, k) == Surplus(rs, o, g, k);
    }
  }

  /** Each part is within the reserve's tracker. */
  lemma PartsAreCovered(rs: Pool, o: Obligation)
    requires ValidPool(rs) && Covers(rs, o) && o.group <= MAX_NUM_ELEVATION_GROUPS
    ensures forall i :: 0 <= i < |o.borrows| && o.borrows[i].reserve in rs ==>
      o.borrows[i].outsideDebt <= rs[o.borrows[i].reserve].outsideDebt
    ensures forall i :: 0 <= i < |o.deposits| && o.deposits[i].reserve in rs && o.group > 0 ==>
      o.deposits[i].groupDebt <= rs[o.deposits[i].reserve].groupDebts[o.group - 1]
  {
    forall i | 0 <= i < |o.borrows| && o.borrows[i].reserve in rs
      ensures o.borrows[i].outsideDebt <= rs[o.borrows[i].reserve].outsideDebt
    {
      var k := o.borrows[i].reserve;
      assert Surplus(rs, o, 0, k) >= 0;
      FromUpdate(o.borrows, i, o.borrows[i], k);
    }
    forall i | 0 <= i < |o.deposits| && o.deposits[i].reserve in rs && o.group > 0
      ensures o.deposits[i].groupDebt <= rs[o.deposits[i].reserve].groupDebts[o.group - 1]
    {
      var k := o.deposits[i].reserve;
      assert Surplus(rs, o, o.group, k) >= 0;
      AgainstUpdate(o.deposits, i, o.deposits[i], k);
    }
  }

  // ---- single moves -------------------------------------------------------

  /** One deposit slot is replaced while its reserve's tracker for the obligation's group
      moves by the same amount. */
  lemma DepositMoves(rs: Pool, o: Obligation, i: nat, d: Deposit, k: Key, r: Reserve)
    requires ValidPool(rs) && k in rs && i < |o.deposits| && o.group <= MAX_NUM_ELEVATION_GROUPS
    requires o.deposits[i].reserve in {0, k} && d.reserve in {0, k}
    requires Shaped(r) && SameIndex(rs[k], r) && r.outsideDebt == rs[k].outsideDebt
    requires forall g :: 0 <= g < MAX_NUM_ELEVATION_GROUPS && g + 1 != o.group ==> r.groupDebts[g] == rs[k].groupDebts[g]
    requires o.group > 0 ==>
      r.groupDebts[o.group - 1] - DepositShare(d, k) == rs[k].groupDebts[o.group - 1] - DepositShare(o.deposits[i], k)
    ensures Settles(rs, o, rs[k := r], o.(deposits := o.deposits[i := d]))
  {
    var rs', o' := rs[k := r], o.(deposits := o.deposits[i := d]);
    forall kk, g: nat | kk in rs && g <= MAX_NUM_ELEVATION_GROUPS
      ensures Surplus(rs', o', g, kk) == Surplus(rs, o, g, kk)
    {
      AgainstUpdate(o.deposits, i, d, kk);
    }
  }

  /** One borrow slot is replaced while its reserve's outside tracker moves by the same amount. */
  lemma BorrowMoves(rs: Pool, o: Obligation, i: nat, b: Borrow, k: Key, r: Reserve)
    requires ValidPool(rs) && k in rs && i < |o.borrows|
    requires o.borrows[i].reserve in {0, k} && b.reserve in {0, k}
    requires Shaped(r) && SameIndex(rs[k], r) && r.groupDebts == rs[k].groupDebts
    requires r.outsideDebt - BorrowShare(b, k) == rs[k].outsideDebt - BorrowShare(o.borrows[i], k)
    ensures Settles(rs, o, rs[k := r], o.(borrows := o.borrows[i := b]))
  {
    var rs', o' := rs[k := r], o.(borrows := o.borrows[i := b]);
    forall kk, g: nat | kk in rs && g <= MAX_NUM_ELEVATION_GROUPS
      ensures Surplus(rs', o', g, kk) == Surplus(rs, o, g, kk)
    {
      FromUpdate(o.borrows, i, b, kk);
    }
  }

  /** A reserve whose trackers and index stay the same may change otherwise. */
  lemma ReserveMoves(rs: Pool, o: Obligation, k: Key, r: Reserve)
    requires ValidPool(rs) && k in rs
    requires SameIndex(rs[k], r) && r.outsideDebt == rs[k].outsideDebt && r.groupDebts == rs[k].groupDebts
    ensures Settles(rs, o, rs[k := r], o)
  {
  }

  /** An obligation without any recorded debt may change group. */
  lemma GroupMoves(rs: Pool, o: Obligation, group: nat)
    requires ValidPool(rs)
    requires forall i :: 0 <= i < |o.deposits| ==> o.deposits[i].groupDebt == 0
    ensures Settles(rs, o, rs, o.(group := group))
  {
    forall k, g: nat | k in rs && g <= MAX_NUM_ELEVATION_GROUPS
      ensures Surplus(rs, o.(group := group), g, k) == Surplus(rs, o, g, k)
    {
      NothingAgainst(o.deposits, k);
    }
  }
}
