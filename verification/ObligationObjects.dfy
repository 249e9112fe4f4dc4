/** The obligation as the program updates it in place (state/obligation.rs): each
    method is proved against the function it stands for. */
module ObligationObjects {
  import opened Results
  import opened FixedPoint
  import opened LastUpdates
  import opened Reserves
  import opened Obligations
  import opened Orders
  import opened MarketOperations

  class ObligationAccount {
    var lastUpdate: LastUpdate
    const deposits: array<Deposit>
    const borrows: array<Borrow>
    const orders: array<Order>
    var group: nat
    var hasDebt: bool
    const referrer: Option<nat>
    var values: Values
    var autodeleverageTargetLtvPct: U8
    var marginCallStartedAt: U64

    function View(): Obligation
      reads this, deposits, borrows, orders
    {
      Obligation(lastUpdate, deposits[..], borrows[..], group, hasDebt, referrer, values, orders[..],
                 autodeleverageTargetLtvPct, marginCallStartedAt)
    }

    /** `Obligation::init`. */
    constructor (referrer: Option<nat>, orderSlots: nat, slot: U64)
      ensures View().deposits == seq(MAX_DEPOSITS, _ => NO_DEPOSIT)
      ensures View().borrows == seq(MAX_BORROWS, _ => NO_BORROW)
      ensures View().orders == seq(orderSlots, _ => NO_ORDER)
      ensures group == ELEVATION_GROUP_NONE && !hasDebt && lastUpdate.stale && this.referrer == referrer
      ensures fresh(deposits) && fresh(borrows) && fresh(orders)
    {
      lastUpdate := LastUpdate(slot, true, NONE);
      deposits := new Deposit[MAX_DEPOSITS](_ => NO_DEPOSIT);
      borrows := new Borrow[MAX_BORROWS](_ => NO_BORROW);
      orders := new Order[orderSlots](_ => NO_ORDER);
      group, hasDebt, this.referrer := ELEVATION_GROUP_NONE, false, referrer;
      values := Values(0, 0, 0, 0, 0, 0, 0, 0, 0, 0, false);
      autodeleverageTargetLtvPct, marginCallStartedAt := 0, 0;
    }

    /** `repay`: a fully settled slot is cleared. */
    method Repay(settle: Fraction, i: nat) returns (r: Result<()>)
      requires i < borrows.Length
      modifies borrows
      ensures match RepaidSlot(old(borrows[i]), settle)
        case Ok(b) => r.Ok? && borrows[..] == old(borrows[..])[i := b]
        case Err(e) => r == Err(e) && borrows[..] == old(borrows[..])
    {
      if settle == borrows[i].borrowed {
        borrows[i] := NO_BORROW;
      } else {
        var debt :- Sub(borrows[i].borrowed, settle);
        borrows[i] := borrows[i].(borrowed := debt);
      }
      return Ok(());
    }

    /** `withdraw`: an emptied slot is cleared; tells whether it was. */
    method Withdraw(amount: U64, j: nat) returns (r: Result<bool>)
      requires j < deposits.Length
      modifies deposits
      ensures match WithdrawnSlot(old(deposits[j]), amount)
        case Ok(d) => r == Ok(amount == old(deposits[j].amount)) && deposits[..] == old(deposits[..])[j := d]
        case Err(e) => r == Err(e) && deposits[..] == old(deposits[..])
    {
      if amount == deposits[j].amount {
        deposits[j] := NO_DEPOSIT;
        return Ok(true);
      }
      if amount > deposits[j].amount {
        return Err(MathOverflow);
      }
      deposits[j] := deposits[j].(amount := deposits[j].amount - amount);
      return Ok(false);
    }

    /** `accrue_interest` of one borrow slot. */
    method AccrueInterest(i: nat, rate: U256) returns (r: Result<()>)
      requires i < borrows.Length
      modifies borrows
      ensures match AccruedDebt(old(borrows[i]), rate)
        case Ok(b) => r.Ok? && borrows[..] == old(borrows[..])[i := b]
        case Err(e) => r == Err(e) && borrows[..] == old(borrows[..])
    {
      var b := borrows[i];
      if rate < b.cumulativeRate {
        return Err(NegativeInterestRate);
      }
      if rate > b.cumulativeRate {
        var product :- Narrow256(b.borrowed * rate);
        if b.cumulativeRate == 0 {
          return Err(DivisionByZero);
        }
        var debt := product / b.cumulativeRate;
        if debt >= TWO_128 {
          return Err(MathOverflow);
        }
        borrows[i] := b.(borrowed := debt, cumulativeRate := rate);
      }
      return Ok(());
    }

    /** `update_has_debt`. */
    method UpdateHasDebt()
      modifies this`hasDebt
      ensures hasDebt == !NoActiveBorrows(borrows[..])
    {
      hasDebt := false;
      for i := 0 to borrows.Length
        invariant hasDebt <==> exists j :: 0 <= j < i && borrows[j].Active()
      {
        if borrows[i].Active() {
          hasDebt := true;
        }
      }
      assert hasDebt ==> exists j :: 0 <= j < borrows.Length && borrows[..][j].Active();
    }

    method MarkStale()
      modifies this`lastUpdate
      ensures lastUpdate == old(lastUpdate).MarkedStale()
    {
      lastUpdate := lastUpdate.(stale := true);
    }

    /** `position_of_collateral_in_deposits`: the first slot of a reserve. */
    method PositionOfCollateral(k: Key) returns (r: Result<nat>)
      ensures r == PositionOfDeposit(deposits[..], k)
    {
      var empty := true;
      for i := 0 to deposits.Length
        invariant empty <==> forall j :: 0 <= j < i ==> !deposits[j].Active()
      {
        empty := empty && !deposits[i].Active();
      }
      if empty {
        return Err(ObligationDepositsEmpty);
      }
      assert !NoActiveDeposits(deposits[..]) by {
        var j :| 0 <= j < deposits.Length && deposits[j].Active();
        assert deposits[..][j].Active();
      }
      for i := 0 to deposits.Length
        invariant FindDeposit(deposits[..], k, 0) == FindDeposit(deposits[..], k, i)
      {
        if deposits[i].reserve == k {
          return Ok(i);
        }
      }
      return Err(InvalidObligationCollateral);
    }

    /** `find_or_add_collateral_to_deposits`; tells whether the slot is new. */
    method FindOrAddCollateral(k: Key) returns (r: Result<(nat, bool)>)
      modifies deposits
      ensures r.Ok? ==> r.value.0 < deposits.Length
      ensures match FindDeposit(old(deposits[..]), k, 0)
        case Some(i) => r == Ok((i, false)) && deposits[..] == old(deposits[..])
        case None =>
          match FreeDeposit(old(deposits[..]))
          case Ok(i) => r == Ok((i, true)) && deposits[..] == old(deposits[..])[i := Deposit(k, 0, 0, 0)]
          case Err(e) => r == Err(e) && deposits[..] == old(deposits[..])
    {
      for i := 0 to deposits.Length
        invariant FindDeposit(deposits[..], k, 0) == FindDeposit(deposits[..], k, i)
      {
        if deposits[i].reserve == k {
          return Ok((i, false));
        }
      }
      for i := 0 to deposits.Length
        invariant FindDeposit(deposits[..], 0, 0) == FindDeposit(deposits[..], 0, i)
      {
        if !deposits[i].Active() {
          deposits[i] := Deposit(k, 0, 0, 0);
          return Ok((i, true));
        }
      }
      return Err(ObligationReserveLimit);
    }

    /** `find_or_add_liquidity_to_borrows`: a new slot starts at the given rate. */
    method FindOrAddLiquidity(k: Key, rate: U256) returns (r: Result<nat>)
      modifies borrows
      ensures match SlotForBorrow(old(borrows[..]), k, rate)
        case Ok(place) => r == Ok(place.0) && borrows[..] == old(borrows[..])[place.0 := place.1]
        case Err(e) => r == Err(e) && borrows[..] == old(borrows[..])
    {
      for i := 0 to borrows.Length
        invariant FindBorrow(borrows[..], k, 0) == FindBorrow(borrows[..], k, i)
      {
        if borrows[i].reserve == k {
          return Ok(i);
        }
      }
      for i := 0 to borrows.Length
        invariant FindBorrow(borrows[..], 0, 0) == FindBorrow(borrows[..], 0, i)
      {
        if !borrows[i].Active() {
          borrows[i] := Borrow(k, rate, 0, 0, 0, 0);
          return Ok(i);
        }
      }
      return Err(ObligationReserveLimit);
    }

    /** `ObligationOrder::consume` on the order at `i`. */
    method ConsumeOrder(i: nat, repay: U64) returns (r: Result<()>)
      requires i < orders.Length
      modifies orders
      ensures match Consumed(old(orders[i]), repay)
        case Ok(order) => r.Ok? && orders[..] == old(orders[..])[i := order]
        case Err(e) => r == Err(e) && orders[..] == old(orders[..])
    {
      var order := orders[i];
      if order.opportunity > DELEVERAGE_ALL_DEBT {
        return Err(Panic);
      }
      if order.opportunity == DELEVERAGE_SINGLE_DEBT_AMOUNT {
        var left := SatSub(order.opportunityParameter, FromInt(repay));
        orders[i] := if left == 0 then NO_ORDER else order.(opportunityParameter := left);
      }
      return Ok(());
    }

    /** The orders after a liquidation: without debt none survives, else the order that
        made the obligation eligible is consumed. */
    method SettleOrders(executed: Option<nat>, repay: U64) returns (r: Result<()>)
      requires executed.Some? ==> executed.value < orders.Length
      modifies orders
      ensures !hasDebt ==> r.Ok? && orders[..] == seq(orders.Length, _ => NO_ORDER)
      ensures hasDebt && executed.None? ==> r.Ok? && orders[..] == old(orders[..])
      ensures hasDebt && executed.Some? ==>
        match Consumed(old(orders[executed.value]), repay)
        case Ok(order) => r.Ok? && orders[..] == old(orders[..])[executed.value := order]
        case Err(e) => r == Err(e)
    {
      if !hasDebt {
        var _ := RemoveAllOrders(orders);
      } else if executed.Some? {
        r := ConsumeOrder(executed.value, repay);
        return;
      }
      return Ok(());
    }
  }
}
