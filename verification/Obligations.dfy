/** An obligation: its deposit and borrow slots (state/obligation.rs). */
module Obligations {
  import opened Results
  import opened FixedPoint
  import opened LastUpdates
  import opened Reserves

  const MAX_DEPOSITS: nat := 8
  const MAX_BORROWS: nat := 5

  /** `ObligationCollateral`; `groupDebt` is the debt recorded against it in the elevation group. */
  datatype Deposit = Deposit(reserve: Key, amount: U64, marketValue: Fraction, groupDebt: U64) {
    predicate Active() {
      reserve != 0
    }
  }

  /** `ObligationLiquidity`; `outsideDebt` is the debt recorded outside elevation groups. */
  datatype Borrow = Borrow(reserve: Key, cumulativeRate: U256, borrowed: Fraction, marketValue: Fraction,
                           adjustedValue: Fraction, outsideDebt: U64) {
    predicate Active() {
      reserve != 0
    }
  }

  const NO_DEPOSIT: Deposit := Deposit(0, 0, 0, 0)
  const NO_BORROW: Borrow := Borrow(0, 0, 0, 0, 0, 0)

  datatype Values = Values(
    deposited: Fraction,
    adjustedDebt: Fraction,
    debt: Fraction,
    allowedBorrow: Fraction,
    unhealthyBorrow: Fraction,
    lowestLiquidationLtvPct: U64,
    lowestMaxLtvPct: U8,
    highestBorrowFactorPct: U64,
    obsoleteDeposits: nat,
    obsoleteBorrows: nat,
    borrowingDisabled: bool)

  datatype Order = Order(
    conditionThreshold: Fraction,
    opportunityParameter: Fraction,
    minBonusBps: U16,
    maxBonusBps: U16,
    condition: U8,
    opportunity: U8)

  const NO_ORDER: Order := Order(0, 0, 0, 0, 0, 0)

  datatype Obligation = Obligation(
    lastUpdate: LastUpdate,
    deposits: seq<Deposit>,
    borrows: seq<Borrow>,
    group: nat,
    hasDebt: bool,
    referrer: Option<nat>,
    values: Values,
    orders: seq<Order>,
    autodeleverageTargetLtvPct: U8,
    marginCallStartedAt: U64)

  function FindDeposit(ds: seq<Deposit>, k: Key, from: nat): (r: Option<nat>)
    requires from <= |ds|
    ensures r.Some? ==> from <= r.value < |ds| && ds[r.value].reserve == k
    ensures r.Some? ==> forall j :: from <= j < r.value ==> ds[j].reserve != k
    ensures r.None? ==> forall j :: from <= j < |ds| ==> ds[j].reserve != k
    decreases |ds| - from
  {
    if from == |ds| then None else if ds[from].reserve == k then Some(from) else FindDeposit(ds, k, from + 1)
  }

  function FindBorrow(bs: seq<Borrow>, k: Key, from: nat): (r: Option<nat>)
    requires from <= |bs|
    ensures r.Some? ==> from <= r.value < |bs| && bs[r.value].reserve == k
    ensures r.Some? ==> forall j :: from <= j < r.value ==> bs[j].reserve != k
    ensures r.None? ==> forall j :: from <= j < |bs| ==> bs[j].reserve != k
    decreases |bs| - from
  {
    if from == |bs| then None else if bs[from].reserve == k then Some(from) else FindBorrow(bs, k, from + 1)
  }

  predicate NoActiveDeposits(ds: seq<Deposit>) {
    forall i :: 0 <= i < |ds| ==> !ds[i].Active()
  }

  predicate NoActiveBorrows(bs: seq<Borrow>) {
    forall i :: 0 <= i < |bs| ==> !bs[i].Active()
  }

  function CountDeposits(ds: seq<Deposit>): nat {
    if ds == [] then 0 else CountDeposits(ds[..|ds| - 1]) + if ds[|ds| - 1].Active() then 1 else 0
  }

  function CountBorrows(bs: seq<Borrow>): nat {
    if bs == [] then 0 else CountBorrows(bs[..|bs| - 1]) + if bs[|bs| - 1].Active() then 1 else 0
  }

  /** `accrue_interest` of one debt: the debt follows the growth of the cumulative rate. */
  function AccruedDebt(b: Borrow, rate: U256): Result<Borrow> {
    if rate < b.cumulativeRate then Err(NegativeInterestRate)
    else if rate == b.cumulativeRate then Ok(b)
    else
      var product :- Narrow256(b.borrowed * rate);
      if b.cumulativeRate == 0 then Err(DivisionByZero)
      else
        var debt := product / b.cumulativeRate;
        if debt >= TWO_128 then Err(MathOverflow)
        else Ok(b.(borrowed := debt, cumulativeRate := rate))
  }

  /** `Obligation::repay`: a fully settled slot is cleared. */
  function RepaidSlot(b: Borrow, settle: Fraction): Result<Borrow> {
    if settle == b.borrowed then Ok(NO_BORROW)
    else
      var debt :- Sub(b.borrowed, settle);
      Ok(b.(borrowed := debt))
  }

  /** `Obligation::withdraw`: an emptied slot is cleared. */
  function WithdrawnSlot(d: Deposit, amount: U64): Result<Deposit> {
    if amount == d.amount then Ok(NO_DEPOSIT)
    else if amount > d.amount then Err(MathOverflow)
    else Ok(d.(amount := d.amount - amount))
  }

  function LoanToValue(v: Values): Result<Fraction> {
    Div(v.adjustedDebt, v.deposited)
  }

  function NoBfLoanToValue(v: Values): Result<Fraction> {
    Div(v.debt, v.deposited)
  }

  function UnhealthyLoanToValue(v: Values): Result<Fraction> {
    Div(v.unhealthyBorrow, v.deposited)
  }

  /** The three loan-to-values are debt with borrow factors, debt without, and the unhealthy
      borrow value, each over the deposits and rounded down. */
  lemma LoanToValuesMean(v: Values)
    requires v.deposited > 0
    ensures LoanToValue(v).Ok? ==> LoanToValue(v).value * v.deposited <= v.adjustedDebt * ONE < (LoanToValue(v).value + 1) * v.deposited
    ensures NoBfLoanToValue(v).Ok? ==> NoBfLoanToValue(v).value * v.deposited <= v.debt * ONE < (NoBfLoanToValue(v).value + 1) * v.deposited
    ensures UnhealthyLoanToValue(v).Ok? ==>
      UnhealthyLoanToValue(v).value * v.deposited <= v.unhealthyBorrow * ONE < (UnhealthyLoanToValue(v).value + 1) * v.deposited
  {
    RatioFloors(v.adjustedDebt, v.deposited);
    RatioFloors(v.debt, v.deposited);
    RatioFloors(v.unhealthyBorrow, v.deposited);
  }

  lemma RatioFloors(a: nat, b: nat)
    requires b > 0
    ensures DivFloor(a, b) * b <= a * ONE < (DivFloor(a, b) + 1) * b
  {
    DivFloorBounds(a, b);
    assert (DivFloor(a, b) + 1) * b == DivFloor(a, b) * b + b;
  }
}
