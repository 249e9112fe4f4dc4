/** Every step that moves the books of one reserve (state/reserve.rs:469-738),
    as functions on the books, with the effect of each on the net supply. */
module ReserveBooks {
  import opened Results
  import opened FixedPoint
  import opened CompoundInterest
  import opened Reserves

  // ---- the steps ----------------------------------------------------------

  function Deposited(l: Liquidity, amount: U64): Result<Liquidity> {
    if l.available + amount >= TWO_64 then Err(MathOverflow)
    else Ok(l.(available := l.available + amount))
  }

  function Withdrawn(l: Liquidity, amount: U64): Result<Liquidity> {
    if amount > l.available then Err(InsufficientLiquidity)
    else Ok(l.(available := l.available - amount))
  }

  function Borrowed(l: Liquidity, amount: Fraction): Result<Liquidity> {
    var whole :- ToFloor(amount);
    if whole > l.available then Err(InsufficientLiquidity)
    else
      var debt :- Add(l.borrowed, amount);
      Ok(l.(available := l.available - whole, borrowed := debt))
  }

  /** The settled debt is capped at what the reserve still has outstanding. */
  function Repaid(l: Liquidity, repay: U64, settle: Fraction): Result<Liquidity> {
    if l.available + repay >= TWO_64 then Err(MathOverflow)
    else Ok(l.(available := l.available + repay, borrowed := SatSub(l.borrowed, settle)))
  }

  function FeesRedeemed(l: Liquidity, amount: U64): Result<Liquidity> {
    if amount > l.available then Err(MathOverflow)
    else if FromInt(amount) > l.protocolFees then Err(MathOverflow)
    else Ok(l.(available := l.available - amount, protocolFees := l.protocolFees - FromInt(amount)))
  }

  function ReferrerFeesWithdrawn(l: Liquidity, amount: U64): Result<Liquidity> {
    if amount > l.available then Err(MathOverflow)
    else if FromInt(amount) > l.referrerFees then Err(MathOverflow)
    else Ok(l.(available := l.available - amount, referrerFees := l.referrerFees - FromInt(amount)))
  }

  function Forgiven(l: Liquidity, amount: Fraction): Result<Liquidity> {
    var debt :- Sub(l.borrowed, amount);
    Ok(l.(borrowed := debt))
  }

  datatype Interest = Interest(newDebt: Fraction, fixedFee: Fraction, variableFee: Fraction,
                               referralRate: Fraction, referrersFee: Fraction)

  /** How the interest on a debt is split, given the compounded total and fixed rates. */
  function SplitInterest(debt: Fraction, total: Fraction, fixed: Fraction, takeRate: Fraction, referralRate: Fraction)
    : Result<Interest>
  {
    var newDebt :- Mul(debt, total);
    var atFixedRate :- Mul(debt, fixed);
    var fixedFee :- Sub(atFixedRate, debt);
    var growth :- Sub(newDebt, debt);
    var variable :- Sub(growth, fixedFee);
    var variableFee :- Mul(variable, takeRate);
    var absoluteRate :- Mul(takeRate, referralRate);
    var referrersFee :- Mul(variable, absoluteRate);
    Ok(Interest(newDebt, fixedFee, variableFee, absoluteRate, referrersFee))
  }

  /** `BigFraction * BigFraction`. */
  function MulRate(rate: U256, factor: Fraction): Result<U256> {
    var product :- Narrow256(rate * factor);
    Narrow256(product / ONE)
  }

  function InterestBooked(l: Liquidity, rate: U256, i: Interest): Result<Liquidity> {
    var a :- Add(l.protocolFees, i.fixedFee);
    var b :- Add(a, i.variableFee);
    var c :- Sub(b, i.referrersFee);
    var pending :- Add(l.pendingFees, i.referrersFee);
    Ok(l.(cumulativeRate := rate, borrowed := i.newDebt, protocolFees := c, pendingFees := pending,
          referralRate := i.referralRate))
  }

  /** `compound_interest`. */
  function Compounded(l: Liquidity, variableRate: Fraction, fixedRate: Fraction, slots: U64,
                      takeRate: Fraction, referralRate: Fraction): Result<Liquidity>
  {
    var sum :- Add(variableRate, fixedRate);
    var total :- ApproximateCompoundedInterest(sum, slots);
    var fixed :- ApproximateCompoundedInterest(fixedRate, slots);
    var rate :- MulRate(l.cumulativeRate, total);
    var interest :- SplitInterest(l.borrowed, total, fixed, takeRate, referralRate);
    InterestBooked(l, rate, interest)
  }

  /** A referrer fee set aside from tokens that stay in the vault
      (`add_referrer_fee` and the `available_amount += referrer_fee` beside it). */
  function ReferrerFeeRetained(l: Liquidity, fee: U64): Result<Liquidity> {
    var fees :- Add(l.referrerFees, FromInt(fee));
    var available :- Narrow64(l.available + fee);
    Ok(l.(referrerFees := fees, available := available))
  }

  /** Pending referrer fees attributed to a referrer, or to the protocol if there is none. */
  function PendingAttributed(l: Liquidity, fee: Fraction, toReferrer: bool): Result<Liquidity> {
    var pending :- Sub(l.pendingFees, fee);
    if toReferrer then
      var fees :- Add(l.referrerFees, fee);
      Ok(l.(pendingFees := pending, referrerFees := fees))
    else
      var fees :- Add(l.protocolFees, fee);
      Ok(l.(pendingFees := pending, protocolFees := fees))
  }

  // ---- interest -----------------------------------------------------------

  /** With rates of at most one, no subtraction in the split underflows and the fees
      are covered by the growth of the debt. */
  lemma SplitIsCovered(debt: Fraction, total: Fraction, fixed: Fraction, takeRate: Fraction, referralRate: Fraction)
    requires ONE <= fixed <= total && takeRate <= ONE && referralRate <= ONE
    ensures SplitInterest(debt, total, fixed, takeRate, referralRate) != Err(Underflow)
    ensures SplitInterest(debt, total, fixed, takeRate, referralRate).Ok? ==>
      var i := SplitInterest(debt, total, fixed, takeRate, referralRate).value;
      && i.newDebt == MulFloor(debt, total) >= debt
      && i.fixedFee + i.variableFee <= i.newDebt - debt
      && i.referrersFee <= i.variableFee
  {
    MulFloorUnit(debt, fixed);
    MulFloorMono(debt, debt, fixed, total);
    var variable: nat := MulFloor(debt, total) - MulFloor(debt, fixed);
    var absolute := MulFloor(takeRate, referralRate);
    MulFloorUnit(takeRate, referralRate);
    MulFloorUnit(variable, takeRate);
    MulFloorMono(variable, variable, absolute, takeRate);
  }

  /** Accrual never underflows for take and referral rates up to 100%; it lowers
      neither the debt nor the cumulative rate, both grow by the same factor of at
      least one, and the fees it books are at most the debt it adds. */
  lemma CompoundingIsSound(l: Liquidity, variableRate: Fraction, fixedRate: Fraction, slots: U64,
                           takeRate: Fraction, referralRate: Fraction)
    requires takeRate <= ONE && referralRate <= ONE
    ensures Compounded(l, variableRate, fixedRate, slots, takeRate, referralRate) != Err(Underflow)
    ensures Compounded(l, variableRate, fixedRate, slots, takeRate, referralRate).Ok? ==>
      var m := Compounded(l, variableRate, fixedRate, slots, takeRate, referralRate).value;
      var f := ApproximateCompoundedInterest(variableRate + fixedRate, slots).value;
      && f >= ONE
      && m.borrowed == MulFloor(l.borrowed, f) >= l.borrowed
      && m.cumulativeRate == MulFloor(l.cumulativeRate, f) >= l.cumulativeRate
      && (m.protocolFees + m.pendingFees) - (l.protocolFees + l.pendingFees) <= m.borrowed - l.borrowed
      && m.protocolFees >= l.protocolFees && m.pendingFees >= l.pendingFees
      && m.available == l.available && m.referrerFees == l.referrerFees
      && NetSupply(m) >= NetSupply(l)
  {
    hide ApproximateCompoundedInterest, SplitInterest, MulFloor, MulRate;
    var sum := variableRate + fixedRate;
    if sum < TWO_128 {
      OnlyOverflows(sum, slots);
      if ApproximateCompoundedInterest(sum, slots).Ok? {
        MonotoneInRate(fixedRate, sum, slots);
        AtLeastOne(fixedRate, slots);
        AtLeastOne(sum, slots);
        var f := ApproximateCompoundedInterest(sum, slots).value;
        SplitIsCovered(l.borrowed, f, ApproximateCompoundedInterest(fixedRate, slots).value, takeRate, referralRate);
        MulFloorUnit(l.cumulativeRate, f);
        MulRateIsFloor(l.cumulativeRate, f);
      }
    }
  }

  /** Accrual touches neither the tokens nor the referrers' fees. */
  lemma CompoundingLeaves(l: Liquidity, variableRate: Fraction, fixedRate: Fraction, slots: U64,
                          takeRate: Fraction, referralRate: Fraction)
    requires Compounded(l, variableRate, fixedRate, slots, takeRate, referralRate).Ok?
    ensures var m := Compounded(l, variableRate, fixedRate, slots, takeRate, referralRate).value;
      m.available == l.available && m.referrerFees == l.referrerFees
  {
    hide ApproximateCompoundedInterest, SplitInterest, MulRate;
  }

  lemma MulRateIsFloor(rate: U256, f: Fraction)
    ensures MulRate(rate, f) != Err(Underflow)
    ensures MulRate(rate, f).Ok? ==> MulRate(rate, f).value == MulFloor(rate, f)
  {
  }

  // ---- the other steps ----------------------------------------------------

  /** Debt grows by the exact amount, the vault gives out its floor: the net supply
      gains the fractional part. */
  lemma BorrowedNet(l: Liquidity, amount: Fraction)
    requires Borrowed(l, amount).Ok?
    ensures NetSupply(Borrowed(l, amount).value) == NetSupply(l) + amount - Floor(amount) * ONE
    ensures NetSupply(Borrowed(l, amount).value) >= NetSupply(l)
  {
    FloorCeil(amount);
  }

  /** The vault takes in at least what the debt falls by. */
  lemma RepaidNet(l: Liquidity, repay: U64, settle: Fraction)
    requires Repaid(l, repay, settle).Ok? && settle <= FromInt(repay)
    ensures NetSupply(Repaid(l, repay, settle).value) >= NetSupply(l)
  {
  }

  lemma NeutralSteps(l: Liquidity, amount: U64, fee: Fraction, toReferrer: bool)
    ensures FeesRedeemed(l, amount).Ok? ==> NetSupply(FeesRedeemed(l, amount).value) == NetSupply(l)
    ensures ReferrerFeesWithdrawn(l, amount).Ok? ==> NetSupply(ReferrerFeesWithdrawn(l, amount).value) == NetSupply(l)
    ensures ReferrerFeeRetained(l, amount).Ok? ==> NetSupply(ReferrerFeeRetained(l, amount).value) == NetSupply(l)
    ensures PendingAttributed(l, fee, toReferrer).Ok? ==>
      NetSupply(PendingAttributed(l, fee, toReferrer).value) == NetSupply(l)
  {
  }
}
