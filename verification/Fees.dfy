/** Origination fees and the sizing of borrows and repays
    (state/reserve.rs:269-354, 1111-1200). */
module Fees {
  import opened Results
  import opened Arithmetic
  import opened FixedPoint
  import opened Reserves

  datatype FeeCalculation = Exclusive | Inclusive

  datatype FeeSplit = FeeSplit(protocol: U64, referrer: U64)

  function FeeAmount(amount: Fraction, rate: Fraction, mode: FeeCalculation): Result<Fraction> {
    match mode
    case Exclusive => Mul(amount, rate)
    case Inclusive =>
      var whole :- Add(rate, ONE);
      var part :- Div(rate, whole);
      Mul(amount, part)
  }

  /** `calculate_fees`. */
  function CalculateFees(amount: Fraction, rate: U64, mode: FeeCalculation, referralFeeBps: U16, hasReferrer: bool)
    : Result<FeeSplit>
  {
    var referralRate := FromBps(referralFeeBps);
    if rate > 0 && amount > 0 then
      var feeAmount :- FeeAmount(amount, rate, mode);
      var fee: Fraction := if feeAmount >= ONE then feeAmount else ONE;
      if fee >= amount then Err(BorrowTooSmall)
      else
        var total :- ToRound(fee);
        var referrer :- ReferrerShare(fee, total, referralRate, referralFeeBps, hasReferrer);
        var protocol :- Narrow64(total - referrer);
        Ok(FeeSplit(protocol, referrer))
    else Ok(FeeSplit(0, 0))
  }

  function ReferrerShare(fee: Fraction, total: U64, referralRate: nat, referralFeeBps: U16, hasReferrer: bool)
    : Result<U64>
  {
    if referralRate > 0 && hasReferrer then
      if referralFeeBps == 10_000 then Ok(total)
      else
        var f :- Narrow(MulFloor(fee, referralRate));
        ToFloor(f)
    else Ok(0)
  }

  datatype BorrowQuote = BorrowQuote(borrowAmount: Fraction, receiveAmount: U64, borrowFee: U64, referrerFee: U64)

  /** The value of a debt after the borrow factor, as the exact-amount path computes it. */
  function AdjustedValue(r: Reserve, amount: Fraction, inGroup: bool): Result<Fraction> {
    var value :- MarketValue(r.liquidity, amount);
    var factor :- BorrowFactor(r.config, inGroup);
    Mul(value, factor)
  }

  /** The largest debt allowed by value, reserve capacity and available liquidity. */
  function LargestBorrow(r: Reserve, maxValue: Fraction, remaining: Fraction, inGroup: bool): Result<Fraction> {
    var scaled :- MulInt(maxValue, MintFactor(r.liquidity));
    var priced :- Div(scaled, r.liquidity.price);
    var factor :- BorrowFactor(r.config, inGroup);
    var byValue :- Div(priced, factor);
    Narrow(Min(Min(byValue, remaining), FromInt(r.liquidity.available)))
  }

  /** `calculate_borrow`. */
  function CalculateBorrow(r: Reserve, amount: U64, maxValue: Fraction, remaining: Fraction,
                           referralFeeBps: U16, inGroup: bool, hasReferrer: bool): Result<BorrowQuote>
  {
    if amount == MAX_U64 then
      var borrow :- LargestBorrow(r, maxValue, remaining, inGroup);
      var fees :- CalculateFees(borrow, r.config.borrowFee, Inclusive, referralFeeBps, hasReferrer);
      var whole :- ToFloor(borrow);
      var afterFee :- Narrow64(whole - fees.protocol);
      var receive :- Narrow64(afterFee - fees.referrer);
      Ok(BorrowQuote(borrow, receive, fees.protocol, fees.referrer))
    else
      var fees :- CalculateFees(FromInt(amount), r.config.borrowFee, Exclusive, referralFeeBps, hasReferrer);
      var fee :- Narrow64(fees.protocol + fees.referrer);
      var borrow :- Add(FromInt(amount), FromInt(fee));
      var value :- AdjustedValue(r, borrow, inGroup);
      if value > maxValue then Err(BorrowTooLarge)
      else Ok(BorrowQuote(borrow, amount, fees.protocol, fees.referrer))
  }

  datatype RepayQuote = RepayQuote(settle: Fraction, repay: U64)

  /** `calculate_repay`. */
  function CalculateRepay(amount: U64, borrowed: Fraction): (r: Result<RepayQuote>)
    ensures r.Ok? ==> r.value.settle <= borrowed
    ensures r.Ok? ==> r.value.settle <= FromInt(r.value.repay) < r.value.settle + ONE
    ensures r.Ok? && amount != MAX_U64 ==> r.value.repay <= amount
    ensures r.Ok? ==> r.value.settle == borrowed || (amount != MAX_U64 && r.value.settle == FromInt(amount))
  {
    var settle: Fraction := if amount == MAX_U64 then borrowed else Min(FromInt(amount), borrowed);
    FloorCeil(settle);
    CeilLe(settle, ONE, if amount == MAX_U64 then Ceil(settle) else amount);
    var repay :- ToCeil(settle);
    Ok(RepayQuote(settle, repay))
  }

  // ---- properties ---------------------------------------------------------

  lemma BpsBelowOne(bps: U16)
    requires bps <= 10_000
    ensures FromBps(bps) <= ONE
    ensures FromBps(10_000) == ONE
  {
  }

  /** The referrer never gets more than the whole fee. */
  lemma ReferrerShareBounded(fee: Fraction, total: U64, bps: U16, hasReferrer: bool)
    requires bps <= 10_000 && ToRound(fee) == Ok(total)
    requires ReferrerShare(fee, total, FromBps(bps), bps, hasReferrer).Ok?
    ensures ReferrerShare(fee, total, FromBps(bps), bps, hasReferrer).value <= total
  {
    BpsBelowOne(bps);
    MulFloorUnit(fee, FromBps(bps));
    DivMono(MulFloor(fee, FromBps(bps)), fee + ONE / 2, ONE);
  }

  /** The split pays out the rounded fee exactly and does not underflow, and the
      fee is between one token and just below the amount. */
  lemma FeesAddUp(amount: Fraction, rate: U64, mode: FeeCalculation, bps: U16, hasReferrer: bool)
    requires bps <= 10_000
    ensures CalculateFees(amount, rate, mode, bps, hasReferrer) != Err(Underflow)
    ensures CalculateFees(amount, rate, mode, bps, hasReferrer).Ok? && rate > 0 && amount > 0 ==>
      var s := CalculateFees(amount, rate, mode, bps, hasReferrer).value;
      && FeeAmount(amount, rate, mode).Ok?
      && s.protocol + s.referrer == Round(Max(FeeAmount(amount, rate, mode).value, ONE))
      && Max(FeeAmount(amount, rate, mode).value, ONE) < amount
  {
    if rate > 0 && amount > 0 && FeeAmount(amount, rate, mode).Ok? {
      var f := FeeAmount(amount, rate, mode).value;
      var fee: Fraction := if f >= ONE then f else ONE;
      if ToRound(fee).Ok? && ReferrerShare(fee, ToRound(fee).value, FromBps(bps), bps, hasReferrer).Ok? {
        ReferrerShareBounded(fee, ToRound(fee).value, bps, hasReferrer);
      }
    }
  }

  /** An inclusive fee rate is below one half, so the rounded fee fits into the whole tokens. */
  lemma InclusiveFeeFits(amount: Fraction, rate: U64)
    requires 0 < rate < ONE && FeeAmount(amount, rate, Inclusive).Ok?
    requires Max(FeeAmount(amount, rate, Inclusive).value, ONE) < amount
    ensures Round(Max(FeeAmount(amount, rate, Inclusive).value, ONE)) <= Floor(amount)
  {
    hide MulFloor, DivFloor, Round, Floor;
    var part := DivFloor(rate, rate + ONE);
    DivFloorBounds(rate, rate + ONE);
    HalfBound(part, rate, ONE);
    MulBounds(amount, part);
    HalfProduct(amount, part, MulFloor(amount, part), ONE);
    RoundOfHalf(amount, MulFloor(amount, part));
  }

  lemma HalfProduct(amount: nat, part: nat, fee: nat, one: nat)
    requires one > 0 && 2 * part <= one && fee * one <= amount * part
    ensures 2 * fee <= amount
  {
    MulLeft(amount, 2 * part, one);
    assert amount * (2 * part) == 2 * (amount * part);
    assert one * (2 * fee) == 2 * (fee * one);
    MulCancel(one, 2 * fee, amount);
  }

  lemma HalfBound(part: nat, rate: nat, one: nat)
    requires rate < one && part * (rate + one) <= rate * one
    ensures 2 * part <= one
  {
    MulLeft(one, rate, one);
    assert (rate + one) * (2 * part) == 2 * (part * (rate + one));
    assert (rate + one) * one == rate * one + one * one;
    MulCancel(rate + one, 2 * part, one);
  }

  lemma RoundOfHalf(amount: nat, fee: nat)
    requires 2 * fee <= amount && ONE < amount
    ensures Round(Max(fee, ONE)) <= Floor(amount)
  {
  }

  lemma WholeBorrowSplits(r: Reserve, maxValue: Fraction, remaining: Fraction, bps: U16, inGroup: bool, hasReferrer: bool)
    requires bps <= 10_000 && r.config.borrowFee < ONE
    ensures var q := CalculateBorrow(r, MAX_U64, maxValue, remaining, bps, inGroup, hasReferrer);
      && q != Err(Underflow)
      && (q.Ok? ==> q.value.receiveAmount + q.value.borrowFee + q.value.referrerFee == Floor(q.value.borrowAmount))
  {
    hide FeeAmount, ReferrerShare, Floor, Round;
    LargestBorrowSafe(r, maxValue, remaining, inGroup);
    if LargestBorrow(r, maxValue, remaining, inGroup).Ok? {
      hide LargestBorrow;
      var borrow := LargestBorrow(r, maxValue, remaining, inGroup).value;
      FeesAddUp(borrow, r.config.borrowFee, Inclusive, bps, hasReferrer);
      if CalculateFees(borrow, r.config.borrowFee, Inclusive, bps, hasReferrer).Ok? {
        if r.config.borrowFee > 0 && borrow > 0 {
          InclusiveFeeFits(borrow, r.config.borrowFee);
        }
      }
    }
  }

  lemma ExactBorrowSplits(r: Reserve, amount: U64, maxValue: Fraction, remaining: Fraction,
                          bps: U16, inGroup: bool, hasReferrer: bool)
    requires bps <= 10_000 && amount != MAX_U64
    ensures var q := CalculateBorrow(r, amount, maxValue, remaining, bps, inGroup, hasReferrer);
      && q != Err(Underflow)
      && (q.Ok? ==> q.value.receiveAmount + q.value.borrowFee + q.value.referrerFee == Floor(q.value.borrowAmount))
  {
    hide CalculateFees, AdjustedValue;
    FeesAddUp(FromInt(amount), r.config.borrowFee, Exclusive, bps, hasReferrer);
    forall borrow: Fraction ensures AdjustedValue(r, borrow, inGroup) != Err(Underflow) {
      AdjustedValueSafe(r, borrow, inGroup);
    }
  }

  lemma AdjustedValueSafe(r: Reserve, amount: Fraction, inGroup: bool)
    ensures AdjustedValue(r, amount, inGroup) != Err(Underflow)
  {
  }

  /** What the borrower receives and the two fees are together exactly the whole
      tokens of the new debt, and no subtraction on the way underflows. */
  lemma BorrowSplitsExactly(r: Reserve, amount: U64, maxValue: Fraction, remaining: Fraction,
                            bps: U16, inGroup: bool, hasReferrer: bool)
    requires bps <= 10_000 && r.config.borrowFee < ONE
    ensures var q := CalculateBorrow(r, amount, maxValue, remaining, bps, inGroup, hasReferrer);
      && q != Err(Underflow)
      && (q.Ok? ==> q.value.receiveAmount + q.value.borrowFee + q.value.referrerFee == Floor(q.value.borrowAmount))
  {
    hide CalculateBorrow;
    if amount == MAX_U64 {
      WholeBorrowSplits(r, maxValue, remaining, bps, inGroup, hasReferrer);
    } else {
      ExactBorrowSplits(r, amount, maxValue, remaining, bps, inGroup, hasReferrer);
    }
  }

  lemma LargestBorrowSafe(r: Reserve, maxValue: Fraction, remaining: Fraction, inGroup: bool)
    ensures LargestBorrow(r, maxValue, remaining, inGroup) != Err(Underflow)
  {
  }

  /** Three floors undone: the largest debt allowed by value is worth at most that value. */
  lemma ValueOfLargest(maxValue: nat, mint: nat, price: nat, factor: nat, o: nat, borrow: nat)
    requires mint > 0 && price > 0 && factor > 0 && o > 0
    requires borrow <= (maxValue * mint * o / price) * o / factor
    ensures ((borrow * price / o) / mint) * factor / o <= maxValue
  {
    var priced := maxValue * mint * o / price;
    DivBounds(maxValue * mint * o, price);
    DivBounds(priced * o, factor);
    MulLeft(factor, borrow, priced * o / factor);
    assert borrow * factor <= priced * o;
    var value := borrow * price / o;
    DivBounds(borrow * price, o);
    DivBounds(value, mint);
    var v := value / mint;
    // v * mint * o <= borrow * price, hence v * factor * mint * o <= priced * o * price <= maxValue * mint * o * o
    ValueChain(v, mint, o, value, borrow, price, factor, priced, maxValue);
    DivMono(v * factor, maxValue * o, o);
    DivExact(maxValue, o);
  }

  lemma ValueChain(v: nat, mint: nat, o: nat, value: nat, borrow: nat, price: nat, factor: nat, priced: nat, maxValue: nat)
    requires mint > 0 && o > 0
    requires v * mint <= value && value * o <= borrow * price
    requires borrow * factor <= priced * o && priced * price <= maxValue * mint * o
    ensures v * factor <= maxValue * o
  {
    assert o * (v * mint) <= borrow * price by { MulThrough(o, v * mint, value, borrow * price); }
    assert price * (borrow * factor) <= o * (maxValue * mint * o) by {
      MulLeft(price, borrow * factor, priced * o);
      MulSwap(price, priced, o);
      MulLeft(o, priced * price, maxValue * mint * o);
      assert priced * (price * o) == o * (priced * price) by { MulSwap(o, priced, price); }
    }
    assert factor * (o * (v * mint)) <= price * (borrow * factor) by {
      MulLeft(factor, o * (v * mint), borrow * price);
      MulSwap(factor, borrow, price);
      MulSwap(price, borrow, factor);
    }
    ValueReordered(v, mint, o, factor, maxValue);
    MulLeft(o, 1, mint);
    MulCancel(o * mint, v * factor, maxValue * o);
  }

  lemma ValueReordered(v: nat, mint: nat, o: nat, factor: nat, maxValue: nat)
    ensures factor * (o * (v * mint)) == (o * mint) * (v * factor)
    ensures o * (maxValue * mint * o) == (o * mint) * (maxValue * o)
  {
  }

  /** In both paths an accepted borrow adds at most the allowed value to the debt. */
  lemma AcceptedBorrowWithinValue(r: Reserve, amount: U64, maxValue: Fraction, remaining: Fraction,
                                  bps: U16, inGroup: bool, hasReferrer: bool)
    requires CalculateBorrow(r, amount, maxValue, remaining, bps, inGroup, hasReferrer).Ok?
    ensures var q := CalculateBorrow(r, amount, maxValue, remaining, bps, inGroup, hasReferrer).value;
      AdjustedValue(r, q.borrowAmount, inGroup).Ok? ==> AdjustedValue(r, q.borrowAmount, inGroup).value <= maxValue
  {
    hide CalculateFees, MintFactor;
    if amount == MAX_U64 {
      var q := CalculateBorrow(r, amount, maxValue, remaining, bps, inGroup, hasReferrer).value;
      var factor := BorrowFactor(r.config, inGroup).value;
      assert factor >= ONE;
      ValueOfLargest(maxValue, MintFactor(r.liquidity), r.liquidity.price, factor, ONE, q.borrowAmount);
    }
  }

  // ---- how much the fees are ----------------------------------------------

  /** Without a rate, or on nothing, no fee is taken. */
  lemma NoRateNoFee(amount: Fraction, rate: U64, mode: FeeCalculation, bps: U16, hasReferrer: bool)
    requires rate == 0 || amount == 0
    ensures CalculateFees(amount, rate, mode, bps, hasReferrer) == Ok(FeeSplit(0, 0))
  {
  }

  /** The fee of an exact amount is the rate of that amount, rounded to the nearest whole
      token and at least one, and less than the amount by half a token at least. */
  lemma ExclusiveFee(amount: Fraction, rate: U64, bps: U16, hasReferrer: bool)
    requires rate > 0 && amount > 0 && CalculateFees(amount, rate, Exclusive, bps, hasReferrer).Ok?
    ensures var s := CalculateFees(amount, rate, Exclusive, bps, hasReferrer).value; var fee := s.protocol + s.referrer;
      && 1 <= fee && 2 * fee * ONE < 2 * amount + ONE
      && (amount * rate >= ONE * ONE ==> 2 * fee * (ONE * ONE) <= 2 * (amount * rate) + ONE * ONE)
      && (amount * rate < ONE * ONE ==> fee == 1)
      && 2 * (amount * rate) < 2 * fee * (ONE * ONE) + ONE * ONE + ONE
  {
    hide ReferrerShare, MulFloor, Round;
    var f := MulFloor(amount, rate);
    var fee := if f >= ONE then f else ONE;
    MulBounds(amount, rate);
    RoundNearest(fee);
    FromIntExact(1);
    ScaledRound(f, fee, Round(fee), amount * rate);
  }

  lemma ScaledRound(f: nat, fee: nat, whole: nat, product: nat)
    requires f * ONE <= product < f * ONE + ONE && fee == if f >= ONE then f else ONE
    requires 2 * whole * ONE <= 2 * fee + ONE < 2 * whole * ONE + 2 * ONE
    ensures f >= ONE <==> product >= ONE * ONE
    ensures f >= ONE ==> 2 * whole * (ONE * ONE) <= 2 * product + ONE * ONE
    ensures 2 * product < 2 * whole * (ONE * ONE) + ONE * ONE + ONE
  {
  }

  /** The fee taken out of a whole amount is the rate of what is left of it: fee times one
      plus the rate is the rate of the amount, up to the floors and the rounding. */
  lemma InclusiveFee(amount: Fraction, rate: U64, bps: U16, hasReferrer: bool)
    requires rate > 0 && amount > 0 && CalculateFees(amount, rate, Inclusive, bps, hasReferrer).Ok?
    ensures var s := CalculateFees(amount, rate, Inclusive, bps, hasReferrer).value; var fee := s.protocol + s.referrer;
      && 1 <= fee && 2 * fee * ONE < 2 * amount + ONE
      && (fee > 1 ==> ((2 * fee - 1) * ONE) * (ONE + rate) <= 2 * (amount * rate))
      && 2 * (amount * rate) * ONE < ((2 * fee * ONE + ONE + 1) * ONE + 2 * amount) * (ONE + rate)
  {
    hide ReferrerShare, MulFloor, DivFloor, Round;
    var part := DivFloor(rate, rate + ONE);
    var f := MulFloor(amount, part);
    var fee := if f >= ONE then f else ONE;
    var whole := Round(fee);
    DivFloorBounds(rate, rate + ONE);
    MulBounds(amount, part);
    RoundNearest(fee);
    FromIntExact(1);
    PartAtMost(amount, rate, part, f);
    ShareAbove(amount, rate, rate + ONE, part, f);
    RoundedPart(amount, amount * rate, ONE + rate, f, whole);
  }

  lemma PartAtMost(amount: nat, rate: nat, part: nat, f: nat)
    requires part * (rate + ONE) <= rate * ONE && f * ONE <= amount * part
    ensures f * (ONE + rate) <= amount * rate
  {
    MulLeft(rate + ONE, f * ONE, amount * part);
    MulLeft(amount, part * (rate + ONE), rate * ONE);
    MulSwap(rate + ONE, amount, part);
    assert (rate + ONE) * part == part * (rate + ONE);
    assert (rate + ONE) * (f * ONE) == ONE * (f * (ONE + rate));
    assert amount * (rate * ONE) == ONE * (amount * rate);
  }

  lemma RoundedPart(amount: nat, product: nat, k: nat, f: nat, whole: nat)
    requires f * k <= product && product * ONE < ((f + 1) * ONE + amount) * k
    requires var fee := if f >= ONE then f else ONE; 2 * whole * ONE <= 2 * fee + ONE < 2 * whole * ONE + 2 * ONE
    ensures whole > 1 ==> ((2 * whole - 1) * ONE) * k <= 2 * product
    ensures 2 * product * ONE < ((2 * whole * ONE + ONE + 1) * ONE + 2 * amount) * k
  {
    if whole > 1 {
      MulLeft(k, (2 * whole - 1) * ONE, 2 * f);
      assert k * (2 * f) == 2 * (f * k);
    }
    var x, y := (f + 1) * ONE + amount, (2 * whole * ONE + ONE + 1) * ONE + 2 * amount;
    MulLeft(k, 2 * x, y);
    assert k * (2 * x) == 2 * (x * k);
  }

  /** The referrer's part of the fee: all of it at 100%, nothing without a referrer or a
      rate, and otherwise its share of the fee, rounded down. */
  lemma ReferrersPart(amount: Fraction, rate: U64, mode: FeeCalculation, bps: U16, hasReferrer: bool)
    requires rate > 0 && amount > 0 && CalculateFees(amount, rate, mode, bps, hasReferrer).Ok?
    ensures var s := CalculateFees(amount, rate, mode, bps, hasReferrer).value; var fee := s.protocol + s.referrer;
      && (!hasReferrer || bps == 0 ==> s.referrer == 0)
      && (hasReferrer && bps == 10_000 ==> s.referrer == fee)
      && (hasReferrer && 0 < bps != 10_000 ==>
            && 2 * 10_000 * s.referrer <= (2 * fee + 1) * bps
            && (2 * fee - 1) * bps * ONE < 10_000 * (2 * (s.referrer + 1) * ONE + 2 * fee + 1))
  {
    hide FeeAmount, Round, MulFloor, FromBps, Floor;
    var f := FeeAmount(amount, rate, mode).value;
    var fee: Fraction := if f >= ONE then f else ONE;
    RoundNearest(fee);
    SharesOfOne(bps);
    if hasReferrer && 0 < bps != 10_000 {
      assert FromBps(bps) > 0;
      ShareOfFee(fee, bps, Round(fee));
    }
  }

  lemma ShareOfFee(fee: Fraction, bps: U16, whole: nat)
    requires whole > 0 && 2 * whole * ONE <= 2 * fee + ONE < 2 * whole * ONE + 2 * ONE
    ensures var referrer := Floor(MulFloor(fee, FromBps(bps)));
      && 2 * 10_000 * referrer <= (2 * whole + 1) * bps
      && (2 * whole - 1) * bps * ONE < 10_000 * (2 * (referrer + 1) * ONE + 2 * whole + 1)
  {
    hide MulFloor, Floor, FromBps;
    var share := FromBps(bps);
    var product := MulFloor(fee, share);
    SharesOfOne(bps);
    MulBounds(fee, share);
    FloorCeil(product);
    ShareAtMost(fee, share, bps, product, Floor(product), whole);
    ShareAtLeast(fee, share, bps, product, Floor(product), whole);
  }

  lemma ShareAtMost(fee: nat, share: nat, bps: nat, product: nat, referrer: nat, whole: nat)
    requires share * 10_000 <= bps * ONE && product * ONE <= fee * share && referrer * ONE <= product
    requires 2 * fee + ONE < 2 * whole * ONE + 2 * ONE
    ensures 2 * 10_000 * referrer <= (2 * whole + 1) * bps
  {
    MulLeft(fee, share * 10_000, bps * ONE);
    assert fee * (bps * ONE) == ONE * (fee * bps) && fee * (share * 10_000) == 10_000 * (fee * share);
    MulLeft(bps, 2 * fee, (2 * whole + 1) * ONE);
    assert bps * ((2 * whole + 1) * ONE) == ONE * ((2 * whole + 1) * bps) && bps * (2 * fee) == 2 * (fee * bps);
  }

  lemma ShareAtLeast(fee: nat, share: nat, bps: nat, product: nat, referrer: nat, whole: nat)
    requires whole > 0 && bps * ONE < (share + 1) * 10_000 && fee * share < product * ONE + ONE && product < referrer * ONE + ONE
    requires 2 * whole * ONE <= 2 * fee + ONE < 2 * whole * ONE + 2 * ONE
    ensures (2 * whole - 1) * bps * ONE < 10_000 * (2 * (referrer + 1) * ONE + 2 * whole + 1)
  {
    UnroundedShare(fee, share, bps);
    MulLeft(bps, (2 * whole - 1) * ONE, 2 * fee);
    assert bps * ((2 * whole - 1) * ONE) == (2 * whole - 1) * bps * ONE;
    assert bps * (2 * fee) == 2 * (fee * bps);
  }

  lemma UnroundedShare(fee: nat, share: nat, bps: nat)
    requires bps * ONE < (share + 1) * 10_000
    ensures ONE * (fee * bps) <= 10_000 * (fee * share) + 10_000 * fee
  {
    MulLeft(fee, bps * ONE, (share + 1) * 10_000);
    assert fee * ((share + 1) * 10_000) == 10_000 * (fee * share) + 10_000 * fee;
    assert fee * (bps * ONE) == ONE * (fee * bps);
  }

  /** An exact borrow books the amount and its whole fee, and hands out the amount. */
  lemma ExactBorrow(r: Reserve, amount: U64, maxValue: Fraction, remaining: Fraction, bps: U16, inGroup: bool, hasReferrer: bool)
    requires amount != MAX_U64 && CalculateBorrow(r, amount, maxValue, remaining, bps, inGroup, hasReferrer).Ok?
    ensures var q := CalculateBorrow(r, amount, maxValue, remaining, bps, inGroup, hasReferrer).value;
      && q.receiveAmount == amount && q.borrowAmount == (amount + q.borrowFee + q.referrerFee) * ONE
      && CalculateFees(FromInt(amount), r.config.borrowFee, Exclusive, bps, hasReferrer) == Ok(FeeSplit(q.borrowFee, q.referrerFee))
  {
    hide CalculateFees, AdjustedValue;
  }

  /** A maximal borrow is within the reserve's capacity and liquidity, and if neither of
      them stops it, one ulp more (or rounding) would take it past the allowed value. */
  lemma LargestIsLargest(r: Reserve, maxValue: Fraction, remaining: Fraction, bps: U16, inGroup: bool, hasReferrer: bool)
    requires CalculateBorrow(r, MAX_U64, maxValue, remaining, bps, inGroup, hasReferrer).Ok?
    ensures var q := CalculateBorrow(r, MAX_U64, maxValue, remaining, bps, inGroup, hasReferrer).value;
      && q.borrowAmount <= remaining && q.borrowAmount <= FromInt(r.liquidity.available)
      && CalculateFees(q.borrowAmount, r.config.borrowFee, Inclusive, bps, hasReferrer) == Ok(FeeSplit(q.borrowFee, q.referrerFee))
      && BorrowFactor(r.config, inGroup).Ok?
      && (q.borrowAmount < remaining && q.borrowAmount < FromInt(r.liquidity.available) ==>
            maxValue * Pow(10, r.liquidity.decimals) * (ONE * ONE)
              < ((q.borrowAmount + 1) * BorrowFactor(r.config, inGroup).value + ONE) * r.liquidity.price)
  {
    hide CalculateFees, BorrowFactor, DivFloor;
    var q := CalculateBorrow(r, MAX_U64, maxValue, remaining, bps, inGroup, hasReferrer).value;
    var b := LargestBorrow(r, maxValue, remaining, inGroup).value;
    if b < remaining && b < FromInt(r.liquidity.available) {
      var scaled := maxValue * MintFactor(r.liquidity);
      var factor := BorrowFactor(r.config, inGroup).value;
      var priced := DivFloor(scaled, r.liquidity.price);
      DivFloorBounds(scaled, r.liquidity.price);
      DivFloorBounds(priced, factor);
      ValueAbove(scaled, r.liquidity.price, priced, factor, b, ONE);
    }
  }

  lemma ValueAbove(scaled: nat, price: nat, priced: nat, factor: nat, b: nat, o: nat)
    requires o > 0 && scaled * o < priced * price + price && priced * o < b * factor + factor
    ensures scaled * (o * o) < ((b + 1) * factor + o) * price
  {
    MulLeft(o, scaled * o + 1, (priced + 1) * price);
    MulLeft(price, priced * o + o, (b + 1) * factor + o);
    assert o * (scaled * o + 1) == scaled * (o * o) + o;
    assert o * ((priced + 1) * price) == price * (priced * o + o);
    assert price * ((b + 1) * factor + o) == ((b + 1) * factor + o) * price;
  }

  // ---- what refusals mean -------------------------------------------------

  /** A fee is refused only when it would take the whole amount. */
  lemma FeeRefusal(amount: Fraction, rate: U64, mode: FeeCalculation, bps: U16, hasReferrer: bool)
    ensures CalculateFees(amount, rate, mode, bps, hasReferrer) == Err(BorrowTooSmall) ==>
      && rate > 0 && 0 < amount
      && (amount <= ONE
          || (if mode == Exclusive then MulFloor(amount, rate) else MulFloor(amount, DivFloor(rate, rate + ONE))) >= amount)
  {
    hide MulFloor, DivFloor, FromBps, Floor, Round;
  }

  /** An exact borrow is refused as too large only if amount and fees are worth more than is
      allowed, and a maximal borrow never. */
  lemma BorrowRefusal(r: Reserve, amount: U64, maxValue: Fraction, remaining: Fraction, bps: U16, inGroup: bool, hasReferrer: bool)
    ensures CalculateBorrow(r, amount, maxValue, remaining, bps, inGroup, hasReferrer) == Err(BorrowTooLarge) ==>
      && amount != MAX_U64 && CalculateFees(FromInt(amount), r.config.borrowFee, Exclusive, bps, hasReferrer).Ok?
      && var fees := CalculateFees(FromInt(amount), r.config.borrowFee, Exclusive, bps, hasReferrer).value;
         var debt := (amount + fees.protocol + fees.referrer) * ONE;
         && debt < TWO_128 && AdjustedValue(r, debt, inGroup).Ok? && AdjustedValue(r, debt, inGroup).value > maxValue
  {
    hide MulFloor, DivFloor, FromBps, FromPercent, Floor, Round, MintFactor;
  }
}
