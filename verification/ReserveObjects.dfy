/** The reserve's parts as the program updates them in place
    (state/reserve.rs:483-738): each method is proved against the step it stands
    for, and says what remains when it fails. */
module ReserveObjects {
  import opened Results
  import opened Arithmetic
  import opened FixedPoint
  import opened CompoundInterest
  import opened Reserves
  import opened ReserveBooks
  import opened ReserveOperations
  import opened ExchangeRate

  class ReserveLiquidity {
    var available: U64
    var borrowed: Fraction
    var cumulativeRate: U256
    var protocolFees: Fraction
    var referrerFees: Fraction
    var pendingFees: Fraction
    var referralRate: Fraction
    var price: Fraction
    var priceUpdatedAt: U64
    const decimals: nat
    var depositLimitCrossedAt: U64
    var borrowLimitCrossedAt: U64

    function View(): Liquidity
      reads this
    {
      Liquidity(available, borrowed, cumulativeRate, protocolFees, referrerFees, pendingFees, referralRate, price,
                priceUpdatedAt, decimals, depositLimitCrossedAt, borrowLimitCrossedAt)
    }

    /** `ReserveLiquidity::new`. */
    constructor (initial: U64, price: Fraction, decimals: nat)
      ensures View() == Liquidity(initial, 0, ONE, 0, 0, 0, 0, price, 0, decimals, 0, 0)
    {
      available, borrowed, cumulativeRate := initial, 0, ONE;
      protocolFees, referrerFees, pendingFees, referralRate := 0, 0, 0, 0;
      this.price, this.priceUpdatedAt, this.decimals := price, 0, decimals;
      depositLimitCrossedAt, borrowLimitCrossedAt := 0, 0;
    }

    method Deposit(amount: U64) returns (r: Result<()>)
      modifies this
      ensures match Deposited(old(View()), amount)
        case Ok(l) => r.Ok? && View() == l
        case Err(e) => r == Err(e) && View() == old(View())
    {
      if available + amount >= TWO_64 {
        return Err(MathOverflow);
      }
      available := available + amount;
      return Ok(());
    }

    method Withdraw(amount: U64) returns (r: Result<()>)
      modifies this
      ensures match Withdrawn(old(View()), amount)
        case Ok(l) => r.Ok? && View() == l
        case Err(e) => r == Err(e) && View() == old(View())
    {
      if amount > available {
        return Err(InsufficientLiquidity);
      }
      available := available - amount;
      return Ok(());
    }

    method Borrow(amount: Fraction) returns (r: Result<()>)
      modifies this
      ensures match Borrowed(old(View()), amount)
        case Ok(l) => r.Ok? && View() == l
        case Err(e) => r == Err(e)
    {
      var whole :- ToFloor(amount);
      if whole > available {
        return Err(InsufficientLiquidity);
      }
      available := available - whole;
      borrowed :- Add(borrowed, amount);
      return Ok(());
    }

    method Repay(repay: U64, settle: Fraction) returns (r: Result<()>)
      modifies this
      ensures match Repaid(old(View()), repay, settle)
        case Ok(l) => r.Ok? && View() == l
        case Err(e) => r == Err(e) && View() == old(View())
    {
      if available + repay >= TWO_64 {
        return Err(MathOverflow);
      }
      available := available + repay;
      var safeSettle := Min(settle, borrowed);
      borrowed := borrowed - safeSettle;
      return Ok(());
    }

    /** The vault's books are lowered before the fee ledger is checked. */
    method RedeemFees(amount: U64) returns (r: Result<()>)
      modifies this
      ensures match FeesRedeemed(old(View()), amount)
        case Ok(l) => r.Ok? && View() == l
        case Err(e) => r == Err(e)
    {
      if amount > available {
        return Err(MathOverflow);
      }
      available := available - amount;
      if FromInt(amount) > protocolFees {
        return Err(MathOverflow);
      }
      protocolFees := protocolFees - FromInt(amount);
      return Ok(());
    }

    method Compound(variableRate: Fraction, fixedRate: Fraction, slots: U64, takeRate: Fraction, referral: Fraction)
      returns (r: Result<()>)
      modifies this
      ensures match Compounded(old(View()), variableRate, fixedRate, slots, takeRate, referral)
        case Ok(l) => r.Ok? && View() == l
        case Err(e) => r == Err(e)
    {
      hide ApproximateCompoundedInterest, MulFloor;
      var previousDebt := borrowed;
      var sum :- Add(variableRate, fixedRate);
      var total :- ApproximateCompoundedInterest(sum, slots);
      var fixed :- ApproximateCompoundedInterest(fixedRate, slots);
      var newRate :- MulRate(cumulativeRate, total);
      var newDebt :- Mul(previousDebt, total);
      var atFixedRate :- Mul(previousDebt, fixed);
      var fixedFee :- Sub(atFixedRate, previousDebt);
      var growth :- Sub(newDebt, previousDebt);
      var variable :- Sub(growth, fixedFee);
      var variableFee :- Mul(variable, takeRate);
      var absoluteRate :- Mul(takeRate, referral);
      var referrersFee :- Mul(variable, absoluteRate);
      var fees :- Add(protocolFees, fixedFee);
      fees :- Add(fees, variableFee);
      fees :- Sub(fees, referrersFee);
      cumulativeRate := newRate;
      pendingFees :- Add(pendingFees, referrersFee);
      protocolFees := fees;
      borrowed := newDebt;
      referralRate := absoluteRate;
      return Ok(());
    }

    method ForgiveDebt(amount: Fraction) returns (r: Result<()>)
      modifies this
      ensures match Forgiven(old(View()), amount)
        case Ok(l) => r.Ok? && View() == l
        case Err(e) => r == Err(e) && View() == old(View())
    {
      borrowed :- Sub(borrowed, amount);
      return Ok(());
    }

    /** Books and vault first, then the referrer's own account. */
    method WithdrawReferrerFees(amount: U64, account: ReferrerAccount) returns (r: Result<()>)
      modifies this, account
      ensures match ReferrerFeesWithdrawn(old(View()), amount)
        case Ok(l) =>
          if FromInt(amount) <= old(account.unclaimed) then
            r.Ok? && View() == l && account.View() == ReferrerState(old(account.unclaimed) - FromInt(amount), old(account.cumulative))
          else r == Err(MathOverflow)
        case Err(e) => r == Err(e)
    {
      if amount > available {
        return Err(MathOverflow);
      }
      available := available - amount;
      if FromInt(amount) > referrerFees {
        return Err(MathOverflow);
      }
      referrerFees := referrerFees - FromInt(amount);
      if FromInt(amount) > account.unclaimed {
        return Err(MathOverflow);
      }
      account.unclaimed := account.unclaimed - FromInt(amount);
      return Ok(());
    }
  }

  /** A referrer's account for the token (`ReferrerTokenState`). */
  class ReferrerAccount {
    var unclaimed: Fraction
    var cumulative: Fraction

    function View(): ReferrerState
      reads this
    {
      ReferrerState(unclaimed, cumulative)
    }

    /** `add_referrer_fee`, on the account's side. */
    method Credit(fee: Fraction) returns (r: Result<()>)
      modifies this
      ensures match Credited([old(View())], 0, fee)
        case Ok(ledger) => r.Ok? && View() == ledger[0]
        case Err(e) => r == Err(e)
    {
      cumulative :- Add(cumulative, fee);
      unclaimed :- Add(unclaimed, fee);
      return Ok(());
    }
  }

  class ReserveCollateral {
    var totalSupply: U64

    constructor (initial: U64)
      ensures totalSupply == initial
    {
      totalSupply := initial;
    }

    method Mint(amount: U64) returns (r: Result<()>)
      modifies this
      ensures if old(totalSupply) + amount < TWO_64 then r.Ok? && totalSupply == old(totalSupply) + amount
              else r == Err(MathOverflow) && totalSupply == old(totalSupply)
    {
      if totalSupply + amount >= TWO_64 {
        return Err(MathOverflow);
      }
      totalSupply := totalSupply + amount;
      return Ok(());
    }

    method Burn(amount: U64) returns (r: Result<()>)
      modifies this
      ensures if amount <= old(totalSupply) then r.Ok? && totalSupply == old(totalSupply) - amount
              else r == Err(MathOverflow) && totalSupply == old(totalSupply)
    {
      if amount > totalSupply {
        return Err(MathOverflow);
      }
      totalSupply := totalSupply - amount;
      return Ok(());
    }
  }

  /** The price of an amount of collateral, floored once. */
  predicate FlooredPrice(out: U64, amount: U64, supply: U64, net: int) {
    out * (supply * ONE) <= amount * net < (out + 1) * (supply * ONE)
  }

  lemma RedeemedAtFlooredPrice(r: Reserve, amount: U64)
    ensures Redeemed(r, amount).Ok? && r.collateralSupply > 0 && NetSupply(r.liquidity) > 0 ==>
      FlooredPrice(Redeemed(r, amount).value.amount, amount, r.collateralSupply, NetSupply(r.liquidity))
  {
    hide CollateralToLiquidity, FlooredPrice;
    if Redeemed(r, amount).Ok? && r.collateralSupply > 0 && NetSupply(r.liquidity) > 0 {
      TotalSupplyIsNet(r.liquidity);
      QuotedAtFlooredPrice(ExchangeRateOf(r.collateralSupply, NetSupply(r.liquidity)), amount);
    }
  }

  lemma QuotedAtFlooredPrice(rate: Rate, amount: U64)
    requires rate.supply > 0 && CollateralToLiquidity(rate, amount).Ok?
    ensures FlooredPrice(CollateralToLiquidity(rate, amount).value, amount, rate.supply, rate.liquidity)
  {
    CollateralToLiquidityMeaning(rate, amount);
    hide CollateralToLiquidity;
    DivBounds(amount * rate.liquidity, rate.supply * ONE);
  }

  /** The two parts together, as `Reserve` moves them (state/reserve.rs:203-224). */
  class ReserveParts {
    const liquidity: ReserveLiquidity
    const collateral: ReserveCollateral

    constructor (liquidity: ReserveLiquidity, collateral: ReserveCollateral)
      ensures this.liquidity == liquidity && this.collateral == collateral
    {
      this.liquidity, this.collateral := liquidity, collateral;
    }

    /** `redeem_collateral` on a reserve made of these parts, error for error; what leaves
        the books is the burned collateral's price, floored once. */
    method RedeemCollateral(amount: U64, ghost reserve: Reserve) returns (r: Result<U64>)
      requires reserve.liquidity == liquidity.View() && reserve.collateralSupply == collateral.totalSupply
      modifies liquidity, collateral
      ensures match Redeemed(reserve, amount)
        case Ok(o) => r == Ok(o.amount) && o.reserve == reserve.(liquidity := liquidity.View(), collateralSupply := collateral.totalSupply)
        case Err(e) => r == Err(e)
      ensures r.Ok? && reserve.collateralSupply > 0 && NetSupply(reserve.liquidity) > 0 ==>
        FlooredPrice(r.value, amount, reserve.collateralSupply, NetSupply(reserve.liquidity))
    {
      hide CollateralToLiquidity, FlooredPrice;
      RedeemedAtFlooredPrice(reserve, amount);
      var supply :- TotalSupply(liquidity.View());
      var rate := ExchangeRateOf(collateral.totalSupply, supply);
      var out :- CollateralToLiquidity(rate, amount);
      var _ :- collateral.Burn(amount);
      var _ :- liquidity.Withdraw(out);
      return Ok(out);
    }
  }
}
