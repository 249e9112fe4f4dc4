/** The price of collateral tokens in liquidity (`CollateralExchangeRate`,
    state/reserve.rs:741-845), with its 256-bit intermediates. */
module ExchangeRate {
  import opened Results
  import opened Arithmetic
  import opened FixedPoint

  /** `supply` collateral tokens are worth `liquidity` ulps of liquidity tokens. */
  datatype Rate = Rate(supply: U64, liquidity: Fraction)

  const INITIAL_RATE: Rate := Rate(1, ONE)

  function ExchangeRateOf(supply: U64, totalLiquidity: Fraction): (r: Rate)
    ensures r.supply > 0 && r.liquidity > 0
  {
    if supply == 0 || totalLiquidity == 0 then INITIAL_RATE else Rate(supply, totalLiquidity)
  }

  /** `U256 << 60`, which drops the bits that leave the 256-bit word. */
  function ShiftLeft(x: nat): U256 {
    x * ONE % TWO_256
  }

  function LiquidityToCollateralFraction(r: Rate, amount: U64): Result<Fraction> {
    var product :- Narrow(r.supply * amount);
    if r.liquidity == 0 then Err(DivisionByZero)
    else Narrow(ShiftLeft(ShiftLeft(product)) / r.liquidity)
  }

  function LiquidityToCollateral(r: Rate, amount: U64): Result<U64> {
    var f :- LiquidityToCollateralFraction(r, amount);
    ToFloor(f)
  }

  function FractionCollateralToLiquidity(r: Rate, amount: Fraction): Result<Fraction> {
    var product :- Narrow256(amount * r.liquidity);
    if r.supply == 0 then Err(DivisionByZero) else Narrow(product / ONE / r.supply)
  }

  function CollateralToLiquidity(r: Rate, amount: U64): Result<U64> {
    var f :- FractionCollateralToLiquidity(r, FromInt(amount));
    ToFloor(f)
  }

  function CollateralToLiquidityCeil(r: Rate, amount: U64): Result<U64> {
    if r.supply == 0 then Err(Underflow)
    else
      var f :- Narrow(CeilDiv(amount * r.liquidity, r.supply));
      ToCeil(f)
  }

  // ---- meaning ------------------------------------------------------------

  /** Both shifts of a product of two 64-bit numbers stay inside 256 bits: no bit is dropped. */
  lemma ShiftsLoseNothing(supply: U64, amount: U64)
    ensures supply * amount < TWO_128
    ensures ShiftLeft(ShiftLeft(supply * amount)) == supply * amount * ONE * ONE
  {
    MulMono(supply, MAX_U64, amount, MAX_U64);
    var product := supply * amount;
    ShiftExact(product);
    ShiftExact(product * ONE);
  }

  lemma ShiftExact(x: nat)
    requires x < TWO_128 * ONE
    ensures ShiftLeft(x) == x * ONE
  {
    SmallModulo(x * ONE, TWO_256);
  }

  lemma SmallModulo(x: nat, m: nat)
    requires x < m
    ensures x % m == x
  {
  }

  /** Neither does the product of a 64-bit amount and a fraction overflow. */
  lemma ProductFits(amount: U64, liquidity: Fraction)
    ensures FromInt(amount) * liquidity < TWO_256
  {
    MulMono(FromInt(amount), TWO_64 * ONE, liquidity, TWO_128);
  }

  /** Minting floors: the collateral for `amount` is `floor(supply * amount / liquidity)`. */
  lemma LiquidityToCollateralMeaning(r: Rate, amount: U64)
    requires r.liquidity > 0
    ensures LiquidityToCollateral(r, amount).Ok? ==>
      LiquidityToCollateral(r, amount).value == r.supply * amount * ONE / r.liquidity
  {
    ShiftsLoseNothing(r.supply, amount);
    var n := r.supply * amount * ONE;
    NestedDiv(n * ONE, r.liquidity, ONE);
    NestedDiv(n * ONE, ONE, r.liquidity);
    DivExact(n, ONE);
    assert r.liquidity * ONE == ONE * r.liquidity;
  }

  /** Redeeming floors once, although the code floors three times. */
  lemma CollateralToLiquidityMeaning(r: Rate, amount: U64)
    requires r.supply > 0
    ensures CollateralToLiquidity(r, amount).Ok? ==>
      CollateralToLiquidity(r, amount).value == amount * r.liquidity / (r.supply * ONE)
  {
    ProductFits(amount, r.liquidity);
    var n := amount * r.liquidity;
    assert FromInt(amount) * r.liquidity == n * ONE;
    DivExact(n, ONE);
    NestedDiv(n, r.supply, ONE);
  }

  /** Charging rounds up once, although the code rounds up twice. */
  lemma CollateralToLiquidityCeilMeaning(r: Rate, amount: U64)
    requires r.supply > 0
    ensures r.supply * ONE > 0
    ensures CollateralToLiquidityCeil(r, amount).Ok? ==>
      CollateralToLiquidityCeil(r, amount).value == CeilDiv(amount * r.liquidity, r.supply * ONE)
  {
    NestedCeil(amount * r.liquidity, r.supply, ONE);
  }

  // ---- the depositor's quote ----------------------------------------------

  datatype DepositQuote = DepositQuote(liquidity: U64, collateral: U64)

  /** `compute_depositable_amount_and_minted_collateral` (state/reserve.rs:177-201). */
  function QuoteDeposit(r: Rate, amount: U64): Result<DepositQuote> {
    var collateral :- LiquidityToCollateral(r, amount);
    var liquidity :- CollateralToLiquidityCeil(r, collateral);
    if amount < liquidity then Err(MathOverflow) else Ok(DepositQuote(liquidity, collateral))
  }

  lemma ChargedCoversMinted(supply: nat, liquidity: nat, amount: nat, collateral: nat, charged: nat)
    requires supply > 0 && liquidity > 0
    requires collateral == supply * amount * ONE / liquidity
    requires charged == (assert supply * ONE > 0; CeilDiv(collateral * liquidity, supply * ONE))
    ensures charged <= amount
    ensures collateral * liquidity <= charged * ONE * supply
    ensures charged * ONE * supply < collateral * liquidity + supply * ONE
    ensures (amount - charged) * ONE * supply < liquidity
  {
    var d := supply * ONE;
    var n := supply * amount * ONE;
    assert n == amount * d by { MulSwap(amount, supply, ONE); MulAssoc(supply, amount, ONE); }
    DivBounds(n, liquidity);
    CeilLe(collateral * liquidity, d, amount);
    CeilBounds(collateral * liquidity, d);
    assert charged * ONE * supply == charged * d by { WholeSupply(charged, supply); }
    assert (amount - charged) * ONE * supply == amount * d - charged * d by {
      WholeSupply(amount - charged, supply);
      assert (amount - charged) * d == amount * d - charged * d;
    }
  }

  lemma WholeSupply(x: int, supply: nat)
    ensures x * ONE * supply == x * (supply * ONE)
  {
  }

  /** The guard after the quote never fires, the charge is at most what was asked,
      exceeds the value of the minted collateral by less than one token, and what is
      left uncharged is worth less than one collateral token. */
  lemma QuoteIsTight(r: Rate, amount: U64)
    requires r.supply > 0 && r.liquidity > 0
    ensures QuoteDeposit(r, amount) != Err(MathOverflow)
    ensures QuoteDeposit(r, amount).Ok? ==>
      var q := QuoteDeposit(r, amount).value;
      && q.liquidity <= amount
      && q.collateral * r.liquidity <= q.liquidity * ONE * r.supply < q.collateral * r.liquidity + r.supply * ONE
      && (amount - q.liquidity) * ONE * r.supply < r.liquidity
  {
    LiquidityToCollateralMeaning(r, amount);
    if LiquidityToCollateral(r, amount).Ok? {
      var c := LiquidityToCollateral(r, amount).value;
      CollateralToLiquidityCeilMeaning(r, c);
      if CollateralToLiquidityCeil(r, c).Ok? {
        ChargedCoversMinted(r.supply, r.liquidity, amount, c, CollateralToLiquidityCeil(r, c).value);
      }
    }
  }

  /** Redeeming `min(wanted, LiquidityToCollateral(available))` collateral never needs
      more than the available liquidity (the cap in `liquidate_obligation`). */
  lemma RedemptionCapSuffices(r: Rate, available: U64, collateral: U64)
    requires r.supply > 0 && r.liquidity > 0
    requires LiquidityToCollateral(r, available).Ok?
    requires collateral <= LiquidityToCollateral(r, available).value
    requires CollateralToLiquidity(r, collateral).Ok?
    ensures CollateralToLiquidity(r, collateral).value <= available
  {
    LiquidityToCollateralMeaning(r, available);
    CollateralToLiquidityMeaning(r, collateral);
    var n, d := r.supply * available * ONE, r.supply * ONE;
    assert n == available * d by { MulSwap(available, r.supply, ONE); MulAssoc(r.supply, available, ONE); }
    DivBounds(n, r.liquidity);
    MulLeft(r.liquidity, collateral, n / r.liquidity);
    DivMono(collateral * r.liquidity, n, d);
    DivExact(available, d);
  }
}
