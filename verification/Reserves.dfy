/** The state of a reserve (state/reserve.rs). */
module Reserves {
  import opened Results
  import opened Arithmetic
  import opened FixedPoint
  import opened BorrowRateCurve
  import opened LastUpdates
  import opened WithdrawalCaps

  /** Addresses; the default (all zero) address is 0. */
  type Key = nat
  type U8 = x: int | 0 <= x < 0x100
  type U16 = x: int | 0 <= x < 0x1_0000

  const PROGRAM_VERSION: nat := 1
  const ELEVATION_GROUP_NONE: nat := 0
  const MAX_NUM_ELEVATION_GROUPS: nat := 32

  /** The slot and the time a transaction runs at. */
  datatype Clock = Clock(slot: U64, timestamp: U64)

  /** Liquidity: tokens in the vault's books, outstanding debt, the cumulative
      borrow rate and the three fee ledgers. */
  datatype Liquidity = Liquidity(
    available: U64,
    borrowed: Fraction,
    cumulativeRate: U256,
    protocolFees: Fraction,
    referrerFees: Fraction,
    pendingFees: Fraction,
    referralRate: Fraction,
    price: Fraction,
    priceUpdatedAt: U64,
    decimals: nat,
    depositLimitCrossedAt: U64,
    borrowLimitCrossedAt: U64)

  /** One referrer's account with one reserve; referrers are numbered. */
  datatype ReferrerState = ReferrerState(unclaimed: Fraction, cumulative: Fraction)

  datatype ReserveConfig = ReserveConfig(
    obsolete: bool,
    maxPriceAgeSecs: U64,
    hostFixedInterestRateBps: U16,
    protocolTakeRatePct: U8,
    protocolLiquidationFeePct: U8,
    protocolOrderExecutionFeePct: U8,
    loanToValuePct: U8,
    liquidationThresholdPct: U8,
    minLiquidationBonusBps: U16,
    maxLiquidationBonusBps: U16,
    badDebtLiquidationBonusBps: U16,
    deleveragingMarginCallPeriodSecs: U64,
    deleveragingThresholdDecreaseBpsPerDay: U64,
    deleveragingBonusIncreaseBpsPerDay: U64,
    autodeleverageEnabled: bool,
    borrowFee: U64,
    flashLoanFee: U64,
    curve: Curve,
    borrowFactorPct: U64,
    depositLimit: U64,
    borrowLimit: U64,
    borrowLimitOutsideElevationGroup: U64,
    borrowLimitAgainstInElevationGroup: seq<U64>,
    elevationGroups: set<nat>,
    disableUsageAsCollOutsideEmode: bool,
    utilizationLimitPct: U8)

  datatype Reserve = Reserve(
    lastUpdate: LastUpdate,
    version: U64,
    liquidity: Liquidity,
    collateralSupply: U64,
    depositCap: Caps,
    debtCap: Caps,
    outsideDebt: U64,
    groupDebts: seq<U64>,
    ledger: seq<ReferrerState>,
    config: ReserveConfig)

  /** The parts of `validate_reserve_config_integrity` that the model relies on
      (lending_operations.rs:3128-3252). */
  ghost predicate ValidConfig(c: ReserveConfig) {
    && c.loanToValuePct < 100
    && c.loanToValuePct <= c.liquidationThresholdPct <= 100
    && c.maxLiquidationBonusBps <= 10_000
    && c.minLiquidationBonusBps <= c.maxLiquidationBonusBps
    && c.badDebtLiquidationBonusBps < 100
    && c.borrowFee < ONE
    && c.protocolTakeRatePct <= 100
    && c.protocolLiquidationFeePct <= 100
    && c.protocolOrderExecutionFeePct <= 100
    && c.borrowFactorPct >= 100
    && c.utilizationLimitPct <= 100
    && ValidCurve(c.curve)
    && |c.borrowLimitAgainstInElevationGroup| == MAX_NUM_ELEVATION_GROUPS
  }

  /** `mint_factor`. */
  function MintFactor(l: Liquidity): (f: nat)
    ensures f > 0
  {
    Pow(10, l.decimals)
  }

  /** `total_supply`: what the holders of collateral tokens own. */
  function TotalSupply(l: Liquidity): Result<Fraction> {
    var gross :- Add(FromInt(l.available), l.borrowed);
    var a :- Sub(gross, l.protocolFees);
    var b :- Sub(a, l.referrerFees);
    Sub(b, l.pendingFees)
  }

  /** The same quantity as an integer, negative when the ledgers exceed the assets. */
  function NetSupply(l: Liquidity): int {
    l.available * ONE + l.borrowed - l.protocolFees - l.referrerFees - l.pendingFees
  }

  lemma TotalSupplyIsNet(l: Liquidity)
    ensures TotalSupply(l).Ok? ==> TotalSupply(l).value == NetSupply(l)
    ensures NetSupply(l) >= 0 ==> TotalSupply(l) != Err(Underflow)
    ensures NetSupply(l) >= 0 && FromInt(l.available) + l.borrowed < TWO_128 ==> TotalSupply(l).Ok?
  {
  }

  /** `get_borrow_factor` and `borrow_factor_f`. */
  function BorrowFactor(c: ReserveConfig, inElevationGroup: bool): Result<Fraction> {
    if inElevationGroup then Ok(ONE) else Narrow(Max(ONE, FromPercent(c.borrowFactorPct)))
  }

  /** `utilization_rate`. */
  function UtilizationRate(l: Liquidity): Result<Fraction> {
    var supply :- TotalSupply(l);
    if supply == 0 then Ok(0) else Div(l.borrowed, supply)
  }

  /** `calculate_market_value_from_liquidity_amount`. */
  function MarketValue(l: Liquidity, amount: Fraction): Result<Fraction> {
    var v :- Mul(amount, l.price);
    DivInt(v, MintFactor(l))
  }

  // ---- what valuations are ------------------------------------------------

  /** The value of an amount is the amount times the price of a whole token, over the
      10^decimals units a token has, rounded down once although the code rounds twice. */
  lemma MarketValueFloors(l: Liquidity, amount: Fraction)
    requires MarketValue(l, amount).Ok?
    ensures var v := MarketValue(l, amount).value; var units := ONE * Pow(10, l.decimals);
      v * units <= amount * l.price < v * units + units
  {
    var n := amount * l.price;
    assert n >= 0 by { MulLeft(l.price, 0, amount); }
    NestedDiv(n, ONE, Pow(10, l.decimals));
    DivBounds(n, ONE * Pow(10, l.decimals));
  }

  /** Utilization is the borrowed part of the supply, rounded down; nothing of no supply. */
  lemma UtilizationFloors(l: Liquidity)
    requires UtilizationRate(l).Ok?
    ensures var u := UtilizationRate(l).value; var supply := NetSupply(l);
      && supply >= 0
      && (supply == 0 ==> u == 0)
      && (supply > 0 ==> u * supply <= l.borrowed * ONE < u * supply + supply)
  {
    hide TotalSupply, DivFloor;
    TotalSupplyIsNet(l);
    if NetSupply(l) > 0 { DivFloorBounds(l.borrowed, NetSupply(l)); }
  }

  /** The borrow factor is the configured percentage but at least one, and one in a group. */
  lemma BorrowFactorMeans(c: ReserveConfig, inElevationGroup: bool)
    requires BorrowFactor(c, inElevationGroup).Ok?
    ensures var f := BorrowFactor(c, inElevationGroup).value;
      && (inElevationGroup || c.borrowFactorPct <= 100 ==> f == ONE)
      && (!inElevationGroup && c.borrowFactorPct > 100 ==>
            ONE <= f && f * 100 <= c.borrowFactorPct * ONE < f * 100 + 100)
  {
    SharesOfOne(c.borrowFactorPct);
    if c.borrowFactorPct <= 100 { DivMono(c.borrowFactorPct * ONE, 100 * ONE, 100); } else { DivMono(100 * ONE, c.borrowFactorPct * ONE, 100); }
  }
}
