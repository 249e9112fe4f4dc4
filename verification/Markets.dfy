/** The configuration of a lending market (state/lending_market.rs). */
module Markets {
  import opened Results
  import opened FixedPoint
  import opened Reserves

  datatype ElevationGroup = ElevationGroup(
    id: nat,
    ltvPct: U8,
    liquidationThresholdPct: U8,
    allowNewLoans: bool,
    maxReservesAsCollateral: U8,
    debtReserve: Key,
    maxLiquidationBonusBps: U16)

  datatype Market = Market(
    groups: seq<ElevationGroup>,
    borrowDisabled: bool,
    autodeleverageEnabled: bool,
    orderExecutionEnabled: bool,
    orderCreationEnabled: bool,
    referralFeeBps: U16,
    closeFactorPct: U8,
    insolvencyRiskLtvPct: U8,
    maxLiquidatableValueAtOnce: U64,
    minFullLiquidationValue: U64,
    globalAllowedBorrowValue: U64,
    minValueSkipLtvChecks: U64,
    minValueSkipBfChecks: U64,
    minNetValue: Fraction,
    individualMarginCallPeriodSecs: U64)

  /** `LendingMarket::get_elevation_group`. */
  function ElevationGroupOf(m: Market, id: nat): Result<Option<ElevationGroup>> {
    if id == ELEVATION_GROUP_NONE then Ok(None)
    else if id - 1 >= |m.groups| then Err(InvalidElevationGroup)
    else Ok(Some(m.groups[id - 1]))
  }

  /** `utils::get_elevation_group`: the group must be in use. */
  function UsableElevationGroup(m: Market, id: nat): Result<Option<ElevationGroup>> {
    if id > MAX_NUM_ELEVATION_GROUPS then Err(InvalidElevationGroup)
    else
      var g :- ElevationGroupOf(m, id);
      if g.Some? && (g.value.liquidationThresholdPct == 0 || g.value.ltvPct == 0) then Err(InvalidElevationGroup)
      else Ok(g)
  }

  /** `set_elevation_group` stores a group at the index its id gives. */
  function WithElevationGroup(m: Market, g: ElevationGroup): Result<Market> {
    if g.id == ELEVATION_GROUP_NONE || g.id > |m.groups| then Err(InvalidElevationGroup)
    else Ok(m.(groups := m.groups[g.id - 1 := g]))
  }

  /** There are 32 slots; a slot in use holds the group whose id is its position plus one;
      the referral fee is at most 100%. */
  ghost predicate ValidMarket(m: Market) {
    && |m.groups| == MAX_NUM_ELEVATION_GROUPS
    && m.referralFeeBps <= 10_000
    && forall i :: 0 <= i < |m.groups| && m.groups[i].ltvPct != 0 ==> m.groups[i].id == i + 1
  }

  lemma SettingGroupsKeepsPlaces(m: Market, g: ElevationGroup)
    requires ValidMarket(m) && WithElevationGroup(m, g).Ok?
    ensures ValidMarket(WithElevationGroup(m, g).value)
    ensures ElevationGroupOf(WithElevationGroup(m, g).value, g.id) == Ok(Some(g))
  {
  }

  /** `get_max_ltv_and_liquidation_threshold`. */
  function MaxLtvPct(c: ReserveConfig, g: Option<ElevationGroup>): U8 {
    if g.Some? then g.value.ltvPct else c.loanToValuePct
  }

  function LiquidationThresholdPct(c: ReserveConfig, g: Option<ElevationGroup>): U8 {
    if g.Some? then g.value.liquidationThresholdPct else c.liquidationThresholdPct
  }

  /** A group can be used if it is one of the market's and has both percentages, which then
      replace the reserve's. */
  lemma GroupsInUse(m: Market, c: ReserveConfig, id: nat)
    requires ValidMarket(m)
    ensures UsableElevationGroup(m, id).Ok? <==>
      id == 0 || (id <= MAX_NUM_ELEVATION_GROUPS && m.groups[id - 1].ltvPct > 0 && m.groups[id - 1].liquidationThresholdPct > 0)
    ensures UsableElevationGroup(m, id).Ok? ==>
      var g := UsableElevationGroup(m, id).value;
      && g == (if id == 0 then None else Some(m.groups[id - 1])) && (g.Some? ==> g.value.id == id)
      && MaxLtvPct(c, g) == (if id == 0 then c.loanToValuePct else m.groups[id - 1].ltvPct)
      && LiquidationThresholdPct(c, g) == (if id == 0 then c.liquidationThresholdPct else m.groups[id - 1].liquidationThresholdPct)
  {
  }
}
