/** Per-slot freshness of reserves and obligations (state/last_update.rs). */
module LastUpdates {
  import opened Results
  import opened FixedPoint

  const STALE_AFTER_SLOTS_ELAPSED: nat := 1

  datatype PriceFlag =
    | PriceLoaded
    | PriceAgeChecked
    | TwapChecked
    | TwapAgeChecked
    | HeuristicChecked
    | PriceUsageAllowed

  /** The bit flags as the set of bits that are on. */
  type PriceStatus = set<PriceFlag>

  const NONE: PriceStatus := {}
  const LIQUIDATION_CHECKS: PriceStatus := {PriceLoaded, PriceAgeChecked, PriceUsageAllowed}
  const ALL_CHECKS: PriceStatus :=
    {PriceLoaded, PriceAgeChecked, TwapChecked, TwapAgeChecked, HeuristicChecked, PriceUsageAllowed}

  datatype LastUpdate = LastUpdate(slot: U64, stale: bool, priceStatus: PriceStatus) {
    function SlotsElapsed(now: U64): Result<U64> {
      if now < slot then Err(MathOverflow) else Ok(now - slot)
    }

    /** `update_slot`. */
    function Updated(now: U64, status: Option<PriceStatus>): LastUpdate {
      LastUpdate(now, false, if status.Some? then status.value else priceStatus)
    }

    /** `mark_stale`. */
    function MarkedStale(): LastUpdate {
      this.(stale := true)
    }

    /** `is_stale`: the elapsed slots are only looked at when the mark is off. */
    function IsStale(now: U64, minimum: PriceStatus): Result<bool> {
      if stale then Ok(true)
      else
        var elapsed :- SlotsElapsed(now);
        Ok(elapsed >= STALE_AFTER_SLOTS_ELAPSED || !(minimum <= priceStatus))
    }
  }

  /** Something not stale was refreshed in this very slot. */
  lemma FreshMeansNow(u: LastUpdate, now: U64, minimum: PriceStatus)
    requires u.IsStale(now, minimum) == Ok(false)
    ensures !u.stale && u.slot == now && minimum <= u.priceStatus
  {
  }
}
