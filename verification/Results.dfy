/** Failure outcomes shared by the whole model.

    A transaction either commits or is rolled back.  Arithmetic that does not
    fit its width, a subtraction below zero and a division by zero abort it
    (`overflow-checks = true`, Cargo.toml:5-12); the other cases are the errors
    the program returns itself. */
module Results {
  datatype Error =
    // aborts of the checked arithmetic
    | Overflow
    | Underflow
    | DivisionByZero
    | Panic // a failed `unwrap` or `expect`
    // errors returned by the program
    | MathOverflow
    | IntegerOverflow
    | InvalidAmount
    | InvalidConfig
    | InvalidAccountInput
    | InvalidUtilizationRate
    | InvalidBorrowRateCurvePoint
    | InvalidElevationGroup
    | InvalidObligationCollateral
    | InvalidObligationLiquidity
    | InvalidOrderConfiguration
    | InvalidFlashRepay
    | MalformedInstruction
    | ReserveStale
    | ReserveDeprecated
    | ObligationStale
    | ObligationHealthy
    | ObligationDepositsEmpty
    | ObligationDepositsZero
    | ObligationBorrowsEmpty
    | ObligationBorrowsZero
    | ObligationLiquidityEmpty
    | ObligationCollateralEmpty
    | ObligationReserveLimit
    | ObligationEmpty
    | ObligationInObsoleteReserve
    | ObligationCurrentlyMarkedForDeleveraging
    | ObligationElevationGroupMultipleDebtReserve
    | ObligationCollateralExceedsElevationGroupLimit
    | InsufficientLiquidity
    | InsufficientProtocolFeesToRedeem
    | InsufficientReferralFeesToRedeem
    | InsufficientRepayAmount
    | DepositLimitExceeded
    | BorrowLimitExceeded
    | BorrowTooLarge
    | BorrowTooSmall
    | BorrowingDisabled
    | BorrowingDisabledOutsideElevationGroup
    | BorrowingAboveUtilizationRateDisabled
    | DepositDisabledOutsideElevationGroup
    | RepayTooSmall
    | RepayTooSmallForFullLiquidation
    | WithdrawTooLarge
    | WithdrawTooSmall
    | MaximumWithdrawValueZero
    | NetValueRemainingTooSmall
    | WorseLtvBlocked
    | WorseLtvThanUnhealthyLtv
    | LiabilitiesBiggerThanAssets
    | LiquidationTooSmall
    | LiquidationRewardTooSmall
    | LiquidationBorrowFactorPriority
    | LiquidationLowestLiquidationLtvPriority
    | CollateralNonLiquidatable
    | CannotSocializeObligationWithCollateral
    | CannotCalculateReferralAmountDueToSlotsMismatch
    | NegativeInterestRate
    | ElevationGroupAlreadyActivated
    | ElevationGroupNewLoansDisabled
    | ElevationGroupWithoutDebtReserve
    | ElevationGroupMaxCollateralReserveZero
    | ElevationGroupHasAnotherDebtReserve
    | ElevationGroupDebtReserveAsCollateral
    | ElevationGroupBorrowLimitExceeded
    | InconsistentElevationGroup
    | UnhealthyElevationGroupLtv
    | FlashLoansDisabled
    | FlashBorrowCpi
    | FlashRepayCpi
    | MultipleFlashBorrows
    | NoFlashRepayFound
    | ReserveTokenBalanceMismatch
    | ReserveVaultBalanceMismatch
    | ReserveAccountingMismatch
    | WithdrawalCapReached
    | LastTimestampGreaterThanCurrent

  datatype Option<+T> = None | Some(value: T)

  /** A failure-compatible result, for use with `:-`. */
  datatype Result<+T> = Ok(value: T) | Err(error: Error) {
    predicate IsFailure() {
      Err?
    }

    function PropagateFailure<U>(): Result<U>
      requires Err?
    {
      Err(error)
    }

    function Extract(): T
      requires Ok?
    {
      value
    }
  }

  /** `require!(condition, error)`. */
  function Need(condition: bool, error: Error): (r: Result<()>) {
    if condition then Ok(()) else Err(error)
  }
}
