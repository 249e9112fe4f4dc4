# Verified model of the klend lending program

Kamino's `klend` is a pool-based lending program on Solana. This project models its
accounting in Dafny and proves what the accounting is meant to guarantee. All quantities
are integers: token amounts are 64-bit, values and debts are 128-bit numbers of 2^-60
units ("ulps"), interest indices are 256-bit. Whatever does not fit its width, goes below
zero or divides by zero aborts, and an abort is a failure value in the model, so "never
underflows" is a statement about that value.

The pieces, from the bottom up:

- `Results`, `Arithmetic`, `FixedPoint`: failures, floor and ceiling lemmas, checked
  fixed-point arithmetic.
- `BorrowRateCurve`, `CompoundInterest`, `ExchangeRate`, `Fees`, `WithdrawalCaps`,
  `FlashLoans`, `LastUpdates`: the self-contained parts.
- `Reserves`, `ReserveBooks`, `ReserveOperations`, `ReserveRuns`: one reserve, its
  operations and its runs (share price, solvency, referrers' accounts, vault balance).
- `ReserveEffects`: what each accepted operation on a reserve charges, pays and marks.
- `Obligations`, `Markets`, `Orders`, `Liquidation`, `LiquidationSafety`, `Positions`:
  one obligation, liquidation and the checks around it.
- `LiquidationPricing`: which route a liquidation takes, the bonus and the fee it pays, and
  how much is settled and seized, from both sides.
- `LazyInterest`: debts that follow the index against the aggregate that compounds.
- `MarketOperations`: every operation on an obligation and the reserves behind it.
- `LiquidationLiquidity`: a liquidation never asks a reserve for more than it has.
- `DebtTrackers`, `DebtPasses`, `ObligationInvariant`, `OperationsKeep`, `PositionsKeep`,
  `MarketRuns`: a market of many reserves and obligations as a state machine, and the
  conservation of the two families of duplicated debt trackers over every run.
- `TrackerAccuracy`, `DebtBacking`, `MarketPrices`, `OrderRuns`: over market runs, how
  exact the trackers are, how closely the obligations' debts are backed by the reserves'
  totals, what happens to share prices, and what is settled through one order.
- `RefreshMeaning`, `RefreshExtremes`, `RefreshChecks`, `GroupSwitches`, `MarketOutcomes`,
  `AcceptedOperations`: what a refresh checks and stores, and what accepted group switches,
  deposits, borrows, repays, withdrawals, liquidations and socialized losses guarantee.
- `ReserveObjects`, `ObligationObjects`, `MarketObjects`: classes whose methods update
  reserves, slots and trackers in place, loop by loop as the program does, each proved
  against the function the theorems are about.

A market run (`MarketRuns.Run`) is any sequence of steps that all succeed; each step
comes with its own clock and its own market configuration, of which only the placement of
elevation groups and a referral fee of at most 100% are assumed. Oracle prices and price
checks are inputs of a refresh. Operations on an obligation and on several reserves are
interleaved in any order.

Three of the properties one would expect fail, and the model says exactly when.

- A stop-loss order on the price ratio of debt and collateral divides by the loan-to-value
  and is measured against a liquidation ratio that is floored twice. A healthy obligation
  can have a loan-to-value of zero or be past that ratio; a valid order then aborts, or
  pays more than its maximum (`Orders.PriceRatioStopLossEscapes`).
  `Orders.RatioStopLossFits` is the condition on prices and loan-to-values under which it
  does not, `Orders.RatioStopLossInRange` says that it is exact on every input, and
  `Orders.RoomKeepsRatioStopLossInRange` that it holds as soon as the two loan-to-values
  are an ulp apart when measured at the price ratio.
- The check after the transfers of a liquidation casts both amounts to 64-bit signed
  integers and subtracts them, so it refuses some transfers that books and vault followed
  (`ReserveRuns.SignedChecksFail`). `ReserveRuns.FitsSigned` is the exact condition
  (`ReserveRuns.ChecksAcceptFollowedTransfers`); for balances below 2^63 it says that both
  amounts or neither reach 2^63.
- A forced full liquidation raises a share of less than one collateral token to a token,
  which can be worth more than the value to be seized
  (`LiquidationSafety.DustTokenWorsens`); `LiquidationSafety.WithdrawnWorthAtMost` says
  that this is the only way to hand out too much, and exactly when it does.

## Model

| member | source | states |
|---|---|---|
| MarketRuns.RunsConserveTrackers | programs/klend/src/lending_market/lending_operations.rs:2410-2601 | over every run of transactions, under any market configurations and clocks, each tracker of each reserve (outside, and for each of the 32 groups) equals the sum of the obligations' parts, and every obligation stays valid |
| MarketRuns.StepKeepsState | programs/klend/src/lending_market/lending_operations.rs:862-911 | one accepted step of any kind (refresh, deposit, withdraw, borrow, repay, group switch, liquidation, socialized loss, order, mark, new obligation, reserve operation) keeps that invariant |
| MarketRuns.NoTrackerSaturates | programs/klend/src/lending_market/lending_operations.rs:555-566 | in every reachable state each part is within its reserve's tracker, and a fresh obligation's rounded-up debts are within each of its parts: no `saturating_sub` of a tracker ever saturates |
| MarketRuns.FreshnessMeansCurrentIndex | programs/klend/src/state/last_update.rs:75-100 | in every reachable state accruing a debt is never a negative rate, and a no-op when obligation and reserve stand at the same slot and the obligation is not stale |
| MarketRuns.ActKeeps | programs/klend/src/lending_market/lending_operations.rs:157-335 | each action on an obligation moves every reserve's trackers by exactly what it moves the obligation's parts, leaves all indices alone and keeps the obligation valid |
| MarketRuns.ReserveStepStays | programs/klend/src/lending_market/lending_operations.rs:42-73 | operations on a reserve alone leave its trackers; its slot and index only grow, the index only with the slot |
| MarketRuns.OpeningKeepsState | programs/klend/src/state/obligation.rs:151-162 | a new obligation is blank and keeps the invariant |
| MarketRuns.FreshMarketIsValid | programs/klend/src/lending_market/lending_operations.rs:862-911 | a market without obligations whose trackers are zero satisfies the invariant |
| TrackerAccuracy.RunsKeepTrackersAccurate | programs/klend/src/lending_market/lending_operations.rs:2410-2548 | over every run, what each obligation records is within one token of its debts in whole tokens rounded up |
| TrackerAccuracy.BorrowAccurate | programs/klend/src/lending_market/lending_operations.rs:2410-2490 | a borrow leaves the trackers within one token of the debts, both outside and inside elevation groups |
| TrackerAccuracy.RepayAccurate | programs/klend/src/lending_market/lending_operations.rs:2492-2548 | so does a repay |
| TrackerAccuracy.LiquidateAccurate | programs/klend/src/lending_market/lending_operations.rs:1442-1500 | so does a liquidation, including one that empties the deposit |
| TrackerAccuracy.SocializeAccurate | programs/klend/src/lending_market/lending_operations.rs:1684-1694 | so does a socialized loss |
| TrackerAccuracy.DepositAccurate | programs/klend/src/lending_market/lending_operations.rs:2550-2585 | a new deposit in a group starts out with the obligation's whole debt, so tracking stays exact |
| TrackerAccuracy.SingleTokenIsWhole | programs/klend/src/state/obligation.rs:414-423 | with at most one active borrow the single-token amount is the whole debt |
| MarketPrices.RunsKeepPrices | programs/klend/src/lending_market/lending_operations.rs:1302-1353 | over every market run in which the suppliers of a reserve in use can bear the losses socialized to it, the reserve stays solvent and its referrers' accounts add up; without losses of its own its share price has not fallen while shares existed |
| MarketPrices.RunsKeepLedgers | programs/klend/src/lending_market/lending_operations.rs:1754-1868 | over every market run whatsoever, socialized losses and deprecated reserves included, the referrers' accounts of every reserve add up to what it owes them |
| MarketPrices.StepKeepsLedgers | programs/klend/src/lending_market/lending_operations.rs:1754-1868 | one accepted step of any kind keeps the referrers' accounts of every reserve adding up |
| MarketPrices.SocializeTouches | programs/klend/src/lending_market/lending_operations.rs:1630-1709 | a socialized loss touches the books of one reserve only, and leaves it sound if its suppliers can bear the loss |
| MarketPrices.StepKeepsPrices | programs/klend/src/lending_market/lending_operations.rs:157-335 | one step whose losses can be borne keeps every reserve in use, and without a loss its price |
| MarketPrices.LiquidatePriced | programs/klend/src/lending_market/lending_operations.rs:1481-1525 | liquidation, also with equal repay and withdraw reserves, keeps the price of every reserve |
| MarketPrices.RefreshBorrowsSteady | programs/klend/src/lending_market/lending_operations.rs:1067-1216 | refreshing borrows, with its referrer fees, keeps price and referrers' accounts of every reserve |
| OperationsKeep.RefreshKeeps | programs/klend/src/lending_market/lending_operations.rs:1219-1299 | a refresh settles all trackers, makes them exact and brings every debt to the current index |
| OperationsKeep.RequestKeeps | programs/klend/src/lending_market/lending_operations.rs:726-840 | switching groups moves the debt from one tracker family to the other without loss, and leaves it exactly tracked in the new one |
| GroupSwitches.AcceptedSwitch | programs/klend/src/lending_market/lending_operations.rs:726-860 | an accepted switch: a fresh obligation with collateral, an open group whose rules its slots keep; at the reserves' prices its adjusted debt is within its collateral at the group's weights, the limits on recorded debt are kept, and a marked obligation's loan-to-value is not above the one before |
| GroupSwitches.SwitchRefusedForHealth | programs/klend/src/lending_market/lending_operations.rs:798-806 | a switch is refused as unhealthy only if the debts at their borrow factors exceed what the collateral allows under the new group's weights |
| OperationsKeep.ResetKeeps | programs/klend/src/lending_market/lending_operations.rs:862-911 | after a reset the obligation records no debt in either family and the reserves have given back exactly what it recorded |
| OperationsKeep.BorrowPassKeeps | programs/klend/src/lending_market/lending_operations.rs:1067-1216 | the borrow pass leaves each debt at its reserve's index, exactly tracked outside groups, and reports the whole debt |
| OperationsKeep.DepositPassKeeps | programs/klend/src/lending_market/lending_operations.rs:913-1065 | the deposit pass records the whole debt against each active deposit of a group and nothing outside groups |
| PositionsKeep.DepositKeeps | programs/klend/src/lending_market/lending_operations.rs:337-425 | a deposit settles the trackers and keeps slots distinct and nonempty |
| PositionsKeep.WithdrawKeeps | programs/klend/src/lending_market/lending_operations.rs:427-580 | a withdrawal does, and a full one takes exactly the slot's part from the reserve's tracker |
| PositionsKeep.BorrowKeeps | programs/klend/src/lending_market/lending_operations.rs:157-335 | a borrow does; adding to an existing slot without accruing is sound |
| PositionsKeep.RepayKeeps | programs/klend/src/lending_market/lending_operations.rs:638-723 | a repay does; its own accrual is a no-op |
| PositionsKeep.LiquidateKeeps | programs/klend/src/lending_market/lending_operations.rs:1356-1570 | a liquidation does, for any repay and withdraw reserves, partial or full |
| PositionsKeep.SocializeKeeps | programs/klend/src/lending_market/lending_operations.rs:1630-1709 | a socialized loss does |
| PositionsKeep.FreshPartsAreAffordable | programs/klend/src/lending_market/lending_operations.rs:2492-2548 | a fresh obligation can take any part of a debt, rounded up, off its trackers without saturating |
| PositionsKeep.TrackLessSettles | programs/klend/src/lending_market/lending_operations.rs:2492-2548 | taking debt off the trackers moves both sides alike and leaves nothing recorded for a debt repaid in full |
| PositionsKeep.TrackMoreSettles | programs/klend/src/lending_market/lending_operations.rs:2410-2490 | putting debt on the trackers moves both sides alike |
| PositionsKeep.RefreshedInSlot | programs/klend/src/state/reserve.rs:228-247 | a refresh in a slot the reserve has already seen accrues nothing |
| DebtPasses.RefreshBorrowsSettle | programs/klend/src/lending_market/lending_operations.rs:1067-1216 | the loop refreshes every active slot exactly once, none else; its totals are those of the slots |
| DebtPasses.RefreshDepositsSettle | programs/klend/src/lending_market/lending_operations.rs:913-1065 | likewise for deposits |
| DebtPasses.MoveDepositsSettle | programs/klend/src/lending_market/lending_operations.rs:2410-2548 | the loop over active deposits moves each by the change and nothing else, on both sides alike |
| DebtPasses.ClearBorrowsSettle | programs/klend/src/lending_market/lending_operations.rs:886-908 | clearing the outside trackers takes exactly the parts from the reserves |
| ObligationInvariant.FreshDebtIsCurrent | programs/klend/src/lending_market/lending_operations.rs:655-679 | who is fresh in a slot owes at the current index of every reserve refreshed in it |
| ObligationInvariant.IndexNeverFalls | programs/klend/src/state/obligation.rs:599-622 | `NegativeInterestRate` and a zero divisor are unreachable for a valid obligation |
| RefreshMeaning.RefreshSumsUp | programs/klend/src/lending_market/lending_operations.rs:1219-1299 | a refresh values every slot at its reserve's price and stores the sums: debt, adjusted debt, deposits, allowed borrow value (capped) and unhealthy borrow value |
| RefreshMeaning.RefreshBorrowsMean | programs/klend/src/lending_market/lending_operations.rs:1067-1216 | the borrow totals are the sums of the slots' values with and without borrow factors |
| RefreshMeaning.RefreshDepositsMean | programs/klend/src/lending_market/lending_operations.rs:913-1065 | the deposit totals are the sums of the slots' values, weighted and unweighted |
| RefreshChecks.AcceptedRefresh | programs/klend/src/lending_market/lending_operations.rs:1219-1299 | an accepted refresh: every reserve refreshed in this slot and in use, the group's rules kept, every debt grown with its index from both sides, and the obligation fresh with exactly the price checks all its reserves passed |
| RefreshExtremes.RefreshFindsExtremes | programs/klend/src/lending_market/lending_operations.rs:1219-1299 | a refresh stores the lowest liquidation threshold and the highest borrow factor among the slots that count (bounds, and attained), and flags obsolete collateral and collateral that forbids borrowing exactly when there is some |
| RefreshExtremes.RefreshDepositsExtremes | programs/klend/src/lending_market/lending_operations.rs:913-1065 | the deposit pass finds the lowest threshold and the flags |
| RefreshExtremes.RefreshBorrowsHighest | programs/klend/src/lending_market/lending_operations.rs:1067-1216 | the borrow pass finds the highest borrow factor |
| MarketOutcomes.AcceptedBorrowWithinLimit | programs/klend/src/lending_market/lending_operations.rs:213-252 | every accepted borrow, exact or maximal, leaves recorded adjusted debt plus the new adjusted value within the allowed borrow value |
| MarketOutcomes.AcceptedBorrowIsHealthy | programs/klend/src/lending_market/lending_operations.rs:2843-2890 | with the new debt, debt stays below deposits and adjusted debt exceeds the unhealthy value by less than one ulp per unit of deposits |
| MarketOutcomes.AcceptedWithdrawal | programs/klend/src/lending_market/lending_operations.rs:492-580 | every accepted withdrawal against debt is within the headroom and leaves the debt below the reduced unhealthy value, unless the new LTV floors to zero or no deposits remain |
| AcceptedOperations.AcceptedDeposit | programs/klend/src/lending_market/lending_operations.rs:337-425 | an accepted deposit of collateral: the checks it passed, the slot it enters, no dust, and nothing else changed |
| AcceptedOperations.AcceptedWithdraw | programs/klend/src/lending_market/lending_operations.rs:427-580 | an accepted withdrawal: the checks it passed, the slot loses exactly what is handed out, no dust is left |
| AcceptedOperations.AcceptedBorrow | programs/klend/src/lending_market/lending_operations.rs:157-335 | an accepted borrow: the checks it passed, the debt added to slot and reserve, utilization, recorded debts and minimum value within their limits, orders that still fit |
| AcceptedOperations.AcceptedRepay | programs/klend/src/lending_market/lending_operations.rs:638-723 | an accepted repay: the checks it passed, the settled part taken off the slot, the tokens taken back, no dust is left, orders that still fit |
| AcceptedOperations.AcceptedLoss | programs/klend/src/lending_market/lending_operations.rs:1630-1709 | an accepted loss: no collateral, fresh accounts, the lesser of amount and debt forgiven on both sides, no order without debt |
| AcceptedOperations.MarksMean | programs/klend/src/lending_market/lending_operations.rs:1711-1752 | exactly when an obligation is marked or unmarked for deleveraging, and nothing else changed |
| MarketOutcomes.LiquidationReceipt | programs/klend/src/lending_market/lending_operations.rs:1302-1353 | the liquidator pays at most the offer, gets at most the deposit and redeems at most what was seized; what is redeemed leaves the minimum asked for after the fee, and if nothing is redeemed the collateral handed out is worth that minimum at the exchange rate |
| AcceptedOperations.LiquidationChecked | programs/klend/src/lending_market/lending_operations.rs:1377-1437 | what a liquidation demands: an amount, fresh accounts, a threshold, values on both sides |
| AcceptedOperations.SettlementMeans | programs/klend/src/lending_market/lending_operations.rs:2161-2188 | what settling takes from the debt, the deposit and the two reserves, and what stays |
| AcceptedOperations.RedeemsAllItCan | programs/klend/src/lending_market/lending_operations.rs:1481-1493 | all of the seized collateral is redeemed, or as much as the available liquidity buys |
| AcceptedOperations.PaidOut | programs/klend/src/lending_market/lending_operations.rs:1513-1570 | the receipt: tokens redeemed less the protocol's fee at the percentage of the reason, at least the minimum |
| AcceptedOperations.AcceptedLiquidation | programs/klend/src/lending_market/lending_operations.rs:1302-1511 | the liquidation as a whole: settlement, refresh, redemption, receipt and orders |
| LiquidationLiquidity.LiquidationNeverShort | programs/klend/src/lending_market/lending_operations.rs:1302-1353 | whatever the accounts, keys and amounts, a liquidation with its redemption never fails for lack of liquidity |
| LiquidationLiquidity.RedemptionNeverShort | programs/klend/src/lending_market/lending_operations.rs:1481-1493 | for any reserve the capped redemption needs at most the available liquidity |
| MarketOutcomes.OrderExecution | programs/klend/src/state/liquidation_operations.rs:20-36 | one execution of a single-debt order settles at most what the order has left and repays at least what it settles |
| MarketOutcomes.ExhaustedCollateral | programs/klend/src/state/liquidation_operations.rs:304-316 | when collateral runs out, all of it goes; in a forced full liquidation the ratio of debt to deposits is not raised, otherwise by at most what scaling the settlement down rounds away |
| ReserveRuns.RunsKeepEverything | programs/klend/src/state/reserve.rs:469-619 | over every run whose socialized losses the suppliers can bear: `total_supply` never underflows, referrers' accounts add up, the vault's surplus is constant; without losses the share price has not fallen while shares existed |
| ReserveRuns.RunsKeepBalance | programs/klend/src/lending_market/lending_checks.rs:357-430 | over every run, socialized losses and deprecation included, referrers' accounts add up and the vault holds the books plus a constant surplus |
| ReserveRuns.StepKeepsBalance | programs/klend/src/lending_market/lending_checks.rs:357-430 | any one operation keeps that |
| ReserveRuns.StepKeepsPrice | programs/klend/src/lending_market/lending_operations.rs:104-154 | no operation but socializing lowers L/C or lets L reach zero while shares exist |
| ReserveRuns.SocializeLowersOrDeprecates | programs/klend/src/lending_market/lending_operations.rs:1679-1694 | socializing takes exactly the forgiven amount from suppliers and either leaves them something or deprecates the reserve |
| ReserveRuns.StepKeepsLedger | programs/klend/src/lending_market/lending_operations.rs:1754-1868 | every operation keeps the sum of unclaimed referrer amounts equal to the accumulated referrer fees, and unclaimed at most cumulative |
| ReserveRuns.AccumulateConservesFees | programs/klend/src/lending_market/lending_operations.rs:1769-1838 | attributing pending fees conserves protocol, referrer and pending fees together |
| ReserveRuns.BooksMoveWithTransfers | programs/klend/src/lending_market/lending_checks.rs:357-430 | `available_amount` moves by exactly what the handler transfers, for every operation including both sides of a liquidation |
| ReserveRuns.ChecksAcceptFollowedTransfers | programs/klend/src/lending_market/lending_checks.rs:357-430 | the handler's check accepts every transfer that books and vault followed, for a liquidation exactly if vault, books and the two amounts fit the signed arithmetic |
| ReserveRuns.SmallVaultsFitSigned | programs/klend/src/handlers/handler_liquidate_obligation_and_redeem_reserve_collateral.rs:209-222 | for balances below 2^63 they fit exactly if both amounts or neither reach 2^63 |
| ReserveRuns.SignedChecksFail | programs/klend/src/lending_market/lending_checks.rs:408-427 | concrete transfers that the signed check refuses, with a large and with a small vault, and one with a large vault that it accepts |
| ReserveRuns.StepKeepsVaultSurplus | programs/klend/src/lending_market/lending_checks.rs:357-430 | a successful operation never finds the vault short, keeps its surplus, and passes the handler's check exactly if its transfer, when a liquidation's, fits the signed arithmetic |
| ReserveRuns.DepositRedeemRoundTrip | programs/klend/src/state/reserve.rs:177-221 | redeeming at once what was minted returns at most the charge and at least the charge less one |
| ReserveEffects.AcceptedDepositLiquidity | programs/klend/src/lending_market/lending_operations.rs:104-154 | an accepted deposit: fresh reserve, within the deposit limit, counted against the cap, and the books it leaves |
| ReserveEffects.DepositRefusal | programs/klend/src/lending_market/lending_operations.rs:104-154 | a deposit is refused for the limit only if it would pass it |
| ReserveEffects.AcceptedRedeem | programs/klend/src/lending_market/lending_operations.rs:582-615 | an accepted redemption: fresh reserve, price rounded down once, within the liquidity, the limits' marks, the cap, and the books it leaves |
| ReserveEffects.LimitsAreMarked | programs/klend/src/state/reserve.rs:249-267 | the marks for deleveraging hold the time since which a limit has been found crossed |
| ReserveEffects.RefreshAccrues | programs/klend/src/state/reserve.rs:228-247 | a refresh accrues at the curve's rate of the current utilization and the host's over the slots since, and shares the interest between host, protocol and referrers, each product from both sides |
| ReserveEffects.RefreshMarks | programs/klend/src/lending_market/lending_operations.rs:42-81 | a refresh marks the reserve fresh; a new price brings its checks, an old one keeps them until it is too old |
| ReserveEffects.FeesRedeemedInFull | programs/klend/src/lending_market/lending_operations.rs:617-636 | the protocol redeems all whole tokens of its fees that the reserve can pay |
| ReserveEffects.ReferrerPaidInFull | programs/klend/src/lending_market/lending_operations.rs:1840-1868 | a referrer withdraws all whole tokens it has unclaimed that the reserve can pay |
| ReserveEffects.ReferrersShareOfGrowth | programs/klend/src/lending_market/lending_operations.rs:1769-1838 | a referrer is credited the referral rate of a debt's growth beyond the host's rate, rounded down, up to what is pending |
| ReserveEffects.LentOut | programs/klend/src/lending_market/lending_operations.rs:253-290 | lending out: cap, books, and the referrer's fee |
| ReserveEffects.TakenBack | programs/klend/src/lending_market/lending_operations.rs:680-702 | taking a repay back: cap, tokens and debt |
| ReserveEffects.TakenBackInLiquidation | programs/klend/src/lending_market/lending_operations.rs:2161-2188 | the same in a liquidation, without the cap |
| ReserveEffects.ForgivenDebt | programs/klend/src/lending_market/lending_operations.rs:1674-1694 | forgiving takes the debt off the books, and the reserve out of use if it is worth the supply |
| ReserveEffects.FlashLent | programs/klend/src/lending_market/lending_operations.rs:1572-1584 | a flash borrow: offered, covered, booked |
| ReserveEffects.FlashRepaid | programs/klend/src/lending_market/lending_operations.rs:1586-1628 | a flash repay: tokens, debt, the referrer's fee and the limits' marks |
| ReserveBooks.CompoundingIsSound | programs/klend/src/state/reserve.rs:578-619 | accrual never underflows for rates up to 100%; debt and index grow by one factor of at least one and the fees added are at most the debt added |
| ReserveBooks.SplitIsCovered | programs/klend/src/state/reserve.rs:590-616 | no subtraction in the split of the interest underflows and the fees are covered by the growth |
| ReserveBooks.BorrowedNet | programs/klend/src/state/reserve.rs:500-514 | a borrow raises the net supply by the fraction of a token it keeps |
| ReserveBooks.RepaidNet | programs/klend/src/state/reserve.rs:516-536 | a repay never lowers the net supply |
| ReserveBooks.NeutralSteps | programs/klend/src/state/reserve.rs:538-674 | fee redemption, referrer withdrawal and fee attribution leave the net supply as it is |
| Reserves.TotalSupplyIsNet | programs/klend/src/state/reserve.rs:469-474 | `total_supply` is assets less the three fee ledgers and underflows only if these exceed the assets |
| Reserves.MarketValueFloors | programs/klend/src/lending_market/lending_operations.rs:2190-2197 | a value is amount times price over ten to the decimals, rounded down once although the code rounds twice |
| Reserves.UtilizationFloors | programs/klend/src/state/reserve.rs:566-572 | utilization is the borrowed part of the supply, rounded down, and zero without supply |
| Reserves.BorrowFactorMeans | programs/klend/src/state/reserve.rs:151-157 | the borrow factor is the configured percentage, at least one, and one inside a group |
| ReserveObjects.ReserveLiquidity.Deposit | programs/klend/src/state/reserve.rs:480-486 | in place: takes exactly the amount or fails unchanged |
| ReserveObjects.ReserveLiquidity.Withdraw | programs/klend/src/state/reserve.rs:488-498 | in place: gives exactly the amount or fails unchanged |
| ReserveObjects.ReserveLiquidity.Borrow | programs/klend/src/state/reserve.rs:500-514 | in place: the books after a borrow |
| ReserveObjects.ReserveLiquidity.Repay | programs/klend/src/state/reserve.rs:516-536 | in place: the books after a repay, debt floored at zero |
| ReserveObjects.ReserveLiquidity.RedeemFees | programs/klend/src/state/reserve.rs:538-564 | in place: the books after redeeming protocol fees |
| ReserveObjects.ReserveLiquidity.Compound | programs/klend/src/state/reserve.rs:578-619 | in place: the books after accrual |
| ReserveObjects.ReserveLiquidity.ForgiveDebt | programs/klend/src/state/reserve.rs:621-625 | in place: the books after forgiving debt |
| ReserveObjects.ReserveLiquidity.WithdrawReferrerFees | programs/klend/src/state/reserve.rs:627-674 | in place: the books after paying a referrer and the referrer's own account, or the error |
| ReserveObjects.ReferrerAccount.Credit | programs/klend/src/lending_market/lending_operations.rs:1754-1766 | in place: a fee enters both amounts of the referrer's account |
| ReserveObjects.ReserveCollateral.Mint | programs/klend/src/state/reserve.rs:718-724 | in place: the supply grows by exactly the amount or the call fails |
| ReserveObjects.ReserveCollateral.Burn | programs/klend/src/state/reserve.rs:726-739 | in place: the supply falls by exactly the amount or the call fails |
| ReserveObjects.ReserveParts.RedeemCollateral | programs/klend/src/state/reserve.rs:212-221 | in place: burns exactly the collateral and pays its price, floored once, or the error |
| ExchangeRate.ShiftsLoseNothing | programs/klend/src/state/reserve.rs:824-829 | both 256-bit shifts stay inside the word: no bit is dropped |
| ExchangeRate.LiquidityToCollateralMeaning | programs/klend/src/state/reserve.rs:831-845 | minting is one floor of supply times amount over liquidity |
| ExchangeRate.CollateralToLiquidityMeaning | programs/klend/src/state/reserve.rs:778-808 | redeeming is one floor, although the code floors three times |
| ExchangeRate.CollateralToLiquidityCeilMeaning | programs/klend/src/state/reserve.rs:783-801 | charging is one ceiling |
| ExchangeRate.QuoteIsTight | programs/klend/src/state/reserve.rs:177-199 | the guard after the quote never fires; the charge is at most the request and covers what is minted within one token |
| ExchangeRate.RedemptionCapSuffices | programs/klend/src/lending_market/lending_operations.rs:1481-1493 | redeeming at most the collateral that the available liquidity buys needs at most that liquidity |
| CompoundInterest.AtLeastSimpleInterest | programs/klend/src/state/reserve.rs:1224-1252 | compounding yields at least 1 + n times the slot rate, in all six branches; how much more is `CompoundInterest.AlmostTruncatedBinomial` |
| CompoundInterest.AtMostExactPower | programs/klend/src/state/reserve.rs:1224-1252 | and at most the exact power (1 + rate)^n |
| CompoundInterest.MonotoneInRate | programs/klend/src/state/reserve.rs:1224-1252 | and is monotone in the rate for every n |
| CompoundInterest.OnlyOverflows | programs/klend/src/state/reserve.rs:1224-1252 | and aborts only by overflow |
| CompoundInterest.TruncatedBinomialBelowPower | programs/klend/src/state/reserve.rs:1224-1252 | the binomial cut after its cubic term is below the power, for every n from 3 on |
| CompoundInterest.FewSlotsAlmostExact | programs/klend/src/state/reserve.rs:1224-1238 | up to four slots the approximation is the exact power of one plus the rate over the slots of a year, up to the floors of its products |
| CompoundInterest.QuadraticTermCounts | programs/klend/src/state/reserve.rs:1240-1252 | from five slots on the quadratic term is there, up to its two floors, so simple interest falls short of it |
| CompoundInterest.AlmostTruncatedBinomial | programs/klend/src/state/reserve.rs:1240-1252 | and the whole is the binomial cut after its cubic term, from both sides, up to the floors of the five divisions |
| LazyInterest.LazyFollowsEager | programs/klend/src/state/obligation.rs:599-622 | after k accruals lazily accrued debts exceed the reserve's aggregate by less than k times the product of the factors, in ulps |
| DebtBacking.RunsBackDebts | programs/klend/src/state/reserve.rs:578-619 | over every run of a market: the debts of all obligations, caught up with the current index, exceed what the reserve has outstanding apart from flash loans by at most one ulp per refresh of the reserve, times the growth of the index |
| DebtBacking.NoDebtOutgrowsReserve | programs/klend/src/state/reserve.rs:516-536 | so in every reachable state no accrued debt exceeds its reserve's total by more than that: the cap on settled debt swallows only rounding |
| DebtBacking.ActFollows | programs/klend/src/lending_market/lending_operations.rs:157-335 | every action on an obligation adds to each reserve's total at least what it adds to the obligation's debts, in units of the index |
| DebtBacking.StepKeepsCover | programs/klend/src/lending_market/lending_operations.rs:1572-1628 | every step but a refresh of the reserve keeps its index, and what is outstanding beyond the debts falls by no more than flash loans return |
| DebtBacking.RefreshesCompound | programs/klend/src/state/reserve.rs:228-247 | any sequence of refreshes compounds a reserve's debt and its index by one list of factors, each at least one |
| DebtBacking.AccrualLowersUnits | programs/klend/src/state/obligation.rs:599-622 | accruing a debt never raises it in units of the index |
| LazyInterest.OftenAtMostOnce | programs/klend/src/state/obligation.rs:599-622 | accruing a debt more often never yields more than accruing it once |
| LazyInterest.AccruedDebtIsCaughtUp | programs/klend/src/state/obligation.rs:599-622 | the accrual of a debt is the floored ratio of the indices, and fails exactly for width |
| BorrowRateCurve.Validate | programs/klend/src/utils/borrow_rate_curve.rs:124-158 | accepts exactly the curves whose points rise from 0 to 100% |
| BorrowRateCurve.FromPoints | programs/klend/src/utils/borrow_rate_curve.rs:160-181 | succeeds exactly for 2 to 11 sorted points and pads with the last |
| BorrowRateCurve.FindSegment | programs/klend/src/utils/borrow_rate_curve.rs:265-283 | returns the first segment that covers the utilization |
| BorrowRateCurve.RateTotalAndBounded | programs/klend/src/utils/borrow_rate_curve.rs:254-288 | an accepted curve always has a rate, between its first and last |
| BorrowRateCurve.RateMonotone | programs/klend/src/utils/borrow_rate_curve.rs:254-288 | the rate never falls as utilization rises, across snapping, joins and the clamp |
| BorrowRateCurve.SegmentRateBetween | programs/klend/src/utils/borrow_rate_curve.rs:107-120 | the interpolation is defined and stays between the segment's rates; `BorrowRateCurve.RateBetweenPoints` is where on the line |
| BorrowRateCurve.RateAtPoint | programs/klend/src/utils/borrow_rate_curve.rs:254-288 | at each point of an accepted curve, and within half a basis point of it, the rate is that point's (the first one's where several share a utilization) |
| BorrowRateCurve.RateBetweenPoints | programs/klend/src/utils/borrow_rate_curve.rs:107-120 | everywhere else the rate lies on the straight line between the two points around the utilization, rounded down |
| BorrowRateCurve.SnapsToNearest | programs/klend/src/utils/fraction.rs:96-100 | utilization snaps to the nearest basis point, the upper one half-way |
| Fees.FeesAddUp | programs/klend/src/state/reserve.rs:1154-1199 | protocol and referrer fee add up to the rounded fee, which is at least one and below the amount; no underflow (`Fees.ExclusiveFee` and `Fees.InclusiveFee` are how much) |
| Fees.ExclusiveFee | programs/klend/src/state/reserve.rs:1166-1187 | the fee of an exact amount is rate times amount, to the nearest whole token and at least one, and less than the amount |
| Fees.InclusiveFee | programs/klend/src/state/reserve.rs:1168-1187 | the fee taken out of an amount is the rate of what is left: fee times one plus the rate is the rate of the amount, up to the floors and the rounding |
| Fees.ReferrersPart | programs/klend/src/state/reserve.rs:1181-1191 | the referrer's part is all of the fee at 100%, nothing without a referrer or a rate, otherwise its share rounded down |
| Fees.NoRateNoFee | programs/klend/src/state/reserve.rs:1164-1197 | without a rate, or on nothing, there is no fee |
| Fees.ExactBorrow | programs/klend/src/state/reserve.rs:301-330 | an exact borrow hands out the amount and books amount and fees as debt |
| Fees.LargestIsLargest | programs/klend/src/state/reserve.rs:279-300 | a maximal borrow is stopped by the reserve's capacity, its liquidity or the allowed value: one ulp more, or the rounding, would pass it |
| Fees.BorrowSplitsExactly | programs/klend/src/state/reserve.rs:269-330 | receive amount, protocol fee and referrer fee are exactly the floor of the new debt; no underflow |
| Fees.FeeRefusal | programs/klend/src/state/reserve.rs:1164-1180 | a borrow is too small for its fee only if there is a fee rate and the amount is at most one token or its fee would take all of it |
| Fees.BorrowRefusal | programs/klend/src/state/reserve.rs:301-330 | an exact borrow is too large only if amount and fees are worth more than is allowed; a maximal one never is |
| Fees.AcceptedBorrowWithinValue | programs/klend/src/state/reserve.rs:269-330 | in both paths the adjusted value of the debt is at most the value allowed |
| Fees.CalculateRepay | programs/klend/src/state/reserve.rs:332-348 | the settlement is at most the debt, the repay its ceiling, at most the offer |
| LiquidationSafety.RoutesAndBonuses | programs/klend/src/state/liquidation_operations.rs:162-263 | the first route is taken exactly at or above the unhealthy LTV; below 99% every bonus is at most 1 - LTV |
| LiquidationSafety.LtvBonusWithinConfig | programs/klend/src/state/liquidation_operations.rs:345-397 | the bonus lies between the configured minimum and maximum and follows the excess LTV in between; only the group's cap or nearness to insolvency pushes it below |
| LiquidationSafety.AutodeleverageBonusGrows | programs/klend/src/state/liquidation_operations.rs:658-683 | the deleveraging bonus starts at its minimum, never falls with time and respects all caps |
| LiquidationSafety.OrderBonusWithinRange | programs/klend/src/state/liquidation_operations.rs:685-701 | an order's bonus lies within its range, unless insolvency is nearer |
| LiquidationSafety.HealthyObligationsAreSafe | programs/klend/src/state/liquidation_operations.rs:162-214 | below the unhealthy LTV, without deleveraging and orders, there is no liquidation |
| LiquidationSafety.LiquidationDoesNotWorsen | programs/klend/src/state/liquidation_operations.rs:65-159 | below 99%, seized value T and repaid value d satisfy T*D <= V*d despite flooring, so (D-d)/(V-T) <= D/V |
| LiquidationSafety.TokensDoNotWorsen | programs/klend/src/state/liquidation_operations.rs:297-343 | the same for the tokens actually handed out and the debt actually settled, in partial and in forced full liquidations, when the collateral suffices and the seizure is worth the token that a share below one is raised to |
| LiquidationSafety.WithdrawnWorthAtMost | programs/klend/src/state/liquidation_operations.rs:317-341 | the tokens handed out are worth at most the value to be seized, exactly unless a share below one is raised to a token that is worth more |
| LiquidationSafety.DustTokenWorsens | programs/klend/src/state/liquidation_operations.rs:317-341 | concrete positions for which that token is worth more and the ratio of debt to deposits is raised |
| LiquidationSafety.QuoteWithinBounds | programs/klend/src/state/liquidation_operations.rs:297-343 | settle <= debt, repay = ceil(settle) <= offer, withdraw <= deposit; how much is seized is `LiquidationPricing.SeizurePaysBonus` and `LiquidationPricing.WithdrawnTokens` |
| LiquidationPricing.SeizurePaysBonus | programs/klend/src/state/liquidation_operations.rs:118-132 | the value to be seized is the repaid value times one plus the bonus, and the repaid value the liquidated share of the debt's value, both from both sides up to the floors |
| LiquidationPricing.WithdrawnTokens | programs/klend/src/state/liquidation_operations.rs:304-343 | the tokens handed out are the seizure's share of the deposit from both sides, the whole deposit if it is worth no more, one by the dust override |
| LiquidationPricing.SettledDebt | programs/klend/src/state/liquidation_operations.rs:304-343 | the settlement is the liquidated debt, scaled to the collateral (from both sides) only when that runs out and no full liquidation is forced |
| LiquidationPricing.LiquidatedDebt | programs/klend/src/state/liquidation_operations.rs:20-116 | the debt taken is bounded by offer, debt and limit, and one of them stops it; a forced full liquidation takes all of it |
| LiquidationPricing.LiquidatableValue | programs/klend/src/state/liquidation_operations.rs:38-57 | the most value at once is the close factor's share (all above the insolvency threshold), the debt's value or the market's cap, whichever is least |
| LiquidationPricing.FullLiquidationForced | programs/klend/src/state/liquidation_operations.rs:88-116 | full liquidation is forced exactly below the market's minimum, orders aside |
| LiquidationPricing.RoutesInOrder | programs/klend/src/state/liquidation_operations.rs:162-214 | each reason is given exactly if its route is open and no earlier one: unhealthy, a due margin call of the obligation, a due one of a reserve past its limit, the first order that is met |
| LiquidationPricing.HealthyMeansNoRoute | programs/klend/src/state/liquidation_operations.rs:162-214 | an obligation counts as healthy only if it is below the unhealthy loan-to-value, no margin call is due and no order's condition is met |
| LiquidationPricing.PrioritiesRespected | programs/klend/src/state/liquidation_operations.rs:180-214 | the debt with the highest borrow factor and the collateral with the lowest threshold go first |
| LiquidationPricing.BonusPaid | programs/klend/src/state/liquidation_operations.rs:216-263 | the bonus paid on each route, equal to its formula or from both sides up to one floor |
| LiquidationPricing.GroupBonusCap | programs/klend/src/state/liquidation_operations.rs:265-295 | the group's bonus caps the reserves' exactly if both are in it and it is neither zero nor higher than theirs |
| LiquidationPricing.FeeIsShareOfBonus | programs/klend/src/state/liquidation_operations.rs:711-727 | the protocol takes its percentage of the bonus part of the redeemed amount, rounded up and at least one, from both sides |
| LiquidationSafety.CloseFactorRespected | programs/klend/src/state/liquidation_operations.rs:20-62 | outside forced full liquidation the settled share respects close factor, debt value and market cap |
| LiquidationSafety.OrderPaysAtMostItsMaximum | programs/klend/src/state/liquidation_operations.rs:685-709 | a validated order pays at most its maximum, at most a tenth; a stop-loss on the price ratio where its exact condition holds |
| LiquidationSafety.ProtocolFeeWithinRedeemed | programs/klend/src/state/liquidation_operations.rs:711-727 | the fee is at least one, and at most the redeemed amount exactly if that is positive |
| Orders.StopLossInRange | programs/klend/src/state/order_operations.rs:274-290 | a stop-loss is defined with a distance of at most one if and only if it is not met, or its threshold is past the liquidation point, or the overshoot is below the bound stated |
| Orders.RatioStopLossInRange | programs/klend/src/state/order_operations.rs:243-290 | on every input a stop-loss on the price ratio evaluates without an abort to a distance of at most one if and only if the condition on prices and loan-to-values holds |
| Orders.RoomKeepsRatioStopLossInRange | programs/klend/src/state/order_operations.rs:259-266 | that condition holds for every threshold once price ratio times the room between the loan-to-values is at least an ulp |
| Orders.StopLossDistance | programs/klend/src/state/order_operations.rs:274-290 | below the liquidation point a stop-loss neither divides by zero nor leaves 0 to 1 |
| Orders.HealthyOrderDistance | programs/klend/src/state/order_operations.rs:243-301 | for a healthy obligation every order evaluates to a distance in 0 to 1; a stop-loss on the price ratio where its exact condition holds |
| Orders.PriceRatioStopLossEscapes | programs/klend/src/state/order_operations.rs:259-290 | that condition can fail on healthy obligations: concrete values where valid orders divide by zero (a liquidation ratio equal to the threshold, a loan-to-value of zero) and where the bonus is doubled |
| Orders.BonusWithinRange | programs/klend/src/state/liquidation_operations.rs:703-709 | for a distance of at most one the bonus is within the order's range |
| Orders.ConditionMeans | programs/klend/src/state/order_operations.rs:243-301 | for each kind of order, when exactly it is met and how far it has come towards liquidation or zero, rounded down |
| Orders.BonusFollowsDistance | programs/klend/src/state/liquidation_operations.rs:703-709 | the bonus rises from the order's minimum to its maximum in proportion to the distance, rounded down |
| Orders.OrdersPlaced | programs/klend/src/state/order_operations.rs:90-131 | exactly the orders in range that fit the obligation are placed, in slots there are, new ones only while the market allows |
| Orders.ConsumedExactly | programs/klend/src/state/obligation.rs:688-738 | an execution takes what was repaid off a single-debt order and voids it once nothing is left |
| OrderRuns.RunsNeverOverspendOrders | programs/klend/src/state/obligation.rs:688-738 | over every run of a market, until the owner replaces it, what liquidations settle through a single-debt order plus what the order has left never exceeds the amount it was placed for |
| OrderRuns.LiquidateContinues | programs/klend/src/lending_market/lending_operations.rs:1442-1479 | one liquidation settles through an order at most what the order loses |
| Orders.OrderNeverOverspent | programs/klend/src/state/obligation.rs:688-738 | the same for any sequence of executions, each within the order and within its repay |
| Orders.FirstApplicable | programs/klend/src/state/order_operations.rs:44-57 | the order returned is the first one whose condition is met, at the distance returned; none is returned exactly if no condition is met; an error is that of the first order that is not simply unmet |
| Orders.RemoveAllOrders | programs/klend/src/state/order_operations.rs:79-88 | in place: clears every slot and reports whether any was in use |
| Positions.WithdrawalRespectsHeadroom | programs/klend/src/lending_market/lending_operations.rs:492-541 | in both paths w*V <= deposited*(headroom + one ulp), and weighted with the LTV percentage within 100*(limit - debt) and a percentage of an ulp |
| Positions.HeadroomWeighted | programs/klend/src/state/obligation.rs:205-238 | the headroom times the LTV percentage is at most 100 times what is left to the limit |
| Positions.HeadroomFloors | programs/klend/src/state/obligation.rs:205-238 | the headroom is what is left to the limit over the percentage, rounded down; zero past the limit, the deposit without a percentage |
| Positions.AllowedIsLargest | programs/klend/src/lending_market/lending_operations.rs:507-518 | a maximal withdrawal takes the deposit if the headroom covers it, otherwise the headroom's share of it, from both sides |
| Positions.ExactAmounts | programs/klend/src/lending_market/lending_operations.rs:519-541 | an explicit withdrawal hands out what is asked for, at most the deposit, and is refused as too large only if it reaches the headroom up to the rounding |
| Positions.FreeWithdrawal | programs/klend/src/lending_market/lending_operations.rs:492-498 | without debt a withdrawal hands out what is asked for, at most the deposit |
| Positions.LiquidityOfFloors | programs/klend/src/state/reserve.rs:803-808 | collateral tokens stand for their share of the net supply, rounded down, one for one without supply |
| Obligations.LoanToValuesMean | programs/klend/src/state/obligation.rs:164-177 | the three loan-to-values are debt with and without borrow factors and the unhealthy value over the deposits, rounded down |
| Positions.AcceptedWithdrawalIsHealthy | programs/klend/src/lending_market/lending_operations.rs:2663-2729 | the check after a withdrawal accepts only a debt strictly below the reduced unhealthy value, unless the new LTV floors to zero or no deposits remain |
| Positions.WithdrawRefusals | programs/klend/src/lending_market/lending_operations.rs:2663-2729 | a withdrawal is refused only for dust left in the slot, for debt that reaches the deposits left, or for a loan-to-value not below the unhealthy one |
| Positions.BorrowRefusals | programs/klend/src/lending_market/lending_operations.rs:2843-2890 | a borrow is refused after the fact only for dust, for a loan-to-value above the unhealthy one, or for debt that reaches the deposits |
| Positions.RepayRefusals | programs/klend/src/lending_market/lending_operations.rs:2892-2930 | a repay is refused only for dust left in the slot; it never worsens the loan-to-value |
| Positions.DepositRefusals | programs/klend/src/lending_market/lending_operations.rs:2624-2661 | a deposit is refused only for being dust; it never worsens the loan-to-value |
| FlashLoans.FlashBorrowChecks | programs/klend/src/lending_market/flash_ixs.rs:82-128 | the loop over later instructions computes the stated outcome, error for error |
| FlashLoans.ChecksImplyPairing | programs/klend/src/lending_market/flash_ixs.rs:18-172 | if all flash checks pass there is no flash instruction or exactly one borrow followed by exactly one matching repay |
| FlashLoans.PairingImpliesChecks | programs/klend/src/lending_market/flash_ixs.rs:18-172 | a properly paired transaction passes all flash checks |
| FlashLoans.RepayPointsBack | programs/klend/src/lending_market/flash_ixs.rs:18-70 | a repay that passes names an earlier flash borrow |
| FlashLoans.NoFlashThroughCpi | programs/klend/src/lending_market/ix_utils.rs:17-29 | neither handler passes when called by another program or below the top level |
| FlashLoans.IxIterator.Next | programs/klend/src/lending_market/ix_utils.rs:97-109 | in place: returns the instruction at the position and advances, or ends |
| WithdrawalCaps.Counter.CheckAndUpdate | programs/klend/src/lending_market/withdrawal_cap_operations.rs:170-197 | in place: the caps after one amount, or the error |
| WithdrawalCaps.Counter.UpdateCounter | programs/klend/src/lending_market/withdrawal_cap_operations.rs:44-104 | in place: the counter after adding or removing, exact or saturating |
| WithdrawalCaps.TotalIsSumSinceRestart | programs/klend/src/lending_market/withdrawal_cap_operations.rs:44-197 | over every run the counter is the signed sum since the last reset |
| WithdrawalCaps.CapsMean | programs/klend/src/lending_market/withdrawal_cap_operations.rs:44-197 | exactly when an amount passes the caps, and what the counter and its interval are then |
| WithdrawalCaps.TotalWithinCapacity | programs/klend/src/lending_market/withdrawal_cap_operations.rs:106-126 | and never exceeds the capacity |
| WithdrawalCaps.RestartsAreAnIntervalApart | programs/klend/src/lending_market/withdrawal_cap_operations.rs:128-142 | consecutive resets are at least one interval apart |
| WithdrawalCaps.NetOutflowPerIntervalCapped | programs/klend/src/lending_market/withdrawal_cap_operations.rs:144-168 | between two resets at most the capacity leaves, net |
| LastUpdates.FreshMeansNow | programs/klend/src/state/last_update.rs:95-100 | what is not stale was refreshed in this very slot with the demanded price checks |
| Markets.SettingGroupsKeepsPlaces | programs/klend/src/state/lending_market.rs:171-191 | slot i keeps holding the group with id i + 1 and is found by it |
| Markets.GroupsInUse | programs/klend/src/state/lending_market.rs:171-191 | a group can be used exactly if it is in the market and has both percentages, which then replace the reserve's |
| FixedPoint.MulBounds | programs/klend/src/utils/fraction.rs:281-285 | a product of fractions is floored: it is within one ulp below the exact one |
| FixedPoint.FloorCeil | programs/klend/src/utils/fraction.rs:150-157 | floor and ceiling bracket the value and differ by at most one |
| FixedPoint.FromIntExact | programs/klend/src/utils/fraction.rs:150-162 | floor, ceiling and rounding are exact on whole numbers |
| FixedPoint.RoundNearest | programs/klend/src/utils/fraction.rs:160-163 | rounding is to the nearest whole number, upwards half-way |
| FixedPoint.SharesOfOne | programs/klend/src/utils/fraction.rs:46-60 | percentages and basis points are fractions of one, rounded down |
| FixedPoint.DivFloorBounds | programs/klend/src/utils/fraction.rs:297-312 | a quotient of fractions is floored |
| MarketObjects.LoadedAccounts.RefreshObligationBorrows | programs/klend/src/lending_market/lending_operations.rs:1067-1216 | in place: the loop over borrow slots computes the borrow pass, error for error |
| MarketObjects.LoadedAccounts.RefreshObligationDeposits | programs/klend/src/lending_market/lending_operations.rs:913-1065 | in place: the loop over deposit slots computes the deposit pass, error for error |
| MarketObjects.LoadedAccounts.Refresh | programs/klend/src/lending_market/lending_operations.rs:1219-1299 | in place: both passes, the totals and the new mark |
| MarketObjects.LoadedAccounts.MoveGroupDebts | programs/klend/src/lending_market/lending_operations.rs:2431-2466 | in place: the loop over active deposits and their reserves |
| MarketObjects.LoadedAccounts.ClearOutsideDebts | programs/klend/src/lending_market/lending_operations.rs:888-908 | in place: the loop over active borrows and their reserves |
| MarketObjects.LoadedAccounts.ResetElevationGroupDebts | programs/klend/src/lending_market/lending_operations.rs:862-911 | in place: both branches of the reset |
| MarketObjects.LoadedAccounts.TrackBorrowed | programs/klend/src/lending_market/lending_operations.rs:2410-2490 | in place: trackers on a borrow |
| MarketObjects.LoadedAccounts.TrackRepay | programs/klend/src/lending_market/lending_operations.rs:2492-2548 | in place: trackers on a repay |
| MarketObjects.LoadedAccounts.DepositObligationCollateral | programs/klend/src/lending_market/lending_operations.rs:337-425 | in place: the accounts after a deposit, or the error |
| MarketObjects.LoadedAccounts.WithdrawObligationCollateral | programs/klend/src/lending_market/lending_operations.rs:427-580 | in place: the accounts after a withdrawal, or the error |
| MarketObjects.LoadedAccounts.BorrowObligationLiquidity | programs/klend/src/lending_market/lending_operations.rs:157-335 | in place: the accounts after a borrow, or the error |
| MarketObjects.LoadedAccounts.RepayObligationLiquidity | programs/klend/src/lending_market/lending_operations.rs:638-723 | in place: the accounts after a repay, or the error |
| MarketObjects.LoadedAccounts.RequestGroup | programs/klend/src/lending_market/lending_operations.rs:726-840 | in place: the accounts after a group switch, or the error; what they guarantee is `GroupSwitches.AcceptedSwitch` |
| MarketObjects.LoadedAccounts.LiquidateAndRedeem | programs/klend/src/lending_market/lending_operations.rs:1302-1570 | in place: the accounts and the receipt of a liquidation, or the error; what they guarantee is `AcceptedOperations.AcceptedLiquidation`, the pricing `LiquidationPricing.SeizurePaysBonus` |
| MarketObjects.LoadedAccounts.Settle | programs/klend/src/lending_market/lending_operations.rs:2161-2188 | in place: the debt's two sides and the obligation's side of the collateral, or the error |
| MarketObjects.LoadedAccounts.Socialize | programs/klend/src/lending_market/lending_operations.rs:1630-1709 | in place: the accounts after a socialized loss, or the error |
| ObligationObjects.ObligationAccount.constructor | programs/klend/src/state/obligation.rs:151-162 | a new obligation is blank and stale |
| ObligationObjects.ObligationAccount.Repay | programs/klend/src/state/obligation.rs:179-187 | in place: reduces the slot, or clears it when settled in full |
| ObligationObjects.ObligationAccount.Withdraw | programs/klend/src/state/obligation.rs:189-203 | in place: reduces the slot, or clears it and says so |
| ObligationObjects.ObligationAccount.AccrueInterest | programs/klend/src/state/obligation.rs:599-622 | in place: the slot at the new index |
| ObligationObjects.ObligationAccount.FindOrAddCollateral | programs/klend/src/state/obligation.rs:263-283 | in place: the reserve's first slot, or the first free one |
| ObligationObjects.ObligationAccount.FindOrAddLiquidity | programs/klend/src/state/obligation.rs:324-346 | in place: the reserve's first slot, or the first free one started at the given rate |
| ObligationObjects.ObligationAccount.PositionOfCollateral | programs/klend/src/state/obligation.rs:285-294 | the first slot of the reserve, or the error |
| ObligationObjects.ObligationAccount.UpdateHasDebt | programs/klend/src/state/obligation.rs:445-451 | in place: the flag says whether some borrow is active |
| ObligationObjects.ObligationAccount.ConsumeOrder | programs/klend/src/state/obligation.rs:688-738 | in place: the order loses what was repaid and is cleared when used up |
| ObligationObjects.ObligationAccount.SettleOrders | programs/klend/src/lending_market/lending_operations.rs:1469-1479 | in place: without debt no order survives, else the executed one is consumed |

## Left out

- Orders.HealthyOrderDistance: a stop-loss on the price ratio needs the exact condition `Orders.RatioStopLossFits`, since the property is false without it; so does LiquidationSafety.OrderPaysAtMostItsMaximum.
- LiquidationSafety.LiquidationDoesNotWorsen: stated below a loan-to-value of 99%; from there on the program pays a bad-debt bonus that is meant to worsen the ratio.
- LiquidationSafety.TokensDoNotWorsen: where a share below one token is raised to a token, the seizure must be worth that token; `LiquidationSafety.DustTokenWorsens` shows the property failing otherwise.
- MarketOutcomes.ExhaustedCollateral: outside forced full liquidations it carries the slack of one ulp and one ulp per token, which scaling the settlement down rounds away.
- MarketPrices.RunsKeepPrices: a loss that consumes all of a reserve's supply deprecates the reserve and is outside the solvency part; the price is compared over runs without losses of the reserve, and only while shares exist. ReserveRuns.RunsKeepEverything likewise.
- DebtBacking.RunsBackDebts: assumes that flash repays never return more than flash borrows took, which `FlashLoans.ChecksImplyPairing` gives for each transaction.
- OrderRuns.RunsNeverOverspendOrders: about debt settled; the tokens repaid are rounded up, by less than one token for each execution.
- FlashLoans.PairingImpliesChecks: assumes that every instruction of the program in the transaction carries its 8-byte discriminator, which the loader demands.
- MarketObjects.LoadedAccounts.RepayObligationLiquidity: returns the error of the function it computes; where several independent checks of the program fail at once, the program may report another of them (it moves the trackers before the reserve takes a repay, for instance). The same holds for the other whole operations of that class.
- `flash_repay_checks` on values: the iterator is an object, the two checks only read.
- `LastUpdate` is a value inside reserves and obligations, not an object of its own.
- The operations on one reserve in `ReserveOperations` are functions on values; what they update in place is in `ReserveObjects`.
- Oracle accounts and price checks: a refresh takes any new price with any status and time, or none; only the age of a saved price is checked.
- Account structures, seeds, signer checks, token programs and cross-program calls: a transfer is a change of a vault balance; Token-2022 extensions are not part of this model.
- Farms, user metadata, referrer short links, global configuration and logging.
- Configuration setters: a configuration that passed `validate_reserve_config_integrity` is a premise where it matters and stays fixed for a reserve.
- Creating reserves during a run: the set of reserves is fixed, obligations are created freely.
- Asset tiers (`validate_obligation_asset_tiers`): an extra way for operations to fail.
- The liquidation-LTV override of the staging build, emergency mode and the legacy position checks of the first instruction versions.
- `post_repay_and_withdraw_obligation_enforcements` and `post_deposit_and_withdraw_obligation_enforcements`: extra failures of handlers that combine modelled operations with refreshes.
- `liquidity_to_collateral_ceil`, `fraction_liquidity_to_collateral_ceil`, `pow_fraction` and the legacy curve constructor: not used by the modelled operations.
- The reserve of a slot is looked up by address; the program takes it from the accounts passed and checks the address.
- The documentation pages on cross-currency prices and two-slope curves describe things the code does not have; the model follows the code.
