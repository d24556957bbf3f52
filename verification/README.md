# A model of the Templar lending market

A market lends one asset against another as collateral. Suppliers deposit the
borrow asset and earn yield; borrowers draw on the deposits and pay interest and
fees; static accounts earn a fixed weight of the yield. Time is cut into
snapshots, every balance change is bookkept in place, and every outgoing transfer
has a callback that settles it or takes it back.

The model has three layers.

* **Numbers and text.** `FixedPoint` is the 512-bit fixed-point decimal (384 whole
  and 128 fractional bits), `BinaryExponential` its power of two, `InterestRates`
  the interest curves, `DecimalText` and `SchemaPattern` its textual form, `Price`
  the valuation of oracle prices.
* **Storage.** `ChunkedList` is the chunked append-only list of snapshots with its
  double-ended iterator, `WithdrawalQueue` the linked queue of withdrawal requests.
* **The ledger.** `Accrual` is interest and yield over snapshots; `SupplyLedger`,
  `SupplySteps`, `BorrowLedger`, `BorrowSteps` and `StaticLedger` are the three
  sides with their invariants; `Market` joins them with the cash; `MarketRuns` and
  `Guarantees` speak about whole runs, `Schedule` about when their snapshots are
  finalized; `Withdrawals`, `WithdrawalBatches`, `Loans`, `Liquidation`,
  `LiquidationRounding`, `QueueExecution` and `QueueSettlement` about what single
  calls and callbacks promise; `ExampleMarket`, `LentBeyondActive`, `LoanRuns` and
  `StrandedWithdrawal` are runs in full, on a schedule the program can have.
  `MarketObject` is the market as a mutable object whose methods are proved to
  take the ledger's steps. `Arith` and `Sums` hold the arithmetic and the sums over
  positions that the others share.

A panic of the program is modelled as `None` (or `ok == false`) and leaves the
state as it was, since the runtime rolls the call back. Values that come from
outside are parameters, and every statement holds for all of them: the clock, the
interest rate of a finalized snapshot, the fee of a withdrawal or a loan, whether a
position is healthy or can be liquidated, the acceptable price range of a
liquidation, and the outcome of every transfer. Receipts of transfers in flight can be
settled in any order, and those of withdrawals in any batches.

## Where the code falls short of what it or its comments promise

* The comment on the market's total of loans says that active deposits always
  cover loans made and in flight. They do not: yield set aside counts towards what a
  supplier may withdraw. `LentBeyondActive.MoreLentThanActive` is a run that ends
  with more lent than active. `Withdrawals.CoverExactly` says that every step keeps
  the bound except a withdrawal of more than yield, incoming and unlent deposits.
  `Guarantees.LoansAreCovered` and `Guarantees.MarketIsSolvent` say what holds instead.
* Loans made can exceed active deposits and yield together, and then withdrawals
  panic for every supplier entitled to something (`LentBeyondActive.MoreLentThanPayable`,
  `Withdrawals.WithdrawalPanics`). This comes about exactly when a
  withdrawal takes yield that is not free or a loan arrives that no longer fits
  (`Withdrawals.PayableExactly`).
* One callback settles all withdrawals that an execution of the queue sent out. A
  failed one cannot come back to a position that holds four entries of finalized
  snapshots; the callback then panics, and every withdrawal of the execution stays in
  flight, paid or not, those of other suppliers included
  (`StrandedWithdrawal.FifthIsStranded`). The callback settles all of them in every
  other case (`WithdrawalBatches.BatchPanics`, `WithdrawalBatches.RestoredExactly`,
  `WithdrawalBatches.PaidExactly`), and always does before another snapshot is
  finalized (`QueueSettlement.PromptCallback`).
* A principal below the configured minimum can arise, also when no transfer fails
  (`LoanRuns.PrincipalBelowMinimum`). It arises exactly when a loan arrives that,
  with the principal left by then, is below the minimum (`Loans.AllowedExactly`,
  `Loans.AllowedOverRuns`).
* A loan whose transfer fails leaves its fees, and the interest of every snapshot
  finalized while it was in flight (`Loans.FailedLoanLeavesFeesAndInterest`,
  `LoanRuns.FailedLoanOwesInterest`).
* The callback of a collateral withdrawal panics if the position is gone, which can
  happen to a withdrawal of nothing (`Loans.CollateralCallbackPanics`,
  `LoanRuns.CollateralCallbackFindsNothing`).
* The amount that may be liquidated is computed with rounded decimals. What that can
  cost is bounded (`LiquidationRounding.RoundingCosts`), but the computation panics for
  some positions just below the maintenance ratio
  (`LiquidationRounding.PanicsExactly`, `LiquidationRounding.AlmostMaintained`).
* `nth` on the list iterator can pass the back position and hand out items again
  (`ChunkedList.NthIsRepeatedNext`).
* Division drops the high bits of a quotient that does not fit
  (`FixedPoint.DivBracket`, `FixedPoint.DivWraps`), and the power of two collapses
  to zero at 384 (`BinaryExponential.Pow2Collapses`).
* The exponential curve's constructor divides by zero for the smallest positive
  eccentricity (`InterestRates.Exponential2Aborts`).

## Model

| member | source | states |
|---|---|---|
| Guarantees.EveryRun | common/src/market/impl.rs:36-66 | from the empty market, after any sequence of calls, callbacks and snapshots in any order, cash is conserved, the market is solvent, loans are covered by deposits, yield and fees, and no snapshot's yield is credited beyond what there is |
| Guarantees.LoansAreCovered | common/src/market/impl.rs:40-56 | cash held plus loans made, loans in flight and static payments equals active and incoming deposits plus pending fees, yield set aside, surplus and fees received, so loans never exceed the latter |
| Guarantees.TotalsAreSums | common/src/market/impl.rs:42-58 | the market's totals of active, incoming, borrowed, in-flight and collateral amounts are the sums over positions; each account's in-flight amounts are those of its pending receipts |
| Guarantees.SnapshotNotOverspent | common/src/market/impl.rs:348-414 | for every finalized snapshot, what all suppliers and all static accounts were ever credited on it is at most its interest plus its distribution |
| Guarantees.CreditsWithinYield | common/src/supply.rs:122-189 | summed over all snapshots, credits to suppliers and static accounts stay within the total yield |
| Guarantees.SnapshotCharged | common/src/borrow.rs:271-324 | for every finalized snapshot, what borrowers were charged on it is at most the interest suppliers share, and short of it by at most one unit of 2^-128 for each position charged plus the part still outstanding |
| Guarantees.InterestIsCharged | common/src/borrow.rs:271-324 | the same summed over all snapshots |
| Guarantees.YieldIsFunded | common/src/supply.rs:311-333 | all yield ever earned, held or withdrawn, by suppliers and static accounts is at most the fees received plus interest and fees charged to borrowers plus liquidation surplus, up to one unit of 2^-128 per charge and the interest not yet charged |
| Guarantees.MarketIsSolvent | common/src/market/impl.rs:36-66 | all deposits and all yield held by suppliers and static accounts are at most the cash held or under way, loans, and fees and interest owed, up to dropped fractions, one unit of 2^-128 per charge and the interest not yet charged |
| Guarantees.NothingOutstanding | common/src/borrow.rs:656-660 | no interest is outstanding once every borrower is charged up to date |
| Guarantees.IncomingListsStayShort | common/src/supply.rs:245-279 | in every reachable state the market expects deposits only at the next snapshot, and a position has at most four entries in strictly rising order, at most one right after accrual |
| MarketRuns.Run | contract/market/src/impl_market_external.rs:99-394 | the invariant holds after every sequence of calls, callbacks and snapshots |
| MarketRuns.NextKeeps | contract/market/src/impl_helper.rs:32-431 | every call and callback keeps the invariant |
| Schedule.SnapshotPerChunk | common/src/market/impl.rs:169-206 | over every run that finalizes a snapshot exactly when the time chunk has changed, snapshots end in chunks of their own, in rising order, none after the clock |
| Market.EmptyMarketInv | common/src/market/impl.rs:69-115 | a new market satisfies the invariant |
| Market.TickKeeps | common/src/market/impl.rs:169-206 | finalizing a snapshot keeps the invariant |
| Market.SupplyKeeps | contract/market/src/impl_helper.rs:32-48 | a deposit panics if and only if it takes the position's total deposit out of the allowed range, and keeps the invariant |
| Market.SendOutKeeps | common/src/supply.rs:379-420 | paying out at most the entitlement panics exactly when the cash is short, and keeps the invariant |
| Market.WithdrawStartKeeps | common/src/supply.rs:338-433 | starting a withdrawal keeps the invariant |
| Market.WithdrawEndKeeps | common/src/supply.rs:435-455 | settling one withdrawal panics exactly when a failed transfer comes back to a position with four entries of finalized snapshots; otherwise the invariant is kept |
| Market.WithdrawalsEnd | contract/market/src/impl_helper.rs:193-216 | the callback of an execution, which settles all its withdrawals or none, keeps the invariant |
| Market.HarvestKeeps | contract/market/src/impl_market_external.rs:318-342 | crediting yield on request keeps the invariant |
| Market.ApplyInterestKeeps | contract/market/src/impl_market_external.rs:159-165 | charging interest on request never panics and keeps the invariant |
| Market.CollateralizeKeeps | contract/market/src/impl_helper.rs:50-77 | depositing collateral panics exactly when the position can still be liquidated afterwards; otherwise the invariant is kept |
| Market.CollateralStartKeeps | common/src/borrow.rs:456-464 | sending collateral keeps the invariant |
| Market.CollateralEndKeeps | common/src/borrow.rs:466-488 | settling collateral keeps the invariant |
| Market.BorrowStartKeeps | common/src/borrow.rs:503-559 | starting a loan keeps the invariant |
| Market.BorrowEndKeeps | common/src/borrow.rs:561-617 | settling a loan keeps the invariant |
| Market.RepayKeeps | contract/market/src/impl_helper.rs:80-103 | a repayment panics exactly when it is for a position that can be liquidated; otherwise the invariant is kept |
| Market.SeizeKeeps | common/src/borrow.rs:728-736 | seizing collateral and paying into the position fails exactly when the position has less collateral, splits the payment without loss and keeps the invariant |
| Market.LiquidateKeeps | common/src/borrow.rs:669-750 | a liquidation fails if and only if there is no position, it is not eligible, more than is liquidatable is asked for, the offer is too low, or more than its collateral is seized; otherwise the invariant is kept |
| Market.StaticAccrueKeeps | common/src/market/impl.rs:348-414 | crediting panics exactly for accounts without a static weight; otherwise the invariant is kept |
| Market.StaticStartKeeps | contract/market/src/impl_market_external.rs:368-394 | paying a static account keeps the invariant |
| Market.StaticEndKeeps | contract/market/src/impl_helper.rs:413-431 | settling that payment keeps the invariant |
| Withdrawals.SendOutKeepsClaim | common/src/supply.rs:379-420 | a withdrawal in flight leaves the supplier's total claim, all other positions, loans and static accounts as they were, and takes from the totals what the plan says |
| Withdrawals.LoansStayCovered | common/src/supply.rs:362-377 | after paying no more than is available, active deposits, yield and incoming deposits cover the loans and every other supplier's incoming deposits; active deposits and yield alone cover the loans if and only if the yield paid out was free |
| Withdrawals.CoverExactly | common/src/market/impl.rs:50-53 | of all steps only a withdrawal can break the bound that active deposits cover loans made and in flight, and it keeps it if and only if what it pays is at most yield, own incoming deposits and unlent active deposits |
| Withdrawals.PayableExactly | common/src/supply.rs:362-368 | that loans made stay within active deposits and yield is broken exactly by a withdrawal of yield that is not free and by the arrival of a loan that does not fit |
| Withdrawals.WithdrawalPanics | common/src/supply.rs:349-377 | a withdrawal panics if and only if the supplier is entitled to something and loans exceed active deposits and yield, or the cash is short |
| Withdrawals.AttemptPanics | common/src/supply.rs:362-384 | the same of the attempt on an accrued position, the withdrawal's core |
| Withdrawals.AttemptPays | common/src/supply.rs:349-432 | a withdrawal that goes through puts in flight the lesser of the request and what can be paid now; paid and remaining amounts make up the request, or all there is |
| Withdrawals.FailedCallbackRestores | common/src/supply.rs:435-455 | in every reachable state, settling one failed withdrawal puts the whole amount back into the position and the payment back into the cash, and leaves the claim and everyone else as they were, if and only if the position is gone or has room for another entry; otherwise it panics |
| Withdrawals.SuccessfulCallbackPays | common/src/supply.rs:435-450 | in every reachable state, settling one withdrawal that was paid lowers the claim by the amount, credits the fee to the protocol's record and touches nobody else |
| WithdrawalBatches.BatchPanics | contract/market/src/impl_helper.rs:193-216 | the callback of an execution panics if and only if one of its failed withdrawals meets a position without room |
| WithdrawalBatches.BatchSettles | contract/market/src/impl_helper.rs:193-216 | a callback that does not panic returns every failed amount and its cash, takes every amount paid off its supplier's claim, credits all fees of those paid to the protocol, and settles exactly its receipts |
| WithdrawalBatches.OthersUntouched | contract/market/src/impl_helper.rs:203-213 | suppliers without a withdrawal in the batch keep their position |
| WithdrawalBatches.RestoredExactly | contract/market/src/impl_helper.rs:193-216 | as a step of a run: a failed amount is back with its supplier if and only if no failed withdrawal of the batch meets a position without room |
| WithdrawalBatches.PaidExactly | contract/market/src/impl_helper.rs:193-216 | a paid amount is off its supplier's claim under the same condition |
| QueueSettlement.ServedOut | contract/market/src/impl_market_external.rs:217-304 | an execution sends at most one withdrawal to each supplier in the queue, from accrued positions, takes exactly their cash, lowers nobody's claim and leaves everyone outside the queue alone |
| QueueSettlement.PromptCallback | contract/market/src/impl_helper.rs:193-216 | the callback never panics before another snapshot is finalized, whichever transfers fail |
| QueueSettlement.FailedExecutionUndone | contract/market/src/impl_helper.rs:193-216 | if all transfers of an execution fail before that, cash, receipts and loans are what they were before it, and nobody's claim is smaller |
| LentBeyondActive.MoreLentThanActive | common/src/market/impl.rs:50-53 | a scheduled run from the empty market after which more is lent than actively deposited |
| LentBeyondActive.MoreLentThanPayable | common/src/supply.rs:363-366 | a scheduled run after which more is lent than active deposits and yield together, and every withdrawal of the supplier panics |
| StrandedWithdrawal.FifthIsStranded | contract/market/src/impl_helper.rs:193-216 | a run of two suppliers in which four failed withdrawals fill one's position; the callback of its fifth and of the other's withdrawal panics, whether the other was paid or not, although the other has room |
| Loans.AvailableExactly | common/src/market/impl.rs:223-238 | an amount is available if and only if all loans together then stay within the usage ratio of the active deposits |
| Loans.RetainedExpression | common/src/market/impl.rs:224-233 | the retained amount is the program's decimal expression, which never overflows |
| Loans.LoanWithinUsage | common/src/borrow.rs:503-516 | after a loan is granted, loans made and in flight are within the usage ratio and the borrower owes at least the minimum |
| Loans.CashForLoan | common/src/borrow.rs:555-556 | the cash for an amount is there if and only if it, loans and static payments are together within deposits, yield, fees and surplus |
| Loans.LoanCallbackNeverPanics | common/src/borrow.rs:561-572 | the callback of a loan never panics |
| Loans.CollateralCallbackPanics | contract/market/src/impl_helper.rs:383-399 | the callback of collateral sent panics if and only if the position is gone, and then the receipt is for nothing |
| Loans.LiquidationBringsIn | common/src/borrow.rs:716-736 | a liquidation brings in the lesser of what was sent and the highest price, takes exactly the collateral asked for, and what it brings in is principal, yield and surplus without loss |
| Loans.FailedLoanLeavesFeesAndInterest | contract/market/src/impl_helper.rs:158-178 | in every reachable state, a loan that fails is taken off the position; its fees remain, and the interest charged on principal and loans in flight for every snapshot since the last charge |
| Loans.FailedLoanLeavesFees | common/src/borrow.rs:537-617 | a loan that fails before another snapshot is undone but for its fees |
| Loans.AllowedExactly | common/src/borrow.rs:399-426 | that every principal is zero or at least the minimum is kept by every step except the arrival of a loan that, with its position's principal, is below the minimum |
| Loans.AllowedOverRuns | common/src/borrow.rs:546-551 | it holds throughout a run if and only if no such loan arrives |
| LoanRuns.PrincipalBelowMinimum | common/src/borrow.rs:574-585 | a scheduled run without any failed transfer after which the principal is one, under a minimum of ten |
| LoanRuns.FailedLoanOwesInterest | common/src/borrow.rs:272-313 | a scheduled run in which a loan fails after a snapshot in flight and leaves interest owed on no principal |
| LoanRuns.CollateralCallbackFindsNothing | contract/market/src/impl_helper.rs:392-396 | a scheduled run after which the callback of a collateral withdrawal panics |
| Liquidation.LiquidationRestores | common/src/borrow.rs:141-181 | selling all that may be liquidated at the lowest price leaves no liability or at least the maintenance ratio if and only if all the collateral would fetch the liability at that price |
| Liquidation.LiquidationRestoresAbove | common/src/borrow.rs:141-181 | it does for every position whose ratio exceeds one over one minus the spread |
| Liquidation.PositionRestored | common/src/borrow.rs:699-732 | the same of the position, whose liability the payment waterfall reduces |
| Liquidation.CeilDivLeast | common/src/borrow.rs:176-180 | the ceiling is the least integer whose multiple reaches the dividend |
| LiquidationRounding.RoundingCosts | common/src/borrow.rs:141-181 | with every decimal rounding of the amount and of the lowest price: the liability left exceeds what the collateral left supports at the maintenance ratio by less than twice one plus the price, in units of 2^-128 |
| LiquidationRounding.WithinOneUnit | common/src/borrow.rs:699-732 | with one unit of liability less, the position is at the maintenance ratio |
| LiquidationRounding.NoMoreThanNeeded | common/src/borrow.rs:166-180 | one unit of collateral less would leave the position below the maintenance ratio, but for less than a unit of collateral |
| LiquidationRounding.PanicsExactly | common/src/borrow.rs:166-175 | where all ratios and products have values, the computation panics if and only if the position is between one and the maintenance ratio and its liability, converted, rounded and times that ratio, is below its collateral |
| LiquidationRounding.AlmostMaintained | common/src/borrow.rs:171-172 | a position for which it does, at a ratio the configuration can hold |
| QueueExecution.ServedInOrder | contract/market/src/impl_market_external.rs:217-279 | serving the queue is the run of the first requests' withdrawals in order; every request behind the last one visited keeps its place, account and amount, and that one waits for no more than it asked for |
| QueueExecution.ServePanics | contract/market/src/impl_market_external.rs:217-279 | an execution panics as a whole if and only if the last request it comes to panics in the market those before it have left |
| QueueExecution.ExecuteFirst | contract/market/src/impl_market_external.rs:231-278 | the loop body serves the head of the linked queue as specified and reports what the queue loses |
| QueueExecution.ExecuteRequests | contract/market/src/impl_market_external.rs:217-284 | the loop over the linked queue and the market object computes the specification; reported depth and length are what the queue lost |
| SupplySteps.DepositKeeps | common/src/supply.rs:457-479 | after accrual the limit on incoming entries is never met; deposit and market total grow by the amount |
| SupplySteps.AddIncomingKeeps | common/src/supply.rs:245-279 | adding fails exactly when the position is full of entries of finalized snapshots; otherwise position and market grow by the amount and no finalized snapshot is affected |
| SupplySteps.RemoveKeeps | common/src/supply.rs:386-401 | taking out parts within a position's amounts never panics, keeps deposit plus yield, and moves the amount in flight |
| SupplySteps.SettleKeeps | common/src/supply.rs:435-455 | settling panics exactly when a failed transfer meets a full position; otherwise outgoing and incoming amounts move by the receipt |
| SupplySteps.SettleFails | common/src/supply.rs:451-454 | a failed transfer restores the position's total deposit |
| SupplySteps.PositionWithinTotals | common/src/supply.rs:240-243 | the market's totals cover what one position has in them, so their subtractions never underflow |
| SupplySteps.CleanupKeeps | common/src/market/impl.rs:273-279 | removing an empty position changes no total |
| SupplySteps.ActivatedKeeps | common/src/market/impl.rs:169-206 | finalizing activates exactly what was incoming; active plus incoming is unchanged |
| SupplyLedger.AccrueSupplyKeeps | common/src/supply.rs:311-333 | accrual with any limit keeps every part of the suppliers' invariant |
| SupplyLedger.CreditsAreEarnings | common/src/supply.rs:122-189 | the credits per snapshot add up to what the position's accumulator gains |
| SupplyLedger.RemoveIncomingEffect | common/src/supply.rs:282-309 | neither panic is reached after accrual; position and market shrink by exactly the amount |
| SupplyLedger.AddOwnEffect | common/src/supply.rs:245-263 | an added entry changes nothing already activated; adding fails exactly on a list full of older entries |
| SupplyLedger.DeleteKeeps | common/src/supply.rs:72-79 | a removable position takes part in no snapshot and no total |
| BorrowLedger.AccrueBorrowKeeps | common/src/borrow.rs:643-660 | charging with any limit keeps every part of the borrowers' invariant |
| BorrowLedger.ChargesAreInterest | common/src/borrow.rs:271-324 | the charges per snapshot add up to what the position's accumulator gains |
| BorrowSteps.SplitIsExact | common/src/borrow.rs:381-439 | no subtraction of the waterfall underflows; fees, interest, principal and refund add up to the payment in strict order, and an allowed principal stays allowed |
| BorrowSteps.PrincipalPartIsLargest | common/src/borrow.rs:399-412 | the principal part is the largest payment that leaves zero or at least the minimum |
| BorrowSteps.LiabilityReduced | common/src/borrow.rs:381-439 | everything but the refund comes off the liability, and collateral and loans in flight are untouched |
| BorrowSteps.PaymentsAddUp | common/src/borrow.rs:381-439 | over any sequence of payments the liability falls by exactly what is not refunded, and a principal of zero or at least the minimum stays so |
| BorrowSteps.PayKeeps | common/src/borrow.rs:417-424 | the market has lent at least what a position repays, so paying never panics and keeps the invariant |
| BorrowSteps.SendCollateralKeeps | common/src/borrow.rs:456-464 | sending fails exactly when the position has less collateral |
| BorrowSteps.TakeCollateralKeeps | common/src/borrow.rs:490-497 | taking fails exactly when the position has less collateral |
| BorrowSteps.SettleCollateralKeeps | common/src/borrow.rs:466-488 | settling never fails on an existing position |
| BorrowSteps.SettleLoanKeeps | common/src/borrow.rs:561-617 | settling never fails on an existing position; the loan in flight becomes principal or comes back |
| BorrowSteps.FlightHasPosition | common/src/borrow.rs:106-110 | a position with something in flight is never removed |
| BorrowSteps.ExtendedKeeps | common/src/market/impl.rs:145-167 | a snapshot records exactly the sum of what positions owe |
| StaticLedger.AccrueStaticKeeps | common/src/market/impl.rs:348-414 | crediting a static account keeps credits within the weights |
| StaticLedger.CalculateStatic | common/src/market/impl.rs:374-394 | the loop computes the sum of the account's shares over the snapshots reached |
| StaticLedger.SettleWithdrawalKeeps | contract/market/src/impl_helper.rs:413-431 | a failed payment is given back, and fails itself exactly when the account is gone |
| MarketObject.LendingMarket.constructor | common/src/market/impl.rs:69-115 | a new object shows the empty market |
| MarketObject.LendingMarket.TakeSnapshot | common/src/market/impl.rs:169-206 | updates the fields as the snapshot step says, and fails exactly when it does |
| MarketObject.LendingMarket.AddEntry | common/src/supply.rs:245-279 | updates position and market list as specified, or neither |
| MarketObject.LendingMarket.RemoveEntries | common/src/supply.rs:282-309 | the loop computes the specified removal and panics exactly when it does |
| MarketObject.LendingMarket.AccumulateYield | common/src/supply.rs:311-333 | computes the accrued position |
| MarketObject.LendingMarket.HarvestYield | contract/market/src/impl_market_external.rs:318-342 | takes the harvest step |
| MarketObject.LendingMarket.ExecuteSupply | contract/market/src/impl_helper.rs:32-48 | takes the deposit step and fails exactly when it does |
| MarketObject.LendingMarket.PayOut | common/src/supply.rs:379-420 | takes the payment step and fails exactly when it does |
| MarketObject.LendingMarket.StartWithdrawal | common/src/supply.rs:338-433 | takes the withdrawal step, fails exactly when it does, and reports its outcome |
| MarketObject.LendingMarket.FinishWithdrawal | common/src/supply.rs:435-455 | settles one withdrawal and fails exactly when that step does |
| MarketObject.LendingMarket.FinishWithdrawals | contract/market/src/impl_helper.rs:193-216 | the callback's loop takes the step that settles a whole execution and fails exactly when it does |
| MarketObject.LendingMarket.AccumulateInterest | common/src/borrow.rs:643-660 | computes the charged position |
| MarketObject.LendingMarket.ChargeInterest | contract/market/src/impl_market_external.rs:159-165 | takes the interest step and never fails |
| MarketObject.LendingMarket.ReduceLiability | common/src/borrow.rs:381-439 | computes the waterfall's split in place; fails exactly when the market's total is too small |
| MarketObject.LendingMarket.ExecuteRepay | contract/market/src/impl_helper.rs:80-103 | takes the repayment step, fails exactly when it does, and keeps what it does not refund |
| MarketObject.LendingMarket.ExecuteCollateralize | contract/market/src/impl_helper.rs:50-77 | takes the collateral step and fails exactly when it does |
| MarketObject.LendingMarket.StartCollateral | common/src/borrow.rs:456-464 | takes the step that sends collateral and fails exactly when it does |
| MarketObject.LendingMarket.FinishCollateral | contract/market/src/impl_helper.rs:383-409 | takes the step that settles collateral and fails exactly when it does |
| MarketObject.LendingMarket.StartBorrow | common/src/borrow.rs:503-559 | takes the loan step and fails exactly when it does |
| MarketObject.LendingMarket.FinishBorrow | common/src/borrow.rs:561-617 | takes the step that settles a loan and fails exactly when it does |
| MarketObject.LendingMarket.ExecuteLiquidation | common/src/borrow.rs:669-750 | takes the liquidation step, fails exactly when it does, and keeps what it does not refund |
| MarketObject.LendingMarket.AccumulateStatic | common/src/market/impl.rs:348-414 | takes the step that credits a static account and fails exactly when it does |
| MarketObject.LendingMarket.StartStatic | contract/market/src/impl_market_external.rs:368-394 | takes the step that pays a static account |
| MarketObject.LendingMarket.FinishStatic | contract/market/src/impl_helper.rs:413-431 | takes the step that settles such a payment |
| MarketObject.ActivateIncoming | common/src/supply.rs:222-238 | the loop activates exactly the entries due and keeps the others |
| MarketObject.SumIncoming | common/src/supply.rs:28-36 | the loop computes the sum of the entries |
| Accrual.CalculateInterest | common/src/borrow.rs:271-324 | the loop computes the sum of interest over the snapshots reached |
| Accrual.CalculateYield | common/src/supply.rs:122-189 | the nested loops use, at every snapshot, the active deposit plus all entries activated by then |
| Accrual.AccumulateExact | common/src/accumulator.rs:44-62 | no fraction of a unit is lost in the split or in the carry |
| Accrual.InterestIgnoresBatching | common/src/borrow.rs:643-660 | any batching of interest accrual that covers all snapshots gives the accumulator of one unlimited call |
| Accrual.YieldIgnoresBatching | common/src/supply.rs:311-333 | any batching of yield accrual gives the position of one unlimited call, incoming entries included |
| Accrual.InterestIgnoresGrowth | common/src/borrow.rs:643-660 | with snapshots appended between the calls, the accumulator is that of one unlimited call at the end if and only if the calls got to the end |
| Accrual.YieldIgnoresGrowth | common/src/supply.rs:311-333 | the same for one or more calls and the whole supply position |
| Accrual.SuppliersWithinShare | common/src/supply.rs:164-176 | any number of suppliers together stay within the supply weight's share |
| Accrual.PotCoversAll | common/src/market/impl.rs:386-394 | suppliers and static accounts together receive at most the yield |
| Accrual.BorrowersCoverInterest | common/src/borrow.rs:306-311 | any number of borrowers together are charged at most the interest shared, and less by fewer units of 2^-128 than there are borrowers |
| Accrual.InterestExpressionValue | common/src/borrow.rs:309 | the decimal product is the exact product rounded down once, or overflows |
| Accrual.ShareExpressionValue | common/src/supply.rs:172-175 | the decimal expression of a share is the modelled share, or overflows |
| WithdrawalQueue.RunKeepsDistinct | common/src/withdrawal_queue.rs:173-203 | after any run of operations no account has two requests |
| WithdrawalQueue.RequestAgainMovesToBack | contract/market/src/impl_market_external.rs:209-210 | asking again moves an account to the back and keeps the order of all others |
| WithdrawalQueue.CutAll | common/src/withdrawal_queue.rs:146-171 | unlinking any node keeps links, index, head, tail and length consistent and removes exactly that request |
| WithdrawalQueue.AppendConsistent | common/src/withdrawal_queue.rs:173-203 | appending a node keeps the structure consistent |
| WithdrawalQueue.ReamountConsistent | common/src/withdrawal_queue.rs:113-116 | changing an amount keeps the structure consistent |
| WithdrawalQueue.Queue.Peek | common/src/withdrawal_queue.rs:102-111 | returns the oldest request |
| WithdrawalQueue.Queue.MutHead | common/src/withdrawal_queue.rs:113-116 | changes the oldest request's amount and nothing else |
| WithdrawalQueue.Queue.PopFront | common/src/withdrawal_queue.rs:119-142 | first in, first out |
| WithdrawalQueue.Queue.RemoveAccount | common/src/withdrawal_queue.rs:146-171 | removes an account's request and keeps the order of the others |
| WithdrawalQueue.Queue.Insert | common/src/withdrawal_queue.rs:173-203 | appends, or changes the amount in place; fails exactly when a node is needed and the ids are used up |
| WithdrawalQueue.Queue.GetStatus | common/src/withdrawal_queue.rs:212-221 | walks the links and returns the total depth and the length |
| WithdrawalQueue.Queue.GetRequestStatus | common/src/withdrawal_queue.rs:223-246 | place, depth ahead and amount of an account's request; the walk always ends at it |
| WithdrawalQueue.Queue.Execute | common/src/withdrawal_queue.rs:113-203 | any run of operations on the linked structure does what it does to a plain sequence, and fails exactly when it appends more often than ids are left |
| ChunkedList.ChunkedAppendOnlyList.Push | common/src/chunked_append_only_list.rs:50-67 | appends to the sequence of items |
| ChunkedList.ChunkedAppendOnlyList.Get | common/src/chunked_append_only_list.rs:69-73 | returns the item of an index, or nothing past the end |
| ChunkedList.ChunkedAppendOnlyList.ReplaceLast | common/src/chunked_append_only_list.rs:75-86 | replaces the last item only |
| ChunkedList.ChunkedAppendOnlyList.Len | common/src/chunked_append_only_list.rs:34-44 | the number of items, from the chunks alone |
| ChunkedList.FlattenIndex | common/src/chunked_append_only_list.rs:69-73 | which chunk and place an index falls into |
| ChunkedList.NthIsRepeatedNext | common/src/chunked_append_only_list.rs:124-137 | skipping equals calling next that often if and only if it stays in front of the back position |
| ChunkedList.EndsTaken | common/src/chunked_append_only_list.rs:139-157 | the two ends take the first and the last of the items to come |
| ChunkedList.Interleave | common/src/chunked_append_only_list.rs:124-157 | any interleaving of calls at the two ends hands out every item exactly once, in order from the front and reversed from the back |
| ChunkedList.SkipTake | common/src/chunked_append_only_list.rs:88-141 | skipping and taking reads exactly the slice the accrual loops need |
| FixedPoint.MulIsFloor | primitives/src/number.rs:552-568 | multiplication is the exact floor; it aborts exactly when the product is too wide once shared trailing zeros are stripped |
| FixedPoint.MulCommutes | primitives/src/number.rs:552-568 | the operands are interchangeable, in the result and in the abort |
| FixedPoint.MulByWhole | primitives/src/number.rs:552-568 | multiplying by a whole number is exact |
| FixedPoint.DivBracket | primitives/src/number.rs:570-586 | division never exceeds the true quotient and is within the leftover shift of it if and only if the quotient fits |
| FixedPoint.DivExact | primitives/src/number.rs:570-586 | below 2^384, or by a whole number, a fitting quotient is the exact floor |
| FixedPoint.DivWraps | primitives/src/number.rs:570-586 | dividing the largest by the smallest value gives a wrong quotient |
| FixedPoint.ToU128Ceil | primitives/src/number.rs:350-361 | the least integer not below the value, or nothing if it is no u128 |
| FixedPoint.QuantizeLaws | primitives/src/number.rs:216-223 | quantizing lands on the grid within four units, keeps order, and changes exactly the values off the grid |
| FixedPoint.EpsilonRound | primitives/src/number.rs:401-403 | rounds to a multiple of eight, to the nearest with ties upwards |
| FixedPoint.U512Pow10 | primitives/src/number.rs:70-83 | square and multiply computes the power of ten |
| FixedPoint.ComputeMulPow10 | primitives/src/number.rs:305-330 | the guard keeps the power of ten within 512 bits, and the result is the specified scaling |
| FixedPoint.MulPow10Scales | primitives/src/number.rs:305-330 | scaling up is exact, scaling down is the floor, and zero is only given for zero |
| BinaryExponential.ComputePow2Frac | primitives/src/number.rs:278-295 | the loop with its early stop computes the whole series without overflow |
| BinaryExponential.TaylorSettles | primitives/src/number.rs:278-295 | once a term is zero the sum is final |
| BinaryExponential.Pow2FracBounds | primitives/src/number.rs:278-295 | on the unit interval the series is nondecreasing and stays in [1, 2) |
| BinaryExponential.Pow2Value | primitives/src/number.rs:297-302 | below 384 the power is the shifted series and never aborts |
| BinaryExponential.Pow2Monotone | primitives/src/number.rs:267-302 | the power is nondecreasing below 384, also across integers |
| BinaryExponential.Pow2Collapses | primitives/src/number.rs:267-276 | at 384 the power is zero; from 385 on there is none |
| InterestRates.LinearMonotone | common/src/interest_rate_strategy.rs:77-87 | every line the constructor returns is nondecreasing over usage and stays between its ends |
| InterestRates.PiecewiseNoUnderflow | common/src/interest_rate_strategy.rs:125-138 | past the kink the subtraction never underflows |
| InterestRates.PiecewiseMonotone | common/src/interest_rate_strategy.rs:103-138 | the curve is nondecreasing over usage, also across the kink, although its products are rounded separately |
| InterestRates.PiecewiseTotal | common/src/interest_rate_strategy.rs:103-138 | with rates of up to 256 whole bits nothing aborts, and the curve starts at its base |
| InterestRates.Exponential2Aborts | common/src/interest_rate_strategy.rs:181-203 | the constructor aborts if and only if the bounds are ordered and the eccentricity is the smallest positive value |
| InterestRates.Exponential2Monotone | common/src/interest_rate_strategy.rs:205-216 | the curve is nondecreasing and stays between base and top |
| InterestRates.Exponential2Total | common/src/interest_rate_strategy.rs:205-216 | it starts at base and returns over all usage when the span fits 256 whole bits |
| DecimalText.RoundTrip | primitives/src/number.rs:377-516 | printing and parsing gives back every value to within six units, and values on the parser's grid exactly |
| DecimalText.ParsedOnGrid | primitives/src/number.rs:458-516 | whatever parses is on the grid, so printing it is lossless |
| DecimalText.PrintedClose | primitives/src/number.rs:405-436 | 38 printed digits parse to the fraction or at most four units below |
| DecimalText.ParseSumBracket | primitives/src/number.rs:497-507 | rounding every digit down loses less than one unit per digit |
| DecimalText.FractionalPartToDecString | primitives/src/number.rs:405-436 | the digit loop with its retry computes the specified digits |
| DecimalText.ParseFraction | primitives/src/number.rs:497-507 | the digit loop computes the specified sum, and its divisor never overflows |
| SchemaPattern.DecimalWholePattern | primitives/src/number.rs:34-67 | the loop generates the specified alternatives |
| SchemaPattern.WholeAccepted | primitives/src/number.rs:34-67 | the alternatives accept exactly the canonical numerals of at most the largest whole part |
| SchemaPattern.PatternIsParser | primitives/src/number.rs:109-117 | the schema accepts a string if and only if the parser does |
| Price.FromPythPrice | common/src/price.rs:35-57 | a price is taken exactly when it is positive, exceeds its confidence and its exponent fits; the band then stays positive |
| Price.ExactRatioFloor | common/src/price.rs:151-163 | on the exact path the ratio of two valuations never exceeds the true one |
| Price.RatioIsFloor | common/src/price.rs:151-163 | on the exact path the ratio is the floor of the true one in units of 2^-128, although it is rounded twice |
| Price.RatioIsPessimistic | common/src/borrow.rs:113-124 | for all actual prices within both bands, the computed collateral ratio is at most the actual one |
| Price.ConversionsNeverGain | common/src/price.rs:96-118 | converting there and back never gains |

## Left out

- Amounts in the ledger are unbounded integers: an overflow of a u128 amount, which
  makes the program panic, is not modelled, so the model has every run the program has.
- The decimal sums of interest and yield inside one accrual are exact integers in
  units of 2^-128; where a decimal operation overflows, the program panics instead.
- Health, eligibility for liquidation, the largest loan, price windows and the formulas of
  fees and of interest rates inside the ledger: any value of them is allowed. Interest
  curves, prices and the liquidatable amount have modules of their own.
- Market.LiquidateKeeps: whether the position is eligible, how much is liquidatable and
  the acceptable price are parameters, not computed from the oracle's prices.
- MarketObject.LendingMarket.ExecuteLiquidation: the same parameters.
- Storage fees charged for a new position, whose payment can fail.
- Liquidation.LiquidationRestores: takes prices, ratios and the spread as exact
  fractions; what the decimals in between add is bounded in LiquidationRounding.
- Liquidation.LiquidationRestoresAbove: exact fractions likewise.
- Liquidation.PositionRestored: exact fractions likewise, and only positions with
  nothing in flight whose payment is not cut short to keep the minimum principal.
- LiquidationRounding.RoundingCosts: maintenance ratios below 2^128 and the exact path
  of ratios only.
- LiquidationRounding.WithinOneUnit: the same, and collateral units worth less than
  about 2^127 of the borrow asset.
- LiquidationRounding.NoMoreThanNeeded: ratios and path as in RoundingCosts.
- Price.ExactRatioFloor: only the exact path of the ratio; the logarithmic
  approximation taken when it overflows is not modelled.
- Price.RatioIsFloor: only the exact path of the ratio likewise.
- Price.RatioIsPessimistic: only the exact path of the ratio likewise.
- Price.ConversionsNeverGain: only the exact path of both ratios likewise.
- MarketObject: positions and accumulators are values that a call reads from and
  writes back to the stored maps, as the program's guards do when dropped.
- The storage layout of lists, queues and maps, (de)serialization, events, gas, promise
  plumbing and access control of the contract.
- The real power of a decimal, conversion to floating point, the variants of the time
  chunk configuration, asset identifiers, the vault, the registry and the proxy oracles:
  they would add easier members only.
