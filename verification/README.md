# go-stock lot engine in Dafny

This project models the lot-matching and cost-redistribution engine of go-stock. A `StockManager` keeps open purchase lots under one of three policies:

- FIFO, a queue;
- LIFO, a stack;
- PRMP, weighted-average cost, where every lot is merged into one aggregate cell.

The manager consumes sales and reimbursements against the head lots and records the closed positions. It spreads signed price modifications over the open lots in one of four modes (QUANTITY, MONEY, MIXED, QUANTITY_FIRST), with per-lot forced shares applied first. It also rescales quantities on splits.

Quantities and amounts are exact rationals (`real`). Monetary rounding is the parameter `round: real -> real`, and nothing is assumed about it. Split rounding is the concrete HALF_UP rounding at a decimal scale. Every exception of the source becomes a `Failure` of a `Result`.

Modules, one per file:

- `Wrappers` (`wrappers.dfy`): `Option` and `Result`.
- `Trades` (`trades.dfy`): trades, lots, positions, modification records and errors. Also the smart constructors that apply the kind-dependent normalisation of the trade builder.
- `Strategies` (`strategy.dfy`): the three policies, with the head at index 0 and iteration order equal to sequence order.
- `Matching` (`matching.dfy`): the sale and reimbursement matcher (`sell`).
- `Splits` (`split.dfy`): HALF_UP at a scale and the quantity split.
- `Modifications` (`modification.dfy`): the price-modification algorithm. A sweep walks the whole lot list with a candidate mask, so results are written back by position.
- `ModificationLaws` (`modification_laws.dfy`): what the modification algorithm preserves, and the QUANTITY_FIRST counterexample.
- `Managers` (`manager.dfy`): the manager's state, the trade dispatch, the closed-position indexes and the registered allocations and shares.

Where the specification text and the code disagree, the model follows the code, with one exception, QUANTITY_FIRST:

- **QUANTITY_FIRST.** The specification says a failed reduction by quantity is discarded and the whole reduction is redone by amount. The code does not roll back, which is logged under Findings. Here the model does NOT follow the code: `Modifications.Spread`, and everything built on it, uses the rolled-back reduction `QuantityFirstDecrease`. `QuantityFirstDecreaseAsWritten` models the code as written, and `ModificationLaws.QuantityFirstAsWrittenLosesTooMuch` shows an input on which the two differ.
- **Negative lots.** The specification says no lot ever ends with a negative value. The code lets the residue of a quantity split make the first lot negative (`ResidueCanMakeFirstLotNegative`). It also leaves the terminal lot of an amount spread unguarded.
- **Orphans.** The specification calls orphans sales that found no inventory. The code also keeps a sale that exhausted the inventory partway with demand left over. `Matching.ConsumeOrphans` states the code's rule.
- **PRMP merge.** The specification says the merged quantity is the plain sum. The code rebuilds the cell through the purchase builder, which takes the absolute value of the sum. `Strategies.Add` does the same.

All paths below are relative to the repository root, under `src/main/java/io/github/ritonglue/gostock/`.

## Model

| member | source | states |
|---|---|---|
| Trades.BuyOf | src/main/java/io/github/ritonglue/gostock/StockManager.java:648-651 | a purchase's quantity is made non-negative (the original or its negation); id, source and amount are kept |
| Trades.SellOf | src/main/java/io/github/ritonglue/gostock/StockManager.java:652-656 | a sale demands the absolute quantity, starts with no amount and has consumed nothing |
| Trades.ReimbursementOf | src/main/java/io/github/ritonglue/gostock/StockManager.java:661-667 | an absent quantity stays absent (liquidate everything); a present one is made non-negative; the amount is cleared |
| Trades.OpenPosition | src/main/java/io/github/ritonglue/gostock/Position.java:17-19 | an open snapshot has no sale handle and no close cause, and reads as opened and not closed |
| Trades.ClosedPosition | src/main/java/io/github/ritonglue/gostock/Position.java:21-27 | the fields are the constructor's arguments; the position reads as opened exactly when it has no sale handle |
| Strategies.Clear | src/main/java/io/github/ritonglue/gostock/strategy/QueueStrategy.java:32-35 | clearing leaves an empty strategy of the same policy that iterates nothing |
| Strategies.Lots | src/main/java/io/github/ritonglue/gostock/strategy/PRMPStrategy.java:18-21 | iteration is empty exactly when the strategy is empty; the aggregate strategy yields at most its one cell |
| Strategies.Size | src/main/java/io/github/ritonglue/gostock/strategy/PRMPStrategy.java:65-68 | the size counts the iterated lots: 0 exactly when empty, at most 1 for the aggregate cell |
| Strategies.Add | src/main/java/io/github/ritonglue/gostock/strategy/PRMPStrategy.java:23-34 | FIFO appends at the tail, LIFO pushes at the head, PRMP merges into a cell with no source handle whose quantity is the absolute sum and whose amount is the sum |
| Strategies.Peek | src/main/java/io/github/ritonglue/gostock/strategy/QueueStrategy.java:12-15 | peek returns the head of a non-empty strategy; an empty queue gives nothing; the aggregate strategy returns its cell or placeholder |
| Strategies.Remove | src/main/java/io/github/ritonglue/gostock/strategy/QueueStrategy.java:17-20 | remove evicts exactly the head and the other lots keep their order; the aggregate strategy resets to empty |
| Strategies.GetQuantity | src/main/java/io/github/ritonglue/gostock/strategy/PRMPStrategy.java:36-39 | the quantity held is the sum of the iterated lots' quantities |
| Strategies.GetStock | src/main/java/io/github/ritonglue/gostock/strategy/PRMPStrategy.java:41-44 | the stock has the total quantity, and the total amount when not empty; empty gives quantity 0 and no amount |
| Strategies.WithLots | src/main/java/io/github/ritonglue/gostock/StockManager.java:277-291 | lots updated in place are read back in iteration order, except an aggregate cell brought to quantity zero, which stays held but no longer iterates |
| Strategies.DrainFollowsIteration | src/main/java/io/github/ritonglue/gostock/strategy/QueueStrategy.java:37-40 | removing the head until empty evicts exactly the iteration order |
| Strategies.AddAccumulates | src/main/java/io/github/ritonglue/gostock/strategy/PRMPStrategy.java:23-34 | under every policy, a purchase of non-negative quantity adds exactly its quantity to what is held, and all quantities stay non-negative |
| Strategies.FifoKeepsInsertionOrder | src/main/java/io/github/ritonglue/gostock/strategy/FIFOStrategy.java:9-14 | FIFO lots iterate in insertion order after any series of purchases |
| Strategies.LifoReversesInsertionOrder | src/main/java/io/github/ritonglue/gostock/strategy/LIFOStrategy.java:11-15 | LIFO lots iterate newest first after any series of purchases |
| Strategies.EvictionOrder | src/main/java/io/github/ritonglue/gostock/strategy/QueueStrategy.java:17-20 | successive removals evict FIFO lots in insertion order and LIFO lots in reverse order |
| Strategies.PrmpMergeFrom | src/main/java/io/github/ritonglue/gostock/strategy/PRMPStrategy.java:28-32 | merging purchases into a held cell sums quantities and amounts into one cell with no source |
| Strategies.PrmpAggregatesPurchases | src/main/java/io/github/ritonglue/gostock/strategy/PRMPStrategy.java:23-34 | after purchases, the aggregate stock is their total quantity and amount; the size is 1 unless the total quantity is zero |
| Matching.Consume | src/main/java/io/github/ritonglue/gostock/StockManager.java:517-592 | the only failure of a sale is a partial close that would leave the lot a negative amount; the policy and the sale's identity are kept |
| Matching.ConsumeConservesQuantity | src/main/java/io/github/ritonglue/gostock/StockManager.java:552-590 | quantity moves from the lots to the closed positions without loss, and the remaining demand is what they did not cover |
| Matching.ConsumeConservesAmount | src/main/java/io/github/ritonglue/gostock/StockManager.java:548-590 | amount moves from the lots to the closed positions without loss |
| Matching.ConsumeAccumulatesCost | src/main/java/io/github/ritonglue/gostock/StockManager.java:548-590 | the sale's amount accumulates exactly the closed amounts, starting from zero when absent; a sale that closes nothing changes neither the lots nor the sale |
| Matching.ConsumeOrphans | src/main/java/io/github/ritonglue/gostock/StockManager.java:529-535 | a sale is an orphan exactly when demand is left, and then the inventory is empty |
| Matching.ConsumeFollowsIteration | src/main/java/io/github/ritonglue/gostock/StockManager.java:559-591 | the k-th closed position comes from the k-th lot in iteration order; the consumed list gains each touched lot once, most recent first |
| Matching.ConsumeLeavesTail | src/main/java/io/github/ritonglue/gostock/StockManager.java:552-590 | the lots the sale did not reach are untouched. The last lot reached was either closed whole, with its whole quantity and amount, or kept at the head with the demand and the allocation taken off. The allocation is the registered one or the rounded proportional share |
| Matching.ConsumeKeepsAmountsNonNegative | src/main/java/io/github/ritonglue/gostock/StockManager.java:582-585 | a successful sale never leaves a lot with a negative amount when none had one |
| Matching.ConsumeKeepsQuantitiesNonNegative | src/main/java/io/github/ritonglue/gostock/StockManager.java:552-568 | a successful sale never leaves a lot with a negative quantity when none had one |
| Matching.OverAllocationFails | src/main/java/io/github/ritonglue/gostock/StockManager.java:582-585 | a partial close whose allocation exceeds the head lot's amount fails with the negative-amount error |
| Matching.FullLiquidationEmpties | src/main/java/io/github/ritonglue/gostock/StockManager.java:552-564 | demanding exactly the quantity held (all lots positive) closes every lot whole, empties the inventory and leaves no orphan |
| Splits.HalfUpIsNearest | src/main/java/io/github/ritonglue/gostock/StockManager.java:310 | HALF_UP at a scale lands on that scale's grid, within half a unit, keeps the sign, and moves ties away from zero |
| Splits.Multiply | src/main/java/io/github/ritonglue/gostock/StockManager.java:302-305 | with a ratio denominator of one, every lot's quantity is multiplied exactly and nothing else changes |
| Splits.RoundEach | src/main/java/io/github/ritonglue/gostock/StockManager.java:312-318 | every lot's quantity is rescaled and rounded on its own |
| Splits.Rescale | src/main/java/io/github/ritonglue/gostock/StockManager.java:298-321 | a split fails exactly when there are lots and the quantity before is zero (division by zero); with no lots it changes nothing |
| Splits.RescaleKeepsLots | src/main/java/io/github/ritonglue/gostock/StockManager.java:298-321 | a split changes only quantities: lot count, order, identities, sources, amounts and the amount total are kept |
| Splits.RescaleByOne | src/main/java/io/github/ritonglue/gostock/StockManager.java:302-305 | with quantity before equal to one, each quantity is multiplied by quantity after |
| Splits.RescaleAbsorbsResidue | src/main/java/io/github/ritonglue/gostock/StockManager.java:306-320 | otherwise every lot but the first is rounded on its own, and the new total is exactly the rounded rescaled old total |
| Splits.ResidueCanMakeFirstLotNegative | src/main/java/io/github/ritonglue/gostock/StockManager.java:309-319 | four one-unit lots halved at scale 0 round to one each, leaving the first lot at -1: the residue is unbounded |
| Modifications.CheckForcedTotal | src/main/java/io/github/ritonglue/gostock/StockManager.java:233-245 | registered shares pass exactly when their absolute total does not exceed the modification's absolute amount |
| Modifications.Unforced | src/main/java/io/github/ritonglue/gostock/StockManager.java:350-366 | the lots left to the proportional spread are exactly those without a registered share |
| Modifications.ApplyForced | src/main/java/io/github/ritonglue/gostock/StockManager.java:350-367 | the forced pass changes only amounts, and only of forced lots; it can fail only with the stock-reduction error |
| Modifications.QuantitySweep | src/main/java/io/github/ritonglue/gostock/StockManager.java:454-490 | the traversal by quantity leaves every lot it has passed and every non-candidate untouched |
| Modifications.AmountSweep | src/main/java/io/github/ritonglue/gostock/StockManager.java:492-511 | the traversal by amount leaves passed lots and non-candidates untouched; its only failure is a zero base |
| Modifications.Clamp | src/main/java/io/github/ritonglue/gostock/StockManager.java:406-430 | the clamp touches only candidates; it fails only under QUANTITY_FIRST, with the stock-reduction error |
| Modifications.ByQuantity | src/main/java/io/github/ritonglue/gostock/StockManager.java:406-433 | a spread by quantity leaves non-candidates untouched |
| Modifications.ByAmount | src/main/java/io/github/ritonglue/gostock/StockManager.java:435-452 | a spread by amount with no candidate is the empty-position error and changes nothing; non-candidates are untouched |
| Modifications.QuantityFirstDecrease | src/main/java/io/github/ritonglue/gostock/StockManager.java:394-400 | the QUANTITY_FIRST reduction, with the fallback starting from the lots as they were, leaves non-candidates untouched |
| Modifications.QuantityFirstDecreaseAsWritten | src/main/java/io/github/ritonglue/gostock/StockManager.java:394-400 | the reduction as the code writes it keeps the lot count |
| Modifications.ModeOf | src/main/java/io/github/ritonglue/gostock/StockManager.java:878-881 | a modification's own mode wins; without one, the manager's applies |
| Modifications.Spread | src/main/java/io/github/ritonglue/gostock/StockManager.java:372-402 | the sign dispatch leaves non-candidates untouched, and a zero amount changes and records nothing |
| Modifications.CheckReduction | src/main/java/io/github/ritonglue/gostock/StockManager.java:251-262 | a reduction passes exactly when there are lots whose total amount covers it; otherwise it is the empty-position or the stock-reduction error |
| Modifications.Modify | src/main/java/io/github/ritonglue/gostock/StockManager.java:328-404 | a successful modification keeps the lot count; under QUANTITY_FIRST a failed reduction by quantity is rolled back before the fallback by amount (see Left out) |
| ModificationLaws.QuantitySweepRecords | src/main/java/io/github/ritonglue/gostock/StockManager.java:454-490 | the records of a traversal by quantity account for exactly the amount it changed, even when it stops on an error |
| ModificationLaws.QuantitySweepConserves | src/main/java/io/github/ritonglue/gostock/StockManager.java:462-469 | a completed traversal by quantity ends on the lot that takes the remainder, so the total changes by exactly the amount spread |
| ModificationLaws.AmountSweepRecords | src/main/java/io/github/ritonglue/gostock/StockManager.java:492-511 | the records of a traversal by amount account for exactly the amount it changed |
| ModificationLaws.AmountSweepConserves | src/main/java/io/github/ritonglue/gostock/StockManager.java:497-500 | with the candidates' total as base, the traversal by amount reaches the lot that takes the remainder: the total changes by exactly the amount spread |
| ModificationLaws.AmountSweepSucceeds | src/main/java/io/github/ritonglue/gostock/StockManager.java:492-511 | with non-negative amounts and the candidates' total as base, a zero base is never met |
| ModificationLaws.ClampConserves | src/main/java/io/github/ritonglue/gostock/StockManager.java:416-427 | a zeroed lot's amount moves into the amount left to spread: lots plus what is left stay constant |
| ModificationLaws.ClampQuantityFirstKeeps | src/main/java/io/github/ritonglue/gostock/StockManager.java:416-420 | under QUANTITY_FIRST a clamp that passes changes nothing |
| ModificationLaws.ByQuantityConserves | src/main/java/io/github/ritonglue/gostock/StockManager.java:406-433 | a completed spread by quantity, clamp included, changes the total by exactly the amount spread |
| ModificationLaws.ByAmountConserves | src/main/java/io/github/ritonglue/gostock/StockManager.java:435-452 | a completed spread by amount changes the total by exactly the amount spread |
| ModificationLaws.ByAmountFailsOnlyOnPrecheck | src/main/java/io/github/ritonglue/gostock/StockManager.java:436-449 | with non-negative amounts, a spread by amount fails exactly when there is no candidate or the reduction exceeds the candidates' total |
| ModificationLaws.QuantityFirstConserves | src/main/java/io/github/ritonglue/gostock/StockManager.java:394-400 | the rolled-back QUANTITY_FIRST reduction changes the total by exactly the amount spread |
| ModificationLaws.SpreadConserves | src/main/java/io/github/ritonglue/gostock/StockManager.java:372-402 | in every mode, a completed spread changes the total by exactly the amount spread; for QUANTITY_FIRST this holds for the rolled-back fallback (see Left out) |
| ModificationLaws.SpreadDispatch | src/main/java/io/github/ritonglue/gostock/StockManager.java:372-402 | increases go by quantity unless MONEY; reductions go by amount under MIXED and MONEY, by quantity under QUANTITY, and by quantity with fallback under QUANTITY_FIRST |
| ModificationLaws.ApplyForcedTotals | src/main/java/io/github/ritonglue/gostock/StockManager.java:350-367 | the total grows by the shares and the amount left to spread shrinks by them |
| ModificationLaws.ApplyForcedShares | src/main/java/io/github/ritonglue/gostock/StockManager.java:350-367 | each forced lot takes exactly its share |
| ModificationLaws.ApplyForcedGuard | src/main/java/io/github/ritonglue/gostock/StockManager.java:350-362 | the forced pass succeeds exactly when every forced lot can take its share without going negative |
| ModificationLaws.ModifyPrecheck | src/main/java/io/github/ritonglue/gostock/StockManager.java:251-262 | before any lot changes, a reduction with no lots is the empty-position error, and one exceeding the total amount is the stock-reduction error |
| ModificationLaws.ModifySingleLot | src/main/java/io/github/ritonglue/gostock/StockManager.java:331-341 | one lot takes the whole amount, succeeds exactly when it stays non-negative, writes one record, and ignores registered shares |
| ModificationLaws.ModifyConserves | src/main/java/io/github/ritonglue/gostock/StockManager.java:328-404 | a successful modification changes the total by exactly its amount, unless every lot is forced, when it changes by the shares; for QUANTITY_FIRST this holds for the rolled-back fallback (see Left out) |
| ModificationLaws.ModifyForcedShares | src/main/java/io/github/ritonglue/gostock/StockManager.java:350-362 | with two or more lots, each lot with a share ends with exactly its amount plus the share |
| ModificationLaws.ModifyForcedGuard | src/main/java/io/github/ritonglue/gostock/StockManager.java:355-359 | a forced lot that cannot take its share makes the modification fail |
| ModificationLaws.ModifyForcedTotalRefused | src/main/java/io/github/ritonglue/gostock/StockManager.java:344-346 | shares whose absolute total exceeds the modification are refused with the bad-total error |
| ModificationLaws.ForcedRecordHoldsShare | src/main/java/io/github/ritonglue/gostock/StockManager.java:361 | a forced lot's record stores the share where the amount before belongs |
| ModificationLaws.ModifyZero | src/main/java/io/github/ritonglue/gostock/StockManager.java:372-402 | a zero modification without shares on other than one lot changes and records nothing |
| ModificationLaws.ModifyKeepsShapes | src/main/java/io/github/ritonglue/gostock/StockManager.java:328-511 | a modification changes only amounts: lots, order, sources and quantities are kept, and so is the total quantity |
| ModificationLaws.ExampleByQuantity | src/main/java/io/github/ritonglue/gostock/StockManager.java:454-490 | on lots (1, 10) and (2, 2.25), a reduction of 3.3 by quantity with whole-unit rounding changes the first lot and then fails on the second |
| ModificationLaws.ExampleByAmount | src/main/java/io/github/ritonglue/gostock/StockManager.java:492-511 | the same reduction by amount succeeds from a first amount of either 9 or 10 |
| ModificationLaws.QuantityFirstAsWrittenLosesTooMuch | src/main/java/io/github/ritonglue/gostock/StockManager.java:394-400 | as written, that QUANTITY_FIRST reduction takes 4.3 instead of 3.3; the rolled-back one takes exactly 3.3 |
| Managers.New | src/main/java/io/github/ritonglue/gostock/StockManager.java:116-133 | a new manager holds an empty strategy of the chosen policy and the given mode, records nothing, and its indexes are consistent |
| Managers.NewDefault | src/main/java/io/github/ritonglue/gostock/StockManager.java:95-109 | without arguments the manager is FIFO; without a mode it spreads MIXED |
| Managers.AddClosedPosition | src/main/java/io/github/ritonglue/gostock/StockManager.java:846-854 | every position is appended. One with a sale handle is also appended under that sale and under its purchase, and no other index entry changes. One without a sale handle is not indexed |
| Managers.AddClosedPositionKeepsIndex | src/main/java/io/github/ritonglue/gostock/StockManager.java:846-872 | the lookups by sale and by purchase list exactly the indexed closed positions with that handle, in closing order, and recording a position keeps this |
| Managers.GetOpenedPositions | src/main/java/io/github/ritonglue/gostock/StockManager.java:172-180 | one open position per lot, in iteration order, with the lot's source, quantity and amount |
| Managers.OpenedPositionsAddUp | src/main/java/io/github/ritonglue/gostock/StockManager.java:172-180 | the open positions are all opened and add up to the quantity and amount held |
| Managers.AddBuySellMoney | src/main/java/io/github/ritonglue/gostock/StockManager.java:143-150 | an allocation is registered for exactly that (sale, purchase) pair only when all arguments are given and the amount is positive; otherwise nothing changes |
| Managers.RegisteredAllocationIsUsed | src/main/java/io/github/ritonglue/gostock/StockManager.java:567-581 | a registered allocation is what the partial close of that purchase by that sale takes; an unregistered call changes no allocation |
| Managers.AddBuyModificationMoney | src/main/java/io/github/ritonglue/gostock/StockManager.java:160-170 | a share of the modification's sign is registered for that purchase, and other shares and modifications keep theirs; a share of the other sign, or a missing argument, changes nothing |
| Managers.Sell | src/main/java/io/github/ritonglue/gostock/StockManager.java:517-592 | a sale fails only with the negative-amount error and keeps the policy and the sale's identity |
| Managers.SellMovesHoldings | src/main/java/io/github/ritonglue/gostock/StockManager.java:552-590 | a sale appends closed positions that take exactly the quantity and amount the strategy lost, and as much quantity as the demand they covered; registered data and records are untouched |
| Managers.SellOrphans | src/main/java/io/github/ritonglue/gostock/StockManager.java:529-535 | a sale is appended to the orphans exactly when demand is left, and then the inventory is empty; the indexes stay consistent |
| Managers.Reimbursement | src/main/java/io/github/ritonglue/gostock/StockManager.java:217-226 | a reimbursement is matched as a sale and keeps its cause |
| Managers.FullReimbursementLiquidates | src/main/java/io/github/ritonglue/gostock/StockManager.java:217-226 | without a quantity, a reimbursement of positive lots closes one position per lot, empties the inventory and leaves no orphan |
| Managers.ApplyModification | src/main/java/io/github/ritonglue/gostock/StockManager.java:264-269 | a price modification keeps the policy and changes only the strategy and the modification records |
| Managers.ModificationPreserves | src/main/java/io/github/ritonglue/gostock/StockManager.java:328-404 | after a price modification the lots keep their quantities; records are only appended; the amount held changes by the modification, or by the shares when every lot is forced; for QUANTITY_FIRST this holds for the rolled-back fallback (see Left out) |
| Managers.RegisteredShareIsApplied | src/main/java/io/github/ritonglue/gostock/StockManager.java:160-170 | a registered share is exactly what that purchase's lot takes when the modification is applied to two or more lots |
| Managers.ModificationQuantity | src/main/java/io/github/ritonglue/gostock/StockManager.java:271-275 | a split fails exactly when there are lots and the quantity before is zero, and changes only the strategy |
| Managers.ModificationQuantityLaws | src/main/java/io/github/ritonglue/gostock/StockManager.java:298-321 | a split keeps every lot's identity and amount and the amount total; unless the ratio's denominator is one, the quantity held is the rounded rescaled old quantity |
| Managers.Add | src/main/java/io/github/ritonglue/gostock/StockManager.java:195-215 | a purchase enters the strategy; every kind keeps the policy and the manager's mode, and only a sale's trade changes |
| Managers.Process | src/main/java/io/github/ritonglue/gostock/StockManager.java:189-193 | processing a stream keeps the policy |
| Managers.ProcessConcat | src/main/java/io/github/ritonglue/gostock/StockManager.java:189-193 | processing two streams one after the other is processing them joined; the first error stops everything |
| Managers.AddKeepsIndex | src/main/java/io/github/ritonglue/gostock/StockManager.java:195-215 | every trade kind keeps the closed-position indexes consistent |
| Managers.ProcessKeepsIndex | src/main/java/io/github/ritonglue/gostock/StockManager.java:189-193 | along a whole stream, the lookups by sale and by purchase list exactly the closed positions of each handle, in order |
| Managers.TradeKeepsLedger | src/main/java/io/github/ritonglue/gostock/StockManager.java:195-226 | a purchase or sale grows (quantity held + quantity closed) by exactly the quantity bought, and no quantity becomes negative |
| Managers.ProcessKeepsLedger | src/main/java/io/github/ritonglue/gostock/StockManager.java:189-193 | along a stream of purchases and sales, no quantity is created or lost |

## Left out

- Money library: currencies, the amount factory and the `MonetaryRounding` object are not modelled. Amounts are reals in one implicit currency, and the rounding operator is the `round` parameter, with no properties assumed. The default rounding chosen when none is given (line 132) is therefore not modelled either.
- Floating-point fallbacks: the double division when a quotient does not terminate (lines 474-477, 575-579) and the double `factor` of the amount spread (lines 502-503) are modelled as exact division followed by `round`.
- Decimal scale: `BigDecimal` and money equality at lines 462 and 497 depend on the decimal scale. The model compares numerically.
- Zero bases: a zero base in the amount spread (line 502) gives an infinite or undefined double in the source. So does a zero remaining quantity in the traversal by quantity (lines 473-477), where the exact division throws and the double fallback divides by zero. Each is modelled as the `DivisionByZero` error, as is the zero total quantity of a reduction by quantity (line 411).
- Partial mutation on failure: a failing operation returns only its error. The state the source leaves behind (for example the quantity set at line 568 before the throw at 583-585) is not described. The one exception is the QUANTITY_FIRST fallback. Its as-written form, which starts from the lots and keeps the records that the failed traversal left behind, is `Modifications.QuantityFirstDecreaseAsWritten`. That member is used only by the Findings section, and the rest of the model uses the rolled-back form.
- Object identity: handles and the identity-keyed maps are modelled by trade ids. A lot is known by the purchase that opened it; the PRMP aggregate cell is `Merged` and matches no registered allocation or share. Source handles are numbers. A purchase object added twice is one mutable lot held twice in the source, so changing one entry changes both. The model holds two independent lots with the same id.
- Plumbing: `null` trade handles (lines 196, 847) are not modelled. Neither are the kind guards that cannot fire through `add` (lines 218, 265, 272, 526-527), the manager and trade builders, `toString`, serialization and the typed getters.
- Accessors: the getters for closed positions, orphans, modifications, mode and stock are the `Manager` fields and `Strategies.GetStock`.
- PositionLines.java is not part of this model.
- Managers.AddBuyModificationMoney: requires the modification handle, when present, to be a price modification, because the model's shares are keyed by the modification's trade id.
- Managers.Process: returns the final manager only. Each sale as the manager left it (its amount and consumed lots) is returned per trade by `Managers.Add`.
- Managers.ModificationQuantityLaws: stated for the queue policies. For PRMP, a split that brings the cell to quantity zero leaves it held but no longer iterated (`Strategies.WithLots` states this).
- Managers.ProcessKeepsLedger: stated for streams of purchases and sales. A split changes the quantity held by its rounding, which `Splits.RescaleAbsorbsResidue` states.
- Modify (`Modifications.Modify`): under QUANTITY_FIRST, a reduction whose traversal by quantity fails runs the rolled-back fallback (`QuantityFirstDecrease`), not lines 394-400 as written (`QuantityFirstDecreaseAsWritten`). On the Findings input, the code ends with lot amounts 6 and 1.95 and the model with 7 and 1.95.
- SpreadConserves (`ModificationLaws.SpreadConserves`): exact conservation under QUANTITY_FIRST is proved for the rolled-back fallback that `Spread` uses. Lines 394-400 as written can take more than the modification (`ModificationLaws.QuantityFirstAsWrittenLosesTooMuch`).
- ModifyConserves (`ModificationLaws.ModifyConserves`): inherits the QUANTITY_FIRST gap of `SpreadConserves`. Exact conservation is a property of the rolled-back fallback, not of lines 394-400 as written.
- ModificationPreserves (`Managers.ModificationPreserves`): "the amount held changes by exactly the modification" holds under QUANTITY_FIRST only because `Modify` uses the rolled-back fallback. The code as written can reduce the amount held by more (`ModificationLaws.QuantityFirstAsWrittenLosesTooMuch`).

## Findings

| source | as written | input that shows it | evidently intended | confidence | as-written member | corrected member |
|---|---|---|---|---|---|---|
| src/main/java/io/github/ritonglue/gostock/StockManager.java:394-400 | under QUANTITY_FIRST, when the traversal by quantity (lines 454-490) throws after changing earlier lots, the catch redoes the whole reduction by amount on top of the lots already changed, and keeps the records of the failed attempt | lots (quantity 1, amount 10) and (quantity 2, amount 2.25), reduction 3.3, rounding to whole units half away from zero: the first lot drops to 9, the second cannot take 2.3, and the fallback then takes 3.3 from 11.25, so 4.3 is taken in all | the failed attempt is rolled back (the comment at line 418 says so) and the reduction by amount starts from the lots as they were, taking exactly 3.3 | not executed | ModificationLaws.QuantityFirstAsWrittenLosesTooMuch | ModificationLaws.QuantityFirstConserves |
