# Verified model of the lending protocol and its simulations

This project models the accounting core of the protocol in `packages/contracts/contracts` and of the
simulations beside it, and proves what they promise for all inputs and over all runs. Run
`dafny verify dfyconfig.toml` to check everything.

| file | what it models |
|---|---|
| `SortedTroves.dfy` | the doubly linked list with hinted insertion, as a class over a node mapping |
| `Redistribution.dfy` | stakes, snapshots and pending rewards in exact arithmetic: why the list stays sorted |
| `TroveOrder.dfy` | what that means for the list: exact order is kept over batches and runs, order under truncated ratios only up to ties |
| `Rewards.dfy` | the same bookkeeping in wei, with truncation and error feedback |
| `StabilityPool.dfy` | product, sums and snapshots against a ledger that loops over all depositors |
| `StabilityRounding.dfy` | the product in wei: how far truncation and loss feedback can let claims exceed the pool |
| `StabilityGains.dfy` | collateral gains in wei: when the collateral covers them all |
| `Liquidations.dfy` | where a liquidated trove goes, and batches |
| `Redemptions.dfy` | redemption sequences over the base and the shielded list |
| `LusdLedger.dfy` | every mint, burn and transfer of LUSD next to the recorded debt |
| `FeeDecay.dfy` | fixed-point powers and the clock of the base rate |
| `StakeError.dfy` | the truncated stake recomputation of the error accumulation test |
| `MacroModel.dfy` | one period and whole runs of the macro simulation |
| `ModelV2.dfy` | the second token model |
| `BNConverter.dfy` | decimal strings and integers with implied decimals |
| `Accounts.dfy` | totals of tables by account |
| `Arithmetic.dfy`, `Protocol.dfy` | products and quotients; the constants of the contracts |

Contracts whose methods update storage are classes whose methods are proved against functions on
values; the properties are lemmas about those functions and invariants of those classes. Amounts in
wei are unbounded naturals. Where exact arithmetic is used instead, the last section says so.

## Where the code and its documentation differ

The model follows the code.

- `README.md:192-209` has tables for a recovery mode; the contracts have none, and cap both the offset
  (105%) and the redistributed (110%) collateral, with the rest claimable as surplus. At 110% a
  redistribution still takes everything, which is proved.
- `README.md:1128` empties the stability pool; the contract always leaves 1 LUSD, so there is no epoch.
- `README.md:753` and `README.md:757` say 50 LUSD; the reserve is 200.
- `README.md:1291` says the rate loses 1% an hour; the decay factor of the code halves it in 12 hours.
- The total ratio after a redemption can fall: when a base trove is closed while a shielded trove below it is
  out of reach (`Redemptions.ShieldCanLowerRatio`), or while troves below the minimum ratio are passed over
  (`Redemptions.SkippedCanLowerRatio`). The exact condition of one closing is `Redemptions.ClosingRaisesRatio`;
  a whole redemption keeps the ratio if every trove that its amount can close is not above it, or, with no trove
  passed over, not above a shielded trove it may be taken before (`Redemptions.RedeemCollateral`).
- `README.md:479-487` says the list stays sorted without re-insertion. That holds for exact ratios; the contract
  inserts by truncated ones, and a tie can come apart (`TroveOrder.TieComesApart`), by a bounded amount
  (`TroveOrder.RunKeepsNearlySorted`). A list is sorted at every precision exactly if it is in exact order
  (`TroveOrder.InOrderExactly`).
- `packages/contracts/contracts/Rewards.sol:233-236` looks only at the collateral snapshot. A
  redistribution that moves the debt sum but not the collateral sum leaves debt unapplied, and the
  default pool may not cover it after the next change of a stake (`Rewards.UnappliedDebtCanExceedPool`).
  The guards are exact: `Rewards.UnpaidRestake` and `Rewards.RewardsBook.RedistributeDebtAndColl`.
- `packages/contracts/contracts/Rewards.sol:163` charges a trove the actual amount of a pending debt
  while the active pool records the normalized one; they agree exactly at a rate of one
  (`LusdLedger.RewardsNeedUnitRate`).
- `packages/contracts/contracts/StabilityPool.sol:642-645` says the error always favours the pool. Two
  accepted offsets can end with a depositor owed more than the pool holds
  (`StabilityRounding.OvershootingRun`). The next offset leaves the claims covered exactly if what the truncated
  product cuts off makes up for what it undercharges (`StabilityRounding.CoveredIff`, and on whole numbers
  `StabilityRounding.CoveredExactly`); it is enough that the old error times the new loss per unit is at most
  the new error times 1e18 (`StabilityRounding.NoUnderchargeCovers`). The shortfall is bounded over every run
  (`StabilityRounding.WeiPool.NearlyCovered`).
- The same excess of claims makes an offset promise more collateral than it brings, and a gain can then exceed
  the collateral of the pool, so that its withdrawal reverts (`StabilityGains.UnpayableGain`). All gains are
  covered as long as the shortage from such offsets is below one wei (`StabilityGains.GainPool.GainsCovered`).
- `packages/contracts/contracts/Aggregator.sol:167` asserts a non-zero rate after any redemption; a
  redemption below two units of the supply fraction fails it once the rate has decayed to zero
  (`FeeDecay.FailingRedemption`).

## Model

| member | source | states |
|---|---|---|
| SortedTroves.TroveList.Insert | packages/contracts/contracts/SortedTroves.sol:104-151 | Reverts exactly on a full list, a duplicate, the null id or a zero ratio. Otherwise the list is the old one with the id put in at a place that brackets its ratio, for any two hints, and it stays well formed, duplicate free and sorted. |
| SortedTroves.TroveList.Remove | packages/contracts/contracts/SortedTroves.sol:158-203 | Reverts exactly when the id is absent; otherwise both directions of pointers spell out the old list without that id. |
| SortedTroves.TroveList.ReInsert | packages/contracts/contracts/SortedTroves.sol:211-224 | The other troves keep their places; the list ends sorted under the new ratio whenever the others were, even if the hints name the moved trove itself. |
| SortedTroves.TroveList.FindInsertPosition | packages/contracts/contracts/SortedTroves.sol:373-410 | Whatever the hints are (good, stale, absent), the search ends at two adjacent neighbours that bracket the key. |
| SortedTroves.TroveList.DescendList | packages/contracts/contracts/SortedTroves.sol:325-341 | The walk downwards terminates at a valid insert position. |
| SortedTroves.TroveList.AscendList | packages/contracts/contracts/SortedTroves.sol:349-365 | The walk upwards terminates at a valid insert position. |
| SortedTroves.TroveList.PositionTest | packages/contracts/contracts/SortedTroves.sol:301-317 | The pointer test accepts a pair of ids exactly when they are the neighbours of a place that brackets the key. |
| SortedTroves.InsertSorted | README.md:859 | Inserting between bracketing neighbours keeps a descending list descending. |
| SortedTroves.LinkKeepsLinked | packages/contracts/contracts/SortedTroves.sol:128-148 | The pointer writes of an insertion turn a linked representation of a list into one of the list with the id inserted. |
| SortedTroves.UnlinkKeepsLinked | packages/contracts/contracts/SortedTroves.sol:170-200 | The pointer writes of a removal turn a linked representation of a list into one of the list without the id. |
| Redistribution.RunInv | README.md:1310-1340 | Over every run of open, application of rewards, adjust, close and batch liquidation: active and default pools hold exactly the recorded and the pending amounts, and every stake is in the one system-wide ratio to entire collateral. |
| Redistribution.SharedRatio | packages/contracts/contracts/Rewards.sol:268-283 | In every reachable state all active troves share one ratio of stake to entire collateral (recorded plus pending), that of the two system snapshots; before any liquidation, stake equals collateral. |
| Redistribution.TotalRate | packages/contracts/contracts/Rewards.sol:357-371 | Total stakes are the same multiple of the collateral of the whole system, so a new snapshot pair continues the ratio. |
| Redistribution.RedistributeInv | packages/contracts/contracts/Rewards.sol:308-344 | Spreading collateral and debt over stakes and taking new snapshots keeps the invariant, including that the default pool gains exactly what becomes pending. |
| Redistribution.BatchKeepsOrder | README.md:479-483 | A redistribution never changes the order by nominal collateral ratio of two troves it does not liquidate, in either direction. |
| Redistribution.StepKeepsOrder | README.md:479-487 | No operation on other troves changes the order of two troves. |
| Redistribution.RunKeepsOrder | README.md:479-487 | The same over every run of operations on other troves. |
| Redistribution.RedistributionLowersRatio | README.md:479 | A redistribution strictly lowers the ratio of a trove exactly when that ratio is above the ratio of what is redistributed. |
| Redistribution.RawStakesBreakOrder | README.md:1316-1324 | With raw collateral as stake a fresh trove can overtake an older one: a run from the empty system after which a batch that touches neither swaps two troves. |
| Redistribution.TroveManager.ApplyPendingRewards | packages/contracts/contracts/Rewards.sol:150-182 | The step-by-step payment produces the specified state: rewards move from the default to the active pool and snapshots become current. |
| Redistribution.ApplyGives | packages/contracts/contracts/Rewards.sol:150-182 | Paying a trove changes neither what it holds nor what the pools hold together, and leaves nothing pending. |
| Redistribution.TroveManager.UpdateStakeAndTotalStakes | packages/contracts/contracts/Rewards.sol:256-283 | Recomputes one stake from the snapshots and keeps the running total in step. |
| Redistribution.TroveManager.OpenTrove | packages/contracts/contracts/BorrowerOperations.sol:166-234 | Opening in place gives the specified state and keeps the invariant; it fails exactly on an active trove or empty amounts. The new trove holds what it was opened with, at any running sums, and the active pool that much more. |
| Redistribution.TroveManager.AdjustTrove | packages/contracts/contracts/BorrowerOperations.sol:287-387 | Pending rewards are applied before the change and the stake is corrected after it; the invariant is kept. What the trove holds, pending included, and what the two pools hold change by exactly the two changes. |
| Redistribution.AdjustGives | packages/contracts/contracts/BorrowerOperations.sol:329-363 | The same on values: entire collateral and entire debt move by the changes asked for, at any snapshots. |
| Redistribution.TroveManager.RemoveTrove | packages/contracts/contracts/Liquidations.sol:346-357 | A leaving trove is first paid what is pending, then its stake and amounts go. |
| Redistribution.TroveManager.CloseTrove | packages/contracts/contracts/BorrowerOperations.sol:389-427 | Closing keeps the invariant and is refused for the last trove. The trove is gone and the pools have lost exactly what it held, pending included. |
| Redistribution.TroveManager.BatchLiquidate | packages/contracts/contracts/Liquidations.sol:627-695 | Carried out exactly when there is a batch, each cut fits its trove at its turn and a stake remains: all liquidated troves leave first, their cuts are spread in one step, then snapshots are taken. A batch that reverts leaves no trace. |
| Redistribution.BatchGives | README.md:1310-1340 | A batch by its effect: exactly its troves are gone, the pools have lost what those held beyond their cuts, and the cuts went to all other troves in proportion to their entire collateral, collateral and debt alike. |
| Redistribution.CarriedOutExactly | packages/contracts/contracts/Liquidations.sol:627-773 | On the state before the batch: it is carried out if and only if it lists at least one trove, none twice, not all there are, and every cut is within what its trove holds. |
| TroveOrder.BatchKeepsListInOrder | README.md:479-483 | After a batch the list without its troves is still in order of the ratio of entire collateral to entire debt, wherever the cuts went. |
| TroveOrder.RunKeepsListInOrder | README.md:481-487 | Over every run of operations on other troves a list stays in order without being touched. |
| TroveOrder.InOrderIsSorted | packages/contracts/contracts/Dependencies/LiquityMath.sol:143-163 | A list in order is sorted under the truncated ratios the contract compares, the nominal one and the current one at every price and par. |
| TroveOrder.BatchKeepsListSorted | README.md:479-487 | So a list in exact order is sorted after every batch under the truncated ratios, at every precision, price and par, without any trove being re-inserted. |
| TroveOrder.InOrderExactly | README.md:479-487 | Exact order is what it takes: a list is in it if and only if it is sorted under truncated ratios at every precision. |
| TroveOrder.InOrderAtFactor | packages/contracts/contracts/SortedTroves.sol:278-317 | At the one precision an insertion looks at, a list is in exact order if and only if it is sorted there and its ties are in exact order. |
| TroveOrder.TieComesApart | packages/contracts/contracts/Dependencies/LiquityMath.sol:143-150 | A list sorted by truncated ratios only can come apart: a run of three opens from the empty system, after which a batch that touches neither trove of a tie leaves them with ratios one and two, in the wrong order. |
| TroveOrder.RunGrows | packages/contracts/contracts/Liquidations.sol:627-695 | Over a run of operations on other troves, redistributions grow all collaterals by one factor and all debts by one amount per collateral, so that all ratios go through one map. |
| TroveOrder.RunKeepsNearlySorted | README.md:479-487 | How far a list sorted by truncated ratios can come apart over any run of operations on other troves: a later trove is above an earlier one by less than one unit and the growth of their collateral, in units of the precision. |
| TroveOrder.RunKeepsList | packages/contracts/contracts/SortedTroves.sol:104-224 | Over every run, with an insertion, re-insertion or removal at each operation that touches a trove and none otherwise, the list holds exactly the active troves and stays in exact order, when insertions bracket the truncated ratio and put ties in exact order. |
| TroveOrder.ReachableListSorted | packages/contracts/contracts/SortedTroves.sol:104-224 | So from the empty system on the list of every reachable system is sorted under the truncated ratios, at every precision. |
| Redistribution.TroveManager.DropCuts | packages/contracts/contracts/Liquidations.sol:697-773 | The loop over the batch removes the troves one by one and adds up what they give away. |
| Rewards.SpreadKeepsSlack | packages/contracts/contracts/Rewards.sol:322-334 | A redistribution with truncating division and remainder feedback neither creates nor destroys what the default pool holds beyond what it owes. |
| Rewards.PaySlack | packages/contracts/contracts/Rewards.sol:206-231 | A covered pool can pay any truncated reward, and the payment leaves behind less than one wei. |
| Rewards.RestakeSlack | packages/contracts/contracts/Rewards.sol:256-265 | Changing a stake without paying it first takes exactly the difference in earnings out of the slack. |
| Rewards.LeaveSlack | packages/contracts/contracts/Rewards.sol:244-248 | Whatever is owed to a trove that leaves unpaid becomes slack of the pool. |
| Rewards.DebtWithoutCollateral | packages/contracts/contracts/Liquidations.sol:301-338 | A liquidatable trove of 2000 LUSD, at 2000 per unit of collateral and a stability pool short of its debt by 1800 wei, redistributes 1800 wei of debt and no collateral. |
| Rewards.UnappliedDebtCanExceedPool | packages/contracts/contracts/Rewards.sol:233-236 | Because only the collateral snapshot decides whether rewards are applied, a run of the book that redistributes these amounts and then adjusts a trove ends with that trove owed 3600 wei of debt by a default pool of 1800, and its liquidation reverts. |
| Rewards.SpreadMoves | packages/contracts/contracts/Rewards.sol:322-335 | A redistribution moves a sum exactly when its numerator reaches the total stakes. |
| Rewards.UnpaidRestake | packages/contracts/contracts/Rewards.sol:150-165 | Changing a stake without payment keeps a covered side covered, whatever the new stake, exactly when the trove has a current snapshot on that side: the test the contract makes on the collateral side only. |
| Rewards.RewardsBook.PayBoth | packages/contracts/contracts/Rewards.sol:115-126 | Collateral is always covered; debt is covered whenever debt and collateral snapshots move together. Each payment is what the stake has earned since its snapshot, in whole wei, and leaves the pool. |
| Rewards.RewardsBook.ApplyPendingRewards | packages/contracts/contracts/Rewards.sol:150-182 | No application underflows the default pool on the collateral side, nor on the debt side as long as snapshots move together. |
| Rewards.RewardsBook.UpdateStakeAndTotalStakes | packages/contracts/contracts/Rewards.sol:256-265 | Keeps the slack bounds after a payment: collateral excess is at most one wei per payment plus collateral that came without debt. |
| Rewards.RewardsBook.RedistributeDebtAndColl | packages/contracts/contracts/Rewards.sol:284-344 | Each sum moves by the amount and the carried remainder per unit staked, with a new remainder below the total stakes. Collateral stays covered always, and debt in lockstep exactly when no debt came, the collateral numerator reaches the total stakes, the debt numerator does not, or no trove has current snapshots; reverts exactly without stakes. |
| Rewards.RewardsBook.Open | packages/contracts/contracts/BorrowerOperations.sol:209-215 | A new trove starts at the current sums and is owed nothing. |
| Rewards.RewardsBook.Adjust | packages/contracts/contracts/BorrowerOperations.sol:329-363 | A borrower operation pays before it re-stakes, so coverage is kept. |
| Rewards.RewardsBook.Close | packages/contracts/contracts/BorrowerOperations.sol:400-409 | A closing trove is paid before it leaves, so coverage is kept. |
| Rewards.RewardsBook.LiquidateTrove | packages/contracts/contracts/Liquidations.sol:346-357 | A liquidated trove is paid even when only debt is pending, so coverage is kept. |
| StabilityPool.Pool.Offset | packages/contracts/contracts/StabilityPool.sol:578-603 | Updating one product and one sum has the effect of the loop that charges every depositor in proportion; fails exactly when less than the minimum would be left. The product is the old one times what is left of the pool: on the same scale if that is at least a billionth, one scale on below it, two below its square, and at least a billionth again as long as the pool is below 1e18 LUSD. |
| StabilityPool.Pool.ReadsZeroOnlyIfTiny | packages/contracts/contracts/StabilityPool.sol:864-902 | What is read off is the whole deposit of the looping ledger or nothing, and nothing only once that deposit has fallen below a billionth of its start, or of its start times a product that fees have raised. |
| StabilityPool.Pool.DistributeFees | packages/contracts/contracts/StabilityPool.sol:1087-1114 | Raising the product has the effect of crediting every depositor in proportion; the product grows by the fee per LUSD, on the same scale. |
| StabilityPool.Pool.ProvideToSP | packages/contracts/contracts/StabilityPool.sol:358-396 | A top-up reads off the depositor exactly as the loop would have left them, pays the gain and renews the snapshots: afterwards the deposit reads as what was left plus the amount, and no gain is due. |
| StabilityPool.Pool.WithdrawFromSP | packages/contracts/contracts/StabilityPool.sol:412-458 | Pays the smallest of the request, what the pool may give and the compounded deposit, and the whole gain; never reverts for a depositor. A payment leaves the minimum in the pool, and one that is cut short by neither request nor deposit leaves no more than that. |
| StabilityPool.Pool.WithdrawAll | packages/contracts/fuzzTests/PoolManager_AllDepositorsCanWithdrawTest.js:167-207 | In any order every depositor can withdraw: the whole compounded deposit until the pool is at its minimum, nobody is left when all claims fit, and each is paid exactly the collateral gain they had at the start. |
| StabilityPool.Pool.ClaimsCovered | packages/contracts/fuzzTests/PoolManager_AllDepositorsCanWithdrawTest.js:174-206 | All compounded deposits together are covered by the LUSD in the pool, all gains by its collateral. |
| StabilityPool.ReadOff | packages/contracts/contracts/StabilityPool.sol:749-765 | Snapshots that track an account give its deposit and gain, except that deposits two scales down or below a billionth read as zero, and gains are never overstated. |
| StabilityPool.OffsetTracks | README.md:1079-1083 | If snapshots track the looping ledger before an offset, they track it after, across scale changes. |
| StabilityPool.FeesTracks | packages/contracts/contracts/StabilityPool.sol:1102-1111 | The same for a distribution of fees. |
| StabilityPool.ProductTracks | packages/contracts/contracts/StabilityPool.sol:682-696 | The product shrinks exactly as each deposit does, for no, one or two scale changes. |
| StabilityPool.GainTracks | packages/contracts/contracts/StabilityPool.sol:667-679 | The running sum gains exactly the share of each deposit, also when it was made one scale earlier. |
| StabilityPool.ChargesInProportion | README.md:1079-1083 | The looping ledger, account by account: each bears the part of the debt and gets the part of the collateral that its deposit is of the total. |
| StabilityPool.OffsetConserved | README.md:1137-1151 | The looping ledger conserves both amounts under offsets and fees: accounts and rounding dust make up the pool. |
| StabilityPool.SettleConserved | packages/contracts/contracts/StabilityPool.sol:955-978 | The same for deposits and withdrawals. |
| StabilityRounding.WeiPool.Offset | packages/contracts/contracts/StabilityPool.sol:607-704 | In wei, an offset sets product, scale and loss error as computed: the product is rounded down on its scale, which moves on exactly when the product falls below a billionth, or its square. All claims stay within the pool up to a slack that never exceeds the largest total an offset has met (in units of 1e-18 wei). The claims after it are covered exactly if what truncation cuts off makes up for what it undercharges. It is refused exactly when less than the minimum would be left or the product would reach zero. |
| StabilityRounding.WeiPool.DistributeFees | packages/contracts/contracts/StabilityPool.sol:1087-1114 | A fee distribution raises the product by its gain per unit to within one unit, with the remainder below the total carried on, and keeps the claims covered; the slack grows by the gain per unit and by the error it feeds back. |
| StabilityRounding.WeiPool.Provide | packages/contracts/contracts/StabilityPool.sol:358-396 | The compounded deposit plus the amount becomes the new deposit with fresh snapshots, and the claims stay covered. |
| StabilityRounding.WeiPool.Withdraw | packages/contracts/contracts/StabilityPool.sol:427-450 | Pays the smallest of the request, what is above the minimum and the compounded deposit, never takes the pool below its minimum, and keeps the claims covered. |
| StabilityRounding.CompoundedAtMost | packages/contracts/contracts/StabilityPool.sol:864-902 | The truncated compounded deposit is at most what the deposit is worth exactly. |
| StabilityRounding.CompoundedIsWorth | packages/contracts/contracts/StabilityPool.sol:864-902 | On its own scale and on the next, what is paid is the worth of the deposit in whole wei, unless that is less than a billionth of what was deposited; then, and after two scale changes, it is nothing. |
| StabilityRounding.WeiPool.NearlyCovered | packages/contracts/contracts/StabilityPool.sol:197-198 | All claims exceed the pool by at most the slack in 1e-18 wei, so by less than the minimum left in it whenever the slack is below 1e36. |
| StabilityRounding.OffsetStep | packages/contracts/contracts/StabilityPool.sol:626-647 | One whole offset, with loss feedback, truncated product and scale changes, seen from the sum of all claims. |
| StabilityRounding.ProductRoundsDown | packages/contracts/contracts/StabilityPool.sol:682-699 | The truncated product never overstates the loss factor, at any number of scale changes. |
| StabilityRounding.LossSplits | packages/contracts/contracts/StabilityPool.sol:637-647 | The loss per unit is at most one, takes strictly more than the corrected debt, and at most one unit per LUSD more. |
| StabilityRounding.CoveredIff | packages/contracts/contracts/StabilityPool.sol:607-704 | For any books: the claims, with the product truncated as the contract does it, are covered after an accepted offset if and only if what the truncation cuts off makes up for what the offset undercharges. |
| StabilityRounding.CoveredExactly | packages/contracts/contracts/StabilityPool.sol:607-704 | For books that balance with the loss error outstanding this is an inequality between whole numbers, on the product, the error and the total before the call and the debt, and nothing else. |
| StabilityRounding.NoUnderchargeCovers | packages/contracts/contracts/StabilityPool.sol:637-647 | Whenever the outstanding error, charged at the new loss per unit, is at most the new error, the claims stay covered, for any books whose claims leave room for the error. |
| StabilityRounding.ExcessAfter | packages/contracts/contracts/StabilityPool.sol:607-704 | How an offset moves the excess of claims and error over the pool, for any books: the old error is given back whole but charged only on what is left, and what the truncated product cuts off comes off the claims. |
| StabilityRounding.FirstOffsetBalances | packages/contracts/contracts/StabilityPool.sol:607-704 | The first offset of a pool whose deposits are all there leaves balanced books and the claims strictly below the pool. |
| StabilityRounding.OvershootingRun | packages/contracts/contracts/StabilityPool.sol:642-647 | One depositor and two accepted offsets, after which the compounded deposit is 4607 wei more than the pool holds: the error is not always in favour of the pool. |
| StabilityGains.GainPool.Offset | packages/contracts/contracts/StabilityPool.sol:578-680 | In wei, an offset raises the sum of the current scale by gain per unit times product and feeds its error back. What all gains and the error are more than the collateral moves by the gain per unit on what the recent claims are more than the pool, so a shortage arises only where claims exceed the pool. |
| StabilityGains.GainPool.GainsCovered | packages/contracts/contracts/StabilityPool.sol:733-765 | The truncated gains of all depositors together exceed the collateral by at most the shortage, and never as long as it is below one wei; then no gain reverts. |
| StabilityGains.GainPool.ShortageBounded | packages/contracts/contracts/StabilityPool.sol:626-650 | The next offset adds to the shortage at most its gain per unit on the slack of the claims. |
| StabilityGains.GainPool.DistributeFees | packages/contracts/contracts/StabilityPool.sol:1087-1114 | A fee distribution does not change what is owed. |
| StabilityGains.GainPool.Provide | packages/contracts/contracts/StabilityPool.sol:358-396 | The truncated gain is paid and the snapshot of the sum renewed, which owes no more than before; refused exactly on an amount of zero or a gain above the collateral. |
| StabilityGains.GainPool.Withdraw | packages/contracts/contracts/StabilityPool.sol:412-458 | The same for a withdrawal, refused exactly without a deposit or with a gain above the collateral. |
| StabilityGains.EarnedGrows | packages/contracts/contracts/StabilityPool.sol:667-680 | One offset adds to the gain of a deposit the gain per unit on its claim, also one scale later, and nothing after two. |
| StabilityGains.GainAtMost | packages/contracts/contracts/StabilityPool.sol:749-765 | The gain that is paid is at most what the deposit has earned exactly. |
| StabilityGains.GainAtLeast | packages/contracts/contracts/StabilityPool.sol:749-765 | And less by one wei at most, and one unit of the sum. |
| StabilityGains.UnpayableGain | packages/contracts/contracts/StabilityPool.sol:914-922 | One depositor and three accepted offsets, the second of which leaves the claim above the pool: the gain is 12 wei more than all the collateral, and the withdrawal reverts whatever its amount. |
| Liquidations.CappedVals | packages/contracts/contracts/Liquidations.sol:301-338 | The shares of the pool and of the redistribution and the claimable surplus add up to the collateral; the offset is the smaller of debt and available LUSD. |
| Liquidations.DebtConserved | packages/contracts/contracts/Liquidations.sol:307-330 | Offset and redistributed debt make up the trove, except that a full offset at a rate above one may leave one normalized unit unbooked. |
| Liquidations.OffsetShare | README.md:1065-1071 | The offset part has the collateral ratio of what is left after gas compensation, rounded down, or is capped at the penalty. |
| Liquidations.RedistributedWhole | README.md:197 | With nothing in the pool, a trove below the minimum ratio is redistributed whole: no surplus is left. |
| Liquidations.SplitsFairly | packages/contracts/contracts/Liquidations.sol:301-338 | For every balance of the pool, to the wei: the pool gets its fraction of the collateral or all that its penalty allows; the debt that is left takes all other collateral or all that its penalty allows; without debt left nothing is redistributed. |
| Liquidations.SurplusBeyondBoth | README.md:197 | Below the minimum ratio a surplus of more than one wei is left only where both penalties bind: one wei more to either side would break its cap. |
| Liquidations.BelowMCR | packages/contracts/contracts/Liquidations.sol:718-725 | Truncation does not matter: a trove can be liquidated if and only if its worth is below 110% of its debt. |
| Liquidations.BatchLiquidate | packages/contracts/contracts/Liquidations.sol:697-773 | For any list, with repetitions: exactly the listed open troves below the minimum ratio are liquidated, each once, each split as above, and every total is the sum over them; collateral and debt are conserved over the batch, 200 LUSD is paid per liquidated trove, the total offset is the smaller of the pool and their debt, and neither side gets more collateral than its penalty allows for the debt it takes. |
| Liquidations.ValsWithinPenalties | packages/contracts/contracts/Liquidations.sol:287-338 | One trove: the pool gets at most 105%, the redistribution at most 110% of the value of the debt it takes. |
| Liquidations.DebtIsWhole | packages/contracts/contracts/Liquidations.sol:718-772 | The debt in whole wei that a batch counts is exactly the sum over the troves it liquidates. |
| Liquidations.OrderIrrelevant | README.md:192-199 | What a batch liquidates depends neither on the order of its list nor on repetitions. |
| Liquidations.InTwoBatches | packages/contracts/contracts/Liquidations.sol:718-725 | One list liquidates the troves and the debt of two lists in turn, the second on what the first left open. |
| Redemptions.RedeemCollateral | packages/contracts/contracts/TroveManager.sol:551-735 | Succeeds exactly when the request is accepted, the sequence draws something without closing the last trove of the system, the new base rate is not zero and the fee is accepted; else nothing changes. Troves below the minimum ratio at the end of either list are passed over and stay as they are. Debt removed is what was redeemed plus the burnt reserves, collateral is drawn or kept for owners, fee included at face value or less. No trove falls below the minimum debt. The total ratio does not fall if every trove the amount can close is not above it, or, with no trove passed over and both lists in order, not above a shielded trove it may be taken before. |
| Redemptions.RunRedemptionLoop | packages/contracts/contracts/TroveManager.sol:626-674 | The loop is the recursive sequence, stop for stop. By its effect: troves are gone from the front of each list, and at most one of the next is shrunk, to no less than the minimum debt and exactly the ratio of the hint. A cancelled partial would have missed one of the two; otherwise it stops only when nothing is left to redeem, no candidate is eligible or the iterations are used up, which it never exceeds. It reverts only with nothing drawn or before closing the last trove of the system. |
| Redemptions.LeftAtMinimum | packages/contracts/contracts/TroveManager.sol:329-341 | So if all troves have at least the minimum net debt before a redemption, all have it after. |
| Redemptions.SkipBelowMCR | packages/contracts/contracts/TroveManager.sol:598-606 | The cursor starts at the first trove from the end that is at the minimum ratio or above. |
| Redemptions.RedeemFrom | packages/contracts/contracts/TroveManager.sol:290-307 | One trove: the lot is what is asked for, up to the debt above the reserve; collateral at face value, rounded down, less the fee, which is the rate on it and stays in the trove. |
| Redemptions.ClosingRaisesRatio | README.md:223-243 | Taking a trove out keeps the total ratio exactly when its own ratio is at most the total. |
| Redemptions.PartialRaisesRatio | README.md:231-235 | A partial redemption at face value or less does not lower the ratio of a system worth at least its debt. |
| Redemptions.PickedIsLowest | packages/contracts/contracts/TroveManager.sol:857-892 | Two truncated list ends compared: a picked shielded trove has the lowest ratio of all that are left; a picked base trove has, if it is not above the shielded troves it may be taken before. |
| Redemptions.CloseKeepsRatio | packages/contracts/contracts/TroveManager.sol:839-892 | In a safe system (every trove the amount can close is not above the total, or not above those shields) closing the picked trove does not lower the total ratio. |
| Redemptions.ShieldCanLowerRatio | packages/contracts/contracts/TroveManager.sol:874-877 | Without it: an ordered system at 300%, a base trove at 400% and a shielded one at 200%, and a redemption that succeeds and leaves it at 200%. |
| Redemptions.SkippedCanLowerRatio | packages/contracts/contracts/TroveManager.sol:839-842 | A trove of 105% is passed over but counts as a trove of the system, so a redemption closes the only other one and takes the total from 252.5% to 105%. |
| LusdLedger.System.constructor | README.md:505-579 | The empty system is backed. |
| LusdLedger.System.OpenTrove | packages/contracts/contracts/BorrowerOperations.sol:166-234 | Debt and supply grow by the amount plus 200 LUSD, of which 200 go to the gas pool; total supply stays active plus default debt, and the gas pool 200 per active trove. |
| LusdLedger.System.WithdrawLUSD | packages/contracts/contracts/BorrowerOperations.sol:253-255 | Borrowing more keeps supply and debt equal, after pending debt has been moved out of the default pool. |
| LusdLedger.System.RepayLUSD | packages/contracts/contracts/BorrowerOperations.sol:342-352 | Repaying burns as much as it cancels, never below the minimum debt. |
| LusdLedger.System.CloseTrove | packages/contracts/contracts/BorrowerOperations.sol:389-427 | Closing burns all debt but 200 from the owner and 200 from the gas pool. |
| LusdLedger.System.RedeemFrom | packages/contracts/contracts/TroveManager.sol:298-353 | A redeemed lot is burned from the redeemer, and a trove left with its reserve is closed against 200 from the gas pool. |
| LusdLedger.System.PayDown | packages/contracts/contracts/BorrowerOperations.sol:561-565 | Burning and cancelling go together. |
| LusdLedger.System.ApplyPending | packages/contracts/contracts/Rewards.sol:121-126 | Pending debt changes its pool, not its amount. |
| LusdLedger.System.RemoveAll | packages/contracts/contracts/Liquidations.sol:721-772 | The batch loop takes off the books exactly the listed active troves below the minimum ratio, the first mention counting, with all they owe. |
| LusdLedger.System.OffsetAndRedistribute | packages/contracts/contracts/Liquidations.sol:664-674 | Debt covered by the stability pool is burned there, the rest waits in the default pool; supply stays equal to debt. |
| LusdLedger.System.BatchLiquidate | packages/contracts/contracts/Liquidations.sol:627-695 | A batch takes the listed underwater troves off the books and no others, burns the smaller of its debt and what the stability pool may give, pays 200 LUSD per trove from the gas pool, and is refused when nothing or everything would be liquidated. The pool is never drawn below its minimum, and not left above it while debt remains. |
| LusdLedger.System.Transfer | README.md:550-579 | Transfers, also to oneself, leave supply and backing unchanged. |
| LusdLedger.System.ProvideToSP | packages/contracts/contracts/StabilityPool.sol:907-912 | A deposit moves LUSD into the pool and nothing else. |
| LusdLedger.System.WithdrawFromSP | packages/contracts/contracts/StabilityPool.sol:925-932 | A withdrawal never takes the pool below its minimum, and is cut short of request and deposit only at that minimum. |
| LusdLedger.RewardsNeedUnitRate | packages/contracts/contracts/Rewards.sol:158-168 | Applying pending debt keeps the trove and the active pool in step exactly when there is nothing to apply or the accumulated rate is one: the trove is charged the actual, the pool the normalized amount. |
| FeeDecay.DecPow | packages/contracts/contracts/Dependencies/LiquityMath.sol:83-106 | The loop computes the recursive squaring, which with rounded products is within half a unit per factor of the exact power, never above one, and capped at 525600000 minutes. |
| FeeDecay.DecMulNear | packages/contracts/contracts/Dependencies/LiquityMath.sol:59-63 | Errors of the factors add up, plus half a unit. |
| FeeDecay.DecayTiming | README.md:1287-1291 | For any timing of fee operations, the whole minutes m applied so far satisfy 60 m <= elapsed < 120 m + 60: frequent operations cannot hold decay below half its rate by more than a minute. |
| FeeDecay.ClockPace | packages/contracts/contracts/Aggregator.sol:226-244 | Every minute of decay moves the fee clock by at least 60 and at most 120 seconds. |
| FeeDecay.Aggregator.CalcDecayedBaseRate | packages/contracts/contracts/Aggregator.sol:235-240 | The decayed rate is at most the rate, and within truncation of the exact decay. |
| FeeDecay.Aggregator.UpdateBaseRateFromRedemption | packages/contracts/contracts/Aggregator.sol:161-186 | The stored rate decays over the whole minutes passed, which are the ones the timing bound counts, and rises by half the redeemed fraction, to the unit, up to 100%. The assertion of a non-zero rate fails exactly when the stored rate decays to zero and the redeemed fraction is below two units. |
| FeeDecay.FailingRedemption | packages/contracts/contracts/Aggregator.sol:161-167 | The first redemption of a new system, a million wei out of a million LUSD, fails the assertion. |
| StakeError.GapPerRound | packages/contracts/errorAccumulationTest/errorAccumulationTest.js:1172-1181 | Truncated total stakes never exceed the exact ones; the error per unit of collateral never shrinks and grows by less than one part of the new collateral each round. |
| StakeError.GapBounded | packages/contracts/errorAccumulationTest/errorAccumulationTest.js:908-933 | After n rounds the error is below n times the growth of the collateral. |
| StakeError.Recompute | packages/contracts/errorAccumulationTest/errorAccumulationTest.js:853-865 | The off-chain loop computes the truncated totals, within that bound of the exact ones. |
| BNConverter.MakeBNExact | packages/contracts/utils/BNConverter.js:17-32 | The integer is the value of the string times ten to the precision; too many decimals and malformed strings are errors, exactly. |
| BNConverter.PlainExactly | packages/contracts/utils/BNConverter.js:17-32 | Numbers are exactly digits, or digits on either side of one dot, with at least one digit, and stand for what those say. |
| BNConverter.ValueRoundTrip | packages/contracts/utils/BNConverter.js:17-64 | Every plain decimal string that fits a positive precision keeps its value through both conversions, in the padding and in the slicing branch. |
| BNConverter.IntegerRoundTrip | packages/contracts/utils/BNConverter.js:47-64 | The decimal text of an integer parses back to the integer. |
| BNConverter.DecimalExact | packages/contracts/utils/BNConverter.js:58-61 | The text keeps the value exactly when there is at least one decimal or the integer is zero: without decimals the slice repeats the whole number behind the dot. |
| MacroModel.LiquidateTroves | packages/contracts/macroModel/macro_model.py:125-136 | A row is kept exactly if its ether at the new price is worth 110% of its supply, in order and otherwise unchanged; supply is conserved between kept and liquidated rows. |
| MacroModel.SelectedRows | packages/contracts/macroModel/macro_model.py:125-136 | Row by row: repricing leaves ether, debt and the traits of the owner alone, and selection by the ratio picks exactly the rows worth 110%, or exactly the others. |
| MacroModel.CloseTroves | packages/contracts/macroModel/macro_model.py:169-176 | Exactly the sampled rows are dropped, the others keep their order; sampling more rows than there are is an error, and closing more than half the rows reports -999. |
| MacroModel.AdjustTroves | packages/contracts/macroModel/macro_model.py:180-203 | Every row leaves within its band around the target ratio and at 110% or more: unchanged if it was within, else moved to the target by its debt or by its ether alone, as drawn. The fee is the rate times the debt increases the loop made. |
| MacroModel.AdjustInBand | packages/contracts/macroModel/macro_model.py:187-200 | With an up-to-date recorded ratio a row ends in [target (1 - inattention), target (1 + 2 inattention)], at the target itself if it was moved. |
| MacroModel.AdjustDirection | packages/contracts/macroModel/macro_model.py:191-197 | Below the band debt shrinks, above it debt grows, so the fee is never negative. |
| MacroModel.NetIncrease | packages/contracts/macroModel/macro_model.py:180-203 | The change of total supply is what rows gained less what rows lost. |
| MacroModel.OpenTroves | packages/contracts/macroModel/macro_model.py:223-240 | New rows follow their draws at exactly their target ratio, and the fee is the rate times the supply they add. |
| MacroModel.RedeemSorted | packages/contracts/macroModel/macro_model.py:318-334 | The loop drops exactly the longest prefix whose supply fits the pool, the residual is within the next row, supply falls by exactly the pool, and the table runs empty exactly when the pool is at least the total. |
| MacroModel.MintAtCeiling | packages/contracts/macroModel/macro_model.py:281-298 | The minted amount is positive and makes the pricing formula give exactly 1.1 plus the issuance rate. |
| MacroModel.RedeemAtFloor | packages/contracts/macroModel/macro_model.py:302-338 | Either the redemption brings the formula to the floor, or it is cut short at the redemption share and the price is that of the pool before it; it fails only with a negative stability pool or a share of one or more. |
| MacroModel.PoolBounds | packages/contracts/macroModel/macro_model.py:308-316 | Below the floor the supply difference is positive, and closing it gives the floor price. |
| MacroModel.PriceFallsWithLiquidity | packages/contracts/macroModel/macro_model.py:267-276 | By monotonicity of the twentieth power, a higher price goes with less liquidity. |
| MacroModel.PriceStabilizer | packages/contracts/macroModel/macro_model.py:261-341 | In all outcomes rows stay at 110% or more, liquidity is total supply less the stability pool plus what was redeemed, fees match the added supply, and the price is at most the ceiling. |
| MacroModel.Simulation.Borrowers | packages/contracts/macroModel/macro_model.py:390-417 | Liquidation, closing, adjustment and opening in one period: supply and row counts add up, and it fails exactly when more rows are to close than are left. |
| MacroModel.Simulation.Period | packages/contracts/macroModel/macro_model.py:383-458 | Fails exactly when more troves are to close than there are or a redemption would empty the table, and then changes nothing; stops exactly when the liquidity pool turns negative. Else it adds one record: initial supply less liquidated, closed, cut and redeemed, plus added; the issuance fee is price times rate times added supply; rows end positive and at 110% or more; the price follows from the rows as the borrowers left them, at the ceiling, at the floor or by the formula. |
| MacroModel.Simulation.Run | packages/contracts/macroModel/macro_model.py:383-458 | A run is a chain: each record and table follow from the ones before by one period, earlier records never change, all keep positive price and liquidity, and a run that ends early ends at a period that fails or stops on the table it meets. |
| MacroModel.PriceFollows | packages/contracts/macroModel/macro_model.py:261-341 | In every period of a run the liquidity pool is the supply less the stability pool plus what was redeemed, and the price solves the formula for the last price and the last pool with its drift: at the floor after a redemption that is not cut short, otherwise on the pool before any redemption. A row is issued only where that takes the price to the ceiling. |
| ModelV2.RedeemedShare | packages/contracts/model/model_v2.py:53-63 | A redemption happens only when price and fee are below one together, and takes at most the share by which they fall short. |
| ModelV2.RedeemedExactly | packages/contracts/model/model_v2.py:53-63 | It is exactly that share of the supply, or the largest share that may go at once. |
| ModelV2.FeeExactly | packages/contracts/model/model_v2.py:67-72 | The new fee is the old one and half the redeemed share, decayed. |
| ModelV2.FeeBounded | packages/contracts/model/model_v2.py:67-72 | The base fee stays in [0, D / (2 - D)]. |
| ModelV2.MarketClears | packages/contracts/model/model_v2.py:81-112 | At a positive price the new issuance is exactly what is still demanded. |
| ModelV2.PriceVanishes | packages/contracts/model/model_v2.py:81-112 | The price is zero if and only if momentum alone asks for at least what is still demanded. |
| ModelV2.CeilingKeepsValue | packages/contracts/model/model_v2.py:122-129 | The excess issuance keeps the value of the issuance at the ceiling price exactly when nothing was redeemed; otherwise it falls short by the redeemed amount times the gap. Up to the ceiling there is none. |
| ModelV2.Model.Step | packages/contracts/model/model_v2.py:193-229 | One step keeps fee, price and supply within bounds for any momentum; it fails exactly on an issuance of zero. |
| ModelV2.Model.Run | packages/contracts/model/model_v2.py:175-229 | Over every run the series only grows, each added entry follows from the one before it and is within its bounds, and the run ends early only on an issuance of zero. |

## Left out

- SortedTroves.TroveList.Insert: ratios come from a function that is asked during the search; TroveOrder says what they are made of.
- TroveOrder.RunKeepsList: positions are chosen by a specification, which SortedTroves proves its search to meet up to the order of ties; the contract leaves that order open.
- TroveOrder.InOrderIsSorted: entire amounts are exact; their own truncation to wei is not modelled.
- Redistribution.TroveManager.OpenTrove: the checks on ratios, minimum debt and gas reserve are not made.
- Redistribution.TroveManager.AdjustTrove: the checks on ratios and minimum debt are not made.
- Redistribution.TroveManager.CloseTrove: the repayment of LUSD is in LusdLedger.
- Redistribution.TroveManager.BatchLiquidate: how much of a trove is cut is an input; Liquidations computes it.
- Redistribution.TroveManager.DropCuts: the cuts are inputs.
- Redistribution.RunInv: redemptions are not an operation of their own, they are applications of rewards and adjustments.
- Rewards.RewardsBook.UpdateStakeAndTotalStakes: the new stake is an input; its formula is in Redistribution and StakeError.
- Rewards.RewardsBook.Adjust: the new stake is an input.
- StabilityPool.Pool.Offset: exact arithmetic; truncation of the product and of deposits is in StabilityRounding, that of sums and gains in StabilityGains.
- StabilityPool.Pool.DistributeFees: exact arithmetic; the fed-back gain error is in StabilityRounding.
- StabilityPool.Pool.WithdrawFromSP: the check for undercollateralised troves and the cap at the stake of the front end are not modelled.
- StabilityRounding.WeiPool.Withdraw: the check for undercollateralised troves and the cap at the stake of the front end are not modelled.
- StabilityGains.GainPool.Withdraw: the same two checks are not modelled.
- StabilityRounding.WeiPool.DistributeFees: with fees the slack is a recurrence and not bounded by the largest total.
- Liquidations.BatchLiquidate: that the last trove of the system is not closed is in LusdLedger; the rates and entire amounts of the troves are inputs.
- Redemptions.RedeemCollateral: the condition for the total ratio is sufficient for a sequence and exact for one closing; accumulated rates are one; the first hint is not modelled, the sequence starts at the end of the lists.
- Redemptions.RunRedemptionLoop: accumulated rates are one.
- Redemptions.RedeemFrom: accumulated rates are one, and the shutdown price is not modelled.
- LusdLedger.System.OpenTrove: the collateral ratio checks are one boolean input.
- LusdLedger.System.WithdrawLUSD: the collateral ratio checks are one boolean input.
- LusdLedger.System.RepayLUSD: the collateral ratio checks are one boolean input.
- LusdLedger.System.OffsetAndRedistribute: which part of the redistributed debt each trove is owed is an input bounded by what was redistributed; the shares themselves are in Rewards.
- LusdLedger.System.BatchLiquidate: the shares of redistributed debt are an input, and which troves are below the minimum ratio is an input.
- LusdLedger.System.WithdrawFromSP: the compounded deposit is an input.
- Accumulated interest rates above one, except in Liquidations: interest drips, fee routing and rates differing between the base and the shielded list.
- MacroModel.LiquidateTroves: the returns of the stability pool computed there are not modelled.
- MacroModel.CloseTroves: the number of rows to close is an input.
- MacroModel.OpenTroves: the number of rows to open is an input.
- MacroModel.Simulation.Run: random draws are inputs in their ranges, the redemption share is not negative, the fractional power, the sort and the sample are functions with their specification; the numbers of troves to open and close and the stability pool are inputs.
- ModelV2.Model.Run: momentum is an input, so past ether prices are not modelled.
- BNConverter.MakeBNExact: strings are made of digits and dots; signs, exponents and other number formats are not modelled, nor negative integers.
- StakeError.Recompute: every removed stake is part of the total at its time.
- Gas, access control, events, 256-bit overflow, price feeds, shutdown redemptions, front ends, LQTY issuance and staking.
- Moving a collateral gain into a trove, and the guard against tiny offsets.
- LQTY price, returns of the stability pool and plots of the macro simulation; the second simulation only differs in its rates, which are inputs.
