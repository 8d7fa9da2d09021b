# Backtest and market-data verification

Dafny models of an investment-research platform: the event-driven backtest with everything it
assembles, the live valuation it must agree with, and the market-data services it is fed by.
`dafny verify dfyconfig.toml` checks the whole project.

## What is modelled

The backtest is a state machine over UTC days (`Engine`): fill yesterday's orders at today's open,
value at the close, run the strategy, turn weights into orders, risk-check them with halving, queue
what is approved. `RunTo(b, n)` is the state after n days, or the exception that stopped the run;
the loops of the source are methods proved to compute it. Strategy and risk policy are arbitrary
deterministic functions there. They are instantiated with the rule-based strategy (`Strategy`,
`TargetWeights`) and the rule-based policy (`RiskPolicy`, `WeightGate`) in `SimpleRuns`.

Around it stand independent computations, each proved to agree with the engine:

- `Reconciliation` replays the trade log; `ReconciledRuns` proves exactly when it accepts a run, and
  `ZeroClose` runs a backtest that is correct and refused.
- `Fifo` matches lots; `Attribution` proves that its realized and open gains, less commissions, are
  the engine's profit.
- `NoLookAhead` compares two runs; `OrderFlow`, `OrderLog`, `LongOnly`, `AverageCost` and
  `RunCompletes` prove what every run keeps.
- `FillTerms`, `DecisionTerms` and `RefusalTerms` say on the bars' own fields what a fill costs, what
  a day is worth, what the strategy is shown, what is ordered, and why an order was refused.
- `StrategyLaws`, `SimpleOrders`, `RiskLimits`, `WeightLimits`, `GatedRuns`, `TradingDays`,
  `AlignedFields`, `IndicatorMeaning`, `FifoOrder`, `ReconcilerMeaning` and `SnapshotMeaning` define a
  second time, without the code's own formulas, what the strategy wants, the gates allow, the calendar
  closes, the series and indicators show, the matcher closes and counts, and the checks accept; each is
  proved equal to what the code computes.
- `ShortSales` says exactly when a run holds a negative position, and `RoundingShort` runs one that
  does so by rounding alone.
- `Calendar` and `Alignment` produce the day series, `Valuation` prices a single day live, and both
  give the same snapshot.
- `Performance` measures drawdown in one pass.

`PrecisionBatch` and `PrecisionCache` are the Go batch query and the Python cache that calls it,
composed; `CacheStaleness` lets the instrument table change underneath. `Subscriptions` is
reconciliation by separate calls that may fail before or after they are applied. `BarPagination` is
the Go page query over an untrusted reader and the client loop that follows its cursors.

## How to read it

- `Decimal` values are `real`, and arithmetic goes through a record of operations (`Common.Decimals`),
  each with its own rounding. A statement without `num.Exact()` holds for every precision and rounding
  mode; a statement with it is about exact arithmetic. The code runs in a finite decimal context, so
  the exact statements idealise it.
- Dates are day ordinals, instants are integers, identifiers that never steer the logic are left out.
- A recursive specification takes the prefix of a list, so that loop invariants and specifications
  have the same shape.
- Main results carry the words "Main result" in their comment.

Points where the code and its documentation differ, and the model follows the code: `_fetch_price`
speaks of one `/bars` call, but the client it calls follows every cursor; the calendar speaks of eleven
holidays and has ten; a skipped execution carries a trade date, although unfilled records are described
as undated; a Friday decision fills on Saturday, at the carried-forward close.

## Model

| member | source | states |
|---|---|---|
| `ReconciledRuns.ReconciliationVerdict` | backend/application/backtest/reconciliation.py:234-333 | for any arithmetic, strategy and risk policy: the reconciler reports nothing on a completed run of distinct members if and only if, on every day, the target weights are sound, no held position is worth zero at the close, and every recorded FX rate is positive |
| `ZeroClose.ZeroCloseIsReported` | backend/application/backtest/reconciliation.py:174-192 | the condition is needed: a correct two-day run that buys an asset which then falls from its open to a close of zero is reported by the zero-consistency check |
| `ZeroClose.CrashIsLoaded` | market-info-service/internal/domain/market_data.go:391-399 | that run is on loadable input: two bars that pass the service's price checks, aligned, with the indicators computed from them |
| `ReconciledRuns.PositiveMarketVerdict` | backend/application/backtest/reconciliation.py:234-333 | with strictly positive prices and rates, and no product rounded to zero, the reconciler passes a completed run if and only if the weights are sound on every day |
| `SimpleRuns.SimpleRunsReconcile` | backend/application/backtest/reconciliation.py:234-333 | a completed exact run of the rule-based strategy with positive NAV on every day, on bars without negative closes, reconciles if and only if every held position has a nonzero value and every recorded rate is positive, under any risk policy |
| `SimpleRuns.SimpleRunsVerdict` | backend/application/backtest/reconciliation.py:174-231 | for any arithmetic and any bars, a completed run of the rule-based strategy never fails the weight-sum check, and reconciles if and only if its weights lie in [0, 1], its held positions have value and its rates are positive |
| `ReconciledRuns.RunIssues` | backend/application/backtest/reconciliation.py:149-231 | for any arithmetic and prices, what the reconciler reports of a completed run is exactly, day by day, its worthless held positions, unsound weights and non-positive rates: cash, NAV, breakdown, final positions and final cash always agree |
| `ReconciledRuns.BooksMatchLog` | backend/application/backtest/engine.py:482-511 | after every day, and right after its fills, an independent replay of the trade log gives exactly the engine's cash and positions, for any rounding |
| `ReconciledRuns.ReplayIsLogReplay` | backend/application/backtest/reconciliation.py:241-269 | replaying the fills bucketed by date, snapshot by snapshot, is replaying the log in log order |
| `ReconciledRuns.BreakdownAddsUp` | backend/application/backtest/engine.py:513-541 | the per-asset breakdown added up in member order is the positions value, for any rounding |
| `ReconciledRuns.RecordedFxRates` | backend/application/backtest/engine.py:513-528 | the FX rates recorded for a day are the closes of exactly the foreign currencies that members quote in |
| `ReconciledRuns.DecisionBalanced` | backend/application/backtest/engine.py:513-552 | a snapshot and detail recorded on books that agree with a ledger agree with it in cash, NAV and breakdown, and the zero-consistency check fails exactly on held positions that are worth zero |
| `Reconciliation.Reconcile` | backend/application/backtest/reconciliation.py:234-333 | a discrepancy is reported if and only if the result has it, and the verdict is "passed" if and only if there is none |
| `Reconciliation.CheckDailyDetail` | backend/application/backtest/reconciliation.py:149-231 | the detail checks report exactly the breakdown, zero-consistency, weight and FX discrepancies of a day |
| `Reconciliation.BucketByDate` | backend/application/backtest/reconciliation.py:243-247 | the bucket of each date holds exactly its fills, in log order |
| `Reconciliation.ReplayDay` | backend/application/backtest/reconciliation.py:256-269 | posting a day's fills one by one gives the replayed ledger |
| `Reconciliation.CheckFinals` | backend/application/backtest/reconciliation.py:301-331 | the final checks report exactly the positions and the cash that differ from the replay |
| `Engine.RunDayLoop` | backend/application/backtest/engine.py:452-727 | the loop computes the state machine `Run`: the result of every day in turn, or the first exception |
| `Engine.FillPending` | backend/application/backtest/engine.py:482-511 | the fills of one day are those of the queued orders in order, stopping at the first exception |
| `Engine.ReviewOrders` | backend/application/backtest/engine.py:616-715 | reviewing the planned orders one by one logs or queues each as the state machine says |
| `Engine.ShrinkBuyToApproved` | backend/application/backtest/engine.py:899-946 | the bounded halving loop computes the recursive halving that its optimality is proved of |
| `RunFacts.DayEffect` | backend/application/backtest/engine.py:478-715 | a day appends one snapshot and one detail, appends fills dated that day and then undated refusals, empties the old queue, and reviewing moves no money |
| `RunFacts.HistoryIsFinal` | backend/application/backtest/engine.py:478-715 | later days never rewrite curve, detail or log of earlier ones |
| `RunFacts.Gapless` | backend/application/backtest/engine.py:478-552 | one snapshot and one detail per calendar day, dated consecutively |
| `RunCompletes.WhatStopsARun` | backend/application/backtest/engine.py:478-715 | on well-formed inputs the fills of a day succeed if and only if no queued order is sized and then refused its price (an opening price that is not positive, or a sell with slippage above 1), and otherwise the run stops with that error; when they succeed, the day completes if and only if the strategy answers, and otherwise stops with the strategy's own error |
| `RunCompletes.PositiveMarketRefusesNothing` | backend/backtest/matching.py:31-62 | with positive prices and slippage of at most 1 no order is ever refused |
| `SimpleRuns.SimpleRunsStopOnlyAtZeroNav` | backend/domain/strategies/simple_rule_strategy.py:118-151 | with the rule-based strategy, when no queued order is refused, a day completes if and only if the NAV of that day's own account is not zero or nothing is held; otherwise it stops for missing price data |
| `FillTerms.RecordsHaveTerms` | backend/application/backtest/engine.py:755-897 | in any exact run, every executed record is priced at the asset's open of its trade date, times the open of its currency when foreign, times 1 plus or minus slippage; its size is the planned one or the whole lots in it; its commission is at least the minimum and at least the share of its worth, and equals one of the two; an order is skipped exactly for missing precision or too few lots |
| `FillTerms.FillsSeeOnlyOpens` | backend/application/backtest/engine.py:482-511 | two runs whose data agree before day n, and on day n only in the opens of assets and FX rates, have the same cash, positions, cost and log right after the fills of day n, or the same error |
| `DecisionTerms.NavIsWorth` | backend/application/backtest/engine.py:513-552 | in any exact run a day's NAV is cash plus every position at its close times the close of its currency, and the snapshot is stale exactly when a held asset's bar or rate is |
| `DecisionTerms.StrategyIsShown` | backend/application/backtest/engine.py:554-592 | on every day the strategy is asked as of that day, about the quantities and average costs right after the fills, and is shown exactly the members, each by its own indicators, close and status of that day |
| `DecisionTerms.OrdersCloseGaps` | backend/backtest/rebalance.py:99-133 | in any exact run an order is planned if and only if it closes the gap between a member's target value and its value at the close, the member's price is positive, it is crypto or its bar is fresh, and the gap is neither zero nor below the threshold |
| `Rebalance.OrderExactly` | backend/backtest/rebalance.py:99-133 | the same for one asset of any request: exactly when it is ordered, with side, price and size; so a stale equity is never ordered |
| `RefusalTerms.RefusalsAreTraced` | backend/application/backtest/engine.py:618-714 | every record without a trade date is a planned order of its decision day, with its score: rejected at its planned size for exactly the rules of its verdict, or approved on the last day at the size approved |
| `IndicatorMeaning.RowMeans` | backend/backtest/indicators.py:133-411 | in exact arithmetic, on slices of the bars: each average is the mean of its closes, the RSI is the share of the rises in all moves of 14 days, the range is the mean reach from the close before, the position lies between the extremes of 20 days, returns and volume changes lead from one day to the next, the trend compares the averages, and relative strength is the growth less that of the benchmark |
| `AlignedFields.SeriesShows` | backend/backtest/alignment.py:66-128 | an aligned series has one bar a day; on a day with raw bars it repeats every field of the last one, and on any other it stands at the close before, stale and without volume |
| `AlignedFields.FailsWithout` | backend/backtest/alignment.py:66-128 | there is no series if and only if the range is empty or its first day, a trading day of it, or for crypto any day of it, has no raw bar |
| `FifoOrder.ClosesOldest` | backend/application/backtest/metrics.py:372-392 | a sell takes its units from the front of the lots, each at what it was bought for, and leaves the rest |
| `FifoOrder.OldestFirst` | backend/application/backtest/metrics.py:361-396 | for any positive fills, the open lots of an asset are its buys in order, less as many units from the front as were matched |
| `FifoOrder.StatsCount` | backend/application/backtest/metrics.py:398-412 | wins, losses and matches are counted; the win rate is wins over matches, and the ratio the mean win over the mean loss |
| `ReconcilerMeaning.PassesExactly` | backend/application/backtest/reconciliation.py:149-333 | any result at all, from a run or not, passes the reconciler if and only if every day's cash, NAV, breakdown, held values, weights and rates, and the final cash and positions, agree with the replay of its log |
| `SnapshotMeaning.SnapshotMeans` | backend/application/valuation/service.py:280-370 | in exact arithmetic a live snapshot exists if and only if everything not zero can be priced and converted; it adds up positions and cash in the base currency, and is stale exactly when a price or rate that it uses is |
| `NoLookAhead.NoLookAhead` | backend/application/backtest/engine.py:478-715 | two runs that share configuration, members, strategy and policy and whose series, indicators and FX agree before day n are in the same state after n days, or failed with the same error |
| `NoLookAhead.FutureDataIsIrrelevant` | backend/application/backtest/engine.py:381-396 | from the loaded series on: asset, benchmark and FX data from day n on cannot influence anything before day n |
| `NoLookAhead.SharedHistory` | backend/application/backtest/engine.py:717-727 | what two such runs share of their finished results: everything recorded in the first n days |
| `NoLookAhead.EarlierEndSameHistory` | backend/application/backtest/engine.py:685-709 | a backtest that ends earlier completes if and only if the longer one gets that far, and otherwise fails with the same error; up to the earlier end, curve, detail, fills, cash and positions are the same |
| `NoLookAhead.SameIndicators` | backend/backtest/indicators.py:370-411 | indicators of series that agree before day n agree before day n |
| `Indicators.IndicatorsLookBackOnly` | backend/backtest/indicators.py:133-411 | every indicator of day i depends only on bars 0 to i of the asset and the benchmark |
| `NoLookAhead.NoAverageBeforeTwentiethBar` | backend/backtest/indicators.py:151-164 | the 20-day average is missing exactly on the first 19 bars |
| `NoLookAhead.NoBuyBeforeTwentiethBar` | backend/domain/strategies/simple_rule_strategy.py:245-276 | no run of the rule-based strategy plans a buy of an asset on a decision before its 20th bar |
| `Indicators.ComputeDailyReturns` | backend/backtest/indicators.py:133-148 | fills the list with the per-day specification |
| `Indicators.ComputeMovingAverage` | backend/backtest/indicators.py:151-164 | fills the list with the mean of the window ending on each day, missing before the window is full |
| `Indicators.ComputeMaTrend` | backend/backtest/indicators.py:167-188 | fills the list with the order of the two averages |
| `Indicators.ComputeRsi` | backend/backtest/indicators.py:191-224 | fills the list with the strength of the window's gains and losses; fails exactly when some day's value does |
| `Indicators.ComputeAtr` | backend/backtest/indicators.py:227-253 | fills the list with the mean true range of the window |
| `Indicators.ComputeVolumeChange` | backend/backtest/indicators.py:256-272 | fills the list with the day-over-day volume change |
| `Indicators.ComputePricePosition` | backend/backtest/indicators.py:275-298 | fills the list with the place of the close between the window's extremes |
| `Indicators.ComputeRelativeStrength` | backend/backtest/indicators.py:301-346 | fills the list with the window return less the benchmark's; fails on series of different length |
| `Indicators.ComputeIndicators` | backend/backtest/indicators.py:370-411 | combines the lists: each day's row is the per-day specification |
| `Indicators.PricePositionIsFraction` | backend/backtest/indicators.py:275-298 | in exact arithmetic the price position lies between 0 and 1 |
| `Indicators.RsiInRange` | backend/backtest/indicators.py:191-224 | in exact arithmetic the RSI lies between 0 and 100 |
| `Attribution.ProfitAttribution` | backend/application/backtest/metrics.py:346-412 | on every day of an exact long-only run, NAV less initial cash is the FIFO matcher's realized gains, plus its open lots' gains at the day's closes, less every commission paid |
| `Attribution.OpenLotsArePositions` | backend/application/backtest/metrics.py:346-396 | on every day the matcher's open lots of each asset add up exactly to the engine's position, and none is empty |
| `Attribution.MatchingOrderIsLogOrder` | backend/application/backtest/metrics.py:356-359 | filtering the filled records and stably sorting them by date matches in log order |
| `Attribution.FillCostIsRecorded` | backend/application/backtest/engine.py:755-844 | what a simulated fill costs, cash and position together at the execution price, is exactly its recorded slippage and commission, for buys, sells and skipped orders |
| `Attribution.CashOfLog` | backend/application/backtest/engine.py:820-825 | in exact arithmetic replayed cash is initial cash less purchases and commissions plus sales |
| `Attribution.ValueIsCostPlusGains` | backend/application/backtest/engine.py:513-530 | the positions value is the open lots' cost plus their gains at the closes |
| `Fifo.QuantityConserved` | backend/application/backtest/metrics.py:361-396 | for any positive fills, per asset: bought is matched plus open, no more is matched than sold, no empty lot is kept |
| `Fifo.CostConserved` | backend/application/backtest/metrics.py:361-396 | for any positive fills, everything paid for lots is the cost of matched quantities or of open lots |
| `Fifo.MoneyConserved` | backend/application/backtest/metrics.py:361-396 | when every sell is covered, realized gains less the cost of open lots equal everything sold less everything bought |
| `Fifo.RealizedIsProceedsLessCost` | backend/application/backtest/metrics.py:377-383 | the realized sum is what the matched quantities sold for less what they were bought for |
| `Fifo.ClosingConserves` | backend/application/backtest/metrics.py:373-396 | one sell moves quantity and cost from open lots to matches of its own asset only |
| `Fifo.ClosingKeepsPositive` | backend/application/backtest/metrics.py:373-392 | closing keeps no empty lot and leaves a remainder only when the lots run out |
| `Fifo.OpenIsBoughtLessSold` | backend/application/backtest/metrics.py:361-396 | in a covered sequence the open lots are exactly what was bought and not sold |
| `Fifo.RatioDefined` | backend/application/backtest/metrics.py:398-412 | the win/loss ratio is missing if and only if there are no wins or no losses: it never divides by zero |
| `Fifo.LossesAreNegative` | backend/application/backtest/metrics.py:377-387 | wins, losses and ties split the matches by the sign of the gain, and wins plus losses add up to the realized sum |
| `Fifo.CloseAgainst` | backend/application/backtest/metrics.py:372-392 | the inner loop over one sell leaves the lots and records the gains of the recursive closing |
| `Fifo.RealizedPnlStats` | backend/application/backtest/metrics.py:346-412 | the per-asset queues give the statistics of matching all dated fills in date order |
| `Fifo.Summarize` | backend/application/backtest/metrics.py:398-412 | counts and averages of the recorded gains, without a division by zero |
| `OrderFlow.HalvingIsTwoOptimal` | backend/application/backtest/engine.py:899-946 | for a downward-closed policy an approved size q/2^k means every size from 2q/2^k is refused, and giving up means every size from q/256 is refused |
| `OrderFlow.PolicyIsDownwardClosed` | backend/domain/risk/simple_risk_policy.py:297-481 | the rule-based policy is downward closed for buys in every portfolio state |
| `SimpleRuns.PlannedBuysAreTwoOptimal` | backend/application/backtest/engine.py:618-660 | in any exact run gated by the rule-based policy, whatever the strategy, every planned buy is reviewed two-optimally: the size approved after halving could not have been twice as large, and a buy given up on is refused from 1/256 of its size upwards |
| `RiskPolicy.BuyApprovalDownwardClosed` | backend/domain/risk/simple_risk_policy.py:297-481 | if a buy is approved, so is every smaller positive one of the same asset and price |
| `RiskLimits.BuyApprovedExactly` | backend/domain/risk/simple_risk_policy.py:297-481 | in exact arithmetic a buy is approved if and only if size, price and NAV are positive, the asset is a non-restricted member, the position after it is within the cap, the cash after it is not below the floor, its risk at the assumed stop is within the budget, fewer than the maximum are held or the asset already is, and the fall from the peak is short of the stop line; each limit on the account's own numbers |
| `RiskLimits.RejectedExactly` | backend/domain/risk/simple_risk_policy.py:297-481 | and a rejected buy is reported for exactly the limits it breaks |
| `GatedRuns.QueuedBuysWithinLimits` | backend/application/backtest/engine.py:618-660 | in any exact run behind the rule-based policy, whatever the strategy, every queued buy was within all of these limits at the close and on the account of its decision day |
| `WeightLimits.ReportedExactly` | backend/domain/risk/simple_risk_policy.py:519-648 | in exact arithmetic a set of weights is reported for exactly the limits it breaks, each written out: signs, sum, caps, crypto share, cash floor, number of positions, restricted members, stop line |
| `RiskPolicy.ApprovedIff` | backend/domain/risk/simple_risk_policy.py:297-481 | an order is approved if and only if it violates none of the rules it is checked against, and exactly the violated ones are reported |
| `RiskPolicy.SellsApproved` | backend/domain/risk/simple_risk_policy.py:341-352 | any sell of positive quantity and price is approved |
| `RiskPolicy.RunOrderChecks` | backend/domain/risk/simple_risk_policy.py:297-481 | the step-by-step checks give the verdict of the rules |
| `RiskPolicy.RunBuyChecks` | backend/domain/risk/simple_risk_policy.py:341-470 | the buy-only checks, in order, extend the report by exactly the violated rules |
| `WeightGate.CheckTargetWeights` | backend/domain/risk/simple_risk_policy.py:519-648 | the step-by-step weight checks report exactly the broken rules in order and approve if there are none |
| `WeightGate.BrokenMembers` | backend/domain/risk/simple_risk_policy.py:643-648 | a rule is reported if and only if it is checked and broken |
| `WeightGate.StrategyPassesItsRules` | backend/domain/risk/simple_risk_policy.py:519-548 | the strategy's weights pass the independent sign, sum and restricted-member rules on every day with positive NAV, for any policy |
| `OrderFlow.QueueIsSound` | backend/application/backtest/engine.py:618-715 | every queued order is a planned one at a size the policy approved, with the score and the date of its decision; the last day queues nothing |
| `OrderFlow.FillsAreTraced` | backend/application/backtest/engine.py:482-511 | every executed record was decided exactly one day earlier, with that decision's score, and traces to an approved check at its planned quantity |
| `OrderLog.OneRecordPerPlannedOrder` | backend/application/backtest/engine.py:618-714 | a completed run's log has exactly one record per planned order and none for anything else |
| `OrderLog.LogIsComplete` | backend/application/backtest/engine.py:618-714 | per asset and decision day, as many records as orders were planned, with or without distinct members |
| `OrderLog.SeqNosIncrease` | backend/application/backtest/engine.py:484-485 | the running numbers behind trade ids increase strictly through the log |
| `OrderLog.PlansOncePerAsset` | backend/backtest/rebalance.py:99-133 | a day plans at most one order per asset |
| `SimpleRuns.NoSellRejected` | backend/application/backtest/engine.py:631-683 | under the rule-based policy no planned sell is ever rejected, in any run of any strategy and for any arithmetic |
| `LongOnly.NeverShort` | backend/application/backtest/engine.py:497-509 | in a run of a long-only strategy, whatever the prices and for every arithmetic that rounds no sell above the holding it is computed from, no position is ever negative, every queued sell is covered, and no asset has two queued orders |
| `LongOnly.ExactIsLongOnly` | backend/backtest/rebalance.py:112-131 | exact arithmetic is such an arithmetic |
| `ShortSales.ShortExactlyWhen` | backend/application/backtest/engine.py:482-511 | for any strategy and any arithmetic that keeps the sign of sums, a run never holds a negative position if and only if every sell it fills is, at its filled size, for at most what is held |
| `RoundingShort.RoundingGoesShort` | backend/backtest/rebalance.py:112-131 | the condition is needed: with 28 digits, half even, a long-only run buys 100 at 6, sells all at a close of 8, and ends short by one unit in the last place |
| `RoundingShort.SwingIsLoaded` | backend/backtest/alignment.py:66-128 | that run is on loadable input: three bars with consistent prices, aligned, with the indicators computed from them |
| `LongOnly.OrdersCovered` | backend/backtest/rebalance.py:112-133 | with such an arithmetic planned orders have positive size and price, and a planned sell asks for at most what is held |
| `AverageCost.AverageCostBounds` | backend/application/backtest/engine.py:502-509 | on every day the position equals what the log says is held; position times average cost is what was paid for it, each sell taking its share; average cost is 0 when flat and otherwise lies between the least and the greatest buy price since last flat |
| `SimpleRuns.FrozenStaysFlat` | backend/domain/strategies/simple_rule_strategy.py:256-288 | a restricted or blacklisted member that starts flat stays flat and is never queued, in any run |
| `SimpleRuns.UnbuyableNotBought` | backend/domain/strategies/simple_rule_strategy.py:245-295 | a restricted, blacklisted or short-history member is never among a day's planned buys |
| `SimpleRuns.ShortHistoryNotBought` | backend/domain/strategies/simple_rule_strategy.py:251-276 | an asset without 20 bars of history is not bought on that decision |
| `TargetWeights.NoTargetAboveHolding` | backend/domain/strategies/simple_rule_strategy.py:279-288 | the clamp survives scaling: such a member is never targeted above the value held |
| `TargetWeights.TargetsSoundIff` | backend/domain/strategies/simple_rule_strategy.py:331-374 | building weights never fails its sum check, and they all lie in [0, 1] if and only if no desired weight is negative |
| `TargetWeights.GeneratedWeightsSound` | backend/domain/strategies/simple_rule_strategy.py:231-312 | on a day with positive NAV the weights lie in [0, 1] and sum to exactly 1 |
| `TargetWeights.GenerationSucceedsIff` | backend/domain/strategies/simple_rule_strategy.py:118-151 | generation fails if and only if something is held and NAV is zero or a price is missing |
| `TargetWeights.TargetAtMostDesired` | backend/domain/strategies/simple_rule_strategy.py:341-353 | scaling never raises a weight and never makes it negative |
| `TargetWeights.TargetNonNegative` | backend/domain/strategies/simple_rule_strategy.py:231-374 | with positive NAV and nothing held short, no asset with a positive close is targeted below zero, whatever the other prices are |
| `StrategyLaws.DesiredIsMeant` | backend/domain/strategies/simple_rule_strategy.py:204-288 | for any arithmetic, a member with enough history is meant to weigh nothing with two points more against it than for it, its cap or a fifth with two more for it, and otherwise what it weighs; restricted and blacklisted ones never more than they weigh |
| `StrategyLaws.TargetsAreMeant` | backend/domain/strategies/simple_rule_strategy.py:231-374 | in exact arithmetic every member is targeted at exactly what it is meant to weigh, all in proportion when that is more than 1 in total, cash takes the rest, and nothing else is targeted |
| `StrategyLaws.ReportedScore` | backend/domain/strategies/simple_rule_strategy.py:154-201 | the reported score of a member is its points for less its points against, or zero without enough history |
| `SimpleOrders.TargetOfDay` | backend/domain/strategies/simple_rule_strategy.py:231-374 | the same on every decided day of a run, about the account and the bars of that day |
| `SimpleOrders.SellSignalSellsAll` | backend/domain/strategies/simple_rule_strategy.py:203-213 | in a run of the strategy, on a day with positive NAV, a held member with two points more against it than for it, fresh or crypto and worth at least the threshold, gets a planned sell of its whole holding at the close |
| `Strategy.ComputeTargets` | backend/domain/strategies/simple_rule_strategy.py:231-312 | the member loop computes the specified scores and weights |
| `Strategy.ComputeCurrentWeights` | backend/domain/strategies/simple_rule_strategy.py:118-151 | the loop over positions computes market value over NAV, or raises for a missing price or zero NAV |
| `Strategy.ScoreIsBalance` | backend/domain/strategies/simple_rule_strategy.py:154-201 | the score is the points for an asset less the points against it, so a buy needs two more for it than against it, and near the 20-day low all four |
| `Strategy.ScoreAsset` | backend/domain/strategies/simple_rule_strategy.py:154-201 | the branches accumulate the six signed components, between -7 and 4 |
| `Rebalance.RebalanceReachesFixedPoint` | backend/backtest/rebalance.py:68-135 | filling every order at decision prices without costs keeps NAV, brings every asset that is not skipped within the threshold of its target, and a second diff returns no orders, for every threshold including 0 |
| `Rebalance.ExecutionKeepsNav` | backend/backtest/rebalance.py:99-133 | filling planned orders at decision prices conserves NAV |
| `Rebalance.OrderHitsTarget` | backend/backtest/rebalance.py:112-131 | an order filled as planned brings its position exactly to the target value |
| `Rebalance.NoOrderMeansClose` | backend/backtest/rebalance.py:117-119 | without an order an asset is skipped or within the threshold of its target |
| `Rebalance.SellsAtMostHeld` | backend/backtest/rebalance.py:112-131 | with a non-negative target weight a sell never exceeds the holding |
| `Rebalance.BuysOnlyBelowTarget` | backend/backtest/rebalance.py:121-131 | an asset is bought only when its target value exceeds what is held |
| `Rebalance.OrdersUpToComplete` | backend/backtest/rebalance.py:99-133 | an order is planned if and only if some tradable asset asks for it |
| `Rebalance.OneOrderPerAsset` | backend/backtest/rebalance.py:99-133 | at most one order per asset |
| `Rebalance.DiffTargetWeightsToOrders` | backend/backtest/rebalance.py:68-135 | the loop with its early continues computes the specified order list |
| `Matching.SlippageIsAdverse` | backend/backtest/matching.py:31-45 | slippage never favours the trader |
| `Matching.RoundToLotIsFloor` | backend/backtest/precision.py:51-91 | the rounded quantity is the greatest lot multiple not above the desired one, and fillable exactly when positive and at least the minimum |
| `Calendar.EasterIsSunday` | backend/backtest/calendar.py:78-94 | for every year the computed date is valid, a Sunday, between March 22 and April 25, so Good Friday is a Friday |
| `Calendar.EasterFollowsFullMoon` | backend/backtest/calendar.py:78-94 | for every year it is Easter by the independent definition: the first Sunday after the Gregorian paschal full moon |
| `Calendar.ClosuresSpaced` | backend/backtest/calendar.py:97-149 | observed closures stay inside their own year, and any two different ones of any years are more than three days apart |
| `Calendar.FourDaysContainTradingDay` | backend/backtest/calendar.py:152-161 | any four consecutive days contain a trading day |
| `Calendar.HolidayInWindow` | backend/backtest/calendar.py:127-149 | every observed closure is a working day inside a fixed window of its year |
| `Calendar.NthWeekdayIsNth` | backend/backtest/calendar.py:61-65 | the date falls on the weekday and is the n-th such day of its month |
| `Calendar.LastWeekdayIsLast` | backend/backtest/calendar.py:68-75 | the date falls on the weekday and no later day of the month does |
| `Calendar.ObservedOnWorkingDay` | backend/backtest/calendar.py:97-106 | observance is a working day within one day of the holiday, which is itself if it already was one |
| `TradingDays.TradesExactly` | backend/backtest/calendar.py:152-161 | for every date: the exchange trades if and only if it is no weekend day and none of the ten closures, each given by month, day, weekday and, for Good Friday, the paschal full moon |
| `TradingDays.ClosureExactly` | backend/backtest/calendar.py:97-149 | a working day is a given year's closure of a given kind if and only if those facts say so |
| `Calendar.HolidaysForYear` | backend/backtest/calendar.py:127-149 | the set built holds exactly the observed closures of the year |
| `Calendar.IsUsEquityTradingDay` | backend/backtest/calendar.py:152-161 | true exactly for days that are neither weekend nor observed closure of their own year |
| `Alignment.AlignDailySeries` | backend/backtest/alignment.py:25-137 | bucketing and carrying forward compute the specified series or its error |
| `Alignment.SeriesIsGapless` | backend/backtest/alignment.py:79-128 | one bar per day; a day with raw bars shows its latest one, any other repeats the close before it, is stale, and is a closed exchange day of a non-crypto asset |
| `Alignment.FailsExactlyOnGaps` | backend/backtest/alignment.py:97-115 | alignment fails if and only if the first day has no bar or a day on which one is expected has none |
| `Alignment.OrderMattersExactly` | backend/backtest/alignment.py:66-73 | any order of the raw bars gives the same result if and only if alignment fails or no day of the range has two different bars that both open last |
| `Alignment.EqualOpenTimesMatter` | backend/backtest/alignment.py:66-73 | the smallest failing input: of any two different bars with one open time the first one is shown |
| `Alignment.AlignmentIgnoresOrder` | backend/backtest/alignment.py:66-73 | raw bars with distinct open times give the same result in any order |
| `Alignment.AtMostThreeStaleInARow` | backend/backtest/alignment.py:97-128 | no aligned series has four stale bars in a row |
| `Alignment.BarOnIsLatest` | backend/backtest/alignment.py:66-73 | the bar of a day is dated that day and no bar of the day opens later |
| `Valuation.AlignmentAgreesWithFetch` | backend/application/valuation/service.py:155-193 | for every day of an aligned series, pricing as of that day from the same bars gives the aligned close and the same status |
| `Valuation.LiveSnapshotOfSameBars` | backend/application/valuation/service.py:155-193 | in exact arithmetic, valuing a backtest's account live, as of any of its days and from the very bars its series were aligned from, gives the day's snapshot: values, NAV and status |
| `Valuation.FeedsQuoteSeries` | backend/application/valuation/service.py:155-193 | a market priced from the bars that the series were aligned from quotes each series at its close and status |
| `Valuation.LiveSnapshotAgrees` | backend/application/valuation/service.py:280-327 | the same for any market whose quotes agree with the series |
| `Valuation.ComputeSnapshot` | backend/application/valuation/service.py:280-327 | the loops compute the specified sums, stale exactly when some priced line is, or the first error |
| `Performance.MaxDrawdown` | backend/domain/valuation/performance.py:121-140 | the running-peak pass equals the least of 0 and every drop from an earlier positive NAV to a later one, lies in [-1, 0], and fails exactly on a negative NAV |
| `Performance.MaxDrawdownIsUnique` | backend/domain/valuation/performance.py:121-140 | the quadratic definition determines the value |
| `Performance.ExactIsSane` | backend/domain/valuation/performance.py:134-138 | exact division has the two order properties that the drawdown needs of its arithmetic |
| `Performance.ReturnMeans` | backend/domain/valuation/performance.py:113-118 | the total return is what leads from the first NAV to the last, and is missing exactly when the first is zero |
| `Performance.ComputePerformance` | backend/domain/valuation/performance.py:58-110 | succeeds exactly on a nonempty, date-sorted, non-negative series of the one portfolio in one currency, and the total return is never below the maximum drawdown |
| `Performance.RunCurveIsAccepted` | backend/domain/valuation/performance.py:75-94 | the stored curve of a backtest is refused if and only if some NAV is negative |
| `PrecisionBatch.ResolveBatch` | market-info-service/internal/application/instrument_precision.go:70-106 | for any catalog answer: when the query succeeds, that its result is the split of the de-duplicated IDs, and that every item carries the fields of its catalog row |
| `PrecisionBatch.SplitAnswersRows` | market-info-service/internal/application/instrument_precision.go:83-105 | every item carries the lot size and the minimum quantity of the last catalog row with its ID, which is active, in force and complete, and an ID is missing only if its last row is not |
| `PrecisionBatch.BatchPartitions` | market-info-service/internal/application/instrument_precision.go:83-105 | items and missing IDs split the distinct requested IDs exactly by usability, each without repeats and in request order |
| `PrecisionBatch.BatchCovers` | market-info-service/internal/application/instrument_precision.go:83-105 | a successful batch answers for every requested ID and offers no other |
| `PrecisionBatch.ParseInput` | market-info-service/internal/application/instrument_precision.go:122-149 | accepts exactly 1 to 100 canonical IDs and returns them de-duplicated in first-seen order |
| `PrecisionBatch.FirstSeenKeepsAll` | market-info-service/internal/application/instrument_precision.go:130-144 | de-duplication keeps every ID once and invents none |
| `PrecisionCache.CacheRefinesDirectLookup` | backend/adapters/market_data/precision_cache.py:111-182 | against a truthful covering service a lookup never answers anything but the direct lookup's values, answers exactly as it does when undisturbed, refusals included, and leaves truthful entries |
| `PrecisionCache.CoveringIsHonest` | backend/adapters/market_data/precision_cache.py:111-182 | when every response covers its request, every value answered was under its TTL at the reading that tested it or came with a response of this call |
| `PrecisionCache.HonestExactlyWhenMentioned` | backend/adapters/market_data/precision_cache.py:144-180 | without that assumption: a value is honest if and only if its ID needed no fetch or some response mentions it |
| `PrecisionCache.UncoveredAnswersStale` | backend/adapters/market_data/precision_cache.py:173-180 | the other case is real: any expired positive entry that a response does not mention is answered as if valid |
| `PrecisionCache.AnswersAreHonest` | backend/adapters/market_data/precision_cache.py:111-182 | a successful lookup answers for exactly the requested IDs |
| `PrecisionCache.FailsClosedExactly` | backend/adapters/market_data/precision_cache.py:96-182 | a lookup raises, always with the same error, if and only if a requested ID is known to be missing, some request fails, or an ID to fetch ends up without a positive entry |
| `PrecisionCache.ChunksTile` | backend/adapters/market_data/precision_cache.py:152-155 | the requests are nonempty chunks of at most 100 IDs that tile the IDs to fetch |
| `PrecisionCache.ChunksDisjoint` | backend/adapters/market_data/precision_cache.py:152-155 | no ID is requested twice |
| `PrecisionCache.Stored` | backend/adapters/market_data/precision_cache.py:165-171 | after a response is stored an entry it mentions is its own, and any other is what it was |
| `PrecisionCache.ServedIsHonest` | market-info-service/internal/application/instrument_precision.go:83-105 | a cache whose requests the batch query answers has a service that covers every request and tells the truth of the instrument table |
| `PrecisionCache.TruthIsServed` | market-info-service/internal/application/instrument_precision.go:83-105 | the truth that the cache is compared with is the lot size and minimum of the table's own row, or nothing when no such row serves the ID |
| `PrecisionCache.FetchedExactly` | backend/adapters/market_data/precision_cache.py:86-150 | an ID is fetched if and only if its entry is missing or at least as old as the TTL, at the first reading and again at the lock |
| `PrecisionCache.CacheOverBatchRefinesTable` | backend/adapters/market_data/precision_cache.py:111-182 | while the instrument table does not change, the cache over the batch query refines looking each ID up in it: every value answered is the lot size and minimum of the table's own row, it refuses exactly what the table cannot serve when no request fails and nothing is invalidated meanwhile, and its entries agree with the table again |
| `CacheStaleness.AnswersAreRecent` | backend/adapters/market_data/precision_cache.py:111-182 | bounded staleness under any change of the truth: every value answered was true no earlier than the TTL and the delay of a response before the lookup, an undisturbed refusal is for an ID that was missing in that time, and the entries left are dated truths again |
| `CacheStaleness.CacheOverChangingTable` | backend/adapters/market_data/precision_cache.py:111-182 | the same for the batch query over an instrument table that changes at any time: every value answered is the lot size and minimum of the row that the table had at such an instant |
| `CacheStaleness.ServedIsTimely` | market-info-service/internal/application/instrument_precision.go:83-105 | responses of the batch query, each from the table of some instant shortly before it is stored, cover their requests and tell the truth of that instant |
| `PrecisionCache.FreshAtLockSendsNothing` | backend/adapters/market_data/precision_cache.py:139-150 | a lookup that finds all it needs fresh once it holds the lock sends no request |
| `PrecisionCache.WaitingLookupSendsNothing` | backend/adapters/market_data/precision_cache.py:139-150 | lookups are coalesced: one that waited for the lock while another fetched its IDs sends no request as long as those responses are within the TTL |
| `PrecisionCache.Cache.GetMany` | backend/adapters/market_data/precision_cache.py:111-182 | the stepwise lookup, with its lock re-check and chunk loop, gives the specified answer and cache |
| `PrecisionCache.Cache.ReadCached` | backend/adapters/market_data/precision_cache.py:86-99 | the first pass serves fresh hits, raises on a fresh negative entry and collects the rest |
| `PrecisionCache.Cache.Recheck` | backend/adapters/market_data/precision_cache.py:139-150 | exactly the IDs not fresh at the second clock reading are fetched |
| `PrecisionCache.Cache.Refresh` | backend/adapters/market_data/precision_cache.py:152-171 | the requests in order, stopping at the first failure |
| `PrecisionCache.Cache.StoreBatch` | backend/adapters/market_data/precision_cache.py:165-171 | items, then missing IDs, overwrite their entries |
| `PrecisionCache.Cache.Collect` | backend/adapters/market_data/precision_cache.py:173-180 | every ID to fetch must have a positive entry, or the lookup raises |
| `PrecisionCache.Cache.Invalidate` | backend/adapters/market_data/precision_cache.py:184-193 | drops one entry or all, and nothing else |
| `Subscriptions.SyncCollectionSubscriptions` | backend/adapters/market_data/subscriptions.py:217-273 | a successful run has applied its whole plan with one request per call, and lists as created and enabled exactly the desired identities that were absent and off, each once, and as disabled exactly the undesired ones that were on; a failed one has applied some prefix of the plan |
| `Subscriptions.OneCallPerDifference` | backend/adapters/market_data/subscriptions.py:246-266 | a run plans exactly one call per identity that differs from what is desired, each setting it right |
| `Subscriptions.SyncConverges` | backend/adapters/market_data/subscriptions.py:217-273 | a full run enables exactly the desired identities and loses no row; a second run, in any order, has nothing to do |
| `Subscriptions.InterruptedSyncConverges` | backend/adapters/market_data/subscriptions.py:228-235 | a run stopped after any prefix of its calls loses no row, and a full run after it calls for exactly the identities not reached and converges |
| `Subscriptions.PrefixEffect` | backend/adapters/market_data/subscriptions.py:246-266 | after any prefix each identity reached has its desired status and every other the one it had |
| `Subscriptions.ComputeDesiredInstruments` | backend/adapters/market_data/subscriptions.py:69-98 | exactly what some member or benchmark of some portfolio resolves to |
| `BarPagination.PaginationIsSafe` | backend/backtest/market_data_client.py:138-155 | following cursors from any reader for any number of pages: strictly ordered, no repeats, inside the query, and the pending cursor is accepted by the next parse |
| `BarPagination.PaginationIsComplete` | market-info-service/internal/application/bars.go:155-173 | from a reader serving a finite store the loop stops after the expected number of pages with every matching row exactly once, in order |
| `BarPagination.PageIsGood` | market-info-service/internal/application/bars.go:155-173 | whatever the reader answers, an accepted page is inside the query, moves on from the cursor, and its own cursor is accepted by the next parse |
| `BarPagination.List` | market-info-service/internal/application/bars.go:105-174 | the service's page, or its first failure |
| `BarPagination.ValidateBarPage` | market-info-service/internal/application/bars.go:231-256 | one pass over neighbours accepts exactly the pages whose every pair is ordered and whose every bar matches the filter and respects the cursor |
| `BarPagination.ParseBarsInput` | market-info-service/internal/application/bars.go:176-215 | accepts a query if and only if it is well formed: a known or no order, a limit of 1 to 1000, real bounds with the start before the end, and a cursor from the start on and before the end |
| `BarPagination.FetchDailyBars` | backend/backtest/market_data_client.py:103-155 | the client loop ends for any reader of a bounded range and returns a strictly ordered result inside it |
| `BarPagination.ServedBarsExactly` | backend/backtest/market_data_client.py:138-155 | what a served query returns, on the rows' fields: exactly the rows of the source from the start on and before the end, oldest first when that is asked for and newest first otherwise |
| `BarPagination.ListingIsComplete` | market-info-service/internal/repository/postgres/bar_query.go:73-120 | the stored query lists exactly the matching rows, each once, in order |
| `BarPagination.ServedResultIsListing` | backend/backtest/market_data_client.py:138-155 | whatever number of pages a served query took, its result is the whole listing |
| `BarPagination.NewestFirstAnswer` | backend/application/valuation/service.py:175-190 | asking for everything before the end of a day, newest first, is the answer that point-in-time pricing is proved on |

## Left out

- Fifo and Attribution: exact arithmetic only, because quantities and gains add up only without rounding.
- ReconciledRuns.ReconciliationVerdict: asks for distinct members, which the portfolio's own constraint keeps.
- SimpleRuns.SimpleRunsReconcile: positive NAV on every day and exact arithmetic, because the bounds of the weights rest on them; `SimpleRunsVerdict` asks for neither and names the bounds.
- LongOnly.NeverShort: asks for a strategy that, on a day with positive NAV and nothing short, never targets a negative weight for an asset with a positive close, which the rule-based one is proved to be, and for arithmetic in which sells fit; `ShortSales.ShortExactlyWhen` asks for neither.
- ShortSales.ShortExactlyWhen: rounding keeps the sign of sums, that is, no sum underflows.
- AverageCost.AverageCostBounds: exact arithmetic only, because the mean is a quotient.
- RunCompletes.WhatStopsARun: exact arithmetic, a long-only strategy, data for every member on every day and valid lot sizes, which the loading steps before the run ensure.
- FillTerms.RecordsHaveTerms, DecisionTerms and SimpleOrders: exact arithmetic and distinct members; the laws are equations between products, and rounding would put an error term in each.
- RiskLimits.BuyApprovedExactly: exact arithmetic, as are `WeightLimits` and `GatedRuns`; the step-by-step checks themselves (`RiskPolicy.RunOrderChecks`, `WeightGate.CheckTargetWeights`) are proved for any.
- WeightLimits.ReportedExactly: one weight per asset, as a mapping has.
- IndicatorMeaning.RowMeans: exact arithmetic, and asset bars whose low is not above their high, as stored bars are.
- OrderFlow.HalvingIsTwoOptimal: in exact arithmetic; the policy rules are monotone in the order size only there.
- Performance.MaxDrawdown: asks of its arithmetic that a drop measured from a higher peak is no smaller and stays in [-1, 0], as exact arithmetic does.
- Valuation.LiveSnapshotOfSameBars: positions listed in member order and cash as one row in the base currency, as a backtest's account has them; each asset and each foreign currency is priced from one raw series.
- Performance.ComputePerformance: the annualized volatility, a square root, is left out.
- CacheStaleness.AnswersAreRecent: a clock that does not run back, and a bound on how old a response is when it is stored; the code has no such bound of its own.
- Subscriptions.SyncConverges: one row per identity, which the table's unique constraint keeps, and no other writer during a run. The paginated listing and the parsing of rows are not modelled.
- PrecisionCache.Cache.GetMany: concurrent callers are an arbitrary cache content found at the lock and arbitrary invalidations during requests; the lock's fairness and cancellation are not modelled. Parameters of HTTP requests are not.
- BarPagination.List: catalog, provider and mapping lookups are one given outcome; the encoding of cursors, and the validation of a bar's prices beyond one verdict per bar, are not modelled.
- BarPagination.FetchDailyBars: ends for any reader because its range has both bounds; for a range without a start only the served case is proved to end.
- Calendar: years are unbounded, where Python stops at 9999, and unscheduled closures are unknown to the code itself.
- Cash staying non-negative is not claimed: each order is checked against the same day's state and filled a day later at another price.
- Checks of portfolio identity across inputs, configuration validation, asset-type conversion, reason texts, symbols, trade and order identifiers: they steer nothing that is proved.
- Turnover, benchmark return, Sharpe, Sortino and annualized volatility: one-line ratios, or floating-point square roots.
- Reports, repositories, migrations, HTTP handlers, the front end and the prototype application: input, output and wiring.
- Worker, scheduler, lease and provider-status code of the Go service.
