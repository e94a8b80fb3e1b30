# Position accounting and import protocols, modelled in Dafny

The backend computes the same economic facts in several independent loops: holdings, the per-asset summary, the
history chart, the value series behind the performance figures, and two tax matchers. It feeds them through import
and sync protocols that must not distort the ledger. This project models those loops and protocols and proves that
they agree with each other and with declarative references.

Modelling choices that hold throughout:

- `Decimal` is exact `real`; timestamps are `int`; a database table is a sequence of rows, held by a class where the
  source updates it. Where the code calls `quantize`, the rounding is modelled.
- Quantities and prices are positive, as the request schemas demand (backend/app/schemas/transaction.py:57-72).
- FX is a function of currency and time; where the code handles a missing rate, the function is partial.
- Python's sort is the stable sort `Ordering.SortBy`; the stored order is (traded_at, BUY before SELL, id).
- A loop over a dictionary visits its keys in any order; sums over dictionaries are `Common.Total`.
- Concurrent requests and coroutines are step systems: every stretch of code between two awaits is one step.

One module per file. `Common`, `Ordering` and `Ledger` hold the shared vocabulary. `Ledger.Held`, the signed sum of a
history lifted by its deepest overdraft, is the closed form of the quantity in every walker that caps a SELL at the
holding. `hide` statements in proofs only keep definitions away from the solver that a proof does not need.

## What turned out false

The members named here prove it, with an input or with the exact condition under which the code does meet the promise.

- The average-cost tax matcher drops the cost of a BUY that lands at a total of zero or less after an oversell
  (`TaxAverage.AverageLosesCoveringBuy`). Over every history it loses exactly what those BUYs lose
  (`TaxAverage.AverageLosesExactly`), and it conserves cost at every prefix if and only if every BUY lands above zero
  or is priced at the average of that moment (`TaxAverage.AverageConservesCostIff`).
- Adding, editing and deleting a transaction keep at most the total covered; the stored ledger may cap afterwards
  (`TransactionEdits.BackdatedSellSlipsThrough`, `PostdatedEditSlipsThrough`, `DeletedBuySlipsThrough`). Exactly when it
  never does: `AddNeverCapsIff`, `EditNeverCapsIff`, `RemoveNeverCapsIff`; for the total, `RemoveKeepsTotalsIff`.
- The import check refuses batches whose stored ledger would never cap (`BulkImport.CheckIsStricterThanNeeded`). It is
  exact when no incoming BUY shares its instant with a stored SELL or one listed before it
  (`BulkImport.CheckIsExactWhenBuysLead`). It refuses a covered asset if and only if its timeline lists a SELL that
  leans on a BUY of the same instant listed after it (`BulkImport.RefusedThoughCoveredIff`).
- `compute_twr` also returns none when the value at the last boundary is not positive, although its docstring names
  sub-period starts only (`TimeWeightedReturn.ComputeTwr`). A unit bought at the start of the window and sold at its end
  has no return, whatever it earned (`TimeWeightedReturn.BoughtAndSoldHasNoReturn`), nor has any portfolio that holds
  nothing at the end (`TimeWeightedReturn.SoldOutHasNoReturn`). The code's comment says cashflows strictly inside the
  window, the code includes the end.
- In exact arithmetic the money-weighted return of paying 100 and holding 1 a year later, a rate of -0.99, is answered
  with a rate of at least 4.505 (`InternalRate.MwrLosesExactLowRoot`). For a value that falls as the rate rises the
  answer is a root if and only if Newton succeeds, the low end of the bracket is no exact root, or its middle is one
  (`InternalRate.MwrRootIff`).
- `invalidate()` does not force the next call to fetch again while a load is in flight: after every run it does if and
  only if nobody is loading, or the lifetime is zero (`SymbolCache.InvalidateForcesRefetchIff`).
- A sync does not pin a coin to its reported balance when another source, manual entry included, has rows of the same
  coin: those rows are kept and walked too (`SyncedHoldings.ManualCoinIsAddedOnTop`). What the holding is instead, for
  every table and every history, is stated by `SyncedHoldings.SyncedCoinHolding` and `SyncedCoinLift`; when it is the
  balance, by `SyncedCoinPinnedIff` for quantities of ten decimals and by `SyncedCoinPinned` for any.
- The seeded price window keeps the first of several points of the latest earlier time, the full list would use the
  last (`PriceLookup.SeedTakesTheFirst`). The window answers exactly if and only if the two agree or a point lies
  exactly at its start (`PriceLookup.WindowIsExactIff`), and the chart over the windows is the chart over the full lists for
  every portfolio if and only if all seeds are settled that way (`HistoryChart.SeededChartIsExactIff`).
- An order whose volume or price is below half a quantum is stored as a row of zero, which the ledger's own schema
  would refuse: a thousand units bought at 0.00000034 BTC are stored at price zero
  (`UpbitAccount.CheapCoinIsStoredFree`, `UpbitAccount.MappedIsPositiveIff`).
- The cash-flow service's filter on external ids drops every trade without one, so manually entered trades never reach
  the "manual" balance its docstring promises (`CashFlow.ManualTradeIsDropped`, `CashFlow.TradeEffect`).
- Reconciling a second currency of a source takes the reconcile row away from the first: 100 KRW and then 5 USD leave no
  KRW (`ExchangeSync.SecondCurrencyTakesThePin`, `ExchangeSync.ReconcileUnpinsOtherCurrency`).
- Dividend imports converge if and only if reports that share an id or a (symbol, day) agree on the row
  (`StatementImport.DividendsConvergeIff`); two brokers paying one dividend on one day never do
  (`StatementImport.TwoBrokersDoNotConverge`), and the first imported wins (`StatementImport.FirstBrokerWins`).
- Smaller mismatches where the model follows the code: `count_failures_since` includes its bound (its docstring says
  exclusive), price lists come out ascending (the docstring says descending), order paging passes the oldest timestamp
  itself as the next end time (the docstring says just before it), FIFO warns of oversells of the requested year only
  while the average method warns of every year's.

## Model

| member | source | states |
|---|---|---|
| Agreement.WalkersAgree | backend/app/services/tax_kr.py:144-208 | after any history the (cost, qty) walk, the value-series loop and the FIFO lots hold ΣS − min(0, min prefix ΣS); the uncapped average walk agrees with them if and only if no prefix oversells |
| Ledger.HeldStep | backend/app/services/performance.py:167-172 | one row moves the closed form as the code's cap does: add on BUY, max(q − qty, 0) on SELL |
| Ledger.LowestNetIsLeast | backend/app/services/bulk_transaction.py:297-303 | the lowest prefix sum is below every prefix sum and is one of them |
| Ledger.StoredOrderSays | backend/app/repositories/transaction.py:88-96 | of two stored rows the earlier listed is no later; at one instant no BUY follows a SELL, and equal sides are in id order |
| MovingAverage.WalkQuantity | backend/app/repositories/portfolio.py:64-89 | the walked quantity is the closed form, never negative, and quantity zero carries cost zero |
| MovingAverage.MoneyIsConserved | backend/app/repositories/portfolio.py:69-83 | at every prefix realized P&L is the proceeds of the capped sold quantities minus (total buy cost − running cost) |
| MovingAverage.SummaryIdentity | backend/app/services/transaction.py:136-149 | never oversold: realized = total sold value − total invested + remaining cost |
| MovingAverage.SellKeepsAverage | backend/app/repositories/portfolio.py:74-79 | a partial SELL leaves the average price unchanged |
| MovingAverage.LastFlatIsLast | backend/app/repositories/portfolio.py:64-79 | the position is flat at LastFlat and at no later prefix |
| MovingAverage.AverageInRange | backend/app/repositories/portfolio.py:43-89 | the average lies between any bounds on the BUY prices since the position was last flat |
| MovingAverage.LoadTransactionsOrdered | backend/app/repositories/portfolio.py:108-140 | grouping the one ordered query gives every asset its own rows in order, and no other keys |
| MovingAverage.ListHoldingsWithAggregates | backend/app/repositories/portfolio.py:33-106 | one row per asset: closed-form quantity, walked cost of the remaining lot, realized P&L; interleaved assets do not affect each other |
| MovingAverage.GetSummary | backend/app/repositories/transaction.py:100-168 | the four conditional sums of bought and sold quantity and money |
| MovingAverage.Summarise | backend/app/services/transaction.py:113-162 | the card's remaining quantity is the closed form, remaining × average is the running cost, and never oversold the card's own totals explain its P&L |
| PriceLookup.LatestAtSound | backend/app/services/portfolio_history.py:50-79 | the declarative lookup: none exactly when all entries are later, else an entry at or before T that no eligible entry is later than |
| PriceLookup.PricePointers.PriceAt | backend/app/services/portfolio_history.py:50-79 | the forward pointer, wherever earlier lookups left it, returns the latest price at or before ts and moves no other pointer |
| PriceLookup.WindowIsFromLatest | backend/app/repositories/portfolio_history.py:229-254 | every later lookup in the seeded window reads one of the latest eligible stored points |
| PriceLookup.WindowIsExactIff | backend/app/repositories/portfolio_history.py:237-250 | the window answers every lookup from `since` on like the full list if and only if the latest earlier points agree with the seed or a point lies exactly at `since` |
| PriceLookup.SeedTakesTheFirst | backend/app/repositories/portfolio_history.py:237-250 | two stored points of one time on which the window and the full list give different prices |
| PriceLookup.ListPricePoints | backend/app/repositories/portfolio_history.py:222-262 | for any rows in time order, repeated times included: an ascending list of stored points with both properties above |
| PriceLookup.RatesAtBatch | backend/app/repositories/fx_rate.py:249-298 | one batched query resolves each requested timestamp exactly as its own query would |
| PriceLookup.LastNotAfter | backend/app/repositories/fx_rate.py:290-297 | the scan that stops at the first later snapshot finds the nearest past one |
| HistoryChart.GenerateBucketTimestamps | backend/app/services/portfolio_history.py:31-47 | ends exactly at end, steps of delta from start, a last step of at most delta, never steps back |
| HistoryChart.TracksStep | backend/app/services/portfolio_history.py:267-280 | one row of the shared timeline moves only its own symbol's entries, as that symbol's own walk would |
| HistoryChart.ChartScan.Apply | backend/app/services/portfolio_history.py:263-281 | consuming a row keeps both dictionaries equal to every symbol's own walk |
| HistoryChart.ChartScan.AdvanceTo | backend/app/services/portfolio_history.py:262-281 | the consumed prefix is exactly the rows traded at or before ts |
| HistoryChart.ChartScan.ClearResiduals | backend/app/services/portfolio_history.py:283-287 | in exact arithmetic there is no residual to clear |
| HistoryChart.ChartScan.SumValues | backend/app/services/portfolio_history.py:299-310 | the value over the dictionary equals the value over every symbol ever traded, at the latest prices and the rates of that time |
| HistoryChart.ComputeHistoryPoints | backend/app/services/portfolio_history.py:218-320 | every point equals a from-scratch replay of the rows up to its time, valued at the last prices up to its time and converted at that time; PointSums and OneSymbolPoint say what that replay is |
| HistoryChart.PointSums | backend/app/services/portfolio_history.py:250-310 | a point is the sum over the traded symbols of held quantity × latest price × rate, and of walked cost × rate; a symbol without holding or rate adds nothing to either and one without a price nothing to the value, and one without a listed currency has rate one |
| HistoryChart.OneSymbolPoint | backend/app/services/portfolio_history.py:250-310 | with one symbol the point is that symbol's worth and cost, both zero while nothing is held or the rate is missing |
| HistoryChart.OneRatePoint | backend/app/services/portfolio_history.py:250-310 | when all traded symbols share a rate at that time, the point is that rate times the point of the unconverted chart |
| HistoryChart.SeededChartIsExactIff | backend/app/repositories/portfolio_history.py:222-263 | from `since` on the chart over the seeded windows is the replay over the full price lists, for every portfolio and time, if and only if every seed is settled |
| HistoryChart.GetHistory | backend/app/services/portfolio_history.py:95-187 | the composed chart: windows of the traded symbols, buckets and one pass; every point is the replay over the windows, and over the full lists when the traded symbols' seeds are settled |
| HistoryChart.LastPointMatchesHoldings | backend/app/services/portfolio_history.py:289-297 | one currency and no later trades: the last cost basis is the sum of the holdings table's total_cost |
| TaxLots.QueueHoldsLastUnits | backend/app/services/tax_kr.py:144-208 | the deque always holds exactly the last held units bought, oversold or not, whichever branch earlier SELLs took |
| TaxLots.DropUnitsAdds | backend/app/services/tax_kr.py:193-208 | consuming a units and then b is consuming a + b |
| TaxLots.CostOfFirstIsStepSum | backend/app/services/tax_kr.py:158-171 | what a SELL of q pays after a units are gone is the unit-cost step function summed over [a, a+q) |
| TaxLots.FifoChargesTheUnitsSold | backend/app/services/tax_kr.py:152-190 | the k-th row's cost basis is buy price × buy FX of the units of all BUYs numbered by the units consumed, which never oversold are the units sold, before and after it |
| TaxLots.FifoConservesCost | backend/app/services/tax_kr.py:136-190 | matched cost plus cost of the remaining lots equals total KRW buy cost, always |
| TaxLots.YearsPartitionGains | backend/app/services/tax_kr.py:152-190 | the gains of the reported years add up to the all-years gain |
| TaxLots.LotQueue.ConsumeLots | backend/app/services/tax_kr.py:193-208 | the deque loses exactly that many units from the front |
| TaxLots.LotQueue.MatchSell | backend/app/services/tax_kr.py:158-174 | the deque loses the same units, the cost is that of those units, and the warning is raised exactly when more is sold than the lots hold |
| TaxLots.SalesFifo | backend/app/services/tax_kr.py:136-190 | the sales of a year are the all-years run restricted to that year; warnings exactly for its oversold SELLs |
| TaxAverage.BuyKeepsCostIff | backend/app/services/tax_kr.py:226-232 | a BUY adds its full price to the inventory if and only if it lands above zero (or costs the stale average) |
| TaxAverage.AverageLosesExactly | backend/app/services/tax_kr.py:222-257 | for every history, matched cost plus inventory falls short of total KRW buy cost by exactly the sum, over BUYs landing at or below zero, of price paid less stale average |
| TaxAverage.AverageConservesCostIff | backend/app/services/tax_kr.py:222-257 | cost is conserved at every prefix if and only if every BUY lands above zero or is priced at the average of that moment |
| TaxAverage.AverageLosesCoveringBuy | backend/app/services/tax_kr.py:226-232 | an input on which a paid BUY vanishes from matched cost and inventory |
| TaxAverage.SameSellValue | backend/app/services/tax_kr.py:176-187 | both methods report the same total sell value, and every gain is value minus basis |
| TaxAverage.LinesReportSells | backend/app/services/tax_kr.py:176-187 | under both methods the k-th line reports the k-th SELL: its time, its quantity, its value at the FX of its time, and the gain as value minus basis |
| TaxAverage.MethodsAgreeWhenFlat | backend/app/services/tax_kr.py:136-259 | ending flat and never oversold, the total gain is the same under FIFO and average |
| TaxAverage.AverageMatchesHoldings | backend/app/services/tax_kr.py:210-259 | without FX and oversells the (avg, qty) walk and the holdings walk describe the same position at every prefix, and the tax gains add up to realized P&L |
| TaxAverage.SalesAverage | backend/app/services/tax_kr.py:210-259 | the sales of a year are the all-years run restricted to it; warnings for every year's oversold SELLs |
| BulkImport.NeverOversoldCovers | backend/app/services/bulk_transaction.py:294-303 | a time-sorted timeline without a negative prefix is covered at every instant |
| BulkImport.StoredOrderNeverOversoldIff | backend/app/repositories/transaction.py:88-96 | in the stored order no prefix is negative if and only if the ledger is covered at every instant |
| BulkImport.TimelineIsFutureLedger | backend/app/services/bulk_transaction.py:290-295 | the checked timeline holds exactly the rows the asset will have, in time order |
| BulkImport.AcceptedTimelineNeverCaps | backend/app/services/bulk_transaction.py:115-141 | after insertion the stored ledger never caps and its walked quantity is ΣBUY − ΣSELL |
| BulkImport.FirstOverdraftIff | backend/app/services/bulk_transaction.py:297-314 | an asset gets an error if and only if its timeline has a negative prefix |
| BulkImport.NoBalanceErrors | backend/app/services/bulk_transaction.py:287-316 | the error list is empty if and only if every involved asset's timeline is covered |
| BulkImport.TransactionTable.GetRemainingQuantity | backend/app/repositories/transaction.py:165-168 | bought minus sold of the asset |
| BulkImport.TransactionTable.WalkTimeline | backend/app/services/bulk_transaction.py:297-314 | reports the first entry with a negative running balance and stops |
| BulkImport.TransactionTable.ImportJson | backend/app/services/bulk_transaction.py:51-153 | all or nothing: accepted exactly when the size is in bounds, all symbols are known and no timeline dips; then every involved ledger never caps, other assets are unchanged, and a rejected batch changes no row |
| BulkImport.UnknownSymbolsAre | backend/app/services/bulk_transaction.py:93-113 | one error per row without a known asset, in row order, carrying its number counted from one |
| BulkImport.TransactionTable.ImportCsv | backend/app/services/transaction.py:325-396 | the same for one asset, without a row limit |
| BulkImport.CheckIsStricterThanNeeded | backend/app/services/bulk_transaction.py:294-314 | a batch of a SELL and a BUY of one instant that gets a negative-balance error on an empty table, although its stored ledger never caps |
| BulkImport.CheckIsExactWhenBuysLead | backend/app/services/bulk_transaction.py:294-314 | when no incoming BUY shares its instant with a stored SELL or one listed before it, an asset passes if and only if its stored ledger will never cap |
| BulkImport.RefusedThoughCoveredIff | backend/app/services/bulk_transaction.py:294-314 | an asset is refused although its stored ledger would never cap if and only if its rows are covered at every instant and its timeline lists an overdrawing SELL before a BUY of the same instant |
| BulkImport.UploadsNeverCap | backend/app/services/bulk_transaction.py:51-153 | over every run of imports of both kinds into an empty table, no asset's stored ledger ever caps and its walked holding is ΣBUY − ΣSELL |
| TransactionEdits.AddNeverCapsIff | backend/app/services/transaction.py:68-75 | an accepted addition leaves a ledger that never caps if and only if it is a BUY or is covered from its own date on |
| TransactionEdits.BackdatedSellSlipsThrough | backend/app/services/transaction.py:68-75 | a SELL that the service adds and that makes the ledger cap, the total staying at zero |
| TransactionEdits.TransactionService.Add | backend/app/services/transaction.py:53-84 | stores the row unless the asset is unknown or a SELL would take the asset's total below zero |
| TransactionEdits.TransactionService.Edit | backend/app/services/transaction.py:164-221 | replaces the row in place unless it is unknown or the asset's total after the replacement would be negative |
| TransactionEdits.TransactionService.Remove | backend/app/services/transaction.py:223-246 | deletes exactly the named row, unchecked |
| TransactionEdits.EditsKeepTotals | backend/app/services/transaction.py:186-204 | adding and editing keep every asset's total covered |
| TransactionEdits.RunKeepsTotals | backend/app/services/transaction.py:53-221 | over every run of additions and edits no total goes negative |
| TransactionEdits.EditNeverCapsIff | backend/app/services/transaction.py:186-208 | an edit is accepted and leaves a ledger that never caps if and only if at every instant the asset holds what the replacement takes away from that instant |
| TransactionEdits.RemoveNeverCapsIff | backend/app/services/transaction.py:223-246 | a deletion keeps a ledger from capping if and only if the row is a SELL, or a BUY that the holding never falls below from its date on |
| TransactionEdits.DeletedBuySlipsThrough | backend/app/services/transaction.py:223-246 | a deletion that keeps the total and makes the ledger cap |
| TransactionEdits.RemoveKeepsTotalsIff | backend/app/services/transaction.py:223-246 | a deletion keeps the totals covered if and only if the row is a SELL or a BUY no larger than what remains |
| TransactionEdits.PostdatedEditSlipsThrough | backend/app/services/transaction.py:186-208 | an edit that passes the total check and makes a covered ledger cap |
| ValueSeries.ExtractCashflows | backend/app/services/performance.py:72-118 | fails exactly when a trade in the window lacks a rate; else one flow per in-window trade time, ascending, with the net signed amount, called a buy exactly when it is negative |
| ValueSeries.CashEffect | backend/app/services/performance.py:98-111 | one more trade moves the flow of its own time by −(qty × price × rate) for a BUY and by +(qty × price × rate) for a SELL, with rate one in the report currency, and no other time's |
| ValueSeries.FlowsKnownIff | backend/app/services/performance.py:98-104 | the flows exist if and only if every trade inside the window has a rate at its time |
| ValueSeries.BuildValueSeries | backend/app/services/performance.py:123-199 | every sample is the value at that time of the closed-form holdings at that time; ValueIsWorth says what that value is |
| ValueSeries.ValueIsWorth | backend/app/services/performance.py:175-197 | the value is the sum of held quantity × price × rate; a symbol without holding, price or rate adds nothing |
| ValueSeries.OneSymbolValue | backend/app/services/performance.py:175-197 | with one symbol traded the value is its held quantity × price × rate, zero when the price or the rate is missing |
| TimeWeightedReturn.ComputeTwr | backend/app/services/performance.py:202-311 | for any series and flows: the chained product of sub-period factors over sorted distinct boundaries, none exactly when the series is empty or some boundary value is not positive |
| TimeWeightedReturn.GroupFlows | backend/app/services/performance.py:247-251 | the dictionary holds each date's net flow |
| TimeWeightedReturn.Dedupe | backend/app/services/performance.py:259-267 | the boundaries are the same times, ascending and without repeats |
| TimeWeightedReturn.BasketStep | backend/app/services/performance.py:167-186 | one covered trade changes the basket's value by its signed quantity at the basket's own price |
| TimeWeightedReturn.FlowsExplainTrades | backend/app/services/performance.py:284-298 | value after the flows plus the flows is the basket held before them at the new prices |
| TimeWeightedReturn.SubperiodFactor | backend/app/services/performance.py:282-309 | each factor is the value of the basket held after the previous boundary at the new prices over its value at the old ones |
| TimeWeightedReturn.GrowthIsBasketGrowth | backend/app/services/performance.py:280-311 | the chained product is the product of those basket ratios |
| TimeWeightedReturn.TimeWeighted | backend/app/services/performance.py:649-668 | the composed service: an FX error exactly when a trade in the window has no rate; when trades are at series prices, nothing is oversold and value stays positive, TWR is the growth of the untouched baskets |
| TimeWeightedReturn.OneSymbolTwr | backend/app/services/performance.py:649-668 | for one symbol that growth is P_end·fx_end / (P_start·fx_start), read from price list and rate table with rate one in the report currency, whatever was traded |
| TimeWeightedReturn.OneSymbolComposed | backend/app/services/performance.py:649-668 | the same right-hand side for the result of the composed functions |
| TimeWeightedReturn.SoldOutHasNoReturn | backend/app/services/performance.py:280-311 | a portfolio that holds nothing at the end of the window gets no return |
| TimeWeightedReturn.BoughtAndSoldHasNoReturn | backend/app/services/performance.py:280-311 | one unit bought at the start and sold at the end: the only sub-period starts above zero and grows by the price ratio, yet there is no return |
| InternalRate.FortyFourHalvings | backend/app/services/performance.py:424-436 | 44 halvings of [-0.99, 10] are narrower than 1e-12, so the 45th round ends |
| InternalRate.Bisect | backend/app/services/performance.py:423-446 | none exactly for a same-sign bracket; otherwise an answer inside the bracket within 45 of the 200 rounds, and a root whenever the starting bracket can be handled |
| InternalRate.BisectionRootIff | backend/app/services/performance.py:428-443 | for a falling value bisection answers with a root if and only if the low end is no exact root or the middle is one |
| InternalRate.ReceiptsFall | backend/app/services/performance.py:389-394 | amounts on the reference date followed by receipts only give a value that falls as the rate rises, for any power that grows with its base |
| InternalRate.MwrRootIff | backend/app/services/performance.py:403-446 | for a falling value the rate returned is a root if and only if Newton succeeds, the low end is no exact root, or the middle is one |
| InternalRate.MwrLosesExactLowRoot | backend/app/services/performance.py:403-446 | pay 100, hold 1 a year later: Newton leaves the domain on its first step, and the rate returned is in the upper half and no root |
| InternalRate.Newton | backend/app/services/performance.py:403-421 | succeeds only on a rate above -0.999 whose value is within the tolerance |
| InternalRate.ComputeMwr | backend/app/services/performance.py:382-446 | none only for one-signed amounts or a same-sign bracket; what it returns is a root whenever the low end is not one |
| Drawdown.MaxLossUnique | backend/app/services/risk.py:90-117 | the quadratic definition determines the figure |
| Drawdown.DropBoundsLosses | backend/app/services/risk.py:98-112 | against the running peak no earlier sample makes the drop larger |
| Drawdown.MaxDrawdown | backend/app/services/risk.py:90-117 | one pass gives max(0, max over pairs of (v_i − v_j)/v_i) in [0, 1), none exactly when there is no pair of positive samples, with the earliest compared sample attaining it as trough |
| Heatmap.MonthsBetween | backend/app/services/heatmap.py:39-54 | the months are contiguous from the first to the last |
| Heatmap.MonthlyReturnsFromSeries | backend/app/services/heatmap.py:57-81 | one return per month, none where a sample is not positive or the lengths do not fit |
| Heatmap.YearlyCompound | backend/app/services/heatmap.py:84-107 | each listed year has its compounded figure, none exactly with a missing month |
| Heatmap.YearTelescopes | backend/app/services/heatmap.py:84-107 | a complete year compounds to v(end of its last month) / v(before its first month) − 1 |
| Heatmap.YearsTelescope | backend/app/services/heatmap.py:84-107 | across complete years the product of (1 + yearly) is v_last / v_anchor |
| Heatmap.HeatmapFigures | backend/app/services/heatmap.py:57-107 | the composed figures: every year with a figure telescopes |
| Heatmap.SamplesRise | backend/app/services/heatmap.py:145-155 | anchor, month ends and the clipped last one never step back |
| Heatmap.GetHeatmap | backend/app/services/heatmap.py:121-168 | the whole report from its own sampling: each year with a figure returns the portfolio's value at its last sample over the value at the sample before its first month |
| LoginLimiter.BackoffIsMonotone | backend/app/services/login_rate_limiter.py:69-109 | more failures never shorten the wait; it stays between one window and 64 windows, at most an hour |
| LoginLimiter.WaitIs | backend/app/services/login_rate_limiter.py:87-91 | the wait is 1, 2, 4, 8, 16, 32 and then 64 windows as the excess passes 5, 10, 15, 20, 25 and 30, never above an hour |
| LoginLimiter.VerdictIs | backend/app/services/login_rate_limiter.py:81-109 | the verdict in terms of the failed rows within each window: the own IP's count first with its backoff, then the global count with the global window, else allowed |
| LoginLimiter.Check | backend/app/services/login_rate_limiter.py:69-109 | the verdict over the two counts, per IP first |
| LoginLimiter.LoginAttempts.Record | backend/app/repositories/login_attempt.py:27-37 | appends one attempt and keeps the others |
| LoginLimiter.LoginAttempts.PurgeOlderThan | backend/app/repositories/login_attempt.py:87-106 | of every row at or after the cutoff as many remain as there were, of every older row none, and the difference is reported |
| LoginLimiter.LoginAttempts.CountFailuresSince | backend/app/repositories/login_attempt.py:39-61 | the number of row positions that hold a failure of the scope at or after the bound |
| LoginLimiter.PurgeNeverChangesAVerdict | backend/app/repositories/login_attempt.py:87-106 | in every reachable state a check answers as if nothing had been purged |
| LoginLimiter.PurgesCanBeDropped | backend/app/repositories/login_attempt.py:87-106 | deleting all purges from a run changes neither clock, log nor requests in flight |
| LoginLimiter.FailuresPerWindowAreBounded | backend/app/services/auth.py:42-54 | with at most k requests between check and record, every closed window holds at most limit + k − 1 recorded failures, per IP and globally |
| LoginLimiter.BoundIsAttained | backend/app/services/auth.py:42-54 | a legal run that reaches the bound |
| SymbolCache.SymbolListCache.Peek | backend/app/adapters/_symbol_cache.py:59-60 | a fresh list is handed out at once; the fields are those of the step system's call step |
| SymbolCache.SymbolListCache.EnterLocked | backend/app/adapters/_symbol_cache.py:62-67 | a fresh list is handed out and nothing changes, a stale one keeps the lock and starts the loader, as the step system's lock step does |
| SymbolCache.SymbolListCache.Complete | backend/app/adapters/_symbol_cache.py:67-71 | the loaded list is stored, stamped with the completion time and returned, and the lock is free, as in the finishing step |
| SymbolCache.SymbolListCache.Invalidate | backend/app/adapters/_symbol_cache.py:73-76 | drops the list and its stamp and leaves the lock alone, as in the invalidation step |
| SymbolCache.AtMostOneLoader | backend/app/adapters/_symbol_cache.py:59-71 | in every reachable state at most one loader runs |
| SymbolCache.LoadsStartStaleUnderLock | backend/app/adapters/_symbol_cache.py:62-67 | every load of every run starts with its coroutine taking the free lock while the cache is stale and nobody loads, and is then the only one |
| SymbolCache.LoadsAreTtlApart | backend/app/adapters/_symbol_cache.py:39-71 | without invalidation a new load starts no sooner than a TTL after a completed one |
| SymbolCache.WaitersShareTheResult | backend/app/adapters/_symbol_cache.py:59-71 | within a TTL of a load every waiter and new caller returns its list without loading |
| SymbolCache.InvalidateForcesRefetchIff | backend/app/adapters/_symbol_cache.py:73-76 | after every run invalidation forces a refetch if and only if no load is in flight or the lifetime is zero |
| UpbitAccount.RoundingError | backend/app/adapters/upbit_account.py:174-179 | rounding moves a value by at most half a quantum |
| UpbitAccount.UpperIs | backend/app/adapters/upbit_account.py:310-313 | upper-casing keeps the length, maps each small letter to the capital at the same place in the alphabet and leaves other characters alone |
| UpbitAccount.MappedReports | backend/app/adapters/upbit_account.py:259-317 | an order is mapped if and only if it is done, bid or ask, with a positive volume and price and two nonempty parts around the first dash; the trade is a BUY iff bid and a SELL iff ask, quantity and price are the nearest grid values of volume and paid price, quote and base the upper-cased parts, the time that of the order |
| UpbitAccount.MappedIsPositiveIff | backend/app/adapters/upbit_account.py:298-317 | a mapped order is a positive row if and only if its volume and price are at least half a quantum |
| UpbitAccount.CheapCoinIsStoredFree | backend/app/adapters/upbit_account.py:298-317 | a done order at 0.00000034 BTC becomes a trade of price zero |
| UpbitAccount.FullPageReachesBack | backend/app/adapters/upbit_account.py:248-254 | with fewer than a page of orders per timestamp a full page reaches strictly before its end time |
| UpbitAccount.CursorMovesBack | backend/app/adapters/upbit_account.py:221-254 | a full page lowers the cursor strictly, and everything newer than the cursor has been seen |
| UpbitAccount.CollectPage | backend/app/adapters/upbit_account.py:221-234 | a page adds for each unseen importable order exactly one trade, which reports that order, and yields the oldest unseen time |
| UpbitAccount.FetchAllClosedOrders | backend/app/adapters/upbit_account.py:182-256 | every trade reports an importable order of the exchange in side, amounts, pair and time, no order is taken twice; a run ending on a short page has every importable order; at most 200 pages, cursors strictly fall and never stick |
| UpbitAccount.BalanceAdjustments | backend/app/adapters/upbit_account.py:105-171 | one adjustment per reported row whose gap is at least a quantum |
| UpbitAccount.AdjustmentSays | backend/app/adapters/upbit_account.py:105-171 | a row is adjusted if and only if it is no KRW row and its balance is at least a quantum away from the history; a BUY iff the balance is above it, of the gap's size, at the reported average price or else at one |
| UpbitAccount.AdjustmentsPinBalances | backend/app/adapters/upbit_account.py:105-171 | for distinct currencies history plus adjustments is within one quantum of every reported balance; other symbols keep their history |
| UpbitAccount.MappedOnGrid | backend/app/adapters/upbit_account.py:308-315 | the quantity of every mapped order is a whole number of quanta |
| UpbitAccount.AdjustmentsMeetBalances | backend/app/adapters/upbit_account.py:105-171 | with history and balance in whole quanta, history plus adjustments is the reported balance exactly |
| SyncedHoldings.SyncedCoinHolding | backend/app/repositories/portfolio.py:64-83 | after a sync, whatever other sources hold: the walked quantity of the coin is the reported balance plus the other sources' net, lifted by the ledger's deepest overdraft, within one quantum |
| SyncedHoldings.SyncedCoinLift | backend/app/adapters/upbit_account.py:78-81 | the same from the ledger before the adjustment: balance plus the other sources' net less that ledger's lowest prefix, cut at zero, within one quantum |
| SyncedHoldings.SyncedCoinPinnedIff | backend/app/adapters/upbit_account.py:78-81 | in whole quanta the walked quantity is that lifted balance exactly, and it is the reported balance if and only if the other sources' net equals the lowest prefix of the ledger before the adjustment, or the balance is zero and the net is no more than that |
| SyncedHoldings.SyncedCoinPinned | backend/app/adapters/upbit_account.py:78-81 | for any decimals: a lifted balance equal to the reported one pins the coin within one quantum, one that misses it by two quanta or more does not |
| SyncedHoldings.ManualCoinIsAddedOnTop | backend/app/services/exchange_sync.py:180-188 | one manual BUY of one unit survives the sync and leaves the walk one unit above any reported balance |
| MovingAverage.WalkedQuantity | backend/app/repositories/portfolio.py:64-89 | the walked quantity is the closed form for rows of zero quantity too |
| CashFlow.NetCashBySourceAndCurrency | backend/app/services/cash_flow.py:118-189 | the nested dictionary has an entry exactly for the booked (source, currency) pairs and each entry is the sum of their rows |
| CashFlow.NetCashByCurrency | backend/app/services/cash_flow.py:53-116 | each currency's entry is the sum of all its booked rows |
| CashFlow.SourcesAddUp | backend/app/services/cash_flow.py:53-189 | a currency's balance is the sum of its balances over the sources |
| CashFlow.EmptyBooks | backend/app/services/cash_flow.py:53-55 | an empty database has no balance anywhere |
| CashFlow.CashEffect | backend/app/services/cash_flow.py:145-149 | a deposit, interest or transfer-in moves exactly its own source and currency by amount less withholding, a withdrawal, interest tax or transfer-out by minus the amount |
| CashFlow.DividendEffect | backend/app/services/cash_flow.py:176-187 | a dividend moves exactly its own source and currency by amount less withholding |
| CashFlow.TradeEffect | backend/app/services/cash_flow.py:151-174 | a BUY moves exactly its own source and its symbol's currency by −(qty × price) − fee, a SELL by qty × price − fee, and only if its id is present and starts with no reconciliation prefix |
| CashFlow.ManualTradeIsDropped | backend/app/services/cash_flow.py:121-130 | a manual BUY leaves the "manual" balance at zero |
| ExchangeSync.HalfEvenError | backend/app/services/exchange_sync.py:340-342 | quantizing the delta moves it by at most half a quantum |
| ExchangeSync.ListingIs | backend/app/services/exchange_sync.py:60-79 | the asset type and exchange label that each source's symbols are filed under |
| ExchangeSync.SyncStore.ReplaceTrades | backend/app/services/exchange_sync.py:168-234 | the source's rows are exactly the new batch, missing symbols get the first trade's quote currency, a repeated id rolls everything back |
| ExchangeSync.FreshRowSays | backend/app/services/exchange_sync.py:206-217 | an inserted row carries the trade's side, quantity, price, fee, time and id under its source and listing |
| ExchangeSync.RegisteredIs | backend/app/services/exchange_sync.py:197-202 | a known symbol keeps its currency, a new one gets the quote currency of the first trade that names it, and every traded symbol is known afterwards |
| ExchangeSync.SyncStore.UpsertCashTransactions | backend/app/services/exchange_sync.py:382-420 | rows with a known kind and a new id are appended, once each |
| ExchangeSync.UpsertMovesMoney | backend/app/services/exchange_sync.py:382-420 | one synced row moves exactly its source and currency, by plus or minus its amount as its kind says, and only if its kind is known and its id new |
| ExchangeSync.CashRowSays | backend/app/services/exchange_sync.py:382-420 | what is stored for a new id: kind, amount, currency, time, source and id of the report, without withholding |
| ExchangeSync.SyncStore.OrganicNet | backend/app/services/exchange_sync.py:271-326 | the three queries sum the source's rows of the currency without reconcile row, adjustments and rows without id |
| ExchangeSync.OrganicCashEffect | backend/app/services/exchange_sync.py:258-288 | a deposit, interest or transfer-in adds its amount, the other kinds take it away, and only with an id other than the reconcile row's |
| ExchangeSync.OrganicTradeEffect | backend/app/services/exchange_sync.py:290-314 | a BUY takes away and a SELL adds qty × price, and only with an id that is no adjustment of the source |
| CashFlow.UnderscoreIsAny | backend/app/services/exchange_sync.py:305 | an underscore in a prefix, as in toss_investment's, matches any character, so the filter drops more ids than those with the prefix |
| ExchangeSync.OrganicDividendEffect | backend/app/services/exchange_sync.py:316-326 | a dividend of the source and currency adds its gross amount |
| ExchangeSync.SyncStore.ReconcileCashBalance | backend/app/services/exchange_sync.py:236-380 | the one reconcile row is deleted, inserted or overwritten in place with the quantized delta; nothing else changes |
| ExchangeSync.SyncStore.SyncUpbit | backend/app/routers/integration.py:55-81 | the three steps in order; nothing changes when the replacement fails |
| ExchangeSync.UnpinnedWithPin | backend/app/services/exchange_sync.py:328-380 | writing the reconcile row leaves all other cash rows as they were, and a row remains exactly for a nonzero delta |
| ExchangeSync.ReconcileGap | backend/app/services/exchange_sync.py:236-380 | the service's balance afterwards is target + rounding + drift, where drift is what the service books beyond the reconcile step (fees, withholding, rows only one of them counts) |
| ExchangeSync.ReconcileUnpinsOtherCurrency | backend/app/services/exchange_sync.py:331-368 | any other currency loses exactly the old reconcile row it held |
| ExchangeSync.SecondCurrencyTakesThePin | backend/app/services/exchange_sync.py:331-368 | a source reconciled to 100 KRW and then to 5 USD is left with 5 USD and no KRW |
| ExchangeSync.SyncPinsBalance | backend/app/routers/integration.py:55-81 | after a sync without fees, withholding and statement transfers the cash-flow service's (upbit, KRW) balance is within half a won of the target |
| ExchangeSync.BatchIsClean | backend/app/adapters/upbit_account.py:78-81 | distinct orders and distinct currencies give a batch that the unique constraint accepts and that carries no fees |
| SyncedHoldings.SyncPinsBothSides | backend/app/routers/integration.py:55-81 | one sync leaves the KRW balance within half a won; in the synced tables every reported coin that no other source has rows of is walked to its balance, lifted by what its orders overdrew, within one quantum |
| ExchangeSync.SyncTwice | backend/app/routers/integration.py:55-81 | repeating a sync with the same answers and timestamps changes nothing |
| ExchangeSync.SyncKeepsOthers | backend/app/services/exchange_sync.py:168-380 | trades, cash rows and currencies of other sources stay in place and in order |
| ExchangeSync.UpsertKeepsConstraints | backend/app/services/exchange_sync.py:394-417 | the unique constraint on (source, id) survives any batch, repeats included |
| StatementImport.StatementStore.ImportParsedCashTxs | backend/app/services/exchange_sync.py:631-696 | an empty statement is ignored; otherwise rows with new ids are appended and the openings collapsed |
| StatementImport.KindIsNamed | backend/app/services/exchange_sync.py:651-659 | each of the six names is stored as the kind of that name, any other name as interest |
| StatementImport.StatementMovesMoney | backend/app/services/exchange_sync.py:631-696 | after fresh, non-opening rows the source's balance in a currency has risen by the amounts less withholding of rows named interest, deposit, transfer_in or unknown, and fallen by those named withdraw, interest_tax or transfer_out; no other balance moves |
| StatementImport.StatementStore.CollapseOpeningBalances | backend/app/services/exchange_sync.py:698-732 | of the source's opening rows only the earliest remains |
| StatementImport.StatementStore.ImportParsedDividends | backend/app/services/exchange_sync.py:545-629 | a dividend is stored unless its id or its (symbol, Korean day) is already there, in the table or earlier in the batch |
| StatementImport.NewDividendIsStored | backend/app/services/exchange_sync.py:567-616 | one report is stored if and only if no row of the source has its id and no row its symbol on the same Korean day |
| StatementImport.DividendMovesMoney | backend/app/services/exchange_sync.py:602-613 | a stored dividend moves exactly its source and currency by gross less withholding, a repeated one nothing |
| StatementImport.RunIsCanonical | backend/app/services/exchange_sync.py:631-732 | after any run the source's rows are the ordinary rows reported and, of the openings, the earliest |
| StatementImport.StatementsConverge | backend/app/services/exchange_sync.py:631-732 | two runs over the same rows, in any order and with any repetition, store the same rows |
| StatementImport.OneOpeningIsLeft | backend/app/services/exchange_sync.py:698-732 | at most one opening is left, and one is whenever any was reported |
| StatementImport.StatementsKeepOthers | backend/app/services/exchange_sync.py:631-732 | cash rows of other sources stay in place and in order |
| StatementImport.StatementsKeepUnique | backend/app/models/cash_account_transaction.py:33-41 | every reachable cash table satisfies the unique constraint |
| StatementImport.ImportsKeepUnique | backend/app/models/dividend.py:33-41 | every reachable dividend table keeps (source, external_id) and (symbol, ex_date) unique and never loses a stored row |
| StatementImport.NoDividendIsLost | backend/app/services/exchange_sync.py:567-616 | every reported dividend is represented by its id or its pair |
| StatementImport.DividendsTwice | backend/app/services/exchange_sync.py:567-616 | importing a statement again changes nothing |
| StatementImport.DividendsConvergeIff | backend/app/services/exchange_sync.py:567-616 | any two runs over the same reported dividends store the same rows if and only if reports sharing an id or a (symbol, day) agree on the row |
| StatementImport.TwoBrokersDoNotConverge | backend/app/services/exchange_sync.py:584-600 | two sources reporting one (symbol, day) never converge |
| StatementImport.FirstBrokerWins | backend/app/services/exchange_sync.py:584-600 | with two such reports the first imported row is the only one stored |

## Left out

- Statement parsers, symbol and name resolvers, price fetchers and the network: their outcomes are parameters (parsed
  records, resolved symbols, the asset an import row belongs to, the exchange's pages and balances).
- `Decimal`'s 28-digit context rounding and the float drift of `npv`; the final rounding of a rate to ten digits.
- The power `x ** (days / 365)`: bisection and Newton work on a given function and derivative, and
  `InternalRate.ReceiptsFall` on any power that is one at day zero and grows with its base on every later day;
  `InternalRate.WholeYearsGrow` shows that repeated multiplication is one.
- Annualisation, standard deviation, volatility and the ratios built on them: transcendental figures with little
  structure.
- SQL, sessions, commits and dialect upserts: tables are sequences; a violated unique constraint rolls a call back.
  Primary keys of reinserted rows change in the database and are not modelled.
- The order of warnings, log records, counters of skipped rows, memo and tag fields, creation timestamps.
- FX lookups are taken at their result: truncation to the hour, warnings about missing rates in the tax report.
- The per-market fallback of the Upbit adapter, malformed order rows without id or timestamp, and the overflow fallback
  of `_q`.
- Symbol names and the symbol rows that a dividend import creates on the side; ISIN and Korean-name resolution.
- `import_trades` and `_import_parsed_trades`: the same deduplication by id as the cash import, without the collapse.
- Buy lots of the holdings rows, tag breakdown, rebalance deltas, the price/FX split, dividend income tax: sums and
  simple algebra.
- The start of the chart, which follows from the chosen period and the clock, is a parameter.
- Korean standard time is a fixed nine hours ahead of UTC.
- Upper-casing covers the twenty-six small letters of ASCII; other characters stay as they are.
- LoginLimiter.Check: two counts taken in one step; a failure recorded between the two queries is not modelled.
- InternalRate.MwrRootIff: for values that fall as the rate rises; for others only the direction stated at
  InternalRate.ComputeMwr is proved.
- InternalRate.Bisect: returns the number of rounds beside the rate, to state the bound on them.
- UpbitAccount.FetchAllClosedOrders: returns the reason it stopped and its cursors beside the trades.
- SyncedHoldings.SyncPinsBothSides: promises nothing for a coin that other sources have rows of, where the code does not
  pin the balance; SyncedHoldings.SyncedCoinHolding says what holds there.
- StatementImport.StatementsConverge: starts from a table without rows of the source; rows already stored count as an
  earlier statement. It compares the stored rows, not their order in the table.
- Routers, authentication tokens, middleware, scheduler, export, migrations and the frontend.
