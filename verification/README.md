# Verification of the trading platform's backtest and paper-trading core

Dafny models of the parts of the platform whose mistakes are hardest to see, with machine-checked proofs of what they
promise over every input, every run or every interleaving. `dafny verify dfyconfig.toml` checks all of it.

**The backtest simulator** (`apps/backtest-engine/src/simulator.ts` and what it stands on)

- `SessionCalendar`, `Aggregation`, `AggregationLaws`, `AggregationTheorems`: exchange sessions as a family of disjoint
  intervals given by open and close functions, and the aggregation of one-minute futures candles into session-aligned
  bars. The bucket-filling loops are proved against `Aggregate`; `Running`, which keeps only the bar still open, is an
  independent reading of it, and the two-stage and volume theorems go through it. `SessionBuckets` and `BarMeaning` say
  what sessions, buckets, completions and bars are with the open and close times and the candles alone.
- `CandleLookup`, `CandleHistory`, `LookAhead`: the binary-search index and its own slow reference, proved equal for
  every query; the exact condition for that (ordered stamps); and that no answer at an instant depends on a candle at
  or after it. `RecentCandles` says which rows a query answers.
- `EventMerge`, `CommonStart`: the k-way merge of the symbols' candles, and that merges of tables that agree before an
  instant start alike.
- `BarExecution`, `TickRules`: the tick grid, rounding, slippage and round trips, and the same told in whole ticks.
- `BacktestModel` describes one candle as a transition of a `Book` (positions, pending orders, fills, equity), with a
  raised error as a `Failure`; `Backtest` is the object whose methods make that transition step by step, each proved to
  leave exactly the book the transition says. The signal engine is an arbitrary sequence of decisions.
  `BacktestLedger` and `BacktestConservation` (conservation), `BacktestOrders` (the life of an order), `BacktestStops`
  and `BacktestGates` (the stop ratchet, gated trails and added fills), `BacktestGrid` (the tick grid, and that nothing
  raises), `BacktestFills` and `BacktestExits` (what prices and profits mean, and where every exit comes from),
  `BacktestEntries`, `BacktestBrackets` and `BacktestProfit` (the other direction: what a candle that reaches an order, a
  stop, a lock, a rung or a target makes of the book, and what every fill earns and pays) and `BacktestDataset`
  (validation, rates, the whole run) are theorems about every run of it.
- `Causality` puts an arbitrary engine with a memory into the loop, answers its questions from the tables, and shows that
  what happens before an instant does not depend on any candle at or after it.

**The research data pipeline**

- `AcquisitionPlan`: request chunks tile the fetch window; the exact condition under which their number is the
  approved estimate.
- `ResearchManifest`, `ResearchCoverage`, `ResearchRows`, `ResearchProjection`: roll manifests partition time, coverage
  counts the active contract's bars, chunk merges are exact, and the projection succeeds exactly when stated.
- `CandleBytes`, `CandleScan`: the streaming scanner against the whole-buffer parser, byte by byte, with the canonical
  fingerprint. UTF-8 well-formedness follows section 4 of RFC 3629; `Utf8Meaning` proves that it accepts exactly the
  encodings that section 3 defines.

**Durable protocols**, each transaction or locked section one atomic step

- `PolicyAuthority` and `EntryBudget`: the policy hand-over and the per-day entry budget, alone and together, with the
  guard the database puts on the attempts table (`infra/sql/migrations/000030_continuous_paper_policy.sql`).
  `PolicyAcceptance` and `BudgetAdmission` give the exact conditions under which requests and orders are let through. The
  supervision of an attempt is a row that any step may overwrite with any status and time; only its terminal proof,
  once stored, stays (`lifecycle/observer-repository.ts:88-90`, `infra/sql/migrations/000022_lifecycle_supervision.sql`).
- `ExperimentClaim`: the one-shot claim of an experiment under session locks, with crashes between any two statements.
- `RateLimiter`: the sliding window and the slots, over all interleavings of callers.
- `DailyLoss`, `Drawdown`: the accounting match and the drawdown pass.

Prices, quantities and money are exact reals; instants are integer milliseconds (whole minutes in the research
modules), dates are day numbers. A thrown error is a `Failure` or `None`.

## What the proofs found

- **Request estimate** (`ibkr-es-acquisition-spec.ts:107-117`): a window that ends within the last minute of a five-day
  step is estimated one request too high. Minute-aligned windows, all the schema lets through, are never affected.
- **Candle lookup** (`simulator.ts:240-249`): the index and the reference disagree for some query as soon as two stamps
  are out of order; nothing but the order of the stored rows protects it.
- **Added stock fills** (`simulator.ts:1132-1147`): a fill added to a position replaces its stop but keeps the trail's
  activated flag, so it can undo the break-even lock. Futures positions cannot be added to.
- **Projection at the last trade** (`research-active-contract-projector.ts:150-151`): the candle parser accepts a bar at
  exactly the last-trade minute, the projection refuses it.
- **Reopened attempts** (`paper-entry-budget.ts:108-113`, `lifecycle/observer-repository.ts:88-90`): only the terminal
  proof is kept for good, not the status beside it, so an attempt that let a version-2 reservation through can be put on
  hold again afterwards, next to the new one. It stays settled exactly when supervision never writes such a status to it.
- **Expired hand-over** (`paper-policy-authority.ts:48-76`): a pending run not adopted by its expiry can be neither
  adopted, cancelled nor replaced, and the entry budget admits nothing from then on. Up to its expiry it always can.
- **Leaked claim lock** (`repository.ts:1099-1121`): an error between taking the lock and inserting the row returns the
  session to the pool with the lock held. Nothing else leaves a lock without a session at work under it.
- **Concurrency after a pacing wait** (`historical-client.ts:356-378`): the slot check is not repeated after the wait, so
  the bound can be exceeded; the pacing limit never is.

## Model

| member | source | states |
|---|---|---|
| `SessionCalendar.Calendar.SessionOwnsInstant` | apps/backtest-engine/src/cme-session-calendar.ts:110-121 | an instant belongs to a session exactly when it lies between that session's open (included) and close (excluded), and then to no other |
| `SessionCalendar.Calendar.TradeDateIsMonotone` | apps/backtest-engine/src/cme-session-calendar.ts:110-121 | the trade date of an instant never goes back as time goes on |
| `SessionCalendar.Calendar.CompletionFollowsInstant` | apps/backtest-engine/src/cme-session-calendar.ts:123-141 | a bucket completes strictly after every instant in it, early closes and holiday weeks included |
| `SessionCalendar.Calendar.CompletedAtIsMonotone` | apps/backtest-engine/src/cme-session-calendar.ts:123-141 | completion never goes back as time goes on, for every timeframe: what makes the lookup stamps ordered |
| `SessionCalendar.Calendar.BucketStartIsRepresentative` | apps/backtest-engine/src/cme-session-calendar.ts:143-153 | the start of a bucket lies in the same session and bucket as the instant, at or before it, and completes when it does |
| `SessionCalendar.Calendar.BucketStartIsMonotone` | apps/backtest-engine/src/cme-session-calendar.ts:143-153 | bucket starts never go back as time goes on |
| `SessionCalendar.Calendar.FiveMinuteStartsRefine` | apps/backtest-engine/src/cme-session-calendar.ts:143-159 | a five-minute bucket never straddles a boundary of a coarser one |
| `SessionBuckets.InSessionIff` | apps/backtest-engine/src/cme-session-calendar.ts:110-121 | an instant is in session exactly when it lies between the open and the close of some covered trading day that has a session |
| `SessionBuckets.CompletionIsTight` | apps/backtest-engine/src/cme-session-calendar.ts:123-141 | completion is tight: every in-session instant of the bucket is before it, and the instant one millisecond before it is in the bucket |
| `SessionBuckets.CompletionIsNearest` | apps/backtest-engine/src/cme-session-calendar.ts:136-141 | an intraday bucket completes 5 minutes or 1, 4 or 12 hours after its start, or at the session's close if that is earlier; a day at its close |
| `SessionBuckets.BucketsStartAtMultiples` | apps/backtest-engine/src/cme-session-calendar.ts:143-153 | an intraday bucket starts a whole number of lengths after the session's open, less than one length before the instant |
| `SessionBuckets.WeekIsToldIff` | apps/backtest-engine/src/cme-session-calendar.ts:123-134 | a week's completion can be told exactly when the week has a trading day with no uncovered day after it |
| `SessionBuckets.LastTradingDayCloses` | apps/backtest-engine/src/cme-session-calendar.ts:123-134 | and is then the close of its last trading day |
| `Aggregation.AggregateCmeFuturesCandles` | apps/backtest-engine/src/cme-session-calendar.ts:178-217 | the bucket-filling loop computes `Aggregate`, fails exactly when it does, and with its error |
| `Aggregation.CompleteBuckets` | apps/backtest-engine/src/cme-session-calendar.ts:197-214 | the second loop turns the filled buckets into bars, withholding weeks beyond the calendar's coverage and failing on any other calendar error |
| `Aggregation.BucketsPartitionCandles` | apps/backtest-engine/src/cme-session-calendar.ts:183-196 | every in-session candle lands in exactly one bucket: the buckets pooled are the candles, as a multiset |
| `AggregationTheorems.AnswerSummarizesBuckets` | apps/backtest-engine/src/cme-session-calendar.ts:197-214 | each bar of the answer is the first open, highest high, lowest low, last close and total volume of one bucket's rows |
| `BarMeaning.BarsAreOfBuckets` | apps/backtest-engine/src/cme-session-calendar.ts:178-217 | every bar stands at the start of the bucket of an in-session candle and gives the first open, highest high, lowest low, last close and total volume of exactly the candles of its symbol, contract and bucket |
| `BarMeaning.CandlesHaveTheirBar` | apps/backtest-engine/src/cme-session-calendar.ts:178-217 | every in-session candle whose bucket's completion can be told has such a bar |
| `BarMeaning.FailsOnlyUncovered` | apps/backtest-engine/src/cme-session-calendar.ts:183-196 | aggregation fails exactly when some candle's trade date is not covered |
| `AggregationTheorems.AggregateIsRunning` | apps/backtest-engine/src/cme-session-calendar.ts:178-217 | on time-ordered candles of one symbol the loop agrees with an independent reading that keeps only the last open bar of each contract |
| `AggregationTheorems.AggregationComposes` | apps/backtest-engine/src/cme-session-calendar.ts:178-217 | aggregating to five minutes and then to any coarser timeframe gives the candles that aggregating directly gives, short sessions included |
| `AggregationTheorems.AggregateConservesVolume` | apps/backtest-engine/src/cme-session-calendar.ts:178-217 | the bars' volume is that of the in-session candles whose bucket's completion the calendar can tell: all of them, except for weeks it does not cover to their end |
| `AggregationTheorems.CoveredNeverFails` | apps/backtest-engine/src/cme-session-calendar.ts:178-217 | aggregation of candles inside the calendar's coverage never fails |
| `AggregationLaws.RunningComposes` | apps/backtest-engine/src/cme-session-calendar.ts:178-217 | for any refining pair of bucketings the running readings compose; the core of the two-stage theorem |
| `CandleLookup.UpperBound` | apps/backtest-engine/src/simulator.ts:229-238 | the binary-search loop; on ordered stamps it returns the number of stamps at most the target |
| `CandleLookup.IndexedTail` | apps/backtest-engine/src/simulator.ts:240-249 | the tail of a series visible through a stamp, for every limit, zero and negative ones sliced as the language slices |
| `CandleLookup.IndexedEqualsFiltered` | apps/backtest-engine/src/simulator.ts:240-249 | on ordered stamps the indexed answer is the filter-then-slice answer, for every target and limit |
| `CandleLookup.LookupsAgreeIffOrdered` | apps/backtest-engine/src/simulator.ts:220-249 | the two lookups agree for every target and limit exactly when the stamps are in order |
| `CandleHistory.BuildIndex` | apps/backtest-engine/src/simulator.ts:365-391 | the index of one table: all rows with their stamps, and per contract the sub-series with its own stamps |
| `CandleHistory.StampsAreOrdered` | apps/backtest-engine/src/simulator.ts:373-387 | the stamps of a time-ordered table are non-decreasing, whichever way they are computed |
| `CandleHistory.History.BuildCandleLookupIndexes` | apps/backtest-engine/src/simulator.ts:348-393 | the constructor's indexes, one per table; fails exactly when a stamp cannot be computed |
| `CandleHistory.History.GetRecentCandles` | apps/backtest-engine/src/simulator.ts:714-776 | the indexed answer equals the reference answer for every symbol, timeframe, position and limit, over ordered tables |
| `RecentCandles.DerivedBarShowsIff` | apps/backtest-engine/src/simulator.ts:377-382 | a derived bar is visible at an instant exactly when no in-session instant of its bucket is at or after it |
| `RecentCandles.HigherQueryAnswersIff` | apps/backtest-engine/src/simulator.ts:735-776 | with a limit that cuts nothing off, a higher-timeframe query answers exactly the current contract's bars that are over: derived ones by their bucket, stored ones a span after they start |
| `RecentCandles.MinuteQueryAnswersIff` | apps/backtest-engine/src/simulator.ts:714-734 | a one-minute query answers exactly the rows up to the symbol's position that are of the current contract |
| `RecentCandles.TailIs` | apps/backtest-engine/src/simulator.ts:240-249 | a positive limit keeps the last so many rows, any other drops the first minus-limit ones |
| `LookAhead.NoLookAhead` | apps/backtest-engine/src/cme-session-calendar.ts:123-153 | two candle histories that agree before an instant show the same aggregated bars at that instant, whatever comes at or after it |
| `LookAhead.AnswersIgnoreTheFuture` | apps/backtest-engine/src/simulator.ts:735-776 | two simulators whose one-minute rows agree before the current time answer alike every query of a timeframe they derive: all of them, or hours, four hours and days in the ordinary mode |
| `LookAhead.VisibleBarsArePast` | apps/backtest-engine/src/cme-session-calendar.ts:123-217 | every row inside a visible bar is strictly earlier than the bar's completion, which is not after the current time |
| `LookAhead.FinishedBarsAreFixed` | apps/backtest-engine/src/cme-session-calendar.ts:178-217 | a completed bar depends only on rows before the instant at which it is complete |
| `EventMerge.PickEarliest` | apps/backtest-engine/src/simulator.ts:454-464 | the earliest head among the tables, the first symbol winning ties, and none exactly when all are exhausted |
| `EventMerge.MergeEvents` | apps/backtest-engine/src/simulator.ts:426-468 | terminates with a permutation of all candles that keeps each symbol's order and cursor, in time order with ties in symbol order exactly when every table is in time order |
| `EventMerge.OrderedEventsComeFromOrderedInputs` | apps/backtest-engine/src/simulator.ts:452-468 | time-ordered events can only come from time-ordered tables |
| `CommonStart.MergesStartAlike` | apps/backtest-engine/src/simulator.ts:426-468 | candle tables that agree before an instant merge into the same events before it, cursors included |
| `Causality.AnswerIsTheSimulators` | apps/backtest-engine/src/simulator.ts:742-776 | the answers the causality theorems are about are the lookup's own |
| `Causality.PlayIsSteps` | apps/backtest-engine/src/simulator.ts:452-585 | a backtest with an engine in the loop is a run of the book's steps under the decisions it took |
| `Causality.BacktestsAreCausal` | apps/backtest-engine/src/simulator.ts:395-608 | two datasets that agree before an instant, merged and played up to it under any engine with a memory of its own, are in the same state: the same book, orders, fills and memory, or the same error |
| `Causality.FillsBeforeAreFixed` | apps/backtest-engine/src/simulator.ts:395-608 | so two whole backtests over them record the same fills up to that instant, and differ only in what they add |
| `BarExecution.NormalizationIsConservative` | apps/backtest-engine/src/bar-execution.ts:36-47 | a normalized price is on the grid, less than a tick away, never more aggressive than asked for, and unchanged if it was on the grid |
| `TickRules.NormalizesTo` | apps/backtest-engine/src/bar-execution.ts:36-47 | the normalized price is the one grid level next to the price: below it for a buy limit or sell stop, above it for the others |
| `TickRules.SlipsBy` | apps/backtest-engine/src/bar-execution.ts:49-59 | slippage moves a price of whole ticks against the trader by the configured number of ticks, and fails for any other price |
| `BarExecution.SlippageIsAdverse` | apps/backtest-engine/src/bar-execution.ts:49-59 | fails exactly off the grid; otherwise moves the price against the trader by the configured ticks and stays on the grid |
| `BarExecution.StopReferenceIsWorst` | apps/backtest-engine/src/bar-execution.ts:61-71 | no better than the stop or the open, and on the grid when the open is |
| `BarExecution.SlippageIsChargedOnce` | apps/backtest-engine/src/bar-execution.ts:73-86 | a round trip with slippage nets exactly the slippage of both sides less than one without |
| `BacktestFills.EntriesFillNoBetter` | apps/backtest-engine/src/simulator.ts:1042-1064 | a limit entry fills no worse than its limit, a stop entry no better than its stop, and slipped futures entries no better than the open |
| `BacktestFills.BracketsAreAsOrdered` | apps/backtest-engine/src/simulator.ts:1124-1177 | a new position's stop and target are the ordered ones, moved outward by less than a tick in futures and not at all in stocks |
| `BacktestFills.LaddersAreSorted` | apps/backtest-engine/src/simulator.ts:1417-1434 | the partial ladder is the ordered levels, permuted into the order the price reaches them |
| `BacktestFills.EqualLevelsKeepOrder` | apps/backtest-engine/src/simulator.ts:1417-1434 | levels at one price keep the order in which they were given |
| `BacktestFills.StopsExitNoBetter` | apps/backtest-engine/src/simulator.ts:1202-1214 | a stop exit closes the whole position no better than its stop, and in futures no better than the open |
| `BacktestFills.ProfitHasItsSign` | apps/backtest-engine/src/simulator.ts:1563-1578 | an exit's gross profit is positive exactly when the price moved the position's way |
| `BacktestFills.FuturesExitsSplit` | apps/backtest-engine/src/simulator.ts:1476-1485 | closing a futures position in two parts at one price nets what closing it at once does |
| `BacktestFills.TrailsFollowTheMark` | apps/backtest-engine/src/simulator.ts:1319-1414 | an armed trail's stop is at least as tight as the trailed price of the best price seen, this candle's included |
| `BacktestExits.FillsAreExplained` | apps/backtest-engine/src/simulator.ts:661-1534 | every fill of every run has its candle: a stop the candle touched, at a price no better than that stop nor in futures than the open; a target or untaken rung the candle reached, at its price and for no more than the rung's share of the position; a waiting order the candle touched, at its fill price; or a roll, at the outgoing contract's last close less slippage, as expired exactly when the last trade has passed |
| `BacktestExits.ClosingFillsAreExplained` | apps/backtest-engine/src/simulator.ts:1659-1684 | the close-out adds only fills of what was still open, whole, at the time and close of its symbol's last candle less slippage |
| `BacktestExits.FinishedFillsAreExplained` | apps/backtest-engine/src/simulator.ts:395-608 | after a whole backtest every fill is one or the other |
| `BacktestBrackets.StopsIff` | apps/backtest-engine/src/simulator.ts:1197-1214 | a held position leaves whole as stopped, at the stop's price, exactly when it has a stop that the candle's own low (long) or high (short) reached; otherwise nothing of it leaves by a stop |
| `BacktestBrackets.BracketsManage` | apps/backtest-engine/src/simulator.ts:1216-1415 | a position not stopped: the 1R and 3R locks move its stop when the candle reaches them, each unspent rung reached takes its share in whole units (or is spent for nothing below one), a reached target takes the rest, and else the trail follows the best price |
| `BacktestEntries.TouchedIff` | apps/backtest-engine/src/simulator.ts:255-267 | a market order is reached by any candle, any other exactly by a candle that trades at its level |
| `BacktestEntries.EntryPriceIff` | apps/backtest-engine/src/simulator.ts:1042-1064 | the price an order fills at: the better of limit and open, the worse of stop and open, the open for a market order, in futures slipped against the trader except for limits |
| `BacktestEntries.FillsAsStated` | apps/backtest-engine/src/simulator.ts:986-1195 | a reached order leaves the pending list and fills: it closes an opposite position, or opens or adds to one with the weighed average, brackets and ladder it states, at that price |
| `BacktestEntries.FillSucceedsIff` | apps/backtest-engine/src/simulator.ts:1042-1195 | a fill raises exactly for a futures order of no whole number of contracts or without a price on the grid, for adding to a held futures position, and without a rate, unless there is nothing to reduce |
| `BacktestEntries.RollsAsStated` | apps/backtest-engine/src/simulator.ts:661-687 | a change of contract takes the whole position at the last candle's close less slippage, as expired exactly when its last trade has passed, and cancels the symbol's orders; no change does nothing |
| `BacktestEntries.EndsAsStated` | apps/backtest-engine/src/simulator.ts:1659-1684 | at the dataset's end a position leaves whole at its last candle's close less slippage, as expired exactly when the data reach its last trade |
| `BacktestEntries.ProposesAsStated` | apps/backtest-engine/src/simulator.ts:512-582 | a decision is stored with its whole time to live unless an order of the symbol waits or it asks for nothing; it raises exactly for an unfit order |
| `BacktestEntries.TotalsAreOf` | apps/backtest-engine/src/simulator.ts:587-607 | the report counts the trades and those with a profit, and the win rate is their share |
| `BacktestProfit.RunsEarnAsStated` | apps/backtest-engine/src/simulator.ts:1436-1628 | in every reachable book each futures fill earned the signed price move times quantity, multiplier and rate and paid one charge for each side of each contract, and each stock fill earned its move and paid at least the minimum charge of both its notionals |
| `BacktestProfit.CloseOutIsHonest` | apps/backtest-engine/src/simulator.ts:1659-1684 | so do the fills of the close-out |
| `BacktestProfit.FinishedPositionsPayBothSides` | apps/backtest-engine/src/bar-execution.ts:73-86 | after a whole backtest the commissions of a futures position's fills are the per-side charge times the contracts put on plus those taken off |
| `BacktestConservation.RunsConserve` | apps/backtest-engine/src/simulator.ts:1042-1684 | at every reachable state equity is the start plus the net profit of all fills, trades match fills one to one, every open position has a size and a side, and its size is what was put on less what was taken off |
| `BacktestConservation.FinishedRunsAddUp` | apps/backtest-engine/src/simulator.ts:587-607 | after a finished run nothing is open, every position's opened quantity equals its fills' quantity, and the reported total, trade and win counts are those of the fills |
| `BacktestConservation.CloseAllBalances` | apps/backtest-engine/src/simulator.ts:1659-1684 | closing out at the dataset's end keeps the books balanced and leaves none of the listed symbols open |
| `BacktestLedger.RecordedBalances` | apps/backtest-engine/src/simulator.ts:1488-1526 | recording one fill keeps equity, trades, and the quantity ledger of every position balanced |
| `BacktestLedger.OpenedBalances` | apps/backtest-engine/src/simulator.ts:1087-1177 | an opening or adding fill keeps the quantity ledger balanced |
| `BacktestOrders.StepDecidesOrders` | apps/backtest-engine/src/simulator.ts:500-582 | one candle gives each pending order exactly its fate (waits, fills, is cancelled by age or roll), changes no settled order, and ages what stays by exactly the candles seen |
| `BacktestOrders.RunsKeepOrders` | apps/backtest-engine/src/simulator.ts:512-582 | in every reachable state at most one order per symbol is pending, the proposed orders are exactly the pending ones, and each has used up exactly the later candles of its symbol |
| `BacktestOrders.FillsComeInTime` | apps/backtest-engine/src/simulator.ts:986-1022 | an order fills only on a later candle of its symbol that touches it, at most its time-to-live-th; one still pending has seen fewer; a cancellation is a roll or the last such candle |
| `BacktestStops.StopsOnlyTighten` | apps/backtest-engine/src/simulator.ts:1197-1415 | from any candle to any later one without an entry fill in between, a long's stop never falls and a short's never rises, and an activated gate that protected the average cost still does, however many fills the position has |
| `BacktestStops.ActivatedTrailsProtect` | apps/backtest-engine/src/simulator.ts:1221-1396 | in every reachable state, a position entered by one fill: its gated trail is active exactly when the best price seen reached its multiple of the initial risk, its stop is then on the winning side of its average cost, and without a trail its stop is the ordered one, break-even or the +1R lock of its strategy |
| `BacktestGates.GatesProtectIff` | apps/backtest-engine/src/simulator.ts:1132-1396 | through a whole run every activated gate protects its position after each candle's fills and at its end, exactly when no order fills into an activated position with a stop on the losing side of the new average cost |
| `BacktestGates.AddingCanLoseTheGate` | apps/backtest-engine/src/simulator.ts:1132-1147 | a run of four candles whose added fill loses the protection: every gate holds before it and one does not after |
| `BacktestGrid.RunsStayOnGrid` | apps/backtest-engine/src/simulator.ts:614-1434 | on validated candles every stored futures price and every futures fill of every reachable state is a whole number of ticks |
| `BacktestGrid.ProcessingIsWell` | apps/backtest-engine/src/simulator.ts:661-1415 | processing a validated candle raises only when a stock is opened in a currency without a rate; in particular slippage never meets an off-grid price |
| `BacktestGrid.RunsRaiseOnlyFor` | apps/backtest-engine/src/simulator.ts:452-585 | a run that raises does so at some candle, for a missing rate at an opening stock fill or for an order the engine may not propose |
| `BacktestGrid.ClosingIsWell` | apps/backtest-engine/src/simulator.ts:1659-1684 | closing out at the dataset's end never raises and fills on the grid |
| `BacktestDataset.FxToBaseForCurrency` | apps/backtest-engine/src/simulator.ts:1957-1975 | the rate loop returns the latest rate not after the date, the first of its date, or one for the base currency |
| `BacktestDataset.RateIs` | apps/backtest-engine/src/simulator.ts:1957-1975 | the rate is one for the base currency or none, else that of the pair's row with the latest date not after the asked one, the first of its date; there is none exactly when the pair has no row so early |
| `BacktestDataset.RatesPersist` | apps/backtest-engine/src/simulator.ts:1953-1975 | a market priced from a rate table has a rate on every instant after one with a rate: what the grid and close-out theorems rely on |
| `BacktestDataset.LaterRatesAreRecent` | apps/backtest-engine/src/simulator.ts:1957-1975 | a later date's rate is at least as recent |
| `BacktestDataset.ValidateFuturesCandles` | apps/backtest-engine/src/simulator.ts:614-659 | accepts a symbol's candles exactly when each fits its contract, session, currency and grid, times strictly increase, and each contract is one uninterrupted block |
| `BacktestDataset.TableIsAcceptedIff` | apps/backtest-engine/src/simulator.ts:614-659 | told on the candles' own fields: contract, session, last trade, currency, rate and four prices of whole ticks, each time after the one before, and no contract that comes back |
| `BacktestDataset.MergedDatasetsAreRunnable` | apps/backtest-engine/src/simulator.ts:401-468 | validated tables, merged, satisfy what the order and grid theorems ask of an event stream |
| `BacktestDataset.CheckedBacktestsFinish` | apps/backtest-engine/src/simulator.ts:395-608 | a backtest over a checked dataset, priced from a rate table, either raises through no fault of the simulator or closes out flat, on the grid, with equity changed by exactly its fills' net profit |
| `Backtest.BacktestSimulator.ClosePosition` | apps/backtest-engine/src/simulator.ts:1536-1628 | the method leaves the book its specification says, or raises its error |
| `Backtest.BacktestSimulator.ClosePartialPosition` | apps/backtest-engine/src/simulator.ts:1436-1534 | a level is spent even when it closes nothing; otherwise a partial fill is booked |
| `Backtest.BacktestSimulator.ProcessContractTransition` | apps/backtest-engine/src/simulator.ts:661-687 | a roll closes the outgoing position at the last candle and cancels the symbol's orders |
| `Backtest.BacktestSimulator.FillPending` | apps/backtest-engine/src/simulator.ts:1042-1195 | reduces, opens, adds or closes against an opposite order |
| `Backtest.BacktestSimulator.ProcessPendingOrders` | apps/backtest-engine/src/simulator.ts:986-1022 | the sweep over pending orders |
| `Backtest.BacktestSimulator.TakeReachedPartials` | apps/backtest-engine/src/simulator.ts:1284-1295 | the ladder loop, stopping when the position is drained |
| `Backtest.BacktestSimulator.ProcessBracketExit` | apps/backtest-engine/src/simulator.ts:1197-1415 | stop, break-even, profit lock, ladder, target and trail, in this order |
| `Backtest.BacktestSimulator.ProposeOrder` | apps/backtest-engine/src/simulator.ts:512-582 | stores an accepted order, or raises the fault of a futures order |
| `Backtest.BacktestSimulator.CloseOpenPositionsAtDatasetEnd` | apps/backtest-engine/src/simulator.ts:1659-1684 | closes what is left |
| `Backtest.BacktestSimulator.Run` | apps/backtest-engine/src/simulator.ts:395-608 | the event loop, the close-out and the report compute exactly `Steps`, `CloseAll` and `TotalsOf` |
| `AcquisitionPlan.PlanAcquisitionChunks` | apps/backtest-engine/src/ibkr-es-acquirer.ts:194-219 | chunks inside the window, newest first, all but the last a full five days and each asking for the least days that cover it, every minute of the window in exactly one, their number in closed form |
| `AcquisitionPlan.EstimateMatchesPlanIff` | apps/backtest-engine/src/ibkr-es-acquisition-spec.ts:107-117 | the estimate equals the planned count exactly when the window does not end within the last minute of a five-day step (and, for reversed windows, exactly when the shortfall is under a step) |
| `AcquisitionPlan.EstimateCanMiss` | apps/backtest-engine/src/ibkr-es-acquisition-spec.ts:107-117 | a window one millisecond short of five days: one chunk planned, two estimated |
| `AcquisitionPlan.SpecifiedPlansMatch` | apps/backtest-engine/src/ibkr-es-acquirer.ts:364-366 | for minute-aligned windows in order, over all contracts, the plan and the approved number agree, so the check never fails |
| `ResearchManifest.AssertManifestSemantics` | apps/backtest-engine/src/research-dataset-schema.ts:106-154 | accepts a manifest exactly when its roll policy lists every declared contract once and chains their ranges over the whole period |
| `ResearchManifest.RangesPartitionTime` | apps/backtest-engine/src/research-dataset-schema.ts:135-153 | every minute of an accepted manifest lies in exactly one contract's range |
| `ResearchManifest.HoldsIff` | apps/backtest-engine/src/research-dataset-schema.ts:106-154 | accepted are exactly the manifests inside the calendar whose contracts have ids and symbols of their own, are listed by range, share every minute of the period out among them, end by their last trade and expiry, and roll the minute after their range |
| `ResearchCoverage.AssertCoverage` | apps/backtest-engine/src/ibkr-es-acquirer.ts:303-345 | the forward-only pointer counts at every open minute the bars of the contract that owns it; accepts exactly when every session has a bar, 99.9% of open minutes do, and no run of missing ones exceeds five |
| `ResearchCoverage.CoveredIff` | apps/backtest-engine/src/ibkr-es-acquirer.ts:335-345 | told on the sets of open minutes and of those with a bar of the contract in range: every session with an open minute has one with a bar, there is an open minute, at least 999 of 1000 have one, and at most five in a row are without |
| `ResearchCoverage.PointerIsOwner` | apps/backtest-engine/src/ibkr-es-acquirer.ts:321-323 | the pointer, advanced only past finished ranges, sits on the minute's own contract |
| `ResearchCoverage.LongestRunIsLongest` | apps/backtest-engine/src/ibkr-es-acquirer.ts:330-333 | the counted maximum is the length of the longest run of missing open minutes |
| `ResearchRows.MergeExactResearchRows` | apps/backtest-engine/src/ibkr-es-acquirer.ts:177-187 | fails exactly on conflicting duplicates; otherwise each distinct row once, by time and contract |
| `ResearchRows.MergingTwiceMergesOnce` | apps/backtest-engine/src/ibkr-es-acquirer.ts:402-421 | merging chunk by chunk and then everything gives the same rows and the same failures as merging once |
| `ResearchProjection.ProjectActiveContracts` | apps/backtest-engine/src/research-active-contract-projector.ts:126-191 | the loop accepts exactly rows with strictly increasing times whose contracts come in registered blocks, each opening at its registered start, all of them present |
| `ResearchProjection.ProjectsIff` | apps/backtest-engine/src/research-active-contract-projector.ts:130-191 | for an accepted manifest in roll order the projection succeeds exactly when every contract has a bar at its first minute and none at its last trade, and every bar its open and close between low and high |
| `ResearchProjection.LastTradeBarBlocks` | apps/backtest-engine/src/research-active-contract-projector.ts:150-151 | an accepted one-contract dataset with a bar at the last trade that the projection refuses, and accepts without that bar |
| `ResearchProjection.OneRowAMinute` | apps/backtest-engine/src/research-active-contract-projector.ts:130-147 | the projected series has one row a minute and its contracts never go back |
| `ResearchProjection.MeasureGaps` | apps/backtest-engine/src/research-active-contract-projector.ts:197-218 | counts open and missing minutes; the maximum gap is the longest run of missing open minutes |
| `ResearchProjection.GapsAgree` | apps/backtest-engine/src/research-active-contract-projector.ts:205-218 | the projection's maximum gap is the one the acquirer's coverage check measures |
| `CandleBytes.Utf8SplitsAtLf` | apps/backtest-engine/src/research-dataset-schema.ts:174-176 | bytes around a line feed are well-formed UTF-8 exactly when both sides are |
| `CandleBytes.Utf8IsPerLine` | apps/backtest-engine/src/research-dataset-importer.ts:86-88 | a file is well-formed exactly when each of its lines and its unfinished last line are |
| `Utf8Meaning.Utf8Iff` | apps/backtest-engine/src/research-dataset-schema.ts:174-176 | the byte checks accept exactly the encodings of sequences of Unicode scalar values |
| `CandleScan.ParseResearchCandles` | apps/backtest-engine/src/research-dataset-schema.ts:165-187 | the whole-buffer parser computes `WholeParse` |
| `CandleScan.FileReadsAs` | apps/backtest-engine/src/research-dataset-schema.ts:165-235 | the parser gives these candles exactly for a non-empty file of lines ended by line feeds, well-formed, without a byte order mark or carriage return, each of which decodes to its candle, fits, and comes after the one before by time and then contract |
| `CandleScan.ResearchCandleSequenceValidator.ParseLine` | apps/backtest-engine/src/research-dataset-schema.ts:204-235 | accepts a decodable, fitting line that follows the previous candle, and remembers it |
| `CandleScan.ScanCandleFile` | apps/backtest-engine/src/research-dataset-importer.ts:60-110 | accepts exactly the chunked files `Scans` describes, delivers all candles in order in batches of 500, and fingerprints the canonical bytes |
| `CandleScan.ScanRefinesParse` | apps/backtest-engine/src/research-dataset-importer.ts:60-110 | for every split into chunks: the scan accepts exactly what the parser accepts with a matching checksum, a last chunk that is not empty and no chunk ending more than 64 KiB into a line, with the same candles |
| `CandleScan.StreamsReadAlike` | apps/backtest-engine/src/research-dataset-importer.ts:60-110 | for every split into non-empty chunks and lines of at most 64 KiB: the scan accepts exactly what the parser accepts with a matching checksum, and reads the same candles |
| `CandleScan.ShortLinesCarry` | apps/backtest-engine/src/research-dataset-importer.ts:100-101 | lines of at most 64 KiB can be cut anywhere |
| `CandleScan.ResearchDatasetFingerprintBuilder.UpdateCandle` | apps/backtest-engine/src/research-dataset-fingerprint.ts:23-26 | hashes one more record, and refuses after the digest |
| `CandleScan.AbsorbedIsCanonical` | apps/backtest-engine/src/research-dataset-fingerprint.ts:10-33 | what the builder hashes is the canonical byte string |
| `CandleScan.FingerprintIgnoresContractOrder` | apps/backtest-engine/src/research-dataset-fingerprint.ts:89-103 | the canonical bytes do not depend on the order of the contracts |
| `PolicyAuthority.PaperPolicyAuthority.Change` | apps/execution-engine/src/paper-policy-authority.ts:29-100 | schedule, cancel, adopt and replay as one transaction; a refused request changes nothing |
| `PolicyAuthority.EveryRunIsConsistent` | apps/execution-engine/src/paper-policy-authority.ts:29-100 | in every run an account's events are numbered without gaps, its revision counts them, its authority is the last event's, pending dates are in order, request ids are unique, and the active run changes only by adopting the pending one |
| `PolicyAcceptance.AcceptedIff` | apps/execution-engine/src/paper-policy-authority.ts:29-100 | a new request is accepted, and makes exactly the described authority, if and only if the account is paused, the revision is the expected one, and: to schedule, nothing is pending, the evidence is ready, the configured policy is the one registered run asked for, the run named as prior is the active one (a version-1 supervised run if there is no authority yet), and its first day is after today for versions 1 and 2 or today inside its dates for version 3; to cancel, the pending run is not due; to adopt, the pending run's registered hash is asked for inside its dates, it is the configured one, and the evidence is ready |
| `PolicyAcceptance.LoggedEventsWereAccepted` | apps/execution-engine/src/paper-policy-authority.ts:29-100 | in every run each logged event met these conditions when it was asked for: paused, and ready for a schedule or adoption |
| `PolicyAuthority.ReplayChangesNothing` | apps/execution-engine/src/paper-policy-authority.ts:35-40 | a logged request sent again gets its old revision and changes nothing; anything else under its id is refused |
| `PolicyAuthority.ActiveChangesByAdoptionOnly` | apps/execution-engine/src/paper-policy-authority.ts:45-76 | an existing authority's active run changes only by adopting the pending run inside its dates; a first authority starts from a version-1 supervised run |
| `PolicyAuthority.DueUntilAdopted` | apps/execution-engine/src/paper-policy-authority.ts:64-76 | from its effective day a pending run cannot be cancelled or displaced; only a timely adoption changes the authority |
| `PolicyAuthority.ExpiredPendingFreezes` | apps/execution-engine/src/paper-policy-authority.ts:48-76 | a pending run not adopted by its expiry freezes the account: no later run of requests changes its authority |
| `PolicyAuthority.FrozenIffExpired` | apps/execution-engine/src/paper-policy-authority.ts:64-76 | a registered pending run freezes its account from a day on exactly when that day is after its expiry; until then it can be cancelled or adopted |
| `PolicyAuthority.ScheduledOnceFreezes` | apps/execution-engine/src/paper-policy-authority.ts:48-76 | a hand-over scheduled for one day: the account can still move on that day and is frozen from the next |
| `EntryBudget.PaperEntryBudget.ReservePaperEntryAttempt` | apps/execution-engine/src/paper-entry-budget.ts:129-140 | a reservation stores one attempt exactly when the check and then the table's guard admit it and its proposal has none, and otherwise nothing |
| `EntryBudget.AdmittedIsClear` | apps/execution-engine/src/paper-entry-budget.ts:57-116 | an admitted order is inside its window, with an end no later than the window's, nothing used up stands in its way, and no active attempt does |
| `BudgetAdmission.CheckAdmitsIff` | apps/execution-engine/src/paper-entry-budget.ts:57-116 | the check succeeds, with this end and window, exactly when: the account is adopted and not held; its active run and hash are the policy's with no hand-over due and today inside the version's dates; the stored run and binding are the policy's and the window's; the margin is 15 to 60; both readings are inside the window and before the session guard's end (versions 1 and 2) or the recurring session's end of entries (version 3); and nothing used up or active is in the way |
| `BudgetAdmission.ReservedIff` | apps/execution-engine/src/paper-entry-budget.ts:129-140 | a reservation stores its row, and only that, exactly when the check admits the proposal, the guard its row, and the proposal has none yet |
| `EntryBudget.DispatchNeedsItsClaim` | apps/execution-engine/src/paper-entry-budget.ts:103-113 | dispatching needs the order's own stored claim of the same days and run, with no other attempt in the way |
| `EntryBudget.InsertKeeps` | apps/execution-engine/src/paper-entry-budget.ts:136-138 | even when local midnight falls between check and insert, the stored attempt keeps to the day's budget |
| `EntryBudget.BudgetsAreKept` | apps/execution-engine/src/paper-entry-budget.ts:93-140 | in every run of reservations, policy requests, supervision and table changes, under clocks that run on and the account lock, every stored attempt keeps to the budget of the policy it was reserved under; shown from the check alone |
| `EntryBudget.GuardedBudgetsAreKept` | infra/sql/migrations/000030_continuous_paper_policy.sql:116-142 | shown from the guard alone: with it in place no run leaves the budget, whatever the check answers, even if clocks go back or accounts are not locked |
| `EntryBudget.GuardKeeps` | infra/sql/migrations/000030_continuous_paper_policy.sql:97-142 | a row the guard lets in keeps to the day's budget, shares no day with another on its contract, and leaves none without terminal proof in its way |
| `BudgetAdmission.GuardAdmitsIff` | infra/sql/migrations/000030_continuous_paper_policy.sql:97-142 | the guard lets a row in exactly when it is bound to its own run and window and within a second of the guard's clock, its policy is in force that day, and it is within the cap, unindebted and with no active attempt in its way |
| `EntryBudget.AtMostADay` | apps/execution-engine/src/paper-entry-budget.ts:99-107 | after any run the attempts of an account on any day that were reserved under versions 1 and 2 are at most the policies' maximum, whatever else is stored that day |
| `EntryBudget.OneAContractADay` | apps/execution-engine/src/paper-entry-budget.ts:98-107 | after any run two attempts on one contract share neither account day nor session day when the later was reserved under version 1 or 2 |
| `EntryBudget.OneUnproven` | apps/execution-engine/src/paper-entry-budget.ts:108-114 | after any run, whatever was stored before a version-2 attempt of the account, or before a version-3 attempt on its contract, has a terminal proof: at most one attempt is without |
| `EntryBudget.SettledThroughoutIff` | apps/execution-engine/src/paper-entry-budget.ts:108-114 | what let a version-2 or version-3 attempt through stays settled at every point of a run exactly when supervision never writes another status than flat or terminally unfilled to it |
| `EntryBudget.ProvenCanBeOnHold` | apps/execution-engine/src/paper-entry-budget.ts:108-114 | a run after which a version-2 account has two attempts without a settled status, because a proven one was put on hold again |
| `EntryBudget.DueAdmitsNothing` | apps/execution-engine/src/paper-entry-budget.ts:75-79 | the check turns the account away, whatever the policy and the order, once its first reading falls on or after the effective day |
| `EntryBudget.NothingIsAdmittedUntilAdopted` | apps/execution-engine/src/paper-entry-budget.ts:75-79 | once a pending run's effective day has come, no run of steps without a timely request to adopt it stores another attempt or changes the authority; a reservation begun before that day and stamped on it is turned away by the guard |
| `ExperimentClaim.BacktestRepository.ClaimResearchExperiment` | apps/backtest-engine/src/repository.ts:1091-1122 | run on its own, succeeds exactly when the experiment is new and its lock free; refuses a second claim of one repository |
| `ExperimentClaim.BacktestRepository.RecoverAbandonedResearchExperiment` | apps/backtest-engine/src/repository.ts:1124-1184 | run on its own, recovers exactly a running experiment whose lock is free |
| `ExperimentClaim.BacktestRepository.SaveResearchExperimentArtifact` | apps/backtest-engine/src/repository.ts:1054-1068 | stores the result exactly when the experiment is running |
| `ExperimentClaim.BacktestRepository.Close` | apps/backtest-engine/src/repository.ts:173-183 | releases the claim's lock, if there is one |
| `ExperimentClaim.EveryRunIsSafe` | apps/backtest-engine/src/repository.ts:1091-1184 | over all interleavings at most one claim of an experiment succeeds, working sessions hold their locks, and a result is written at most once |
| `ExperimentClaim.RowsOnlyAdvance` | apps/backtest-engine/src/repository.ts:1054-1068 | rows only go from running to finished and a finished row never changes |
| `ExperimentClaim.TryLockTakesIff` | apps/backtest-engine/src/repository.ts:1099-1140 | an idle session gets an experiment's lock, for a claim or a recovery, exactly when no other session holds it |
| `ExperimentClaim.StepsStore` | apps/backtest-engine/src/repository.ts:1054-1170 | what each step stores: a claim its request, running and without a result; a save or a recovery of a running experiment its result; no other step anything |
| `ExperimentClaim.ResultsWereWritten` | apps/backtest-engine/src/repository.ts:1054-1170 | in every run a stored result is the one saved for that experiment or written by a recovery of it |
| `ExperimentClaim.FinishersAreEntitled` | apps/backtest-engine/src/repository.ts:1141-1170 | a row is finished only by a save, or by a recovery while no live session owns the experiment |
| `ExperimentClaim.FailedClaimsKeepTheLock` | apps/backtest-engine/src/repository.ts:1099-1121 | a claim that fails between lock and insert hands its session back with the lock held: after any further steps without that session's death nobody else can claim or recover, and its death frees the lock |
| `ExperimentClaim.TightThroughoutIff` | apps/backtest-engine/src/repository.ts:1091-1184 | at every point of a run each held lock is held once by a session at work under it, exactly when no claim of the run fails between lock and insert |
| `ExperimentClaim.ClaimCanLeak` | apps/backtest-engine/src/repository.ts:1099-1121 | two steps that leave an idle session holding the lock of an experiment that is not stored |
| `Drawdown.MaxDrawdown` | apps/backtest-engine/src/repository.ts:971-978 | the one-pass loop finds the deepest fall between any two points of the cumulative curve, its start included |
| `Drawdown.DrawdownIsUnique` | apps/backtest-engine/src/repository.ts:971-978 | no other number is the drawdown |
| `Drawdown.DrawdownIsWorstRun` | apps/backtest-engine/src/repository.ts:971-978 | it is the worst profit of any stretch of consecutive fills, the empty one included |
| `RateLimiter.HistoricalRateLimiter.AcquireRateLimit` | apps/backtest-engine/src/historical-client.ts:355-379 | a call up to its first await is the `Arrive` step of the state machine |
| `RateLimiter.HistoricalRateLimiter.Resume` | apps/backtest-engine/src/historical-client.ts:356-358 | a woken waiter checks for a slot again: the `Resume` step |
| `RateLimiter.HistoricalRateLimiter.Awake` | apps/backtest-engine/src/historical-client.ts:360-378 | after its sleep a caller repeats the pacing loop only: the `Awake` step |
| `RateLimiter.HistoricalRateLimiter.TryGrant` | apps/backtest-engine/src/historical-client.ts:360-378 | one turn of the pacing loop: drops what left the window, grants exactly below the limit |
| `RateLimiter.HistoricalRateLimiter.TakeSlotOrWait` | apps/backtest-engine/src/historical-client.ts:356-358 | takes a free slot or queues up |
| `RateLimiter.HistoricalRateLimiter.ReleaseRateLimit` | apps/backtest-engine/src/historical-client.ts:381-385 | frees a slot and wakes the first waiter: the `Release` step |
| `RateLimiter.PacingIsSafe` | apps/backtest-engine/src/historical-client.ts:355-379 | under a clock that does not go back, no closed ten-minute window ever holds more grants than the limit, however callers interleave |
| `RateLimiter.EveryCallerIsCounted` | apps/backtest-engine/src/historical-client.ts:355-385 | the in-flight count is the number of callers between acquire and release, so the clamp at zero never acts |
| `RateLimiter.GrantedIff` | apps/backtest-engine/src/historical-client.ts:355-379 | in every run an arriving caller queues up without a free slot, and with one is granted exactly when fewer than the limit were granted in the last ten minutes, else sleeps |
| `RateLimiter.ReleaseWakesTheFirst` | apps/backtest-engine/src/historical-client.ts:381-385 | a release frees one slot and wakes the one that has waited longest, and nobody else |
| `RateLimiter.BoundFailsIff` | apps/backtest-engine/src/historical-client.ts:356-378 | a step exceeds the concurrency bound exactly when it grants a caller that slept for its pacing while no slot is free |
| `RateLimiter.BoundHolds` | apps/backtest-engine/src/historical-client.ts:356-378 | the bound holds in every run without such a grant |
| `RateLimiter.BoundHoldsThroughoutIff` | apps/backtest-engine/src/historical-client.ts:356-378 | at every point of a run the bound holds exactly when no step of it is such a grant |
| `RateLimiter.BoundHoldsWithoutPacing` | apps/backtest-engine/src/historical-client.ts:356-378 | in particular in every run in which no caller sleeps for its pacing |
| `RateLimiter.BoundCanFail` | apps/backtest-engine/src/historical-client.ts:356-378 | a run with one slot and one grant a window that ends with two requests in flight |
| `DailyLoss.BuildPaperDailyLoss` | apps/execution-engine/src/paper-daily-loss.ts:78-102 | succeeds exactly when fills and the day's executions account for each other and the sums are finite, and reports the summed weights per currency |
| `DailyLoss.IndexExecutions` | apps/execution-engine/src/paper-daily-loss.ts:78-86 | the day's executions by id, failing exactly on an invalid or repeated one |
| `DailyLoss.FillsAndExecutionsPairUp` | apps/execution-engine/src/paper-daily-loss.ts:87-98 | on success every execution of the day has exactly one agreeing fill |
| `DailyLoss.DebitBoundsTheLoss` | apps/execution-engine/src/paper-daily-loss.ts:99-100 | a debit is never negative and at least commission less realized profit |
| `DailyLoss.DebitIsLossesAndFees` | apps/execution-engine/src/paper-daily-loss.ts:99-100 | a currency's debit is the sum of its fills' losses and positive commissions: gains and rebates count nothing |
| `DailyLoss.AgreesFieldByField` | apps/execution-engine/src/paper-daily-loss.ts:87-98 | a fill accounts for an execution exactly when account, id and every traded field are equal and acceptable, the commission is in the trade's currency and all amounts are finite |
| `DailyLoss.TotalIgnoresOrder` | apps/execution-engine/src/paper-daily-loss.ts:90-102 | the debits do not depend on the order of the fills |
| `DailyLoss.SuccessIgnoresOrder` | apps/execution-engine/src/paper-daily-loss.ts:87-102 | nor does success, although finiteness is checked after every fill |
| `DailyLoss.PaperAccountDayStart` | apps/execution-engine/src/paper-daily-loss.ts:27-36 | the start found is an instant of the day whose predecessor is not, and fails exactly when neither offset gives one |
| `DailyLoss.DayStartIsFirst` | apps/execution-engine/src/paper-daily-loss.ts:27-36 | that start is the first instant of the account day |

## Left out

- Contract ids are natural numbers and instrument symbols are taken to be upper-case already; trimming and case folding of strings are not modelled.
- Floating point: prices, quantities and money are exact, so `toFixed`, decimal scaling and rounding noise do not appear; the completeness ratio is compared as integers.
- Time zones: session opens and closes and local dates are functions of the instant, with the order they need stated as an assumption (`Calendar.Valid`, `EntryBudget.Monotone`); the search for a wall-clock time in `chicagoWallToUtc` is not modelled.
- The signal engine, strategy runtime states and cool-downs, diagnostics, exposure snapshots, percentage profits, confidence and regime labels, the audit columns of futures fills and progress reports: none of them feeds back into positions, orders, fills or equity except through the engine's decisions, which are arbitrary.
- Positions are values in a map, not shared objects; the source never keeps a second reference to one across a change.
- Backtest.BacktestSimulator.CloseOpenPositionsAtDatasetEnd: takes the order of symbols as an argument, because a map has no insertion order; the theorems hold for every order.
- Backtest.BacktestSimulator.Run: takes the merged events and the engine's decisions as arguments; that the merge supplies such events is `BacktestDataset.MergedDatasetsAreRunnable`. The latest candle of a symbol stands for the row at its cursor, which the merge theorem identifies with it.
- The two branches for a registered contract without a specification, and for a futures candle without a contract id, raise in the source; here a contract's specification is looked up as one optional value, and validation rejects both before a run.
- BacktestDataset.ValidateFuturesCandles: contract identity, session and currency are given as tables; only the loop's own checks are spelled out.
- SQL, pools, transactions and triggers: each transaction or locked section is one atomic step over maps and sequences. Of the triggers only the guard on the attempts table is modelled; those that repeat the hand-over's checks and keep rows from being changed are not, nor are the foreign keys.
- EntryBudget.AdmittedIsClear: what the session guard answers, and the session evidence behind a recurring window, are inputs; the active-attempt query's own reading of the clock is taken to be the check's second one.
- EntryBudget.GuardKeeps: the guard reads the clock once, a stored run's manifest is the policy the check compared it with, and a recurring manifest is taken to be a valid one.
- EntryBudget.BudgetsAreKept: how the observer arrives at a status or a proof is not modelled; any sequence of them is allowed.
- PolicyAuthority.PaperPolicyAuthority.Change: the pause and readiness checks are two booleans that hold or not through to the commit; the wall clock is read once.
- ExperimentClaim.BacktestRepository.RecoverAbandonedResearchExperiment: the failing of scenario runs that goes with a recovery is not modelled.
- RateLimiter.PacingIsSafe: a sleeping caller may wake at any time, which covers every sleep length; waiting for the session before acquiring is not modelled.
- DailyLoss.BuildPaperDailyLoss: the freshness and coverage checks before the match, and the fingerprint after it, are not modelled; execution ids are strings on both sides.
- CandleScan.ScanCandleFile: decoding one canonical line and the manifest's and calendar's demands on a candle alone are arbitrary functions; the hash is an arbitrary function of the bytes; batches are always delivered. The chunks come from a file stream, which emits no empty ones (`CandleScan.StreamsReadAlike`); for arbitrary chunks an empty last one would hide the file's last byte.
- ResearchProjection.ProjectsIff: the manifest's contracts are taken to be listed in roll order, which the loop itself insists on.
- `deriveVolumeRollContracts`: when a contract's volume overtakes its predecessor's is not modelled; the roll dates it writes are inputs, which the manifest, coverage and projection theorems take as they come.
- The tables of stored aggregates for higher timeframes, strategy workers, HTTP surfaces, broker sockets and notifications: they carry data in and out of the state modelled here and decide nothing about it.
