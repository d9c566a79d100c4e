# Verified model of the trading platform's core

A Dafny 4.11 model of the parts of the platform whose promises hold over whole runs: the
bar store, the backtest and its search, the job queue's supervisor, the order retry
protocol, the reference-data cache, and the schedule arithmetic beneath them. Times and
periods are integers (milliseconds; microseconds in the period parser), prices are exact
reals, NaN is an absent value, and the square root is a parameter.

| file | what it models |
|---|---|
| `Intervals.dfy`, `PeriodText.dfy`, `PeriodPattern.dfy` | bar boundaries, apply slots, and the parser of `str(timedelta)` with the texts it takes |
| `Fetcher.dfy` | paging bars from an exchange |
| `BarStore.dfy` | PRICE_BAR and `PriceBarService`: gaps, inserts, refresh, backfill, windows |
| `BarRace.dfy`, `CrashSafety.dfy`, `RaceSafety.dfy`, `BackfillPlan.dfy` | the same over whole runs: racing workers, interrupted refreshes, both at once, planned backfills |
| `Columns.dfy`, `Indicators.dfy`, `Signals.dfy` | columns with gaps, indicators, positions, conviction, conjunctions |
| `Statistics.dfy`, `Readings.dfy` | sums and spreads that name no engine function, and what every indicator's reading is in their terms |
| `FactorFrames.dfy`, `Performance.dfy` | which series a strategy reads, and the full engine, class `Backtest` |
| `EngineMeaning.dfy` | what the engine's factors, positions, returns and Sharpe ratio are, without the functions that compute them |
| `NoLookAhead.dfy`, `Acceptance.dfy`, `LiveWindow.dfy`, `LiveConflict.dfy`, `Equity.dfy` | what the engine's numbers, and its accepting a run at all, depend on and mean |
| `Objective.dfy`, `Optimizer.dfy` | the search's cached objective and the search |
| `QueueWorld.dfy`, `RunOrder.dfy`, `Worker.dfy`, `LoopSteps.dfy`, `WorkerLoop.dfy` | the queue and its environment, the claim order, the child process, what one step of the supervisor may do, the supervisor |
| `OrderRetry.dfy` | order decisions and the bounded retry loop against a broker |
| `RefDataCache.dfy` | the version-stamped reader cache and the publisher |
| `Outcomes.dfy` | optional values and error returns |

`dafny verify dfyconfig.toml` checks the whole project.

## How concurrency is modelled

- Bar store: a run is a sequence of states; each step is one database access or venue
  request of one worker, in any order, and a worker may die between two inserts.
- Worker loop: before each database read or write, and while it waits for a child, the
  class lets any number of environment events happen (jobs enqueued, API cancels, a child
  writing its row or exiting, time passing). `Inv` is kept by each event and by each step
  of the loop, at every point in between.
- Order retry: the broker fills any amount of an order, may leave any amount on its book,
  answers as it likes or raises, and fills on while an order is being cancelled.
- Cache: before each Redis command any batch of other publishers' transactions may commit,
  and any command may fail.

## What turned out not to hold

- `ensure_fresh` is documented to leave the newest `lookback` bars stored
  (quant/market_data/service.py:149). Its gate looks at the newest stored bar only. On a
  series with no hole between its oldest and its newest bar, an early return is right
  exactly when the oldest stored bar is no newer than the window's start:
  `CrashSafety.GateIsRightExactly`. It is wrong after a first fill with a shorter lookback
  (`CrashSafety.GateTrustsShorterLookbacksOnly`) and after a backfill of the newest bar
  alone (`CrashSafety.NarrowBackfillPassesGate`).
- A backfill toward a target off the period grid never completes
  (quant/market_data/service.py:349-399): `BackfillPlan.CompletesIffOnGrid`. Its last plan
  is the only one `backfill` refuses: `BackfillPlan.RefusedExactly`.
- The multi-factor objective evaluates configurations that the full engine refuses: a
  traded product without a "factor" column, or fewer window ranges than substrategies
  (quant/strategy/objective.py:109-131). `Objective.MultiFactorObjective.Call` says exactly
  when the two agree. A search of several factors given one range alone fails before it
  begins, for want of the axis that a single factor's space has
  (quant/strategy/optimizer.py:148-155): `Optimizer.Run`.
- An ended row can be overwritten in two ways, because neither step reads the row again
  before it writes (quant/queue/worker_loop.py:221-302). The timeout step writes FAILED over
  a row whose process is still exiting past its deadline, exactly when the job is active,
  its process alive and its time up: `WorkerLoop.TimeoutCanReplaceCompleted`,
  `WorkerLoop.Loop.EnforceTimeouts`. The cancel step writes CANCELLED over every row that it
  listed as CANCEL_REQUESTED, and in the world of that write the row has ended exactly when
  its child wrote it after the listing: `WorkerLoop.CancelCanReplaceCompleted`,
  `WorkerLoop.Loop.EnforceCancels`.
- A worker's exit code 1 is documented as a crash before its FAILED row could be written,
  and 2 as covering a configuration that does not validate (quant/queue/worker.py:23-26).
  The row is there all the same exactly when announcing it is what failed, and such a
  configuration exits with 1: `Worker.BacktestWorker.Execute`.
- That a run is accepted says nothing of the same run a bar later: the coverage rule counts
  every date (quant/strategy/performance.py:186-198). `Acceptance.LaterBarRefusesTheRun`
  shows it, and `Acceptance.AcceptanceAgreesExactly` says when two histories agree; where
  every factor is the traded product's own they always do.
- With several factors a live run can trade against its backtest, however many bars it
  loads, because conviction ranks a reading among all earlier ones
  (quant/strategy/signals.py:100-128): `LiveConflict.ConflictCanDiffer` is a run of the
  engine on the frames the bar store serves, for every number of bars and every conjunction.
  It takes a conflict, and `LiveWindow.RanksMatterExactly` says which.
- OR without strengths is the one combination that does not treat long and short alike
  (quant/strategy/signals.py:163-176): `Signals.LongAndShortAlike`.
- A publisher that commits while another is between its scan and its transaction can leave
  an extra table behind (quant/refdata/publisher.py:87-97):
  `RefDataCache.SecondPublisherLeavesATable`. `RefDataCache.RefDataPublisher.Publish` says
  exactly when: some commit in between leaves a table that is not one of its own and that
  its scan did not return.

## Model

| member | source | states |
|---|---|---|
| Intervals.FloorIsGreatestBoundary | quant/shared/intervals.py:59-67 | the floor of an instant is the greatest boundary at or before it |
| Intervals.LastClosedBarIsNewest | quant/shared/intervals.py:70-76 | the last closed bar opens on a boundary, has closed by now, and the next has not |
| Intervals.BarStarts | quant/shared/intervals.py:138-149 | the loop returns the boundaries of the range |
| Intervals.BoundariesExact | quant/shared/intervals.py:138-149 | those are exactly the boundaries in the range, ascending, once each |
| Intervals.NextApplySlotIsLeast | quant/shared/intervals.py:89-106 | the next slot is the least `k*period - offset` strictly after the input, and iterating steps by one period; otherwise the error the source raises |
| Intervals.NextSessionApplySlot | quant/shared/intervals.py:109-135 | the least weekday close less the offset strictly after the input; never an error for offsets under a day |
| PeriodText.PeriodRoundTrip | quant/shared/intervals.py:20-56 | parsing the text of a positive timedelta gives it back, days, plural and microseconds included; a non-positive one is rejected |
| PeriodPattern.PatternExact | quant/shared/intervals.py:20-56 | a text is taken for a period iff it is made of the pattern's pieces (blanks, days, hours, fields of one or two digits, a fraction of which six digits count) and they add up to more than nothing; unrecognised iff it is not; no text has two readings |
| Fetcher.FetchBars | quant/market_data/fetcher.py:178-240 | terminates on any replies, returns nothing outside the range, and, when pages are honest, exactly the venue's bars in the range; fails exactly when a page it asks for does, and the pages are asked for from `since` on, each from a period after the last, until none is left |
| Fetcher.InRangeExact | quant/market_data/fetcher.py:178-240 | what is returned from an honest venue is ascending, without repeats, and every bar in range |
| BarStore.GapsExact | quant/market_data/service.py:460-488 | a gap is exactly a boundary in range without a row, ascending |
| BarStore.PriceBarRepo.GetCoverage | quant/market_data/repo.py:23-43 | the oldest and newest stored bar of a series, or none |
| BarStore.PriceBarRepo.GetBars | quant/market_data/repo.py:45-69 | the stored rows in range, oldest first, each once |
| BarStore.PriceBarRepo.InsBar | quant/market_data/repo.py:71-110 | an insert adds its row, or is refused by the natural key and changes nothing |
| BarStore.PriceBarService.FindGaps | quant/market_data/service.py:460-488 | returns the gaps |
| BarStore.PriceBarService.Store | quant/market_data/service.py:490-551 | inserts what was fetched of the missing bars, oldest first, up to the first refused write; returns how many rows it added |
| BarStore.StoreBarsExact | quant/market_data/service.py:490-551 | storing adds exactly the fetched missing bars, changes no row, and counts the rows added |
| BarStore.LastOfDate | quant/market_data/service.py:569 | of several fetched bars of one time the last counts |
| BarStore.WindowExact | quant/market_data/service.py:140-174 | the window is of exactly `lookback` boundaries, the newest closed one last |
| BarStore.InsertedAndUnfilled | quant/market_data/service.py:320-347 | inserted and unfilled bars add up to the gaps found |
| BarStore.PriceBarService.RejectIncomplete | quant/market_data/service.py:587-612 | refuses exactly when the newest bar is missing or a bar after one that was returned is |
| BarStore.PriceBarService.EnsureFresh | quant/market_data/service.py:140-207 | exactly how it ends: refused, already fresh, fetch failed, incomplete, a write refused after a prefix of the missing bars, or all of them stored; on success every boundary from the oldest bar fetched through the newest closed bar is stored |
| BarStore.PriceBarService.Backfill | quant/market_data/service.py:261-347 | the exact condition of every error, a range of 10,000 periods or more among them; otherwise stores what the venue has and reports the gaps that are left; a refused write leaves the bars before it |
| BarStore.PriceBarService.LoadWindow | quant/market_data/service.py:614-710 | succeeds exactly when the refresh does, the venue serves the open bar where it is wanted, and five times the stored rows of the window and the open bar are at least four times lookback; then it returns those rows in order, the open bar last and not stored, and on a grid no more than lookback bars |
| BarStore.WindowFits | quant/market_data/service.py:614-681 | on a grid a window of `count` boundaries holds at most `count` bars |
| BarRace.RowsArePermanent | quant/market_data/service.py:490-551 | in any interleaving of any number of workers no stored row is changed or lost |
| BarRace.CountsAddUp | quant/market_data/service.py:490-551 | the counts of all workers sum to the rows added, although all but one lose each race |
| BarRace.ReturnedIsCovered | quant/market_data/service.py:140-207 | a worker that returns has its window stored, at that state and every later one; one that passed the freshness gate, a bar as new as its newest |
| BarRace.LosersAgree | quant/market_data/service.py:517-551 | with one truth behind the venues, the row found in place of a lost insert is the row the loser would have written |
| BarRace.AloneIsStore | quant/market_data/service.py:490-515 | uninterrupted, the insert steps of a worker are the sequential store |
| BarRace.AloneIsEnsureFresh | quant/market_data/service.py:140-207 | a worker that nobody interrupts comes to an end, with the rows and the result that the sequential refresh has |
| CrashSafety.EnsureFreshIsAttempt | quant/market_data/service.py:140-207 | every outcome a refresh may leave is one of the interrupted attempts |
| CrashSafety.CrashesLeaveNoHole | quant/market_data/service.py:163-174 | with a forward clock, lookbacks that do not grow and a venue contiguous from its listing, no sequence of crashed refreshes leaves a hole between the window's start and the newest bar |
| CrashSafety.GateIsSound | quant/market_data/service.py:163-174 | so an early return of the gate never passes over a missing listed boundary |
| CrashSafety.GateIsRightExactly | quant/market_data/service.py:140-174 | on a series complete between its oldest and newest bar, an early return leaves the window complete iff the oldest stored bar is at or before its start |
| CrashSafety.GateTrustsShorterLookbacksOnly | quant/market_data/service.py:140-174 | so after a first fill of `a` bars the gate is right about `b` bars iff `b <= a` |
| CrashSafety.NarrowBackfillPassesGate | quant/market_data/service.py:163-347 | and after a backfill of the newest bar alone it passes every lookback, and is wrong about exactly those above 1 |
| RaceSafety.RaceLeavesNoHole | quant/market_data/service.py:140-207 | in any interleaving of workers, any of which may die between two inserts, no listed boundary is missing behind a stored bar, from the latest window start on |
| RaceSafety.RaceGateIsSound | quant/market_data/service.py:163-174 | so during and after a race an early return whose window starts no earlier passes over no listed boundary |
| RaceSafety.NextRaceMayStart | quant/market_data/service.py:163-174 | and what one race leaves, the next may start from |
| BackfillPlan.PlanNextPass | quant/market_data/service.py:349-399 | the plan made from the stored coverage |
| BackfillPlan.PlanFits | quant/market_data/service.py:349-399 | toward a target on the grid a plan spans at most MAX_BACKFILL_BARS, is accepted, and ends just before the oldest bar |
| BackfillPlan.PassProgress | quant/market_data/service.py:285-399 | one pass adds rows inside its plan only, completes it, and lowers the passes remaining by exactly one |
| BackfillPlan.CampaignConverges | quant/market_data/service.py:285-399 | after as many passes as first planned, every boundary from the target to the starting edge is stored, and no fewer passes do |
| BackfillPlan.RefusedExactly | quant/market_data/service.py:285-399 | the one plan that `backfill` refuses: a target strictly between two boundaries, one period from the oldest bar |
| BackfillPlan.OffGridNeverCompletes | quant/market_data/service.py:349-399 | toward a target off the grid no number of passes completes |
| BackfillPlan.CompletesIffOnGrid | quant/market_data/service.py:349-399 | a campaign completes iff its target is a boundary |
| Indicators.IndicatorCausal | quant/strategy/indicators.py:25-74 | no indicator reads a later bar |
| Indicators.IndicatorForgets | quant/strategy/indicators.py:25-74 | its latest value needs `w` bars (SMA, Bollinger), `w+1` (RSI) or `2w-1` (stochastic) |
| Indicators.EmaNeverForgets | quant/strategy/indicators.py:39-42 | for the exponential average no number of bars is enough |
| Indicators.MeanWithin | quant/strategy/indicators.py:34-37 | a rolling mean stays within its window's readings |
| Indicators.EmaWithin | quant/strategy/indicators.py:39-42 | the exponential average stays within everything read so far, gaps included |
| Indicators.RsiInRange | quant/strategy/indicators.py:44-56 | RSI is in 0..100; 100 iff nothing fell in the window, 0 iff nothing rose |
| Indicators.FastStochasticInRange | quant/strategy/indicators.py:65-74 | the fast line is in 0..100 for a close between its low and high |
| Statistics.SpreadIsVariance | quant/strategy/performance.py:135 | `n` times the squared distances from the mean is the sum of the squared differences of all pairs |
| Statistics.StdBySpread | quant/strategy/performance.py:135 | the sample deviation is not negative, is 0 iff all values are equal, and its square times `n(n-1)` is the squared differences of all pairs |
| Readings.SmaMeans | quant/strategy/indicators.py:34-37 | there is a reading iff the window is full of readings; `w` times it is their sum |
| Readings.EmaMeans | quant/strategy/indicators.py:39-42 | a reading is the one before it and the bar, blended by their weights: the bar's is `2/(w+1)`, the other has faded by `(w-1)/(w+1)` for each bar since |
| Readings.EmaOfTwo | quant/strategy/indicators.py:39-42 | on two bars with no gap, `(w+1)` times the average is `2` times the bar plus `(w-1)` times the average before |
| Readings.RsiMeans | quant/strategy/indicators.py:44-56 | over the last `w` changes RSI times their rises and falls together is 100 times the rises; exactly where something moved |
| Readings.BollingerMeans | quant/strategy/indicators.py:58-63 | positive iff `w` times the bar exceeds its window's sum, negative iff it is less; the square by the window's pairwise differences; exactly where the window has a spread |
| Readings.BollingerMoved | quant/strategy/indicators.py:58-63 | scaling a column up or down and shifting it changes no reading |
| Readings.FastStochasticMeans | quant/strategy/indicators.py:65-73 | the fast line times the range of the window is 100 times the close above its low |
| Readings.ReadingsMean | quant/strategy/indicators.py:25-74 | every cell of every indicator's column is such a reading |
| Signals.SignalsFollowTheReading | quant/strategy/signals.py:232-302 | momentum never falls and reversion never rises with the reading; long-only clips at flat |
| Signals.ReversionOpposesMomentum | quant/strategy/signals.py:242-274 | reversion is the opposite of momentum except where the thresholds cross |
| Signals.Conviction | quant/strategy/signals.py:100-119 | the sorted-list loop computes, for each present reading after the first, the distance from 1/2 of the share of readings so far that are at most it, and 0 elsewhere |
| Signals.RanksStep | quant/strategy/signals.py:109-118 | the list stays a sorted permutation of the readings seen, and counts them |
| Signals.Strongest | quant/strategy/signals.py:122-128 | the first of the non-flat factors with the highest conviction |
| Signals.CombinedPosition | quant/strategy/signals.py:131-225 | when AND, OR and FILTER take a position, and that its side is one a deciding factor took |
| Signals.ConflictGoesToStrongest | quant/strategy/signals.py:131-176 | a conflict goes to a most convicted factor, or, for OR without strengths, long |
| Signals.LongAndShortAlike | quant/strategy/signals.py:131-176 | turning every position round turns the result round, except for one case of OR |
| Signals.CombineCausal | quant/strategy/signals.py:179-225 | a combined position reads no later bar, conflicts settled by strength included |
| FactorFrames.ReindexOwn | quant/strategy/performance.py:163-169 | a series aligned to its own index is itself |
| FactorFrames.LookupByDate | quant/strategy/performance.py:163-169 | alignment is by date, with a gap where the other product has no bar |
| FactorFrames.CoveredIsFourInFive | quant/strategy/performance.py:186-198 | a factor is accepted iff at least four in five of the traded product's dates have a bar |
| EngineMeaning.FactorMeans | quant/strategy/performance.py:163-169 | a factor is the column its substrategy names, of the product it names or else the traded one, by date |
| EngineMeaning.SingleFactorMeans | quant/strategy/performance.py:171-184 | a single factor is that, or the traded product's "factor" where it reads its own product and has no such column |
| EngineMeaning.PositionsMean | quant/strategy/signals.py:232-302 | the side a reading takes in each direction, band or bounded, long-only or not; a gap takes none |
| EngineMeaning.SingleOutputMeans | quant/strategy/performance.py:286-295 | the columns of a single-factor run: factor, readings on the bars' own prices, positions |
| EngineMeaning.MultiOutputMeans | quant/strategy/performance.py:304-310 | and of each factor of several |
| EngineMeaning.ConjunctionMeans | quant/strategy/signals.py:206-208 | the three names, in any letter case, and no other text |
| EngineMeaning.CombinationMeans | quant/strategy/signals.py:122-225 | with strengths a bar trades iff, for OR, some factor does, otherwise iff none is flat; its side is that of the first of the surest factors, a FILTER's gate apart |
| EngineMeaning.MultiPositionsMean | quant/strategy/performance.py:297-317 | every bar of a multi-factor run is such a combination of its factors' positions and ranks; a gap in one is a gap |
| Performance.Backtest.EnrichPerformance | quant/strategy/performance.py:256-348 | leaves every factor, position, return, equity and drawdown column of the whole evaluation in the frame, or fails as it does; what the columns hold is `EngineMeaning.EvaluationMeans` and the rows beside it |
| Performance.Backtest.EnrichSingleFactor | quant/strategy/performance.py:286-323 | the single-factor columns and what the frame keeps |
| Performance.Backtest.EnrichMultiFactor | quant/strategy/performance.py:297-333 | the numbered columns of every factor and the combined position |
| Performance.Backtest.ComputeLatestPosition | quant/strategy/performance.py:262-268 | the newest bar with a final position and its date, or an error exactly when there is none; on an enriched frame that of its FinalPosition column; the frame is left alone |
| Performance.LatestFinal | quant/strategy/performance.py:89-96 | the newest bar with a position, or none |
| Performance.Backtest.GetSharpeRatio | quant/strategy/performance.py:351-378 | on an enriched frame, the Sharpe of the returns after the warm-up, which `EngineMeaning.EngineSharpe` states by itself and the search's fast form equals; before that, an error |
| NoLookAhead.NoLookAhead | quant/strategy/performance.py:286-348 | two accepted histories that agree on the first `n` bars give the same factors, positions, returns, equity and drawdown there, single- and multi-factor |
| Acceptance.AcceptedExactly | quant/strategy/performance.py:158-325 | a run is accepted iff products, columns, parameters and conjunction fit, there is a bar, and every factor of another product covers the dates |
| Acceptance.AcceptanceAgreesExactly | quant/strategy/performance.py:186-198 | two histories with the same columns are accepted alike iff their factors' coverage has the same verdict, or the rest fits neither |
| Acceptance.OwnFactorsLookAtNothingLater | quant/strategy/performance.py:158-348 | with the traded product's own factors, histories that agree on `n > 0` bars are accepted alike and give the same numbers there |
| Acceptance.LaterBarRefusesTheRun | quant/strategy/performance.py:186-198 | two histories that agree on a bar, of which one is accepted and the other refused |
| Equity.ReturnsAreLagged | quant/strategy/performance.py:99-119 | a bar's return goes to the position held entering it; a new position costs the fee on its change and nothing else |
| EngineMeaning.EvaluationMeans | quant/strategy/performance.py:319-343 | in a whole evaluation each bar's change times the price before is the rise in price, and its return the position before times the change, less the fee on the turnover; where each is absent |
| EngineMeaning.FrameMeans | quant/strategy/performance.py:335-348 | in an enriched frame: the position held before each bar, the size of the trade on it, and the asset's change where a position was held before it |
| EngineMeaning.FeeMeans | quant/strategy/performance.py:203-214 | the fee is ten-thousandths, ten of them where none is given |
| Equity.LongIsBuyHold | quant/strategy/performance.py:335-348 | a position of 1 throughout earns what buying and holding does |
| Equity.BuyHoldIsPriceRatio | quant/strategy/performance.py:57-72 | buy-and-hold equity is the ratio of the prices |
| Equity.EquityIsGrowth | quant/strategy/performance.py:57-72 | equity is the product of the known returns' growth, a gap changing nothing |
| Equity.DrawdownIsGreatestFall | quant/strategy/performance.py:57-72 | the one-pass drawdown is the quadratic peak-to-trough one, the starting capital among the peaks |
| Equity.LossesBounded | quant/strategy/performance.py:57-72 | drawdown is in 0..1 and the cumulative return at least -1 |
| Equity.RuinIsFinal | quant/strategy/performance.py:57-72 | after a total loss nothing is regained |
| Equity.OverLossIsRuin | quant/strategy/performance.py:57-72 | a loss of more than everything on one bar is ruin, not a reversal |
| Equity.FeeNeverHelps | quant/strategy/performance.py:99-119 | a higher fee never raises the equity at any bar |
| Equity.MaxDrawdownIsWorstFall | quant/strategy/performance.py:380-382 | the reported maximum bounds the fall between any two moments and is one of them |
| Equity.SharpeUndefined | quant/strategy/performance.py:122-139 | there is no Sharpe exactly when too few returns are known or all are equal |
| EngineMeaning.SharpeMeans | quant/strategy/performance.py:122-139 | the ratio has the sign of the sum of the known returns, and its square times their variance is the squared mean times the period, the variance by pairwise differences; it is there iff enough returns are known and they differ |
| EngineMeaning.HigherReturnsHigherSharpe | quant/strategy/performance.py:122-139 | raising every known return by one amount raises the ratio |
| EngineMeaning.EngineSharpe | quant/strategy/performance.py:351-378 | the engine's Sharpe is that of the returns after the longest window |
| LiveWindow.LiveWindowSuffices | quant/strategy/performance.py:35-44 | a live run asks for three times its longest window and 60 bars, and four in five of them always hold the needed ones |
| LiveWindow.OhlcvMeans | quant/market_data/service.py:711-738 | in the served frame each column is the bar field of its name, and "price" and "factor" the close |
| LiveWindow.LiveIsBacktest | quant/strategy/performance.py:262-295 | on a suffix with the needed bars the newest single-factor position, and what is traded on, equal the full history's |
| LiveWindow.LoadedWindowTradesTheBacktest | quant/market_data/service.py:674-738 | on any suffix as long as the shortest window a live run accepts, the run is accepted and ends with the position of the whole history, for every indicator but the exponential average |
| LiveWindow.LoadedSignalIsTheBacktests | quant/market_data/service.py:614-710 | the bars `load_window` returned are the newest of all the series' stored bars, the open one last, and the position on them is the backtest's on all of those |
| LiveWindow.LiveIsBacktestUnlessConflict | quant/strategy/performance.py:297-317 | with several factors the newest position is the full history's too, except at a bar where the factors' ranks decide |
| LiveConflict.LoadedFactorsTradeTheBacktest | quant/market_data/service.py:614-710 | the same of the bars `load_window` returned, against all of the series' stored bars and the open one, for factors on the product's own columns |
| LiveConflict.ConflictCanDiffer | quant/strategy/performance.py:297-317 | for every number of bars, every spelling of every conjunction: two factors on one product's bars, long on the loaded ones and short on one bar more |
| LiveWindow.AgreementNeedsNoRank | quant/strategy/signals.py:131-176 | strengths change nothing where no conflict is decided by them |
| LiveWindow.RanksMatterExactly | quant/strategy/signals.py:131-225 | some strengths give different results iff the deciding factors take both sides, no gate is shut and, but for OR, none of them is flat |
| LiveWindow.RanksNeverForget | quant/strategy/signals.py:100-119 | no number of bars fixes a percentile rank |
| Objective.IndicatorCache.constructor | quant/strategy/objective.py:32-46 | exactly the given windows, each with the indicator's column |
| Objective.SingleFactorObjective.Build | quant/strategy/objective.py:92-97 | fails only where the engine fails for every parameter set |
| Objective.SingleFactorObjective.Call | quant/strategy/objective.py:79-103 | for a cached window, the full engine's Sharpe |
| Objective.MultiFactorObjective.Build | quant/strategy/objective.py:109-119 | fails only where the engine fails for every parameter set |
| Objective.MultiFactorObjective.Call | quant/strategy/objective.py:121-131 | for cached windows, the Sharpe of the factors that have ranges; the full engine's exactly when the engine accepts the configuration |
| Optimizer.CartesianExact | quant/strategy/optimizer.py:214-220 | the product holds exactly the points with a value of each axis in its place |
| Optimizer.PointsExact | quant/strategy/optimizer.py:148-170 | the search's points are the whole space, each once, and `total` counts them |
| Optimizer.SearchSelected | quant/strategy/optimizer.py:321-327 | exhaustive iff the budget covers the space; with none given, iff it has at most 10,000 points |
| Optimizer.EvaluatePoint | quant/strategy/optimizer.py:184-191 | the engine's Sharpe where it accepts the configuration, otherwise that of the factors with ranges; minus infinity where it fails or is undefined |
| Optimizer.Search | quant/strategy/optimizer.py:210-224 | one complete trial per point, in order, with the engine's value |
| Optimizer.RowsFromStudy | quant/strategy/optimizer.py:329-339 | the rows of the complete trials |
| Optimizer.BestRanksFirst | quant/strategy/optimizer.py:341-355 | the best row has the highest Sharpe of all rows |
| Optimizer.TopTenRank | quant/strategy/optimizer.py:341-355 | no row left out of the ten beats one of them |
| Optimizer.Run | quant/strategy/optimizer.py:309-319 | refuses ranges of different lengths, one range for several factors, and a search that tries nothing; otherwise `best` is a true maximum of the full engine over the points tried, the whole space when the search is exhaustive, by the ratio that `EngineMeaning.EngineSharpe` states |
| Optimizer.EngineRefusesAll | quant/strategy/objective.py:106-131 | where the objective is more permissive than the engine, the engine has a value nowhere |
| QueueWorld.EventKeeps | quant/queue/worker.py:108-181 | every event of the environment keeps the loop's invariant in the middle of any step, and changes an ended row never |
| RunOrder.RunOrderIsStableSort | quant/queue/repo.py:22-29 | the run order is a stable sort by priority and enqueue time |
| RunOrder.ListedNewestFirst | quant/queue/repo.py:22-29 | the list that is sorted has the newest rows first |
| RunOrder.HeadIsNext | quant/queue/worker_loop.py:62-86 | the head has the least (priority, enqueue time) of the queued jobs, and there is none exactly when no job is queued |
| Worker.BacktestWorker.Run | quant/queue/worker.py:108-181 | returns exactly when no stage outside the two that catch fails, and otherwise raises what the first failing one does; its terminal row, the last of its writes, is there exactly when nothing up to it failed, COMPLETED only on top of a result |
| Worker.BacktestWorker.Execute | quant/queue/worker.py:184-210 | exit 0 iff the run returned, 2 iff a lookup error escaped it, else 1; and when a row was written all the same |
| Worker.RunIsEvents | quant/queue/worker.py:108-210 | every such run is one the loop's environment allows |
| WorkerLoop.Loop.RecoverStale | quant/queue/worker_loop.py:169-189 | every row left RUNNING is FAILED, no ended row is touched, and the invariant holds from then on; with nothing interfering exactly those rows change, and their number is returned |
| WorkerLoop.Loop.ReapChildren | quant/queue/worker_loop.py:193-219 | every child that had exited is gone, its job marked FAILED if it was still running; a crash fails a row only while it is not over, whatever happens between the second reading and the write |
| WorkerLoop.Loop.EnforceCancels | quant/queue/worker_loop.py:252-302 | every listed row ends CANCELLED; the run is the environment's steps and those writes in turn, and each is made with no process left, over an ended row exactly when the row's child wrote it after the listing |
| WorkerLoop.Loop.StopChild | quant/queue/worker_loop.py:288-302 | the child is gone, having done at most what it might have by itself |
| WorkerLoop.Loop.EnforceTimeouts | quant/queue/worker_loop.py:221-250 | a job past its deadline leaves, FAILED, unless its child exited during the step; with nothing interfering, exactly the rows of active jobs with a live child and their time up are written, ended or not |
| WorkerLoop.Loop.TryClaimAndSpawn | quant/queue/worker_loop.py:304-315 | the claimed job has the least (priority, enqueue time) and gets a live process with a new number, its start between the step's ends; nothing is claimed only when nothing is queued; with nothing interfering the row and the process are all that change |
| WorkerLoop.Loop.Tick | quant/queue/worker_loop.py:317-328 | at most `max_concurrent` children; capacity full or nothing queued at its end; children that had exited gone and their jobs ended; requested cancels settled; overdue jobs gone or exited; new entries are live processes started during it that overtook no job waiting throughout; with nothing interfering every entry is alive |
| WorkerLoop.Loop.Run | quant/queue/worker_loop.py:332-346 | over any number of ticks the invariant holds, no cancelled row is overwritten, no ended job becomes unended; the worlds after recovery, where every stale row is FAILED, and after each tick are the trace that the progress theorems speak of |
| LoopSteps.LiveChildrenBounded | quant/queue/worker_loop.py:317-328 | there are never more live children than active jobs, nor two for one job |
| WorkerLoop.TimeoutCanReplaceCompleted | quant/queue/worker_loop.py:221-250 | a run in which FAILED replaces COMPLETED |
| WorkerLoop.CancelCanReplaceCompleted | quant/queue/worker_loop.py:252-302 | a run in which CANCELLED replaces COMPLETED |
| WorkerLoop.GoneForGood | quant/queue/worker_loop.py:317-346 | in any run a job that has left never is active again and stays ended |
| WorkerLoop.ExitedLeaves | quant/queue/worker_loop.py:193-346 | in any run a child that has exited by one tick boundary is gone by the next, and its job has ended |
| WorkerLoop.OverdueLeaves | quant/queue/worker_loop.py:221-346 | in any run a job whose time is up at a tick boundary has left, ended, within two ticks, whatever its child and the queue do |
| WorkerLoop.NoOvertaking | quant/queue/worker_loop.py:62-86 | in any run, of two jobs that wait together the one that should run first is not still waiting when the other is active |
| OrderRetry.SignalSides | quant/trade/order_policy.py:50 | a signal counts from strictly more than one half |
| OrderRetry.OrderIsSafe | quant/trade/order_policy.py:30-93 | an order takes no real position through zero and leaves none larger than it was or than was asked for |
| OrderRetry.TwoFillsSettle | quant/trade/order_policy.py:30-93 | two full fills bring any position to the side the signal asks for, at exactly the size asked for or held, where the action is HOLD |
| OrderRetry.ContainsExact | quant/trade/order_policy.py:183-199 | what a marker in a message means |
| OrderRetry.PolicyMeans | quant/trade/order_policy.py:183-199 | a failure is unconfirmed iff its message has one of the two phrases somewhere, in any letter case, and may be retried iff it is untyped and has an id, one of them or a transient marker |
| OrderRetry.OrderRetryExecutor.PlaceAndSettle | quant/trade/order_policy.py:237-255 | one placement of the order given; one cancel of its id exactly when the failure is untyped, has an id, and says in any letter case that the fill is unconfirmed or needs reconciling; another is tried exactly when the failure may pass and a due cancel succeeded, with nothing left on the book |
| OrderRetry.OrderRetryExecutor.Execute | quant/trade/order_policy.py:218-282 | one placement per attempt with an order due, and that order, cancelled before the next exactly when its fill is unconfirmed; its result is the broker's answer or the failed cancel; it goes on exactly while another order may follow, one is due and attempts are left, and raises exactly when the adapter did; each order on a clear book and not through zero, exposure within max of the found position and the quantity; the assertion is reached iff no attempt is allowed |
| RefDataCache.RedisRefData.CheckVersion | quant/refdata/reader.py:58-67 | a moved stamp drops this schema's entries and no other's |
| RefDataCache.RedisRefData.LoadTable | quant/refdata/reader.py:69-80 | caches the rows committed when Redis answers, an empty table included, or says exactly why not |
| RefDataCache.RedisRefData.Get | quant/refdata/reader.py:90-95 | the rows, the missing table or the empty one of the snapshot committed at an instant inside the call, for a cached hit the moment the stamp was read; exactly when it is a hit, when Redis is down, and what others had committed by then |
| RefDataCache.RefDataPublisher.BuildSnapshot | quant/refdata/publisher.py:78-85 | one entry per table, empty where loading fails |
| RefDataCache.RefDataPublisher.Publish | quant/refdata/publisher.py:74-110 | the tables, the dropped keys and the stamp change in one transaction, or, exactly when a command fails, only what others committed is there; other tables remain iff another publisher's commit in between left one that the scan did not return |
| RefDataCache.OnlyTablesExactly | quant/refdata/publisher.py:87-97 | readers find the publisher's tables and no others iff no table of another publisher, left before the transaction, was missed by the scan |
| RefDataCache.SecondPublisherLeavesATable | quant/refdata/publisher.py:87-97 | a run in which a second publisher's table stays |

## Assumptions

- Bar store: a venue's replies are functions of the request; runs over several calls take
  the venue as contiguous from its listing where they say so.
- Worker loop: one loop, claims in one step, a killed child dies, the children of a dead
  loop are gone, the API's cancel is one step, and no status has more than 1000 rows.
- Order retry: nothing else trades the account, the position read is the true one, and a
  retried failure that is not cancelled first left nothing on the book (`Honest`).
- Cache: one reader thread, and stamps that only grow (Redis is not flushed).
- Performance: products have one row per date; `pct_change` fills no gaps (pandas 3), and
  a change from a price of zero is absent rather than infinite.

## Left out

- Floating-point rounding, infinities and overflow, including the rounding of `lookback * 0.8` and of the coverage share.
- The range of `timedelta`, sub-millisecond time stamps, Unicode digits and blanks in the period parser, and time-zone conversion of session closes.
- Letter case outside ASCII in a conjunction's name and in a broker's message.
- Symbol and reference-data lookups around the bar service, `sync`, venue depth and the venue-limits cache.
- Indicator windows below 1, and the legacy configuration's window of 0 when no parameters are given.
- The annualised return and the Calmar ratio, which need real powers.
- Columns of a product that share a name with a column the engine writes: the engine's columns have their own labels.
- TPE sampling, callbacks, plots and logging of the search; the points a sampler suggests are a parameter of `Optimizer.Run`.
- Optimizer.TopTenRank: does not say how rows of equal Sharpe are ordered, because the library's sort does not.
- The versions of a queue row before the active one, and the columns of it that no decision reads.
- Draining children at shutdown, the wake channel of the worker loop, and a child started with malformed arguments.
- The audit properties of an attempt and of a retry outcome.
- Reference-data resolvers, and a table named like the stamp or the invalidation channel, which the publisher's promise about other tables does not cover.
- OrderRetry.OrderRetryExecutor.Execute: a position read that raises, which ends the run like any other exception of the adapter, and the wait between attempts, because nothing is on the book then.
- RefDataCache.RedisRefData.Get: one reader thread only, because several unlocked ones can interleave a version check and a load.
- The REST API, command lines, notebooks, user interface, credentials, broker adapters and deployment scripts.
