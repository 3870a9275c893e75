# Swaram Market Engine: verified model of the quantitative core

This project models, in Dafny 4.11, the deterministic part of the Swaram Market Engine: everything
that turns candles, orders, order-book levels and feed events into state. It proves what that code
keeps over every input and every run. Prices, sizes and capital are exact reals, timestamps and bar
indices are integers, NaN and `None` are `Option.None`, and Python's `round` is an explicit rounding
half to even.

| file | what it models |
|---|---|
| `Numbers.dfy`, `Sorting.dfy`, `Weighted.dfy` | rounding, sums, `sorted`, weighted sums and exponential smoothing |
| `Swings.dfy` | fractal swing points, and the last swing known at a bar |
| `FairValueGaps.dfy` | fair value gaps, and their mitigation marked in place on zone objects |
| `TrendAutomaton.dfy`, `TrendSafety.dfy` | the pass that emits sweeps, BOS and CHOCH and records order blocks; what every run keeps |
| `MarketStructure.dfy`, `Repainting.dfy`, `MirrorDuality.dfy` | the whole analysis; what an analysis of a prefix can and cannot get wrong; bull / bear symmetry |
| `Backtest.dfy`, `BacktestLedger.dfy`, `Drawdown.dfy`, `Sharpe.dfy` | the backtest engine, the candle loop that drives it, and how its metrics relate to its ledger |
| `Strategy.dfy`, `Runner.dfy` | the two built-in strategies and the autonomous runner |
| `Risk.dfy` | the pre-trade gate and the position sizers |
| `VolumeProfile.dfy`, `Vwap.dfy`, `MovingAverages.dfy`, `Rsi.dfy` | volume profile, VWAP, EMA, MACD, ATR and RSI |
| `OrderBook.dfy` | order-book metrics, in the analyser and in the feed parser with its health record |
| `Collector.dfy` | the collector's write buffers as interleaved tasks, and as one object |

The source updates state in place in most of these files, and there the model is imperative too: each
method is proved equal to a specification function of its inputs or of the old state, and the theorems
are lemmas about those functions. Every lemma switches automatic induction off; where a proof is by
induction, its body says so. Many proofs `hide` the definitions of functions that they use only
through lemmas, to keep nonlinear arithmetic and long sequence terms out of the solver.

## What the proofs found

- A swing needs `right_bars` later bars, so an analysis of the first m bars can disagree with the full
  one. Events and order blocks up to and including bar m - `right_bars` never change, except that a
  two-bar prefix, which returns early, misses a swing of bar 0 that bar 1 sweeps or closes beyond
  (`BoundedRepainting`, both directions; `ShortPrefixCanDiffer` is an instance). For `right_bars` >= 2,
  bar m - `right_bars` + 1 can disagree on well-formed candles exactly when m >= `left_bars` + 2 x
  `right_bars` + 1 (`HorizonIsExact`, `HorizonNotReached`).
- The break test is `if` / `elif`, so a close above the last swing high and below the last swing low at
  once always counts as bullish. It does happen on well-formed candles (`CrossingHappens`). Bull / bear
  symmetry fails at exactly those bars and at the first break after each, and the final trend is
  symmetric exactly when the last break is not such a bar (`TrendDuality`).
- The comments beside the order blocks (structure.py:185, :210) speak of the last opposite candle; the
  code takes the candle just before the break, whatever its colour. The block is the last opposite candle
  exactly when that candle closes against the break (`BlockIsLastOppositeIff`), and in a series of three
  rising candles the bullish block is a rising one (`BlockCanBeSameColour`).
- The profit factor of a run without losses is its gross profit, which can be at most one although the
  run made money; rounding hides a small profit too. `ProfitFactorAboveOne` says exactly when the
  published factor tells a gain from a loss, and `ProfitCanBeHidden` is a run of two candles where it
  does not.
- The route reads the final capital of every run (apps/api/routes/backtest.py:90), but the metrics of a
  run without trades have none. That is the case exactly when no candle closes above its open
  (`FinalCapitalMissingIff`), for instance on a falling market (`FinalCapitalCanBeMissing`).
- The rounded quantity the risk gate suggests is refused on resubmission exactly when rounding went up
  (`RoundedSuggestion`, in terms of the limit and the price), as it does on an ordinary account
  (`RoundedSuggestionCanFail`).
- The POC can lie outside the value area, and VAL <= POC <= VAH fail: exactly then (`LevelsOrderedIff`).
  The levels are ordered for every way of breaking ties if and only if no more bins tie for the maximum
  than the area holds (`PublishedLevelsOrdered`). Four equal volumes at four prices are enough to put the
  POC below the whole area (`PocBelowArea`).
- A failed or cancelled flush loses its batches: they left the buffers before the commit and are not put
  back (`GivenUpIsLost`). A collector at rest has committed everything exactly when its buffers are empty
  and no flush gave up a batch (`AllCommittedIff`); if only commits fail, a shutdown leaves the buffers
  empty (`ShutdownCommitsAllIff`). The order-book and funding buffers have no size limit
  (`UnsizedBuffersCanGrow`).
- Two bins whose centers round to the same key share one entry of the published dictionary, and the later
  one overwrites the earlier; every bin keeps its entry exactly when the keys differ
  (`EveryBinKeepsItsEntryIff`). On two prices within one rounding step half of the volume is lost
  (`NarrowBinsLoseVolume`).
- The class comment of the momentum strategy also announces an exit below EMA 9, which the code does not
  have. `AnnouncedExitIff` says exactly when a long position is nevertheless treated as announced,
  `AnnouncedExitCanFail` is a snapshot where it is not, and without an overbought reading the strategy
  never sells in a whole run (`MomentumHolds`).
- The conversion of the feed's microseconds guesses the unit from the size of the number; it is right
  exactly above 10^14, from March 1973 on, and at zero (`EpochReadIff`).

## Model

| member | source | states |
|---|---|---|
| Swings.DetectSwingPoints | swaram/analytics/structure.py:43-75 | the nested window scans and the final sort return the swing list of the series |
| Swings.ScanWindow | swaram/analytics/structure.py:58-62 | one window scan, stopped early, decides strict extremality over the whole window |
| Swings.SwingsBelowExact | swaram/analytics/structure.py:56-75 | the list holds exactly the bars strictly beyond their whole window, each once, in index order, a high before a low |
| Swings.SwingListUnique | swaram/analytics/structure.py:75 | membership and order determine the list, so any correct detector returns this one |
| Swings.SwingSpacing | swaram/analytics/structure.py:59-62 | two swings of one kind are more than min(left_bars, right_bars) bars apart |
| Swings.FilterIsTracker | swaram/analytics/structure.py:137-142 | filtering all swings at every bar gives the same last high and last low as a one-pass tracker |
| Swings.LatestSwingIsLatest | swaram/analytics/structure.py:137-142 | the swing a bar is compared with is confirmed, earlier, and the latest such |
| FairValueGaps.DetectGaps | swaram/analytics/structure.py:102-119 | the detection loop creates one fresh, unmitigated object per gap, in bar order |
| FairValueGaps.GapExact | swaram/analytics/structure.py:103-119 | a zone is reported exactly where candles i-2 and i trade at no common price, and is the interval between them |
| FairValueGaps.ScanZone | swaram/analytics/structure.py:122-132 | the scan marks one zone object in place with its first mitigating bar |
| FairValueGaps.MarkMitigations | swaram/analytics/structure.py:121-132 | after the loops every object carries its settled value |
| FairValueGaps.Unmitigated | swaram/analytics/structure.py:219 | the comprehension keeps exactly the unmitigated objects, in order |
| FairValueGaps.MitigationExact | swaram/analytics/structure.py:122-132 | with increasing timestamps a gap stays active iff no later bar reaches its near edge; otherwise it is stamped by the earliest that does |
| FairValueGaps.AppendingNeverReactivates | swaram/analytics/structure.py:121-132 | appending candles never re-activates a zone or changes a mitigation time; a zone mitigated anew is stamped by an appended bar |
| TrendAutomaton.ProcessBar | swaram/analytics/structure.py:144-217 | one bar: sweeps, then the break test, trend update and order block |
| TrendAutomaton.TrackTrend | swaram/analytics/structure.py:134-217 | the pass over all bars, with its repeated filtering, computes the run of the automaton |
| TrendSafety.RunIsSafe | swaram/analytics/structure.py:168-217 | every log has BOS only along the last break and CHOCH only against it, and the trend is the direction of the last break |
| TrendSafety.TrendContract | swaram/analytics/structure.py:168-217 | CHOCH directions strictly alternate, each BOS goes the way of the most recent CHOCH, the trend is that of the latest CHOCH and neutral iff there was none |
| TrendSafety.EventsPerBar | swaram/analytics/structure.py:149-217 | a bar emits at most two events and one order block, and a sweep together with a break has the same direction |
| TrendSafety.EventsGrounded | swaram/analytics/structure.py:137-217 | every event refers to a confirmed earlier swing at its level that the bar really swept (and closed back) or closed beyond |
| TrendSafety.EventsComplete | swaram/analytics/structure.py:137-217 | and none is missing: the latest swing high and low are each reported swept iff the wick passes and the close is back inside, and broken iff the close is beyond, a low only when the high is not broken too |
| TrendSafety.BlocksMatchChochs | swaram/analytics/structure.py:185-192 | the k-th order block is the candle before the k-th CHOCH, with its direction; no CHOCH leaves none or two |
| TrendSafety.BlockIsLastOppositeIff | swaram/analytics/structure.py:185-192 | the k-th order block is the last candle against the new direction, as the comments beside it say, iff the candle just before the CHOCH closes against it |
| TrendSafety.BlockCanBeSameColour | swaram/analytics/structure.py:185-192 | three rising candles whose bullish order block is a rising candle |
| TrendSafety.TailsAlternate | swaram/analytics/structure.py:225-226 | alternation of CHOCHs and of order-block sides survives cutting the lists to their last n and m entries |
| MarketStructure.AnalyzeMarketStructure | swaram/analytics/structure.py:78-227 | the whole analysis returns the specified swings, open gaps, trend and truncated logs, with the early return for short series |
| MarketStructure.PublishedTailsAlternate | swaram/analytics/structure.py:221-227 | the last 20 events and the last 10 order blocks alternate for every series and window |
| MarketStructure.PublishedGapsExact | swaram/analytics/structure.py:102-219 | on the input: a zone is active iff some bar c leaves the interval to bar c-2 untraded and no later bar comes back to the edge of bar c; zones come in strictly increasing time |
| MarketStructure.PublishedAreRecent | swaram/analytics/structure.py:225-226 | what is published are the last 20 events and the last 10 order blocks |
| Repainting.SwingsOfPrefix | swaram/analytics/structure.py:56-73 | the swings found in a prefix are exactly the full-series swings with index below m - right_bars, as a prefix of the list |
| Repainting.BoundedRepainting | swaram/analytics/structure.py:98-217 | trend, events and order blocks up to and including bar m - right_bars agree between prefix and full analysis if and only if the prefix is not the two-bar prefix of a longer series whose bar 1 sweeps or breaks a swing of bar 0 |
| Repainting.ShortPrefixCanDiffer | swaram/analytics/structure.py:98-100 | well-formed candles on which the two-bar prefix misses the break of bar 1 |
| Repainting.HorizonIsExact | swaram/analytics/structure.py:135-194 | for every left_bars, right_bars >= 2 and m >= left_bars + 2 right_bars + 1 there are well-formed candles on which the trend after the next bar differs |
| Repainting.HorizonNotReached | swaram/analytics/structure.py:56-194 | for every shorter prefix the next bar still agrees, on all well-formed candles |
| MirrorDuality.MirrorSwing | swaram/analytics/structure.py:57-73 | swing highs of the mirrored series are the swing lows of the series and conversely |
| MirrorDuality.TrendDuality | swaram/analytics/structure.py:150-217 | a bar of the mirrored run is the mirror of the bar iff its close is not beyond both levels and it either breaks nothing or follows a break that was not; all bars are iff no close lies beyond both levels; the final trend is mirrored iff the last break was not such a close |
| MirrorDuality.CrossingHappens | swaram/analytics/structure.py:169-194 | well-formed candles on which the symmetry fails |
| MirrorDuality.GapDuality | swaram/analytics/structure.py:102-132 | mirroring swaps bullish and bearish gaps with the same mitigation times when low <= high |
| Backtest.BacktestEngine.ExecuteMarketOrder | swaram/backtest/engine.py:20-47 | the whole new state of a market order with slippage, and the logged trade |
| Backtest.BacktestEngine.UpdatePortfolio | swaram/backtest/engine.py:49-60 | the whole new state of a mark: curve, return, value |
| Backtest.BacktestEngine.PairTrades | swaram/backtest/engine.py:75-92 | the pairing loop computes wins, gross profit and gross loss of consecutive pairs |
| Backtest.BacktestEngine.ScanDrawdown | swaram/backtest/engine.py:103-111 | the one-pass loop computes the drawdown specification |
| Backtest.BacktestEngine.CalculatePerformanceMetrics | swaram/backtest/engine.py:62-120 | the metrics and the Sharpe ratio are the specified functions of trade log, curve and returns, with the early return |
| Backtest.RunBacktest | apps/api/routes/backtest.py:66-79 | the candle loop leaves the engine in the replayed state |
| BacktestLedger.TallyIsCashFlow | swaram/backtest/engine.py:79-92 | for closed pairs, long or short, gross profit minus gross loss is the cash the pairs brought in |
| BacktestLedger.TallyTotal | swaram/backtest/engine.py:79-92 | over any closed log the tally accounts for all cash but an unpaired last trade |
| BacktestLedger.WinsAreProfitablePairs | swaram/backtest/engine.py:88-92 | wins count exactly the pairs with positive profit, and there is gross profit iff there is one |
| BacktestLedger.TallySums | swaram/backtest/engine.py:79-92 | gross profit is the sum of the winning amounts, gross loss of the losing ones |
| BacktestLedger.PublishedWinRate | swaram/backtest/engine.py:94-117 | the published win rate is 100 x profitable pairs / pairs, to two decimals |
| BacktestLedger.PublishedFigures | swaram/backtest/engine.py:95-119 | the published trade count, last equity and profit factor are what their names say, to two decimals |
| BacktestLedger.PublishedSharpe | swaram/backtest/engine.py:97-114 | the published Sharpe ratio is mean / deviation x root of 252, to four decimals |
| BacktestLedger.MetricsReconcile | apps/api/routes/backtest.py:73-79 | on every candle sequence trades alternate with equal lots, and cash = capital + gross profit - gross loss, less an open entry's value |
| BacktestLedger.LongIffLastRose | apps/api/routes/backtest.py:73-79 | the loop holds a lot iff the last candle that moved is a rising one |
| BacktestLedger.TradesOfLoop | apps/api/routes/backtest.py:73-79 | which candles trade, at which side, time and price: a rising one when nothing is held, a falling one when a lot is |
| BacktestLedger.FinalCapitalReconciles | swaram/backtest/engine.py:119 | with all positions closed the reported final capital is capital plus reported net profit |
| BacktestLedger.FinalCapitalMissingIff | apps/api/routes/backtest.py:73-90 | the final capital the route reads is missing iff no candle closes above its open |
| BacktestLedger.FinalCapitalCanBeMissing | apps/api/routes/backtest.py:73-90 | a falling market on which it is missing |
| BacktestLedger.EquityDecomposition | swaram/backtest/engine.py:20-60 | over any orders and marks, equity = capital + positions times price changes - slippage times turnover |
| BacktestLedger.CurveDecomposition | swaram/backtest/engine.py:49-60 | the same for every point a mark adds to the curve |
| BacktestLedger.OrdersLogged | swaram/backtest/engine.py:20-47 | every order is logged with its own time, side, quantity and slipped price, which becomes the entry price |
| BacktestLedger.ConstantPriceNeverGains | swaram/backtest/engine.py:23-37 | trading at a constant price never raises equity |
| BacktestLedger.ReturnsCompound | swaram/backtest/engine.py:54-58 | while equity is positive the logged returns compound from the initial capital to the last equity |
| BacktestLedger.ReturnsExplainCurve | swaram/backtest/engine.py:54-58 | each logged return times its point is the next step of the curve, and is zero from a point at or below zero |
| BacktestLedger.ProfitFactorAboveOne | swaram/backtest/engine.py:88-117 | for any trade log, the published profit factor exceeds one iff profit exceeds loss, except exactly where profit exceeds a loss by at most 0.5% of it, or no loss at all by at most 1.005 |
| BacktestLedger.ProfitCanBeHidden | apps/api/routes/backtest.py:73-79 | two candles on which the loop earns money and reports a profit factor of 0.1 |
| BacktestLedger.WinRateIsPercentage | swaram/backtest/engine.py:79-94 | the reported win rate of any trade log lies between 0 and 100 |
| Drawdown.MaxDrawdownIsMaximum | swaram/backtest/engine.py:103-111 | the loop's result bounds every fall below the running peak and one attains it |
| Drawdown.MaxDrawdownIsLargestFall | swaram/backtest/engine.py:103-111 | on a non-negative curve from a positive start it is the largest relative fall from any point to a later one, in [0, 1] |
| Drawdown.PublishedDrawdown | swaram/backtest/engine.py:103-115 | the published figure is 100 x that fall, to two decimals |
| Drawdown.MaxDrawdownGrows | swaram/backtest/engine.py:103-111 | extending the curve never lowers it |
| Sharpe.SharpeUnique | swaram/backtest/engine.py:97-101 | the ratio is determined by the returns: the deviation and the root of 252 are unique |
| Sharpe.SharpeSquared | swaram/backtest/engine.py:97-101 | its square times the variance is 252 times the squared mean, and its sign is that of the mean |
| Sharpe.FlatReturns | swaram/backtest/engine.py:100-101 | the deviation is zero, and the ratio then reported as zero, iff every return equals the mean |
| Sharpe.SharpeScaleFree | swaram/backtest/engine.py:97-101 | multiplying all returns by a positive factor does not change the ratio |
| Numbers.RoundHalfEvenUnique | swaram/agents/strategy.py:88 | the nearest integer, ties to even, is unique: the rounding in the model is the only one with that contract |
| Strategy.DecisionShape | swaram/agents/strategy.py:83-142 | every rule buys one lot only when flat, sells the whole position only when long, otherwise asks for nothing |
| Strategy.DecisionIff | swaram/agents/strategy.py:83-142 | a rule buys iff flat with its entry due (RSI below threshold and price above VWAP; price at or below the lower band), sells iff long with its exit due |
| Strategy.LotIsTwoPercent | swaram/agents/strategy.py:88 | a lot is worth two percent of the capital within half a unit in the fourth decimal |
| Strategy.LotCostsLessThanFourPercent | swaram/agents/strategy.py:88 | a lot that does not round to zero costs strictly less than 4% of the capital |
| Strategy.FourPercentIsTight | swaram/agents/strategy.py:88 | and can cost 0.04 / (1 + e) of it for every e in (0, 2) |
| Strategy.DecisionsMonotone | swaram/agents/strategy.py:90-140 | a lower price never cancels a mean-reversion buy, which is then of no smaller quantity, nor a higher one a sell; momentum likewise in RSI |
| Strategy.AnnouncedExitIff | swaram/agents/strategy.py:70-106 | a long momentum position is sold exactly as announced (overbought or below EMA 9) iff it is overbought with a VWAP or neither exit is due |
| Strategy.AnnouncedExitCanFail | swaram/agents/strategy.py:70-106 | a position at 90 below an EMA 9 of 100 that is held |
| Runner.StrategyRunner.RunOnce | swaram/agents/loop.py:41-102 | one cycle's whole new state, its result and its log record; without a price nothing changes and the result is only the current count |
| Runner.RunnerLedger | swaram/agents/loop.py:76-101 | over any run fills alternate, each sell closes the preceding buy, capital = initial + proceeds - costs, cycle_count is the log length |
| Runner.RoundTripsAlternate | swaram/agents/loop.py:77-86 | what the ledger says of the j-th fill: its side, its quantity, and position zero after each sell |
| Runner.FillsExact | swaram/agents/loop.py:41-99 | over any run the fills are exactly those of the cycles whose snapshot calls for a trade, none passed over, each at its own price for one lot or the whole position |
| Runner.FillsGrounded | swaram/agents/loop.py:41-99 | every buy meets the entry conditions of its own snapshot and spends two percent of the capital, every sell meets the exit conditions |
| Runner.RoundTripNeverLoses | swaram/agents/strategy.py:125-140 | a mean-reversion round trip never sells below its purchase when the exit line then stands at or above the lower band of the purchase |
| Runner.CyclesLogged | swaram/agents/loop.py:43-101 | a cycle is logged, with its price, iff the snapshot has one |
| Runner.LogShowsState | swaram/agents/loop.py:88-101 | the latest log entry shows the current position and the capital to the cent |
| Runner.CyclesNumbered | swaram/agents/loop.py:90 | the log numbers its cycles 1, 2, 3, ... |
| Runner.ClampIsIdle | swaram/agents/loop.py:86 | the clamp at zero never changes the position a sell leaves |
| Runner.MomentumHolds | swaram/agents/strategy.py:99-106 | over any run without an overbought reading the momentum strategy fills at most one buy and never sells, whatever the price does |
| Runner.CapitalFloor | swaram/agents/loop.py:77-87 | with non-negative prices and positive capital, a run with b buys keeps at least 0.96^b of the capital, which stays positive |
| Risk.AllowedIff | swaram/risk/engine.py:46-76 | the gate in dollars: allowed iff drawdown, exposure and trade value are within their limits |
| Risk.ReasonExact | swaram/risk/engine.py:46-76 | the reason names the first limit exceeded, in the order drawdown, exposure, trade value |
| Risk.ReportedPercentages | swaram/risk/engine.py:36-83 | the reported drawdown and exposure are those of the account before the trade; the suggestion is the request, the limit or nothing |
| Risk.DownwardClosed | swaram/risk/engine.py:56-68 | what is allowed stays allowed for any smaller quantity |
| Risk.SuggestionPasses | swaram/risk/engine.py:67-69 | the unrounded suggestion passes all guards and uses the limit exactly |
| Risk.RoundedSuggestion | swaram/risk/engine.py:69-73 | the rounded one exceeds the limit by at most 0.00005 x price and passes iff limit / price, in units of 0.0001, is less than half a unit above a whole number, or half a unit above an even one |
| Risk.RoundedSuggestionCanFail | swaram/risk/engine.py:67-73 | an account of 10000 with limits of 20% and 2% whose published suggestion at a price of 65000 is refused |
| Risk.ExposureWithinLimit | swaram/risk/engine.py:43-57 | at every point of every run the position is within its limit at the last allowed trade's price and, if long, at every lower one |
| Risk.KellyBounds | swaram/risk/engine.py:86-102 | Kelly sizing is never negative, stays under the 20% cap up to rounding, and is zero without an edge |
| Risk.KellyExact | swaram/risk/engine.py:86-102 | the size is worth the Kelly fraction (pW - qL) / W times the given fraction of the capital, cut to [0, 20%], within half a tick |
| Risk.SizedValue | swaram/risk/engine.py:102-113 | any rounded size is worth the intended dollars within half a unit in the fourth decimal |
| Risk.SuggestionIsFixedFraction | swaram/risk/engine.py:67-113 | the gate's suggestion is the fixed-fractional size of its own limit on the initial capital, and that size passes iff rounding does not go up |
| VolumeProfile.BinHoldsPrice | swaram/analytics/volume.py:64-65 | each price lies within the edges of the bin it is counted in |
| VolumeProfile.SampleNearCenter | swaram/analytics/volume.py:64-65 | no price is further than half a bin from the center of its bin |
| VolumeProfile.BinningConserves | swaram/analytics/volume.py:64-72 | each bin holds its own samples' volume and the bins add up to the total |
| VolumeProfile.SelectValueArea | swaram/analytics/volume.py:75-84 | the greedy loop stops at the first prefix of the descending order that reaches the target |
| VolumeProfile.ValueAreaOptimal | swaram/analytics/volume.py:73-84 | the selection reaches the target and no non-empty set of fewer bins does |
| VolumeProfile.PublishedAreaOptimal | swaram/analytics/volume.py:64-84 | the same from closes and volumes: the published area holds the share of the traded volume, and no fewer bins do |
| VolumeProfile.PocInValueArea | swaram/analytics/volume.py:68-84 | however ties are broken the POC is in the area if no more bins tie for the maximum than the area holds |
| VolumeProfile.PocCanFallOut | swaram/analytics/volume.py:68-84 | otherwise another admissible order selects an area of the same size without it |
| VolumeProfile.PocBelowArea | swaram/analytics/volume.py:64-88 | four equal volumes at four prices with a 70% share: ties in index order put the POC below the whole area |
| VolumeProfile.UniqueMaximum | swaram/analytics/volume.py:68 | a unique maximum is the case of one tying bin |
| VolumeProfile.CalculateVolumeProfile | swaram/analytics/volume.py:36-98 | the three cases of the result, for every answer argsort may give |
| VolumeProfile.LevelsOrdered | swaram/analytics/volume.py:73-88 | every argsort answer gives VAL <= POC <= VAH iff no more bins tie for the maximum than the area holds; its size does not depend on the ties |
| VolumeProfile.LevelsOrderedIff | swaram/analytics/volume.py:68-88 | for any one answer the levels are ordered iff the POC is in the area; otherwise the POC is below VAL |
| VolumeProfile.AreaSizeUnique | swaram/analytics/volume.py:73-84 | however ties are broken the value area has the same number of bins |
| VolumeProfile.PublishedLevelsOrdered | swaram/analytics/volume.py:64-88 | both equivalences for the levels published from closes and volumes |
| VolumeProfile.PublishedPrices | swaram/analytics/volume.py:64-88 | POC is the middle of the first fullest bin, VAH of the highest and VAL of the lowest bin of the area |
| VolumeProfile.EveryBinKeepsItsEntryIff | swaram/analytics/volume.py:90 | the dictionary has one entry per bin iff no two centers round to the same key |
| VolumeProfile.DistinctKeysKeepVolume | swaram/analytics/volume.py:90 | and then every entry is its bin's volume |
| VolumeProfile.NarrowBinsLoseVolume | swaram/analytics/volume.py:64-90 | two prices within one rounding step whose dictionary holds half of the volume |
| VolumeProfile.WideBinsKeepTheirVolume | swaram/analytics/volume.py:90 | so bins wider than the rounding step keep their own dictionary entry |
| Vwap.VwapBounds | swaram/analytics/volume.py:25-33 | VWAP lies between the least and greatest typical price so far, and is zero before any volume |
| Vwap.VwapStep | swaram/analytics/volume.py:25-33 | each bar adds its volume times (high + low + close) / 3 to volume times VWAP |
| Vwap.VwapFirst | swaram/analytics/volume.py:25-33 | the first bar alone gives its typical price |
| MovingAverages.CalculateEma | swaram/analytics/indicators.py:17-33 | the array-filling loop computes the EMA series, undefined before the seed |
| MovingAverages.EmaIsWeightedSum | swaram/analytics/indicators.py:26-31 | each EMA value is a convex combination of the values so far |
| MovingAverages.EmaWeightFormula | swaram/analytics/indicators.py:26-31 | the weights in closed form |
| MovingAverages.EmaBounds | swaram/analytics/indicators.py:26-31 | the EMA lies between the least and greatest value so far |
| MovingAverages.EmaLinear | swaram/analytics/indicators.py:26-31 | the EMA is linear in the series |
| MovingAverages.CalculateAtr | swaram/analytics/indicators.py:98-116 | ATR is the EMA of the true ranges, undefined below two candles |
| MovingAverages.TrueRangeIsSpan | swaram/analytics/indicators.py:108-114 | the true range is the span of the candle and the previous close |
| MovingAverages.AtrNonNegative | swaram/analytics/indicators.py:108-116 | ATR is never negative on well-formed candles |
| MovingAverages.AtrIsWeightedSum | swaram/analytics/indicators.py:98-116 | where ATR is defined, and its value as the EMA-weighted sum of the true ranges |
| MovingAverages.CalculateMacd | swaram/analytics/indicators.py:73-95 | line, signal at the defined indices, histogram, and nothing when too short |
| MovingAverages.MacdDefined | swaram/analytics/indicators.py:80-95 | for any two periods, the line is defined from the longer one - 1, signal and histogram exactly signal_period - 1 bars later, where hist = line - signal |
| MovingAverages.MacdValues | swaram/analytics/indicators.py:80-95 | the line weighs prices with the fast minus the slow weights; the signal is the EMA of the line from where it starts |
| Rsi.CalculateRsi | swaram/analytics/indicators.py:36-70 | the loop with two running Wilder averages computes the RSI series |
| Rsi.WilderIsWeightedSum | swaram/analytics/indicators.py:57-66 | each average is a convex combination of the changes so far |
| Rsi.WilderWeightFormula | swaram/analytics/indicators.py:57-66 | with the weights in closed form |
| Rsi.RsiExtremes | swaram/analytics/indicators.py:48-68 | RSI is 100 iff no remembered price fell, 0 iff some fell and none rose |
| Rsi.IndexIsShare | swaram/analytics/indicators.py:51-55 | RSI is 100 x gain / (gain + loss) whenever anything moved |
| Rsi.RsiBounds | swaram/analytics/indicators.py:48-68 | every defined RSI lies in [0, 100] |
| Rsi.RsiReflection | swaram/analytics/indicators.py:41-68 | RSI(p) + RSI(-p) = 100 unless both averages are zero, when it is 200 |
| Rsi.ReflectionIffMoved | swaram/analytics/indicators.py:57-68 | the law holds exactly where the price has moved at all or, for period 1, in the last step |
| OrderBook.DeltaWebSocketProvider.ParseOrderbook | swaram/providers/crypto/delta_ws.py:346-417 | no symbol: no event, health untouched; otherwise the message counts as received with its latency and the loops, sorts and formulas produce the specified event or none |
| OrderBook.HealthOfRun | swaram/core/health.py:41-46 | over any run of messages the record counts those with a symbol, is connected iff there was one, and its latency is never negative |
| OrderBook.HealthIsLatest | swaram/core/health.py:41-46 | it shows arrival time and latency of the latest message with a symbol |
| OrderBook.EpochReadIff | swaram/core/time.py:24-31 | an epoch in microseconds is read as such iff it is above 10^14 or zero |
| OrderBook.UnitsAgree | swaram/core/time.py:24-31 | an instant reads the same in seconds, milliseconds and microseconds from 1973 on |
| OrderBook.ImplementationsAgreeIff | swaram/providers/crypto/delta_ws.py:382-398 | exactly when the parser's metrics equal the analyser's unrounded ones |
| OrderBook.ImplementationsAgree | swaram/analytics/orderbook.py:80-110 | with non-negative sizes they always agree on the sorted ladders |
| OrderBook.PublishedWithinRounding | swaram/analytics/orderbook.py:112-123 | every figure the analyser publishes is within half a unit of its last digit of the parser's event |
| OrderBook.BestPrices | swaram/providers/crypto/delta_ws.py:359-385 | there is an event iff both sides of the raw feed offer something, and best bid and ask are the highest and lowest price offered, however written |
| OrderBook.ParsedAreOffered | swaram/providers/crypto/delta_ws.py:361-373 | parsing keeps exactly the price and size pairs that the raw levels carry |
| OrderBook.TopLevelsBest | swaram/providers/crypto/delta_ws.py:375-394 | the published ladder and depth are those of the 20 best levels, and the rest are no better |
| OrderBook.EventFigures | swaram/providers/crypto/delta_ws.py:387-398 | mid, spread, basis points and imbalance of an event by their defining equations, with the crossed and empty cases |
| OrderBook.ArrivalOrderIrrelevant | swaram/providers/crypto/delta_ws.py:375-378 | with distinct prices the event does not depend on the order of the raw levels |
| OrderBook.ImbalanceRange | swaram/analytics/orderbook.py:33-47 | the imbalance lies in [-1, 1] |
| OrderBook.MicropriceBetween | swaram/analytics/orderbook.py:20-30 | uncrossed, the microprice lies between bid and ask |
| OrderBook.MicropriceBalance | swaram/analytics/orderbook.py:20-30 | each price pulls with the other side size: the microprice is nearer the ask iff more is bid |
| OrderBook.WallBound | swaram/analytics/orderbook.py:59-72 | walls times multiplier never exceed the levels looked at |
| OrderBook.DefaultWallBound | swaram/analytics/orderbook.py:50-77 | at most a third of the top 20 levels of a side are walls |
| OrderBook.WallsExact | swaram/analytics/orderbook.py:59-72 | a wall is reported iff a top level reaches multiplier times the average, with its price, size and multiple |
| Collector.ExactlyOnePlace | apps/collectors/delta_runner.py:115-144 | under every interleaving each record is in exactly one of buffer, in-flight session, database, dropped |
| Collector.BatchesAreRuns | apps/collectors/delta_runner.py:121-144 | every batch is a non-empty contiguous run of append order |
| Collector.SessionsAtomic | swaram/storage/postgres.py:46-56 | no session has batches in two places, so it commits all or none |
| Collector.BuffersStaySmall | apps/collectors/delta_runner.py:287-293 | between events the tick, trade and candle buffers are below the batch size and never exceed it |
| Collector.UnsizedBuffersCanGrow | apps/collectors/delta_runner.py:287-293 | order-book and funding buffers can reach any size between timer flushes |
| Collector.GivenUpIsLost | apps/collectors/delta_runner.py:119-144 | what a failed or cancelled flush gives up stays among the dropped and is never committed |
| Collector.FailureEndsIntake | apps/collectors/delta_runner.py:102-168 | a failed flush of the event loop ends the intake for good, a failed timed flush does not touch it |
| Collector.AllCommittedIff | apps/collectors/delta_runner.py:115-168 | with nothing in flight, every record is committed exactly once iff the buffers are empty and no step gave up a batch |
| Collector.CleanShutdownCommitsAll | apps/collectors/delta_runner.py:153-168 | a collector that shut down with its timer at rest has committed every record exactly once, unless a step gave up a batch or the last flush failed with records buffered; cancelling an idle timer is covered |
| Collector.ShutdownCommitsAllIff | apps/collectors/delta_runner.py:115-168 | if only commits fail, a collector that shut down with its timer at rest has committed every record exactly once iff no step gave up a batch |
| Collector.DeltaCollectorRunner.Append | apps/collectors/delta_runner.py:170-276 | one record goes to the end of its buffer, the others are untouched |
| Collector.DeltaCollectorRunner.FlushBuffers | apps/collectors/delta_runner.py:115-144 | an uninterrupted flush hands over every record kind by kind and empties the buffers |
| Collector.DeltaCollectorRunner.ProcessRecord | apps/collectors/delta_runner.py:287-293 | append, then flush iff a sized buffer is full |
| Collector.UninterruptedFlush | apps/collectors/delta_runner.py:119-144 | the step relation without interruption does what the object's flush does |

## Left out

- Floating point: reals are exact; only `round` to 2 and 4 decimals is modelled. A float run can differ from the model by rounding error.
- The four price arrays and the timestamps are one sequence of bars, so arrays of different lengths are not modelled; periods and bin counts are at least 1 and window sizes non-negative.
- Bollinger bands, SMA, realised volatility and the correlation matrix: logarithms and library internals.
- Backtest.BacktestEngine.CalculatePerformanceMetrics: `np.std` and `np.sqrt(252)` are any non-negative reals with the right squares, passed in.
- OrderBook.DeltaWebSocketProvider.ParseOrderbook: the symbol table behind `to_canonical` is a parameter, and so are the two readings of the clock; converting texts to numbers is not modelled.
- The detail texts of events, reason texts, wall-clock timestamps, telemetry and logging.
- Swing points, events, order blocks and trades are values: nothing in the source updates them after they are appended. Gap zones, which are updated in place, are objects.
- VolumeProfile.CalculateVolumeProfile: `np.histogram` is its exact-arithmetic definition; `np.argsort` is any answer it may give, passed in.
- Collector.ExactlyOnePlace: the event loop's steps are those between its awaits; what Redis, health updates and the bootstrap do is not modelled, and a commit that raises is taken to have stored nothing.
- The collector model allows more interleavings than occur. In the source adding a batch to a session never suspends (swaram/storage/repositories/market_repo.py:19-37), so the takes of one flush are not interrupted, and a flush fails where a batch is added or at the commit. What holds for all runs of the model holds for those.
- Backtest.BacktestEngine.ExecuteMarketOrder: a side is buy or sell. The source executes any other text as a sell, but negates a pair's P&L only for the text "sell"; such texts are not modelled.
- FastAPI routes other than the candle loop, WebSocket reconnection, REST clients, storage schemas and the remaining analytics: plumbing, or finite tables that would only add easy members.
