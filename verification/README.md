# Verified model of the CLMM backtester and its API helpers

This project models four parts of the repository and proves what they keep over whole runs, over
every interleaving or for every input:

- **The backtest engine** (`Backtest`, `BacktestRuns`, `Triggers`, `Cadence`, `CandleRanges`,
  `Retouch`, `Valuation`, `Drawdown`, `FeeFlow`): one position replayed over a price path under any
  of the strategies. `Backtest.RunSingle` is the loop with its local variables, proved to return the
  result of a functional specification, and `Labels.RunNamed` adds the strategy name; the theorems
  are about that specification, and `Triggers` and `Valuation` say what it means in prices.
  `Labels`, `Texts`, `Decimals`, `LabelRoundTrip` and `LabelText` are the strategy label printer and
  parser.
- **Fee attribution** (`StepVolume`, `FeeGrowth`, `LocalFees`, `SnapshotJoin`, `Ranking`, with
  `Buckets`): daily volume scaling, Q64.64 fee growth with its floors, the decoded and timing
  merge in its two copies, the one-sweep snapshot join, and the ranking of a grid.
- **The event bus and the rate limiter** (`EventBus`, `EventBusRuns`, `Retry`, `RateLimiter`):
  objects behind locks, first as classes whose methods state their whole new state, then as
  transition systems over all interleavings or histories with a monotone clock.
- **The base64 codec** (`Base64`): an encoder whose accumulator wraps and a decoder whose
  accumulator is masked, related through the bit stream they carry.

`dafny verify dfyconfig.toml` checks everything.

Where the code and its own words disagree, the model follows the code, and the exact extent is a
theorem:

- The comment on step data says the day total matches the pool; it does exactly when no candle is
  idle, or on a day without any volume when its candles are as many as the steps per day
  (`StepVolume.DayMatchesPool`, `StepVolume.IdleCandleAddsVolume`). The uniform fallback is
  `daily_vol / steps_per_day`, not `daily_vol / 24`.
- `max_requests` is documented as the maximum per minute; it is one exactly when it is 0 or 1
  (`RateLimiter.PerMinuteIff`), because a minute that straddles two windows admits up to twice the
  maximum less one (`RateLimiter.MinuteBound`, `RateLimiter.MinuteBoundIsReached`,
  `RateLimiter.LimitOfTwoFails`).
- Base64 text of length 2 modulo 3 carries one padding sign too many
  (`Base64.AgreesWithRfc4648`, `Base64.TwoBytesOverpadded`).
- A dedup key can fail to tell two events apart only when a colon is in the type of one and in the
  id of the other (`EventBus.KeysCollide`, `EventBus.CollidingPair`). The envelope constructor draws
  UUIDs, so events it builds never collide (`EventBus.IdsIdentify`); other ids can come from the
  public field or from deserialization.
- `publish_with_retry` overflows its backoff product at the 60th failure. A development build
  panics there (`Retry.PublishWithRetry`); a release build goes on, sleeps not at all when its
  attempt counter is a multiple of 64, and with 255 retries never gives up
  (`Retry.WrappedSleepsGrow`, `Retry.GivesUp`).
- A retouch range of width 2 or more, which the grid reaches with 200 percent, starts with a lower
  bound that is not positive (`Retouch.LowerStaysPositive`, `Retouch.WideStartsBelow`).
- `parse_strategy_label` is described as reading labels back; it does so for exactly the
  strategies of `LabelRoundTrip.Kept` (`LabelRoundTrip.ExactlyKept`,
  `LabelRoundTrip.IntervalIsLost`).
- The timing proxy counts transactions after the last step, so a run can read less than the pool
  fees that were distributed (`LocalFees.ReadInFull`, `LocalFees.LateTransactionTakesAll`).

## Model

| member | source | states |
|---|---|---|
| `Labels.RunNamed` | crates/cli/src/backtest_engine.rs:304-881 | A whole backtest returns exactly the initial range in USD, the strategy name and the summary of the specification run, the empty-path result included. |
| `Backtest.RunPath` | crates/cli/src/backtest_engine.rs:501-826 | The loop over a dozen local variables ends in the specified state of the whole path. |
| `Backtest.TakeStep` | crates/cli/src/backtest_engine.rs:501-826 | One turn of the loop is one step of the specification, for every state and every strategy. |
| `Backtest.Observe` | crates/cli/src/backtest_engine.rs:501-617 | Before the trigger: clocks, in-range test, fee source and fee share, equity, peak and drawdown are those of the specification. |
| `Backtest.Rebalance` | crates/cli/src/backtest_engine.rs:679-825 | After a trigger: cost, counters, the new range of the strategy, the re-deployed liquidity and the fee-share model are those of the specification. |
| `Backtest.IndexSwapsByStep` | crates/cli/src/backtest_engine.rs:276-296 | The map holds for each step exactly its swaps in input order, and no empty bucket. |
| `Backtest.ReadPoolFees` | crates/cli/src/backtest_engine.rs:521-538 | Pool fees come from the swaps if given, else from the snapshot index, else from candle volume. |
| `Backtest.CandleBand` | crates/cli/src/backtest_engine.rs:719-726 | The in-place minimum and maximum of a candle are the lowest and highest close. |
| `Backtest.LowestAndHighest` | crates/cli/src/backtest_engine.rs:719-726 | Both are closes of the candle and enclose all of them. |
| `Backtest.FindClosedBucket` | crates/cli/src/engine/indicators.rs:71-108 | The backward scan with its two updates returns the bucket of the specification. |
| `Backtest.OpenRange` | crates/cli/src/backtest_engine.rs:687-791 | The strategy dispatch, with the mean of the window, the candle scans and every fallback, opens the specified range. |
| `BacktestRuns.CostIsCount` | crates/cli/src/backtest_engine.rs:679-683 | In every reached state the total cost is the number of rebalances times the transaction cost. |
| `BacktestRuns.ZeroLiquidityAbsorbs` | crates/cli/src/backtest_engine.rs:679-817 | Once liquidity is zero no later step rebalances, pays or moves the range. |
| `BacktestRuns.Bisimilar` | crates/cli/src/backtest_engine.rs:501-826 | Two recentering strategies whose triggers agree on every reached state go through the same states. |
| `BacktestRuns.SameResult` | crates/cli/src/backtest_engine.rs:304-881 | Such strategies report the same range and summary. |
| `BacktestRuns.AlwaysCentred` | crates/cli/src/backtest_engine.rs:784-793 | A recentering strategy without manual bounds always has a range around some price with the configured width. |
| `BacktestRuns.WideThreshold` | crates/cli/src/backtest_engine.rs:621-642 | On a centred range an immediate threshold above half the width fires exactly when the price leaves the range. |
| `BacktestRuns.ThresholdIsOorRecenter` | crates/cli/src/backtest_engine.rs:620-642 | Over whole runs that makes such a threshold strategy and out-of-range recentering report the same. |
| `BacktestRuns.LowerLimitDecides` | crates/cli/src/backtest_engine.rs:647-661 | An IL limit with a closing limit reports what the smaller of both limits alone reports. |
| `Triggers.AlwaysAnchored` | crates/cli/src/backtest_engine.rs:784-793 | The range of a recentering strategy is always around the price of its last rebalance, or the first price. |
| `Triggers.OorFires` | crates/cli/src/backtest_engine.rs:621 | Out-of-range recentering fires at a step exactly when liquid and its price is outside the band around the price of the last rebalance. |
| `Triggers.ImmediateThresholdFires` | crates/cli/src/backtest_engine.rs:622-642 | Over whole runs an immediate threshold fires exactly when liquid and the price left that band or moved by the threshold from the price of the last rebalance. |
| `Triggers.ThresholdFires` | crates/cli/src/backtest_engine.rs:622-642 | A threshold with an interval fires in the band exactly on such a move, and outside it exactly when the interval since the last rebalance has passed. |
| `Triggers.StepsCounted` | crates/cli/src/backtest_engine.rs:507-682 | The step counter is the number of steps since the last rebalance. |
| `Triggers.IlLimitFires` | crates/cli/src/backtest_engine.rs:647-661 | The IL limit fires exactly when liquid and outside that band, or after its grace steps when position value plus costs drifts by a limit from half the capital grown with each price. |
| `Triggers.TicksTile` | crates/cli/src/backtest_engine.rs:509-515 | By ticks, ranges that share an edge cover their union and no tick twice; a range holds its lower edge. |
| `Triggers.NegativeBoundsAreZero` | crates/cli/src/backtest_engine.rs:512-513 | By ticks a negative bound counts as zero. |
| `Triggers.PriceEdges` | crates/cli/src/backtest_engine.rs:509-510 | By price a range holds both its edges, also when ticks are asked for and the step has none. |
| `Cadence.StepCadence` | crates/cli/src/backtest_engine.rs:646-682 | While liquid, step-counted strategies have rebalanced exactly floor(n / interval) times after n steps. |
| `Cadence.FiresEveryNth` | crates/cli/src/backtest_engine.rs:646-673 | They fire exactly at the multiples of the interval. |
| `Cadence.BollingerCadence` | crates/cli/src/backtest_engine.rs:663-683 | Phase and count of a Bollinger run after n steps. |
| `Cadence.BollingerFires` | crates/cli/src/backtest_engine.rs:663-670 | Bollinger fires first at step max(window, interval) and then exactly every interval. |
| `Cadence.ClockAlways` | crates/cli/src/backtest_engine.rs:502-507 | The accumulated seconds are the time since the last rebalance, or since the start. |
| `Cadence.ClockOnAnyPath` | crates/cli/src/backtest_engine.rs:502-507 | For timestamps in any order they add up the forward moves since then, up to the largest 64-bit number. |
| `Cadence.FiresAfterInterval` | crates/cli/src/backtest_engine.rs:643-676 | Periodic and time-candle strategies fire exactly when liquid and at least the interval has passed, so never closer. |
| `Cadence.DelayedThreshold` | crates/cli/src/backtest_engine.rs:627-632 | A delayed threshold out of range fires exactly when liquid and its minimum interval has passed. |
| `Cadence.ShortPeriodicIsStatic` | crates/cli/src/main.rs:4110-4116 | On a path shorter than the interval a periodic run reports what the static run reports. |
| `Cadence.PeriodicIdleIff` | crates/cli/src/main.rs:4110-4116 | A periodic run with liquidity never rebalances exactly when the path is shorter than the interval. |
| `Cadence.HourlyPeriodic` | crates/cli/src/backtest_engine.rs:643-645 | On hourly steps and while liquid a periodic run rebalances exactly at the positive multiples of its hours, or at every step for 0. |
| `Cadence.PeriodicIsAStepLate` | crates/cli/src/backtest_engine.rs:643-646 | On hourly steps it rebalances exactly one step after the step-counted strategy of the same number. |
| `CandleRanges.CandleMeaning` | crates/cli/src/engine/indicators.rs:48-63 | The candle is the last aligned stretch complete at the step, and there is none exactly while the first is incomplete. |
| `CandleRanges.BucketMeaning` | crates/cli/src/engine/indicators.rs:71-108 | On chronological steps the found stretch is exactly the steps of the last fully closed time bucket. |
| `CandleRanges.BandIsTight` | crates/cli/src/backtest_engine.rs:727-728 | A candle with two prices gives a range whose edges are prices of the candle and which encloses all of them. |
| `CandleRanges.FlatStretch` | crates/cli/src/backtest_engine.rs:729-742 | A candle that never moved opens a range of the configured width around its price. |
| `CandleRanges.NonPositiveStretch` | crates/cli/src/backtest_engine.rs:729-742 | A candle that touched zero or less opens one around its close. |
| `CandleRanges.NoCandleYet` | crates/cli/src/backtest_engine.rs:743-751 | Before a candle has closed the range is around the first price of the path. |
| `CandleRanges.CandleOpens` | crates/cli/src/backtest_engine.rs:714-751 | A candle rebalance of a run opens the last aligned complete candle: its extreme prices when they move above zero, else the width around its close; before the first candle, the width around the first price. |
| `CandleRanges.TimeCandleOpens` | crates/cli/src/backtest_engine.rs:752-783 | A time-candle rebalance does so for the steps of the last whole interval of wall-clock time, or the first price when there are none. |
| `CandleRanges.BollingerOpens` | crates/cli/src/backtest_engine.rs:693-713 | A Bollinger rebalance of a run opens the bands of the last closes, oldest first, or a range around their mean. |
| `Retouch.RetouchStep` | crates/cli/src/backtest_engine.rs:662-696 | A retouch happens exactly out of range, armed and liquid; it disarms until the next in-range step. |
| `Retouch.RetouchFires` | crates/cli/src/backtest_engine.rs:516-695 | Over a run a retouch happens exactly when liquid, out of range and not yet done since the price was last in range, the first excursion included. |
| `Retouch.InRangeBetweenRetouches` | crates/cli/src/backtest_engine.rs:516-519 | Between any two retouches of a run there is an in-range step. |
| `Retouch.RetouchWidth` | crates/cli/src/backtest_engine.rs:105-124 | One retouch multiplies the width by 1 + offset when that is positive and keeps it otherwise. |
| `Retouch.WidthOverRun` | crates/cli/src/backtest_engine.rs:105-124 | After k retouches the width is the initial width times (1 + offset)^k, or unchanged. |
| `Retouch.LowerStaysPositive` | crates/cli/src/backtest_engine.rs:105-124 | On positive prices the lower bound is positive in every state of the run if and only if the width is below 2. |
| `Retouch.WideStartsBelow` | crates/cli/src/main.rs:3615-3616 | A width of 2, the largest the grid reaches, starts with a lower bound of exactly 0, and a larger one at or below it. |
| `Retouch.PriceOnEdge` | crates/cli/src/backtest_engine.rs:105-124 | With zero offset a retouch puts the price that was outside on an edge and shifts the other edge by the same amount. |
| `Retouch.EdgeAfterRetouch` | crates/cli/src/backtest_engine.rs:105-124 | With any offset a price above the range gives the new upper edge and any other the new lower edge, each moved by the offset. |
| `Drawdown.OnePassIsMax` | crates/cli/src/backtest_engine.rs:404-406 | The one-pass computation is the largest relative loss over all pairs of points and lies in [0, 1]. |
| `Drawdown.RunMarks` | crates/cli/src/backtest_engine.rs:608-617 | The run holds peak and drawdown of its equity curve, which starts with the capital. |
| `Drawdown.CurveNotNegative` | crates/cli/src/backtest_engine.rs:597-608 | With non-negative amounts and fees equity is never negative. |
| `Drawdown.ReportedDrawdown` | crates/cli/src/backtest_engine.rs:608-617 | Whenever equity is never negative the reported drawdown is that largest loss and lies in [0, 1]. |
| `Valuation.HodlFollowsPrices` | crates/cli/src/engine/hodl.rs:8-28 | The benchmark ends at half the capital times the growth of each price, or at 0 without positive first prices. |
| `Valuation.HodlKeepsCapital` | crates/cli/src/engine/hodl.rs:4-7 | On a path that ends at its first prices holding keeps the capital. |
| `Valuation.HoldingIsNeutral` | crates/cli/src/backtest_engine.rs:834-851 | A position that always holds the benchmark ends at the benchmark plus its fees, and beats holding by exactly its fees. |
| `Valuation.OpeningKeepsValue` | crates/cli/src/backtest_engine.rs:376-389 | With estimates that are off by at most eps the first position is worth the capital up to eps. |
| `Valuation.RebalanceKeepsValue` | crates/cli/src/backtest_engine.rs:679-686 | And a rebalance takes the transaction cost out of the position, never below zero, and nothing else. |
| `Valuation.ManualBoundsReported` | crates/cli/src/backtest_engine.rs:348-380 | Manual USD bounds are reported exactly as given, or scaled by the quote over its floor when the quote is below it. |
| `Valuation.CentredBoundsReported` | crates/cli/src/backtest_engine.rs:348-380 | Every other range is reported around the first price in USD with the configured width. |
| `Valuation.ReportIsAccounted` | crates/cli/src/backtest_engine.rs:846-881 | Every report: profit is the final value less the capital, vs_hodl is the final value less the benchmark, and the cost is the count times the transaction cost. |
| `Valuation.ReportCountsTheRun` | crates/cli/src/backtest_engine.rs:846-881 | Reported rebalances and fees are the firings and the earnings of the steps of the run. |
| `Valuation.EmptyPathReport` | crates/cli/src/backtest_engine.rs:325-346 | Without a path the capital is kept, nothing is counted, and the range is around the given center. |
| `FeeFlow.FeesAreEarned` | crates/cli/src/backtest_engine.rs:565-585 | Total fees are the sum over steps of what each in-range step earns. |
| `FeeFlow.TimeInRange` | crates/cli/src/backtest_engine.rs:828-833 | Time in range is the fraction of in-range steps and lies in [0, 1]. |
| `FeeFlow.EarnedWithinPool` | crates/cli/src/backtest_engine.rs:540-569 | With shares in [0, 1] the fees earned are at most the pool fees read. |
| `FeeFlow.OneMoreBucket` | crates/cli/src/backtest_engine.rs:286-293 | A swap falls in exactly one hourly bucket: one more bucket adds exactly its swaps to the window. |
| `FeeFlow.BucketsConserve` | crates/cli/src/backtest_engine.rs:521-533 | The buckets read by a run together hold exactly the swaps of the window it spans. |
| `FeeFlow.SwapFeesConserved` | crates/cli/src/backtest_engine.rs:276-296 | Reported fees are at most the fees of the swaps in that window. |
| `FeeFlow.ModelAlwaysCurrent` | crates/cli/src/backtest_engine.rs:471-478 | In every state the fee-share model carries the current liquidity. |
| `FeeFlow.WithinRealism` | crates/cli/src/backtest_engine.rs:243-251 | Candle fees earned never exceed the expected fees at full time in range, and equal them when never out of range. |
| `FeeFlow.WiderStaticDominates` | crates/cli/src/backtest_engine.rs:348-373 | With shares that ignore the range a wider static range has at least as many in-range steps and as much fees after every step. |
| `FeeFlow.WiderStaticReports` | crates/cli/src/backtest_engine.rs:501-585 | And so in the reported time in range and fees. |
| `FeeFlow.LargerWidthWidens` | crates/cli/src/backtest_engine.rs:348-373 | A larger width parameter gives such a wider range. |
| `FeeFlow.ShareMeaning` | crates/cli/src/engine/fees.rs:17-32 | A share times the active liquidity it is measured against (that of the step first, with a snapshot index) is the position liquidity, capped; without any it is the share of the step. |
| `FeeFlow.SnapshotFeesRead` | crates/cli/src/backtest_engine.rs:534-536 | Without swaps a run reads exactly the buckets of its snapshot index that lie on the path. |
| `FeeFlow.OneTierFees` | crates/cli/src/backtest_engine.rs:525-529 | With one tier the fees of a window are that tier of its volume, whether swaps state a fee or not. |
| `FeeFlow.StatedFeeWins` | crates/cli/src/backtest_engine.rs:525-529 | A stated fee is taken as it is, whatever the tier. |
| `StepVolume.DayTotals` | crates/cli/src/backtest_engine.rs:169-176 | The map holds each day with a candle and its candle volume. |
| `StepVolume.BuildStepData` | crates/cli/src/backtest_engine.rs:178-238 | Every candle becomes the specified step. |
| `StepVolume.DayScaling` | crates/cli/src/backtest_engine.rs:205-209 | The step volumes of a day sum to the pool volume if anything traded, plus an even share for every idle candle. |
| `StepVolume.DayMatchesPool` | crates/cli/src/backtest_engine.rs:126-134 | The day total matches the pool exactly when no candle is idle, or on a dead day when the idle candles are as many as steps per day. |
| `StepVolume.IdleCandleAddsVolume` | crates/cli/src/backtest_engine.rs:205-209 | A day with one traded and one idle candle and a pool volume of 24 gets 25. |
| `StepVolume.SharesAreProportions` | crates/cli/src/backtest_engine.rs:187-220 | The liquidity share of every step is in [0, 1] for every valid override. |
| `StepVolume.QuoteMeaning` | crates/cli/src/backtest_engine.rs:219-221 | The quote of a step is the one given for its very timestamp, else 1. |
| `StepVolume.StepIsConsistent` | crates/cli/src/backtest_engine.rs:160-168 | The USD price of a step is its close times its quote, and a candle volume its tokens at that price. |
| `StepVolume.OwnVolume` | crates/cli/src/backtest_engine.rs:211-218 | Without pool data a step keeps what its candle traded, or a million when idle, and a share of a hundredth unless overridden. |
| `StepVolume.PoolDayMeaning` | crates/cli/src/backtest_engine.rs:187-191 | A pool day is used exactly when both maps know the day with values that are not zero. |
| `StepVolume.UnknownDay` | crates/cli/src/backtest_engine.rs:189-193 | A day without pool data falls back to a million and a hundredth. |
| `StepVolume.ShareOfPool` | crates/cli/src/backtest_engine.rs:195-199 | On a pool day the share times the TVL is the capital, capped at the TVL. |
| `StepVolume.DayMeaning` | crates/cli/src/backtest_engine.rs:170-174 | The day of a candle is the whole day its timestamp lies in. |
| `FeeGrowth.FileInterval` | crates/cli/src/main.rs:2268-2332 | One snapshot interval adds its USD value to the bucket of its middle, with every early exit. |
| `FeeGrowth.FiledAtMiddle` | crates/cli/src/main.rs:2301-2309 | A filed interval goes to the one step whose span holds its middle, which lies inside the interval. |
| `FeeGrowth.SnapshotFees` | crates/cli/src/main.rs:2265-2371 | The loop returns the filed contributions of all intervals, and nothing for fewer than two snapshots or no contribution. |
| `FeeGrowth.NothingLost` | crates/cli/src/main.rs:2306-2331 | All contributions are positive, lie on the path, and are exactly what the buckets together hold. |
| `FeeGrowth.NeverSaturates` | crates/cli/src/main.rs:2258-2260 | The 256-bit product of a growth delta and a liquidity never saturates. |
| `FeeGrowth.IntervalIsExact` | crates/cli/src/main.rs:2246-2261 | An interval is the exact floor modulo 2^128, hence exact if and only if the quotient fits 128 bits. |
| `FeeGrowth.FloorsBelow` | crates/cli/src/main.rs:2246-2296 | Extra snapshots never create fees: the floors sum to at most the single floor. |
| `FeeGrowth.FloorsAbove` | crates/cli/src/main.rs:2246-2296 | With strictly increasing times n intervals lose at most n - 1 raw units. |
| `FeeGrowth.CountersTelescope` | crates/cli/src/main.rs:2280-2291 | The protocol-counter fallback telescopes exactly for monotone counters. |
| `FeeGrowth.BucketsHoldAtMost` | crates/cli/src/main.rs:2246-2331 | With constant liquidity and growing counters the USD buckets together hold at most the single floors of both tokens at their highest unit values. |
| `FeeGrowth.BucketsHoldExactly` | crates/cli/src/main.rs:2265-2331 | With constant positive unit values, later times and all middles on the path the buckets hold exactly the raw fees of both tokens at their values. |
| `FeeGrowth.BucketsHoldAtLeast` | crates/cli/src/main.rs:2246-2331 | And so at least the single floors less one raw unit of each token per extra interval. |
| `FeeGrowth.UsdIsWorth` | crates/cli/src/main.rs:2311-2327 | Raw units of both tokens are valued at the later snapshot of their interval and the step of its middle. |
| `FeeGrowth.GrowthOfBothTokens` | crates/cli/src/main.rs:2278-2291 | Each token has the floor of its own growth over one liquidity. |
| `FeeGrowth.CountersOfBothTokens` | crates/cli/src/main.rs:2283-2291 | Where no growth is known, each token has the difference of its own counter. |
| `FeeGrowth.CountersStandIn` | crates/cli/src/main.rs:2280-2291 | Without growth at both ends or any liquidity the difference of the counters counts, never below zero. |
| `FeeGrowth.ShrinkingIsFree` | crates/cli/src/main.rs:2254-2256 | Growth that goes back counts as none. |
| `LocalFees.DecodedSwapFees` | crates/cli/src/local_swap_fees.rs:109-196 | Each bucket holds the fees of exactly the decoded rows that pass every filter; no rows give no map. |
| `LocalFees.RawSwapCounts` | crates/cli/src/local_swap_fees.rs:29-78 | Each bucket counts exactly the timed, not failed transactions, past the last step too. |
| `LocalFees.BucketSpan` | crates/cli/src/local_swap_fees.rs:68-72 | A time is filed in a bucket exactly when it lies in the span of that bucket. |
| `LocalFees.DistributePoolFees` | crates/cli/src/local_swap_fees.rs:81-106 | The loop gives each counted bucket its share of the pool fees. |
| `LocalFees.TimingIsExact` | crates/cli/src/local_swap_fees.rs:80-106 | With counts there is a timing map exactly when the pool fees are positive, on the counted buckets, summing exactly to the pool fees. |
| `LocalFees.SharesInProportion` | crates/cli/src/local_swap_fees.rs:95-104 | Reading the timing map up to a step gives the pool fees in proportion to the counts read. |
| `LocalFees.ReadInFull` | crates/cli/src/local_swap_fees.rs:72-76 | What a run reads of the timing map is at most the pool fees, and all of them exactly when no counted transaction lies past the path. |
| `LocalFees.LateTransactionTakesAll` | crates/cli/src/local_swap_fees.rs:68-73 | One transaction an hour after the start of a one-step path: less than the pool fees is read. |
| `LocalFees.BuildLocalPoolFees` | crates/cli/src/local_swap_fees.rs:200-245 | The library function is the library merge of decoded and timing fees. |
| `LocalFees.MergeInline` | crates/cli/src/main.rs:2547-2630 | The two inline blocks of the backtest command are the inline merge. |
| `LocalFees.CopiesAgree` | crates/cli/src/main.rs:2547-2630 | On the same rows the inline copy equals the library function without Dune swaps, and keeps the Dune index otherwise. |
| `LocalFees.EachBucket` | crates/cli/src/local_swap_fees.rs:231-243 | Each bucket is the decoded total where a decoded swap counted, else its timing share, else absent. |
| `LocalFees.FeeOfTokens` | crates/cli/src/local_swap_fees.rs:183-190 | A swap of whole A tokens costs the rate of their USD price, any other direction the rate of its B tokens at the quote. |
| `LocalFees.DecodedCounts` | crates/cli/src/local_swap_fees.rs:139-196 | A decoded row counts exactly when it succeeded, has a time on the path and an amount, a decode status where asked for, and a positive fee. |
| `LocalFees.DecodedFeesTotal` | crates/cli/src/local_swap_fees.rs:109-196 | The buckets of the returned map together hold the fee rate times the USD value of all inputs that count. |
| `LocalFees.CountedMeans` | crates/cli/src/local_swap_fees.rs:50-73 | A raw row counts exactly when it has a time from the start of the path on and no error text. |
| `LocalFees.TimingSharesCandleFees` | crates/cli/src/local_swap_fees.rs:85-90 | The fees shared out by timing are those a run on candle volume reads. |
| `SnapshotJoin.ForwardFill` | crates/cli/src/main.rs:1863-1890 | The in-place sweep gives every step the snapshot of a search for the latest step time so far, for all inputs. |
| `SnapshotJoin.SearchOnwards` | crates/cli/src/main.rs:1867-1870 | Going on from an earlier stop is a search for the later of both times. |
| `SnapshotJoin.SearchFinds` | crates/cli/src/main.rs:1867-1870 | On sorted snapshots a search finds exactly the last snapshot at or before the time, or the first. |
| `SnapshotJoin.SweepIsFreshSearch` | crates/cli/src/main.rs:1863-1870 | On non-decreasing times the sweep assigns each step exactly what a fresh search for its own time would. |
| `SnapshotJoin.ShareIsAShare` | crates/cli/src/main.rs:1882-1891 | The assigned share is in [0, 1], capital over TVL when that fits, and clamped otherwise. |
| `SnapshotJoin.TokenIsWorth` | crates/cli/src/main.rs:1871-1882 | Whole tokens of a mint are worth its price, A at the USD price and B at the quote; other mints nothing. |
| `SnapshotJoin.PoolIsWorth` | crates/cli/src/main.rs:1883-1885 | A pool of both tokens is worth both, whatever the letter case of its mints. |
| `SnapshotJoin.VaultsCommute` | crates/cli/src/main.rs:1883-1885 | The order of the two vaults does not matter. |
| `SnapshotJoin.CaseOnly` | crates/cli/src/main.rs:1873-1876 | Mints are compared up to the case of ASCII letters and nothing else. |
| `Ranking.TotalPreorder` | crates/cli/src/main.rs:200-255 | For every objective the comparator is antisymmetric and transitive, and never ranks a lower score first. |
| `Ranking.ComparatorMeaning` | crates/cli/src/main.rs:200-255 | One row ranks before another exactly when its first differing key of the objective is higher, or all keys are equal and its name comes first. |
| `Ranking.StringMeaning` | crates/cli/src/main.rs:225 | Names compare alphabetically: the first difference decides and a proper prefix comes first. |
| `Ranking.SortIsStable` | crates/cli/src/main.rs:200 | The reference sort is ordered and keeps the rows of each tie class in order. |
| `Ranking.StableSortIsUnique` | crates/cli/src/main.rs:200 | Any two stable sorts of the same rows are the same sequence. |
| `Ranking.FilterCommutesWithSort` | crates/cli/src/main.rs:4046-4051 | Filtering after any stable sort is the stable sort of the filtered grid. |
| `Ranking.BestIsBest` | crates/cli/src/main.rs:4058-4066 | The reported row passes the filters, no passing row ranks above it, among its ties it came first; there is none exactly when no row passes. |
| `Ranking.ResultIsBalanced` | crates/cli/src/backtest_engine.rs:846-862 | Accounting identity of every reported summary: IL times capital is vs_hodl minus fees after costs. |
| `Ranking.CompositeBlends` | crates/cli/src/main.rs:3633-3639 | The composite score is (1 - alpha) of the fees after costs plus alpha of the worse of those and vs_hodl. |
| `Ranking.CompositeIsTheWorse` | crates/cli/src/main.rs:3633-3639 | With alpha = 1 the score of a run is the worse of vs_hodl and fees after costs. |
| `Ranking.PnlAgainstHolding` | crates/cli/src/main.rs:3629-3631 | The profit score of a run exceeds its vs_hodl score by what holding made. |
| `Ranking.PnlAndVsHodlAgree` | crates/cli/src/main.rs:3629-3631 | So both objectives order any two runs over one path and capital alike. |
| `Ranking.HoldingScoresItsFees` | crates/cli/src/main.rs:3629-3632 | A position that holds the benchmark scores the fees it earned, under vs_hodl and under fees. |
| `Ranking.RiskAdjusted` | crates/cli/src/main.rs:3641-3648 | The risk-adjusted score times one plus the drawdown is the profit; it moves the profit towards zero by half at most. |
| `Ranking.FiltersMean` | crates/cli/src/main.rs:4046-4051 | A reported row passes exactly when the steps in range reach the demanded fraction and equity never fell by more than the allowed one. |
| `Labels.ParseStrategyLabel` | crates/cli/src/backtest_engine.rs:1005-1122 | The parser with its prefix dispatch is the specified parse. |
| `Labels.ParseIlLimit` | crates/cli/src/backtest_engine.rs:1037-1064 | The loop over the parts of an IL label is the specified fold, with its fall-through of unparsable parts. |
| `Labels.ParseBands` | crates/cli/src/backtest_engine.rs:1074-1090 | The same for Bollinger labels. |
| `Labels.ParseLastCandle` | crates/cli/src/backtest_engine.rs:1091-1120 | The same for both candle labels. |
| `LabelRoundTrip.RoundTrip` | crates/cli/src/backtest_engine.rs:407-469 | Parsing a printed label gives the strategy with percentages as shown; a threshold loses its interval and delay. |
| `LabelRoundTrip.ExactlyKept` | crates/cli/src/backtest_engine.rs:1003-1122 | Parsing gives back the very strategy if and only if its percentages have no hidden decimals and a threshold is immediate without interval. |
| `LabelRoundTrip.IntervalIsLost` | crates/cli/src/backtest_engine.rs:1010-1019 | A threshold of 5 percent with a minimum interval of one hour comes back without the interval. |
| `LabelRoundTrip.NameTellsStrategy` | crates/cli/src/backtest_engine.rs:325-329 | The name a run reports parses to its strategy as shown, and to none on an empty path. |
| `LabelRoundTrip.NoConfusion` | crates/cli/src/backtest_engine.rs:1005-1122 | Strategies that print the same label are the same for the parser; no two kinds are confused. |
| `LabelText.IntervalIsShown` | crates/cli/src/backtest_engine.rs:409-424 | Equal threshold labels mean equal intervals, exits and shown percentages, although the parser drops the first two. |
| `LabelText.DelayedThresholdReads` | crates/cli/src/backtest_engine.rs:409-424 | A 5 percent threshold with three hours of delay reads threshold_5%_min3h_oordelayed. |
| `LabelText.IlLimitWithCloseReads` | crates/cli/src/engine/tests.rs:572-579 | An IL limit of 5 percent closing at 12 percent after 3 steps reads il_limit_5%_close_12%_grace_3. |
| `LabelText.RetouchReadsTenth` | crates/cli/src/engine/tests.rs:557-562 | An offset of 0.001 reads retouch_shift_off0.1000pct. |
| `LabelText.LastCandlesRead` | crates/cli/src/engine/tests.rs:595-616 | Candle labels show the length and then the interval, in steps or in seconds. |
| `LabelText.SpaceAround` | crates/cli/src/backtest_engine.rs:1005-1006 | White space around a label does not change what it parses to. |
| `LabelText.GraceSpellings` | crates/cli/src/backtest_engine.rs:1037-1064 | The grace steps of an IL label may follow the word, be joined to it, or stand alone. |
| `Decimals.NumeralRoundTrip` | crates/cli/src/backtest_engine.rs:407-469 | Reading back a shown decimal gives its sign, digits and number of decimals. |
| `Decimals.RoundedIsExact` | crates/cli/src/backtest_engine.rs:407-469 | Showing d decimals keeps a number if and only if it has no more. |
| `EventBus.InProcessEventBus.constructor` | crates/api/src/events.rs:74-85 | A new bus has no channels, keys, dead letters or counts. |
| `EventBus.InProcessEventBus.CleanupSeen` | crates/api/src/events.rs:107-111 | Keeps exactly the keys younger than the time to live. |
| `EventBus.InProcessEventBus.SenderFor` | crates/api/src/events.rs:87-105 | Returns the channel of the type, opening it only when missing. |
| `EventBus.InProcessEventBus.Publish` | crates/api/src/events.rs:126-142 | The whole new state of an uninterrupted publish. |
| `EventBus.InProcessEventBus.PushDlq` | crates/api/src/events.rs:170-176 | The queue becomes the last 10000 of itself and the event. |
| `EventBus.DlqKeepsTheLast` | crates/api/src/events.rs:170-176 | After any pushes the queue is the last min(n, 10000) events in order. |
| `EventBus.QueueHolds` | crates/api/src/events.rs:170-176 | Entry k of the queue is the event pushed that many before the end, and there are at most ten thousand. |
| `EventBus.KeysCollide` | crates/api/src/events.rs:113-115 | Two different events share a key exactly when a colon lets the type of one overlap the id of the other. |
| `EventBus.KeyIdentifies` | crates/api/src/events.rs:113-115 | With colon-free types a key identifies type and id. |
| `EventBus.IdsIdentify` | crates/api/src/events.rs:27-39 | With colon-free ids, as the envelope constructor draws them, a key identifies type and id whatever the types. |
| `EventBus.CollidingPair` | crates/api/src/events.rs:113-115 | The events a with id b:c and a:b with id c share a key. |
| `EventBusRuns.DedupAlways` | crates/api/src/events.rs:107-136 | Invariant of every interleaving: remembered keys, their claims and the calls in flight fit together. |
| `EventBusRuns.AcceptedApart` | crates/api/src/events.rs:126-136 | Over every interleaving two accepted publishes of one key are at least 3600 s apart. |
| `EventBusRuns.RefusedOnlyWithinTtl` | crates/api/src/events.rs:126-134 | A publish is refused only if its key was accepted within the time to live. |
| `EventBusRuns.ChannelAlways` | crates/api/src/events.rs:87-105 | Invariant of every interleaving: channels are distinct and every held channel is that of its type. |
| `EventBusRuns.ChannelsNeverReplaced` | crates/api/src/events.rs:87-105 | No later step of any call replaces a channel, despite the read-then-write race. |
| `EventBusRuns.SubscribersShareTheChannel` | crates/api/src/events.rs:144-164 | A subscriber and a sender hold the same channel exactly when their event types are equal. |
| `EventBusRuns.AcceptedSentOnce` | crates/api/src/events.rs:137-141 | Each accepted event is sent at most once and on the channel of its type; at quiescence all are sent. |
| `EventBusRuns.CountersBalance` | crates/api/src/events.rs:132-140 | At quiescence published plus duplicates is the number of publish calls, modulo 2^64 and exactly below that. |
| `EventBusRuns.AloneIsWhole` | crates/api/src/events.rs:126-142 | The atomic steps of one call without interference have the effect of the whole method. |
| `Retry.PublishWithRetry` | crates/api/src/events.rs:236-256 | Attempts, sleeps and dead letters for every failure pattern: dead-lettered once if and only if all max_retries + 1 attempts fail and max_retries is at most 59, overflow at the 60th failure otherwise. |
| `Retry.BackoffFits` | crates/api/src/events.rs:251 | The backoff fits 64 bits exactly up to the 59th failure. |
| `Retry.SleepsGrow` | crates/api/src/events.rs:251-252 | Without wrapping sleeps never get shorter and lie between 50 and 2000 ms. |
| `Retry.SleepsDouble` | crates/api/src/events.rs:251-252 | The first sleep is 50 ms and each doubles the one before, up to 2000 ms. |
| `Retry.AttemptSaturates` | crates/api/src/events.rs:246 | The attempt counter stays at 255. |
| `Retry.ReleaseRun` | crates/api/src/events.rs:236-256 | In a release build: where the loop is after any number of turns, for every failure pattern, with its counter, sleeps, outcome and dead-letter queue. |
| `Retry.GivesUp` | crates/api/src/events.rs:246-250 | It dead-letters exactly when max_retries + 1 attempts fail, except that with 255 retries it never ends while attempts fail. |
| `Retry.WrappedSleepIs` | crates/api/src/events.rs:251-252 | Wrapping shows in the capped sleeps only as a zero when the attempt counter is a multiple of 64. |
| `Retry.WrappedSleepsGrow` | crates/api/src/events.rs:251-252 | The sleeps of a release build grow between 50 and 2000 ms if and only if there are at most 63 of them. |
| `RateLimiter.Limiter.constructor` | crates/api/src/middleware.rs:81-86 | A new limiter has no entries. |
| `RateLimiter.Limiter.Check` | crates/api/src/middleware.rs:89-109 | The whole new state, and allowed exactly when the window is not full. |
| `RateLimiter.ResetIsUnreachable` | crates/api/src/middleware.rs:94-101 | After the cleanup the reset branch never runs. |
| `RateLimiter.WindowsRespected` | crates/api/src/middleware.rs:89-109 | Over every history windows of a key are disjoint minutes, admit at most the maximum, and a request is refused exactly when its window is full. |
| `RateLimiter.MinuteBound` | crates/api/src/middleware.rs:75 | Any minute admits at most 2 * max - 1 requests of a key, and none for a maximum of 0. |
| `RateLimiter.MinuteBoundIsReached` | crates/api/src/middleware.rs:75 | Some history reaches that bound, for every maximum. |
| `RateLimiter.PerMinuteIff` | crates/api/src/middleware.rs:75 | No minute of any history admits more than the maximum if and only if the maximum is 0 or 1. |
| `RateLimiter.LimitOfTwoFails` | crates/api/src/middleware.rs:75 | With a maximum of 2, requests at 0, 59, 60 and 60 s put three into one minute. |
| `Base64.Base64Encode` | crates/api/src/auth.rs:329-337 | The encoder object, written and dropped, yields the specified text. |
| `Base64.Encoder.constructor` | crates/api/src/auth.rs:380-388 | A new encoder has an empty accumulator. |
| `Base64.Encoder.Write` | crates/api/src/auth.rs:391-406 | The bits written are the bits emitted followed by the pending bits, whatever has wrapped out of the accumulator. |
| `Base64.Encoder.PushByte` | crates/api/src/auth.rs:395-396 | Shifting in a byte appends its eight bits. |
| `Base64.Encoder.EmitSextet` | crates/api/src/auth.rs:398-402 | Emitting takes the oldest six pending bits. |
| `Base64.Encoder.Flush` | crates/api/src/auth.rs:408-422 | The last group is zero-filled and padded as the expression says: two signs for a rest, none otherwise. |
| `Base64.Base64DecodeStandard` | crates/api/src/auth.rs:348-371 | The decoder loop returns the whole bytes of the bit stream before the first padding sign, or fails on a foreign character. |
| `Base64.Base64Decode` | crates/api/src/auth.rs:339-346 | The URL-safe decoder is the specified one. |
| `Base64.SextetsUnique` | crates/api/src/auth.rs:391-422 | The sextets are the only way to group the zero-filled bits of the input. |
| `Base64.RoundTrip` | crates/api/src/auth.rs:329-346 | Decoding the encoding gives back every byte string, in both alphabets. |
| `Base64.AgreesWithRfc4648` | crates/api/src/auth.rs:415-419 | The text is that of section 4 of RFC 4648 with one extra padding sign exactly when the length modulo 3 is 2. |
| `Base64.TwoBytesOverpadded` | crates/api/src/auth.rs:415-419 | Two zero bytes are written with two padding signs, where the standard has one. |
| `Base64.ReencodingReturns` | crates/api/src/auth.rs:329-371 | Re-encoding what a text decodes to returns the text if and only if its letters are of section 4, their number is no remainder of 1, unused bits are zero and the padding is the one written. |
| `Base64.PaddingIsInert` | crates/api/src/auth.rs:342-345 | The padding the decoder adds does not change what is decoded. |
| `Base64.FailsOnForeign` | crates/api/src/auth.rs:339-371 | Decoding fails if and only if a character before the first padding sign belongs to neither alphabet. |
| `Base64.DecodedLength` | crates/api/src/auth.rs:361-368 | A decoded text has a byte for every eight bits of its letters; fewer than eight are dropped. |
| `Base64.PositionMeaning` | crates/api/src/auth.rs:349-359 | The search finds a character exactly when it is a letter, a digit, a plus or a slash. |
| `Base64.LetterIsTableEntry` | crates/api/src/auth.rs:349 | Letters by character class are the entries of the alphabet table. |
| `Base64.PositionOfLetter` | crates/api/src/auth.rs:349-359 | The linear search in the alphabet inverts indexing. |

## Left out

- Rounding: `Decimal` and `f64` are exact reals; overflow, NaN, infinities and the fallbacks for failed conversions are not modelled, and neither is the 96-bit limit of `Decimal::from_u128`.
- Square roots and logarithms: amounts from liquidity, liquidity from capital, Bollinger bands and price to tick are arbitrary functions given to a run, so the theorems hold for any; those that need more say so in their requires clauses.
- The width of the `u32` rebalance counter; it counts without bound.
- Debug output, environment variables (the tick mode is a parameter) and the Rayon map over a grid, which keeps the order of independent runs.
- Clocks: the event bus and the rate limiter read a clock that never goes back; `chrono::Utc::now` may.
- The capacity of a broadcast channel and lagging receivers; sending is a record of who was handed the event.
- The broker bus: it forwards to the in-process bus.
- The bus counters `retries` and `failed`, which nothing changes.
- Other buses for retries: the failure pattern of the attempts is a parameter.
- Reading JSON lines, RPC and HTTP: rows, snapshots, candles and pool state are inputs, and a day is its number instead of its formatted date.
- Looking up token decimals and prices for snapshot fees: the USD value of a raw unit at a step is an input, zero when unknown.
- The stable sorts of snapshots by time before the fee loop and before the join: both loops are modelled on the sequence they get.
- The plausibility check that drops the snapshot index when it exceeds a multiple of the candle fees: one comparison.
- White space beyond ASCII when labels and error texts are trimmed.
- Exponents, `inf` and `nan` in decimal parsing: no printed label contains them, and the model rejects them.
- The shortest decimals of the default float format: how many decimals a Bollinger factor shows is a parameter, and the factor has no more than that.
- The averaging of scores over rolling windows and the formatting of the report: a ranked row carries its score.
- JWT claims, roles, API keys, routes, websockets, collectors and the orchestrator: input and output or single checks.
