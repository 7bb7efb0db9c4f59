# Portfolio simulation engine — a Dafny model

This project models `StockPortfolioEnv`, the portfolio-allocation environment of an
RL + sentiment trading experiment. It also models the two pure performance metrics
of its evaluation script.

The environment runs over an aligned market frame: one row per trading period,
holding one price per ticker and a sentiment score. `reset` starts an episode at
tick `window_size`, with the whole initial capital in cash. Each `step` does the
following, in this order:

1. maps the action through a max-stabilised softmax to a weight vector;
2. charges a transaction cost proportional to the L1 turnover;
3. moves the value by the weighted price ratio between the rows `tick - 1` and `tick`;
4. rewards the log of the value ratio;
5. advances the tick by one;
6. latches `done` when the frame is exhausted or the value falls below half the
   initial capital.

The observation is built from three parts, in this order:

- the trailing `window_size` price rows, each divided by the window's first row and
  flattened row-major;
- the current weights;
- the sentiment of row `tick - 1`.

The metrics are the maximum drawdown, taken from the running peak of a value series,
and the total return `last / first - 1`.

Layout, one module per component:

- `seq_math.dfy` — `SeqMath`: sums, dot products, L1 distance, extrema and the real-arithmetic facts the proofs use.
- `allocation.dfy` — `ExpLog`: the laws assumed of `exp` and `log`. `Allocation`: the softmax mapper.
- `market_frame.dfy` — `MarketFrame`: frame rows, the configuration, and the observation builder.
- `portfolio_env.dfy` — `PortfolioEnv`: state, `reset`, `step`, info, the reachable-state invariant, and multi-step runs.
- `metrics.dfy` — `Metrics`: running peak, drawdowns, maximum drawdown, total return.

Everything is a pure function on immutable values. The environment object is an
`Env` value: a `Config` (frame, ticker count, window size, initial capital, cost rate)
plus a `State` (tick, value, weights, done). `Step` returns a new `Env` and proves
that its `Config` is unchanged. `np.exp` and `np.log` are function parameters. They
are constrained by `ExpLog.IsExp` (positive, monotone, `exp(0) = 1`) and
`ExpLog.IsLog` (`log(1) = 0`, strictly increasing on the positive reals). Numbers are
Dafny `real`s, so turnover, cost and value arithmetic is exact.

Three behaviours of the code shape the model:

- `step` has no guard against being called after `done`. While a row remains, the
  tick advances and `done` stays true. `Step` therefore does not require `!done`.
- The constructor validates nothing itself, but it calls `reset`
  (rl_environment.py:32), and `_get_observation` raises `IndexError` in two cases:
  - `window_size == 0`, where `price_window.iloc[0]` indexes an empty window (line 45);
  - `window_size > len(frame)`, where `df.iloc[tick - 1]` runs past the frame (line 47).

  `MarketFrame.Valid` excludes exactly these configurations: it asks for
  `1 <= window_size <= len(frame)`. It also asks for one positive price per ticker in
  every row, which the code relies on without checking.
- `reset` also works when `window_size` equals the frame length. Only `step` needs a
  row at `tick`, so that bound sits on `Step` as `tick <= end_tick`. In that edge case
  `reset` reports `done == False` (line 39), yet the first `step` raises `IndexError`
  when it reads `df.iloc[current_tick]` (line 73). In every other case, a caller that
  stops at `done` never reaches that out-of-range read: `PortfolioEnv.ActiveCanStep`
  proves that an active reachable state always has a row at its tick.

## Model

| member | source | states |
|---|---|---|
| `Allocation.Exponentials` | rl_environment.py:93 | the stabilised exponentials have the action's length, are all positive, and preserve the order of the action components |
| `Allocation.Softmax` | rl_environment.py:92-94 | the weights have the action's length, are all strictly positive, sum to exactly one, and a larger action component never gets a smaller weight |
| `Allocation.SoftmaxIsSimplex` | rl_environment.py:92-94 | every softmax output is a legal allocation (non-negative, summing to one) with every weight in (0, 1] |
| `Allocation.SoftmaxShiftInvariant` | rl_environment.py:93 | adding one constant to every action component leaves the allocation unchanged, because the max-subtraction absorbs it |
| `Allocation.SoftmaxUniform` | rl_environment.py:92-94 | an action whose components are all equal gives every asset the weight 1/n |
| `MarketFrame.Normalize` | rl_environment.py:45 | a price row divided by a positive reference row keeps its length and stays positive when the row is positive |
| `MarketFrame.NormalizedWindow` | rl_environment.py:44-45 | the window has `window_size` rows of one entry per ticker |
| `MarketFrame.NormalizedEntry` | rl_environment.py:44-45 | window entry (i, j) is the price of ticker j at row `tick - window + i` divided by its price at row `tick - window` |
| `MarketFrame.Observe` | rl_environment.py:43-54 | for any tick in [window_size, end_tick + 1] the observation has length `window*n + n + 1`, holds the weights at positions `window*n` to `window*n + n`, and ends with the sentiment of row `tick - 1` |
| `MarketFrame.FlattenLength` | rl_environment.py:50 | flattening `w` rows of `n` entries gives `w * n` entries |
| `MarketFrame.FlattenIndex` | rl_environment.py:50 | row-major layout: entry j of row i lands at position `i * n + j` |
| `MarketFrame.ObservationLayout` | rl_environment.py:44-52 | observation position `i*n + j` is the normalised price of ticker j at window row i, and position `window*n + j` is weight j |
| `MarketFrame.ObservationStartsAtOne` | rl_environment.py:45 | the first n components (the first window row divided by itself) are exactly one |
| `MarketFrame.ObservationPricesPositive` | rl_environment.py:44-45 | every normalised price in the observation is positive |
| `MarketFrame.ObservationLengthExample` | rl_environment.py:28-54 | with a window of 30 and 3 tickers, the observation built at every tick from 30 to the frame length has exactly 94 components, the declared shape |
| `PortfolioEnv.InfoRow` | rl_environment.py:57 | the reported row is `min(tick, end_tick)`: never past the tick, never past the last row, and equal to one of them |
| `PortfolioEnv.GetInfo` | rl_environment.py:56-62 | the info carries the current value and weights; its timestamp is that of the current row while the tick is inside the frame, and that of the last row once the tick has run past it |
| `PortfolioEnv.Reset` | rl_environment.py:34-41 | reset keeps the configuration and sets tick = window_size, value = initial capital, weights all zero and done false; the observation is the one built at the start tick with zero weights, of the declared length; the info is that of the new state, with the timestamp of the clamped start row |
| `PortfolioEnv.ResetForgetsState` | rl_environment.py:34-41 | reset depends only on the configuration: two environments with the same configuration reset to identical state, observation and info |
| `PortfolioEnv.ResetIsReachable` | rl_environment.py:34-39 | the reset state satisfies the reachable-state invariant |
| `PortfolioEnv.ResetObservation` | rl_environment.py:38-52 | the reset observation starts with n ones, has an all-zero weight block, and ends with the sentiment of row `window_size - 1` |
| `PortfolioEnv.Turnover` | rl_environment.py:68 | turnover is never negative |
| `PortfolioEnv.TransactionCost` | rl_environment.py:69 | the cost is non-negative for non-negative value, turnover and rate, positive when all three are positive, and zero when turnover or rate is zero |
| `PortfolioEnv.PriceRatios` | rl_environment.py:73-74 | one gross return per ticker, each positive, each carrying row `tick - 1`'s price to row `tick`'s |
| `PortfolioEnv.LogReturn` | rl_environment.py:80 | the reward is finite exactly when the value ratio is defined and positive, and is then the log of that ratio; under the log laws, for positive values it is positive, zero or negative exactly as the value rose, stayed or fell |
| `PortfolioEnv.LogRatioSign` | rl_environment.py:80 | under the log laws the ratio of two positive values is positive, and its log has the sign of their difference |
| `PortfolioEnv.Step` | rl_environment.py:64-90 | step keeps the configuration; advances the tick by exactly one; sets the weights to the softmax of the action, a positive simplex; sets the value to old × weighted price ratio − cost; rewards the log return; done' ⇔ done ∨ tick + 1 > end_tick ∨ value' < 0.5 × initial capital; done is never cleared; a step from end_tick always ends done; truncated is false; the observation is the one built at tick + 1 with the new weights, after the weight update and the tick advance; the info reflects the new state |
| `PortfolioEnv.StepObservation` | rl_environment.py:71-90 | the observation a step returns starts with n ones, carries the new allocation in its weight block, and ends with the sentiment of the row the step consumed |
| `PortfolioEnv.StepPreservesReachable` | rl_environment.py:64-90 | a step from a reachable state, with a row left to read, lands in a reachable state |
| `PortfolioEnv.ActiveCanStep` | rl_environment.py:73-85 | a reachable state whose done flag is clear, other than the reset state of a window spanning the whole frame, has a row at its tick, so the read at line 73 stays inside the frame |
| `PortfolioEnv.TurnoverBounds` | rl_environment.py:68 | from a reachable state, turnover into a legal allocation lies in [0, 2], and is exactly 1 on the first step after reset |
| `PortfolioEnv.FirstTurnoverIsOne` | rl_environment.py:68 | moving from the all-zero weights into any legal allocation has turnover exactly 1 |
| `PortfolioEnv.HoldingCostsNothing` | rl_environment.py:68-69 | keeping the same weights has zero turnover and zero cost |
| `PortfolioEnv.TransactionCostExample` | rl_environment.py:68-69 | three tickers moving from cash to `[1, 0, 0]` at a 0.1% rate on 100000 give turnover 1 and cost 100 |
| `PortfolioEnv.RewardExample` | rl_environment.py:80 | a value going from 100000 to 101000 earns `log(1.01)` |
| `PortfolioEnv.ScaledReward` | rl_environment.py:80 | scaling a positive value by a positive factor earns the log of that factor |
| `PortfolioEnv.ValueBetweenAssetReturns` | rl_environment.py:73-78 | with a legal allocation and a non-negative value, the new value lies between old × worst ratio − cost and old × best ratio − cost |
| `PortfolioEnv.FlatRatiosAreOne` | rl_environment.py:73-74 | unchanged prices give every ticker a gross return of exactly one |
| `PortfolioEnv.FlatPricesValue` | rl_environment.py:73-78 | on unchanged prices the new value is exactly old × (1 − turnover × rate) |
| `PortfolioEnv.FlatPricesReward` | rl_environment.py:78-80 | on unchanged prices, with a positive value and a positive cost factor, the reward is exactly `log(1 − turnover × rate)` |
| `PortfolioEnv.FlatPricesStep` | rl_environment.py:64-80 | the same two facts stated for `Step` itself |
| `PortfolioEnv.Run` | rl_environment.py:64-90 | applying k actions one step at a time keeps the configuration, advances the tick by exactly k, stays reachable, and never clears done |
| `PortfolioEnv.ExhaustedEpisodeIsDone` | rl_environment.py:82-85 | an episode stepped through every remaining row of the frame ends done |
| `PortfolioEnv.RunFromReset` | rl_environment.py:36-82 | from reset, k steps leave the tick at window_size + k |
| `ExpLog.LogSign` | rl_environment.py:80 | under the log laws, the log of a positive number is positive, zero or negative exactly as the number is above, at or below one |
| `Metrics.CumMax` | evaluate_agent.py:18 | the running peak has one entry per value |
| `Metrics.CumMaxIsPrefixMax` | evaluate_agent.py:18 | `peak[i]` is the maximum of `values[0..i]` |
| `Metrics.PeakAttained` | evaluate_agent.py:18 | `peak[i]` equals some value at an index no later than i |
| `Metrics.CumMaxProperties` | evaluate_agent.py:18 | `peak[i]` bounds every value up to i, and the peak never decreases |
| `Metrics.PeakAtLeastValue` | evaluate_agent.py:18 | `peak[i] >= values[i]` and `peak[i] >= values[0]` |
| `Metrics.DrawdownBounds` | evaluate_agent.py:19 | a value at or below a positive peak has a drawdown ≤ 0; the drawdown is > −1 when the value is positive and 0 when the value is the peak |
| `Metrics.Drawdowns` | evaluate_agent.py:19 | one drawdown per value, every drawdown ≤ 0, and every drawdown > −1 when all values are positive |
| `Metrics.MaxDrawdown` | evaluate_agent.py:17-20 | the result exists exactly for a non-empty series; it is ≤ 0, ≤ every drawdown, equal to the drawdown at some index, and > −1 when all values are positive |
| `Metrics.NonDecreasingHasNoDrawdown` | evaluate_agent.py:18-20 | for a non-decreasing series the peak equals the value at every index and the maximum drawdown is exactly 0 |
| `Metrics.TotalReturn` | evaluate_agent.py:58 | `(r + 1) × first = last`; for a positive first value, r is positive, zero or negative exactly as last is above, equal to or below first |

## Left out

- The pandas `join`/`ffill`/`dropna` alignment in the constructor (rl_environment.py:20) is library-driven. The model takes an already aligned frame as a sequence of rows.
- The Gymnasium base class, the `action_space`/`observation_space` Box objects and `super().reset(seed=...)` (rl_environment.py:5-9, 24-30, 35) are host-framework plumbing. The seed never reaches the state. The declared observation shape (line 28) survives as `MarketFrame.ObservationLength`.
- `render` (rl_environment.py:96-102) is console output.
- Floating point is not modelled: the `float32` cast of the observation (line 54), rounding, overflow, and NaN or infinity from non-finite actions. `np.exp` and `np.log` are abstract parameters that obey stated laws.
- Division by zero is out of the model. The model requires strictly positive prices, where numpy would produce infinities or NaN. For the same reason `Metrics.TotalReturn` requires a non-zero first value, and `Metrics.MaxDrawdown` requires a positive first value when the series is non-empty.
- `PortfolioEnv.LogReturn` does not distinguish NaN (a negative ratio or 0/0), minus infinity (a zero ratio) and plus infinity (a zero previous value with a positive new one, `np.log(inf)`). All three are `NonFinite`.
- `PortfolioEnv.Step` requires `window_size <= tick`, weights of one entry per ticker and an action of one entry per ticker. Every state reachable from `reset` meets the first two. The third is the declared action shape: numpy broadcasting of mismatched lengths is not modelled. It also requires at least one ticker, because `np.max` of an empty action raises.
- The timestamps of the frame are carried through `Info` but are not required to increase. No operation depends on their order.
- `calculate_sharpe_ratio` (evaluate_agent.py:12-15) is mean, standard deviation and square root over floating point.
- The rest of evaluate_agent.py (CSV loading, model loading and prediction, plotting) is I/O and the external learning algorithm.
- `PortfolioEnv.Run` applies every action it is given and does not stop at `done`, whereas the evaluation loop stops there (evaluate_agent.py:44). It models the environment's own behaviour under repeated `step` calls, not the loop's stopping rule.
- data_collection.py, feature_extraction.py and train_agent.py are not part of this model: market-data download, a hosted text-scoring service, and the training driver.
