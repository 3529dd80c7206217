# Walk-forward long/short equity backtest, modelled in Dafny

The repository is a small quantitative-research pipeline in four stages:

1. scoring cross-sections with a model retrained walk-forward (`quant/model.py`);
2. turning each date's scores into rank-based long/short weights (`quant/portfolio.py`);
3. a daily close-to-close backtest on those weights, charging trading costs (`quant/backtest.py`);
4. a performance summary (`quant/metrics.py`).

Each stage has its own module:

- `WalkForward.dfy` models the walk-forward loop as a method whose loop invariant tracks the retrain state (`last_fit_i`). The schedule, the training window and the emitted scores are specified by functions of the step index. The ridge pipeline is represented by two functions the caller passes in: `fit` and `predict`.
- `Portfolio.dfy` models the loop over date groups and the per-date body as methods. Three helpers mirror the source's steps: ranking, writing the books into a zero weight vector, and the normalisation branches. They are specified by the functions `Raw`, `Normalize` and `TargetWeights`.
- `Backtest.dfy` models the backtest as pure functions on one shared date axis and one shared symbol axis of `m` columns:
  - forward-filled prices and returns;
  - reindexed and forward-filled weights;
  - the warm-up trim;
  - turnover and lagged costs;
  - lagged-weight PnL;
  - the equity curve as a recursive running product.
- `Metrics.dfy` models the running-peak maximum drawdown, `dropna`, the fewer-than-ten guard, the total return and the day count.
- `Common.dfy` holds the shared vocabulary: a missing cell as `Option`, errors as `Result`, and exact sums, gross exposure and rescaling over sequences of reals.

Numbers are exact reals. A missing pandas cell is `None`. Dates are integers and symbols are strings.

## Model

| member | source | states |
|---|---|---|
| WalkForward.TrainPredict | quant/model.py:22-63 | An unsupported model name gives `UnsupportedModel` before any fit. Otherwise the fits happen exactly at the steps of `RefitSchedule`. The call fails with `NoScores` exactly when nothing was emitted, and otherwise returns the emitted scores sorted by (date, symbol) as a permutation. |
| WalkForward.FirstStep | quant/model.py:38-41 | The first step that is not skipped is `max(5, train_window)`, and every earlier step is skipped. |
| WalkForward.LastFitAfter | quant/model.py:36-50 | After n steps there is a last fit iff some step at or after `max(5, train_window)` has run, and it lies in `[max(5, train_window), n)`. |
| WalkForward.RefitSchedule | quant/model.py:44-50 | The refit steps below n are exactly the steps satisfying the refit condition, in increasing order. |
| WalkForward.RowsWhere | quant/model.py:46-47 | The rows X keeps under a date mask: a row is kept iff it is a row of X and passes the mask. |
| WalkForward.MaskHits | quant/model.py:46-47 | The indices of the rows passing the mask: each passes, every passing index is listed, in strictly increasing order. |
| WalkForward.RowsWhereHits | quant/model.py:46-47 | The masked rows are X at exactly those indices, in order, so the mask keeps an order-preserving subsequence of X. |
| WalkForward.Predictions | quant/model.py:53-58 | One score per row dated d, in X's order: score k carries date d, the symbol of the k-th row dated d and the snapshot's prediction on that row's features. |
| WalkForward.PredictionsKeyed | quant/model.py:53-58 | Every row of X dated d has a score with its symbol and its prediction, and every score comes from such a row (`pd.Series(s, index=X_te.index)`). |
| WalkForward.SymbolLeTotal | quant/model.py:63 | The string order used for the (date, symbol) sort is total. |
| WalkForward.InsertByKey | quant/model.py:63 | Inserting into a key-sorted list keeps it sorted and adds exactly that score. |
| WalkForward.SortByKey | quant/model.py:63 | `sort_index`: sorted by (date, symbol) and a permutation of its input. |
| WalkForward.Phase | quant/model.py:44 | The number of steps since the latest grid refit, always in `[0, retrain_freq)`. |
| WalkForward.PhaseIsRemainder | quant/model.py:44 | That count equals `(i - s) % retrain_freq`. |
| WalkForward.LastFitByPhase | quant/model.py:44-50 | After step i the last fit is i minus that count. |
| WalkForward.LastFitClosedForm | quant/model.py:44-50 | With `retrain_freq >= 1`, the last fit after step i is `i - (i - s) % retrain_freq`, where `s = max(5, train_window)`. |
| WalkForward.RefitAtArithmetic | quant/model.py:44-50 | With `retrain_freq >= 1`, step i refits iff `i >= s` and `(i - s) % retrain_freq == 0`, whether or not the step has rows to score. |
| WalkForward.RefitScheduleArithmetic | quant/model.py:44-50 | The set of refit steps is the grid s, s + f, s + 2f, ... below n. |
| WalkForward.RefitEveryStep | quant/model.py:44 | With `retrain_freq <= 1`, including zero and negative values, every step that is not skipped refits. |
| WalkForward.NoLookAhead | quant/model.py:44-57 | The snapshot scoring step i was fitted at a step f with s <= f <= i and i - f < retrain_freq. Its window holds exactly `train_window` dates, and with increasing dates every window date and every training row precedes date i. |
| WalkForward.ScoresOnAppend | quant/model.py:59 | Selecting one date's scores distributes over appending score lists. |
| WalkForward.ScoresOnAll | quant/model.py:59 | Selecting date d from scores all dated d keeps them all. |
| WalkForward.ScoresOnNone | quant/model.py:59 | Selecting date d from scores none dated d keeps nothing. |
| WalkForward.ScoresOnNewDate | quant/model.py:59 | Appending d-dated scores to a list with none dated d gives exactly those scores for d. |
| WalkForward.ScoresOnOtherDate | quant/model.py:59 | Appending scores of another date leaves date d's scores unchanged. |
| WalkForward.StepScoresDated | quant/model.py:53-59 | Everything step i emits carries `dates[i]`. |
| WalkForward.StepScoresEmptyIff | quant/model.py:38-56 | Step i emits nothing iff it is skipped or no row is dated `dates[i]`. |
| WalkForward.DatedInAppend | quant/model.py:59 | Appending a step's scores extends the set of dates carried. |
| WalkForward.ConcatDated | quant/model.py:37-59 | The scores of the first n steps carry only the first n dates. |
| WalkForward.ConcatBefore | quant/model.py:37-59 | With increasing dates, the first n steps emit nothing for a later date. |
| WalkForward.ConcatCoverage | quant/model.py:37-59 | With increasing dates, the scores for `dates[i]` among the first n steps are exactly step i's. |
| WalkForward.ConcatEmptyIff | quant/model.py:59-62 | The concatenation is empty iff every step emitted nothing. |
| WalkForward.StepFnDated | quant/model.py:53-59 | The step function of the loop dates every step's scores by its own date. |
| WalkForward.EmittedCoverage | quant/model.py:53-59 | The emitted scores of date `dates[i]` are the predictions for exactly the rows dated `dates[i]`, or nothing when step i is skipped. |
| WalkForward.EmittedKeys | quant/model.py:44-59 | For a step that is not skipped, the emitted scores of `dates[i]` are exactly the rows of X dated `dates[i]`, keyed by symbol and valued by the snapshot fitted at the current `last_fit_i`. |
| WalkForward.EmittedDates | quant/model.py:53-59 | Every emitted score carries one of the dates looped over. |
| WalkForward.EmittedEmptyIff | quant/model.py:38-62 | `NoScores` happens exactly when no step from `max(5, train_window)` on has a row to score. |
| WalkForward.FilterOfFilter | quant/model.py:46-54 | Masking by a narrower date set after a wider one equals masking by the narrower set. |
| WalkForward.FutureRowsIgnored | quant/model.py:44-58 | Changing only the rows dated after `dates[i]` does not change what step i emits. |
| Portfolio.Valid | quant/portfolio.py:21-22 | The scored rows of one date, after `dropna`, never more than the input. |
| Portfolio.ValidHas | quant/portfolio.py:21-22 | Every scored row of date d is kept in d's group. |
| Portfolio.ValidFrom | quant/portfolio.py:21-22 | Every member of d's group comes from a scored row of date d. |
| Portfolio.InsertDate | quant/portfolio.py:21 | Inserting a date keeps the key list strictly increasing and adds exactly that date. |
| Portfolio.GroupKeys | quant/portfolio.py:21 | The `groupby` keys are the distinct score dates, strictly increasing. |
| Portfolio.Kept | quant/portfolio.py:24-25 | A date produces a row iff it has at least 5 valid scores, and the kept dates stay in key order. |
| Portfolio.InsertDesc | quant/portfolio.py:29 | Inserting into a non-increasing list keeps it non-increasing and adds exactly that entry. |
| Portfolio.SortDesc | quant/portfolio.py:29 | `sort_values(ascending=False)`: non-increasing scores, a permutation of the group, ties in no promised order. |
| Portfolio.BookSize | quant/portfolio.py:26-27 | `max(1, floor(n * frac))`: at least 1, the floor of `n * frac` when that is at least 1, and 1 otherwise. |
| Portfolio.Overwrite | quant/portfolio.py:38-46 | Assigning a run of positions changes exactly those positions. |
| Portfolio.DateWeights | quant/portfolio.py:26-61 | One date's ranking is a permutation sorted non-increasing, and its weights are `TargetWeights` of that ranking. |
| Portfolio.AssignBooks | quant/portfolio.py:29-46 | Writing the books into zero weights yields `Raw` of the ranked scores. |
| Portfolio.Rebalance | quant/portfolio.py:48-61 | The three normalisation branches yield `Normalize` of the assigned weights. |
| Portfolio.BuildPortfolio | quant/portfolio.py:21-66 | The output dates are strictly increasing and are exactly the score dates with at least 5 valid scores. Each row lists that date's valid symbols in a ranking, with the target weights of that ranking. |
| Portfolio.LongBookSum | quant/portfolio.py:34-38 | The long book sums to `0.5 * gross_leverage`. |
| Portfolio.LongBookNonNegative | quant/portfolio.py:34-38 | With `gross_leverage >= 0`, every long weight is at least 0. |
| Portfolio.LongBookEqual | quant/portfolio.py:36-37 | When the clipped long scores sum to at most 0, every long weight is `0.5 * gross_leverage / min(kL, n)`, the gross over the long book's actual size. |
| Portfolio.RescaleProportional | quant/portfolio.py:38-46 | Dividing by a total and multiplying by a target makes each weight proportional to its input. |
| Portfolio.LongBookProportional | quant/portfolio.py:35-38 | Otherwise each long weight is proportional to its clipped score, scaled to `0.5 * gross_leverage`. |
| Portfolio.ShortBookSetIff | quant/portfolio.py:39-43 | The short book is set iff some bottom score is negative. |
| Portfolio.ShortBookSum | quant/portfolio.py:43-46 | A set short book sums to `-0.5 * gross_leverage`. |
| Portfolio.ShortBookNonPositive | quant/portfolio.py:43-46 | With `gross_leverage >= 0`, every short weight is at most 0. |
| Portfolio.ShortBookProportional | quant/portfolio.py:40-46 | Each short weight is proportional to its clipped negative-score magnitude. |
| Portfolio.RawLayout | quant/portfolio.py:33-46 | Before normalisation, the positions outside both books are 0, the long positions hold the long book unless the short book overwrote them, and the short positions hold a set short book. |
| Portfolio.RawNetZero | quant/portfolio.py:33-46 | With disjoint books and a set short book, the raw weights net to exactly 0. |
| Portfolio.RawLongOnly | quant/portfolio.py:33-46 | With no short book set and `gross_leverage >= 0`, no raw weight is negative. |
| Portfolio.NormalizeZeroRow | quant/portfolio.py:48-61 | An all-zero row is returned unchanged by every branch, with no division. |
| Portfolio.NormalizeGross | quant/portfolio.py:48-56 | Without dollar neutrality, or with no negative weight, a row with positive gross is rescaled so that `sum |w| == gross_leverage` (for `gross_leverage >= 0`). |
| Portfolio.NormalizeNeutral | quant/portfolio.py:52-61 | With dollar neutrality and a negative weight, the row is mean-centred, so it nets to 0. For `gross_leverage >= 0`, its gross is `gross_leverage` whenever the centred row is non-zero. |
| Portfolio.NormalizeLongOnly | quant/portfolio.py:52-56 | With dollar neutrality but no negative weight, net exposure equals `gross_leverage`, not 0. |
| Portfolio.NeitherBookStaysZero | quant/portfolio.py:33-61 | With `gross_leverage >= 0`, a symbol in neither book ends with weight 0 in every branch. |
| Portfolio.NeitherBookMovesWithNegativeLeverage | quant/portfolio.py:33-61 | With `gross_leverage = -1`, book fractions 0.2 and scores 5, 4, 3, 2, 1, the middle symbol, which is in neither book, ends at weight -0.125, not 0. |
| Portfolio.NegativeLeverageRaw | quant/portfolio.py:33-46 | The raw weights of that example. |
| Portfolio.NegativeLeverageNormalized | quant/portfolio.py:58-61 | The normalised middle weight of that example is -0.125. |
| Portfolio.NetZeroHasNegative | quant/portfolio.py:53 | A non-zero row that nets to 0 has a negative weight. |
| Portfolio.AllEqualNonNegativeNetsToGross | quant/portfolio.py:34-56 | For `gross_leverage > 0`, when all scores of a date are equal and non-negative, the dollar-neutral row nets to `gross_leverage`, not 0. |
| Portfolio.AllEqualNegativeNetsToZero | quant/portfolio.py:34-61 | When all scores are equal and negative and the books are disjoint, the dollar-neutral row nets to exactly 0. |
| Portfolio.AllEqualLongAtZero | quant/portfolio.py:34-38 | In that case, for `gross_leverage > 0`, the first long weight is positive. |
| Backtest.Filled | quant/backtest.py:17-21 | A forward-filled cell, when present, is the value of some earlier or same-row cell. |
| Backtest.FilledLatest | quant/backtest.py:17-21 | A forward-filled cell is the latest present value at or before its row. |
| Backtest.FilledNoneIff | quant/backtest.py:17-21 | A forward-filled cell is missing iff every cell up to its row is missing. |
| Backtest.Returns | quant/backtest.py:18 | The returns panel has one row of m returns per price row. |
| Backtest.ReturnRoundTrip | quant/backtest.py:17-18 | The previous filled price times `1 + return` equals the current filled price. |
| Backtest.ReturnOnGap | quant/backtest.py:17-18 | A row with a missing price has return 0. |
| Backtest.FindDate | quant/backtest.py:21 | The index of a date in the weight dates, or none iff the date is absent. |
| Backtest.Reindexed | quant/backtest.py:21 | The reindexed weights have one row of m cells per price date. |
| Backtest.ReindexedRow | quant/backtest.py:21 | A price date that has a weight row takes that row. |
| Backtest.ReindexedGap | quant/backtest.py:21 | A price date without a weight row gets a row of missing cells, and weight dates off the calendar vanish. |
| Backtest.AlignedLatest | quant/backtest.py:21 | A symbol's aligned weight is its most recent weight dated on the price calendar at or before the price date; a weight dated off the calendar is dropped by `reindex` and never used. |
| Backtest.AlignedBeforeFirst | quant/backtest.py:21 | Before a symbol's first weight, its aligned weight is 0. |
| Backtest.AlignedInherits | quant/backtest.py:21 | A missing cell inherits the previous row's aligned weight. |
| Backtest.FillZeroInherits | quant/backtest.py:21 | The same on any rows of cells. |
| Backtest.FirstActive | quant/backtest.py:24-26 | The first row with non-zero gross weight, or none iff no row is active. |
| Backtest.Turnover | quant/backtest.py:32-33 | One turnover per row, each at least 0, and `turnover(0) == 0`. |
| Backtest.TurnoverZeroIff | quant/backtest.py:32-33 | For t > 0, turnover is 0 iff the weights did not change. |
| Backtest.CostsNonNegative | quant/backtest.py:35-38 | With non-negative bps and non-negative turnover, every cost is at least 0. |
| Backtest.CostsLagTurnover | quant/backtest.py:35-42 | For t > 0, daily PnL is `W(t-1) . r(t)` minus the cost of the previous row's turnover. |
| Backtest.GrossPnlCausal | quant/backtest.py:41 | Row t's gross PnL depends only on `W(t-1)` and `r(t)`, never on `W(t)`. |
| Backtest.TurnoverCausal | quant/backtest.py:32-33 | Row t's turnover depends only on `W(t)` and `W(t-1)`. |
| Backtest.CostsCausal | quant/backtest.py:35-38 | Row t's cost depends only on the previous row's turnover. |
| Backtest.DailyPnlCausal | quant/backtest.py:32-42 | Row t's daily PnL is fixed by the weights up to row t-1 and the returns of row t. |
| Backtest.ZeroCostPnl | quant/backtest.py:37-42 | With zero bps, daily PnL equals gross PnL exactly. |
| Backtest.Compound | quant/backtest.py:44 | The running product has one point per PnL entry. |
| Backtest.CompoundStep | quant/backtest.py:44 | Each point is the previous one times `1 + pnl(t)`, and the first point is the start value times `1 + pnl(0)`. |
| Backtest.CompoundPrefix | quant/backtest.py:44 | A prefix of the running product is the running product of the prefix. |
| Backtest.CompoundIsGrowth | quant/backtest.py:44 | Point t is the start value times the product of `1 + pnl` over rows 0..t. |
| Backtest.CumProdStep | quant/backtest.py:44 | `equity(0) = 1 + pnl(0)` and `equity(t) = equity(t-1) * (1 + pnl(t))`. |
| Backtest.CumProdPrefix | quant/backtest.py:44 | The equity of a prefix of days is the prefix of the equity. |
| Backtest.CumProdIsGrowth | quant/backtest.py:44 | `equity(t)` is the product of `1 + pnl` over rows 0..t. |
| Backtest.EquityPositive | quant/backtest.py:44 | With every daily PnL above -1, the equity curve stays positive. |
| Backtest.EquityPositiveAt | quant/backtest.py:44 | The same at one row. |
| Backtest.EquityNonDecreasing | quant/backtest.py:44 | With no losing day, equity is at least 1 and never falls. |
| Backtest.EquityAtLeastOneAt | quant/backtest.py:44 | The same lower bound at one row. |
| Backtest.Simulate | quant/backtest.py:32-51 | Every simulated series has one entry per kept row. |
| Backtest.RunBacktest | quant/backtest.py:17-51 | The call fails iff the weight panel repeats a date (pandas `reindex` raises). |
| Backtest.BacktestShape | quant/backtest.py:24-51 | All returned series share the trimmed axis, the price dates from the first active row on. The returned weights are the aligned weights, not the input panel. |
| Backtest.TrimStartsAtFirstActive | quant/backtest.py:24-29 | No dropped row is active. When any row is active the kept rows open on an active row, and otherwise nothing is dropped. |
| Backtest.SimulateOpening | quant/backtest.py:32-44 | On the first kept row, turnover, cost and PnL are 0 and equity is 1. The second row's cost is also 0. |
| Backtest.OpeningTradeUncharged | quant/backtest.py:32-44 | Entering the first position incurs no turnover and no cost, on the first day or the next. |
| Backtest.SimulatePnl | quant/backtest.py:35-42 | The result's cost and daily PnL at t > 0 in terms of the lagged turnover and lagged weights. |
| Backtest.BacktestPnl | quant/backtest.py:35-42 | The same for `run_backtest`, against the untrimmed returns panel at the trim offset. |
| Backtest.SimulateEquity | quant/backtest.py:44 | The result's equity compounds its daily PnL. |
| Backtest.BacktestEquity | quant/backtest.py:44-51 | The returned equity compounds the returned daily PnL. |
| Metrics.Peak | quant/metrics.py:7 | `cummax` at t is at least every equity value up to t and equals one of them. |
| Metrics.MinOf | quant/metrics.py:9 | `min` is at most every entry and equals one of them. |
| Metrics.MaxDrawdown | quant/metrics.py:6-9 | There is a drawdown number iff the curve is non-empty and no running peak is 0. |
| Metrics.MaxDrawdownIsMinimum | quant/metrics.py:6-9 | The maximum drawdown is at most every `equity(t) / peak(t) - 1` and equals one of them. |
| Metrics.PositivePeaks | quant/metrics.py:7-8 | On a positive curve, every peak is positive and at least the current equity. |
| Metrics.DrawdownBounds | quant/metrics.py:8 | On a positive curve, each drawdown lies in (-1, 0]. |
| Metrics.MaxDrawdownBounds | quant/metrics.py:7-9 | For a strictly positive curve, the maximum drawdown exists and lies in (-1, 0]. |
| Metrics.NonDecreasingAtPeak | quant/metrics.py:7 | A curve that never falls is at its peak on every row. |
| Metrics.NonDecreasingNoDrawdown | quant/metrics.py:7-8 | A positive curve that never falls has every drawdown 0. |
| Metrics.NoDrawdownNonDecreasing | quant/metrics.py:7-8 | A positive curve with no negative drawdown never falls. |
| Metrics.MaxDrawdownZeroIff | quant/metrics.py:7-9 | For a strictly positive curve, the maximum drawdown is 0 iff the curve never falls. |
| Metrics.DropNa | quant/metrics.py:15 | `dropna` keeps no more entries than it is given. |
| Metrics.DropNaCount | quant/metrics.py:15-34 | The number of entries kept is the number of present entries. |
| Metrics.DropNaMembers | quant/metrics.py:15 | A value is kept iff it is present in the input. |
| Metrics.DropNaAllPresent | quant/metrics.py:15 | Nothing is dropped iff no entry is missing. |
| Metrics.Summarize | quant/metrics.py:15-34 | Fails with `NotEnoughReturns` iff fewer than 10 PnL entries are present. Otherwise fails with `EmptyEquityCurve` iff the curve is empty. Otherwise `TotalReturn` is the last equity minus 1, `NumDays` the number of present entries, and the drawdown is `MaxDrawdown` of the curve. |
| Metrics.SummarizeBacktest | quant/metrics.py:15-34 | For a backtest's own curve with at least 10 days and every PnL above -1: the summary exists, counts every day, and has drawdown in (-1, 0], which is exactly 0 when no day loses. |
| Common.IncreasingSnoc | quant/portfolio.py:66 | Appending a date later than all listed keeps the dates strictly increasing. |
| Common.IncreasingCons | quant/portfolio.py:21 | Prepending a date earlier than all listed keeps them strictly increasing. |
| Common.AbsSum | quant/portfolio.py:48-61 | Gross exposure `abs().sum()` is at least 0. |
| Common.AbsSumZeroIff | quant/portfolio.py:52 | Gross exposure is 0 iff every entry is 0. |
| Common.AbsSumOfNonNegative | quant/portfolio.py:52-56 | With no negative entry, gross equals net exposure. |
| Common.SumRescale | quant/portfolio.py:38-51 | Rescaling scales the sum by `target / total`. |
| Common.AbsSumRescale | quant/portfolio.py:51-61 | Rescaling by a positive total and a non-negative target scales gross exposure the same way. |
| Common.RescaleToGross | quant/portfolio.py:49-51 | Dividing a non-zero row by its own gross and multiplying by a non-negative target gives gross exposure equal to the target. |
| Common.SumDemean | quant/portfolio.py:58 | A mean-centred row nets to exactly 0. |
| Common.SumNonNegativeZeroIff | quant/backtest.py:24 | A sum of non-negative terms is 0 iff each term is 0. |

## Left out

- **Floating point.** All arithmetic is exact real arithmetic. The model does not capture IEEE rounding, NaN propagation beyond missing cells, or infinities.
- **Zero or negative prices.** `PositivePrices` is required of `run_backtest`'s callers. A zero price makes `pct_change` divide by zero, which gives `inf` in pandas.
- **Unsorted price dates.** Price dates are required to be strictly increasing. The `sort_index()` on prices and any duplicate price dates are not modelled, because the loaders emit a sorted, unique date index.
- **pandas label alignment.** Prices and weights share one symbol axis of `m` columns. A symbol present in only one frame is not modelled.
- **Duplicate (date, symbol) pairs.** These are not modelled in either the score series or the weight panels. Portfolio weights are kept positionally in the ranked order, which equals the label assignment only when a date lists each symbol once.
- **Tie order.** For `sort_values`, only "non-increasing and a permutation" is promised. The order among tied scores is left open.
- **The model inside the walk-forward loop.** sklearn's `Pipeline`, `StandardScaler` and `Ridge` are foreign calls, so `fit` and `predict` are parameters. `alpha` and the random state are folded into `fit`.
- WalkForward.TrainPredict: requires `train_window >= 1`, and `fit` is a total parameter. A step whose training window holds no rows of X is still fitted and scored, where sklearn's `fit` raises a ValueError on 0 samples. That can happen when `dates` lists a date X has no rows for; the caller in quant/features.py builds `dates` from X's own index, but quant/features.py is not part of this model, so the model does not exclude it.
- **Return statistics.** `summarize_performance`'s CAGR (a real power), annualised volatility and Sharpe ratio (square roots and a `1e-12` epsilon) are floating-point numerics and are not modelled. Neither is the `avg_turnover` placeholder, which has no effect on the result.
- **The pandas result containers.** The Series that `summarize_performance` returns is the `Summary` datatype. The dict that `run_backtest` returns is `BacktestResult`.
- Metrics.MaxDrawdown: returns no number for an empty curve or whenever any running peak is 0. pandas' `min` skips NaN, so where a zero peak meets a zero equity (drawdown NaN) it still returns the minimum of the other rows, for example -0.5 for the curve 0, 1, 0.5. A negative equity under a zero peak gives `-inf`, and only an empty curve or all-NaN drawdowns give NaN. NaN-skipping and infinities are not modelled.
- quant/features.py is not part of this model: its rolling and cross-sectional standard deviations need square roots, and its column renaming loses symbol identity.
- quant/data.py, quant/report.py and run_backtest.py are not part of this model: they contain only file and network I/O, plotting, and command-line wiring.
- quant/config.py is not part of this model: its default constants are parameters of the modelled operations.
- **Dates are integers.** Calendar arithmetic on timestamps is not modelled.

## Notes on the code as written

- With `dollar_neutral` true, the portfolio step's mean-centring runs only when some weight is negative. For `gross_leverage > 0`, a date whose scores are all equal and non-negative has no short book, so its row nets to `gross_leverage`, not 0. `Portfolio.AllEqualNonNegativeNetsToGross` states this.
- With `gross_leverage >= 0`, a symbol in neither book always ends at weight 0, because the mean-centred row still nets to exactly 0. With a negative `gross_leverage` and no short book set (every bottom score non-negative), such a symbol can receive a non-zero weight: `Portfolio.NeitherBookMovesWithNegativeLeverage` gives scores 5, 4, 3, 2, 1 where the middle symbol ends at -0.125. When the short book is set, the books still net to 0 and the middle symbol stays at 0.
- A repeated weight date makes `reindex` raise. `RunBacktest` returns `Err(DuplicateWeightDates)` in that case.
