# Crypto price forecasting pipeline, modelled in Dafny

This project models the numeric core of a small cryptocurrency forecasting
application. The application has three parts that share one pipeline:

- **utils.py** turns daily price bars into six features. The features are
  the log return, a 14-row simple-moving-average RSI, MACD and its signal
  line, a 14-row ATR, and volume. Rows with a missing value are then dropped.
  The file also formats prices and large amounts for display and builds the
  market summary (current price, day change, all-time low).
- **pages/Prediction.py** feeds the last 60 feature rows, scaled by a fitted
  min-max scaler, to a trained network. It decodes seven daily log returns
  through column 0 of the scaler's inverse, compounds them off the last
  close into a seven-day forecast, and renders that forecast as a table with
  coloured change cells. Above the forecast it shows the stored validation
  scores of the coin.
- **UjiCobaModel.py** is the offline walk-forward validation. For every test
  date from 1 to 21 January 2026 it predicts one day ahead from the 60 rows
  before that date, prices the prediction off the real previous close, and
  scores the predictions with RMSE, MAE and MAPE. It records one rounded
  entry per asset. An asset that fails in any way is skipped and leaves no
  entry.

## Layout

- `wrappers.dfy` holds `Option` (pandas' NaN is `None`) and `Result` (the
  exceptions the pipeline raises).
- `sequences.dfy` holds sums, means and `FilterMap`/`Kept`, which model
  `dropna` and boolean masks.
- `realmath.dfy` holds `ln`, `exp`, `sqrt` and `round` as function-valued
  parameters. The laws a property needs (`exp(a+b) = exp(a)·exp(b)`,
  `exp(0) = 1`, `exp > 0`, monotonicity, `exp(ln x) = x` for `x > 0`, the
  square root) are predicates that the property names in its `requires`.
- `indicators.dfy` is the indicator engine. It has one gain rule for each
  of the two copies: `Where` for utils.py and pages/Prediction.py, `Clip`
  for UjiCobaModel.py.
- `display.dfy` holds the two formatters and the market summary.
- `scaling.dfy` holds the feature vector, the min-max scaler and the
  60-row window.
- `validation.dfy` holds the walk-forward loop, the metrics and the metrics
  map. The map is the `Harness` class, whose `metrics` field is the
  script's global `metrics_dict`.
- `forecast.dfy` holds the prediction page: decoding, compounding, the
  table and the metrics display.

**Modelling choices:**

- Dates are day numbers (days since 1970-01-01).
- The trained network is a parameter of type `seq<seq<real>> -> seq<real>`.
- A fitted scaler is six `scale_` and six `min_` entries, with no zero
  scale.
- Imperative code in the sources is modelled as Dafny methods with loops,
  each proved equal to a recursive specification function:
  - the per-date loop (`WalkForward`);
  - the per-asset loop (`Harness.Run`);
  - the dummy-array decode (`DecodeOutputs`, which fills a real 7 x 6
    array);
  - the compounding loop (`Rollout`);
  - the table loop (`PredictionTable`);
  - the market-summary loop (`MarketSummary`).

Two facts about the code that the model makes explicit:

- **Warm-up rows.** `ewm(adjust=False)` is defined from row 0
  (utils.py:139-142), so the MACD columns never make `dropna` remove a row.
  What `dropna` removes at the head is the RSI/ATR warm-up: the first 13
  rows with the `where` gain rule and the first 14 with the `clip` rule
  (`IncompleteBeforeWarmUp`). Past the warm-up, a row survives exactly when
  its log return is a number and the close moved within its RSI window
  (`CompleteAfterWarmUp`). So at least 13 or 14 rows go
  (`FeatureTableLength`), and exactly that many when every later row has a
  numeric log return and a moving close (`FeatureTableExactLength`). The two
  rules differ only in row 13 (`ClipDropsRowThirteen`).
- **MAPE of a small case.** For actual `[100, 110, 90]` and predicted
  `[105, 100, 95]`, the MAPE formula of UjiCobaModel.py:174 gives
  389/5940 ≈ 0.0655, and the accuracy is ≈ 93.45 (`MapeExample`).

## Model

| member | source | states |
|---|---|---|
| Sequences.FilterMap | utils.py:155 | `dropna` keeps exactly the complete rows, in order: entry `k` is the surviving row `Kept(s, f)[k]` |
| Sequences.Kept | UjiCobaModel.py:128-129 | the positions a mask keeps are in range, strictly increasing, and every position that passes the mask is among them |
| Sequences.FilterMapAppend | utils.py:155 | dropping rows distributes over concatenation of frames |
| Sequences.MeanPositive | utils.py:133-136 | a mean of non-negative terms is positive exactly when some term is |
| Sequences.SumNonNegative | UjiCobaModel.py:172-174 | a sum of non-negative terms is non-negative, and zero exactly when every term is |
| RealMath.ExpOfSumAppend | pages/Prediction.py:157 | under the `exp` laws, compounding one more return multiplies by its exponential |
| RealMath.ExpComparedToOne | pages/Prediction.py:157-159 | `exp(r)` is above, equal to or below 1 exactly as `r` is above, equal to or below 0 |
| Indicators.Bars | utils.py:114-126 | a well-shaped frame with the `High`, `Low`, `Close` and `Volume` columns gives one bar per index entry, carrying that date and those values |
| Indicators.Deltas | utils.py:132 | `close.diff()` is missing exactly at row 0 and otherwise carries the previous close to the current one |
| Indicators.Gain | utils.py:133 | a gain is never negative; it is missing only under the `clip` rule for the missing first change (the `where` rule fills it with 0); otherwise it is the positive part of the change |
| Indicators.Loss | utils.py:134 | a loss is never negative; it is missing only under the `clip` rule for the missing first change; otherwise it is the size of a drop, or 0 |
| Indicators.Rsi | utils.py:135-136 | RSI is defined exactly when gain and loss are present and not both zero; it satisfies `rsi·(gain+loss) = 100·gain`, lies in `[0, 100]`, and is 100 exactly when the loss is zero |
| Indicators.Alpha | utils.py:139-142 | the smoothing factor `2/(span+1)` lies in `(0, 1]` exactly for a positive span |
| Indicators.SignalLine | utils.py:142 | the signal line has one entry per row (its values are stated by `MacdOfConstantPrices` and `EmaWithinRange`) |
| Indicators.GainSeries | utils.py:133 | the rolling gain has one entry per bar |
| Indicators.LossSeries | utils.py:134 | the rolling loss has one entry per bar |
| Indicators.AtrSeries | utils.py:152 | the ATR column has one entry per bar |
| Indicators.RequiredColumnsHoldBars | utils.py:123-126 | a frame that passes the required-column check has every column a bar is read from |
| Indicators.DataWithIndicators | utils.py:116-157 | an empty frame or a missing required column gives the empty table; otherwise the `where`-rule feature table |
| Indicators.DownloadFeatures | UjiCobaModel.py:64-100 | an empty download raises (`EmptyData`); a non-empty download lacking `High`, `Low`, `Close` or `Volume` fails with `MissingColumn` (`Open` is not required); otherwise the `clip`-rule feature table |
| Indicators.GainsLossesNonNegative | utils.py:133-134 | rolling gains and losses are never negative |
| Indicators.RollingNonNegative | utils.py:133-134 | a trailing mean of non-negative values is non-negative |
| Indicators.RollingWarmUp | utils.py:133-134 | a 14-row rolling mean is missing for the first 13 rows |
| Indicators.RollingLocal | utils.py:133-134 | rolling means agree wherever their windows agree |
| Indicators.EmaWithinRange | utils.py:139-142 | the EMA stays within the range of the values seen so far |
| Indicators.MacdOfConstantPrices | utils.py:139-142 | constant closes give a zero MACD and a zero signal line on every row |
| Indicators.TrueRangeIsMaximum | utils.py:145-150 | the true range dominates each of its three terms, equals one of them, and is non-negative |
| Indicators.AtrNonNegative | utils.py:145-152 | ATR is never negative when every high is at least its low |
| Indicators.ClipFirstWindowMissing | UjiCobaModel.py:79-80 | with the `clip` rule the first full 14-row gain window (row 13) holds row 0's missing change, so its mean is missing |
| Indicators.GainMissingBeforeWarmUp | utils.py:133 | the smoothed gain is missing on every row before the warm-up row |
| Indicators.IncompleteBeforeWarmUp | utils.py:133-155 | rows before the warm-up (13 with `where`, 14 with `clip`) never survive `dropna` |
| Indicators.CompleteRowLogReturn | utils.py:129 | a surviving row has a previous row with a non-zero close, and its log return is `ln` of that close ratio |
| Indicators.CompleteRowColumns | utils.py:136-155 | a surviving row carries its own bar, MACD, signal and ATR, and an RSI in `[0, 100]` |
| Indicators.CompleteRowFacts | utils.py:129-155 | every surviving row lies past the warm-up and carries the indicators of its own bar |
| Indicators.FeatureTableRows | utils.py:129-155 | the table is the complete rows in increasing position; each row has all features defined and equal to that position's indicators |
| Indicators.WindowPresent | utils.py:133-152 | a rolling window with every value present has the window's mean |
| Indicators.AtrPresentAfterWarmUp | utils.py:145-152 | the ATR is present from row 13 on |
| Indicators.GainLossAt | utils.py:132-134 | a present change has a non-negative gain and loss, one of them positive exactly when the close moved |
| Indicators.WindowMovesIff | utils.py:133-136 | over a window of present non-negative terms, some gain or loss mean is positive exactly when the close moved in the window |
| Indicators.GainLossAfterWarmUp | utils.py:132-136 | from the warm-up row on, the smoothed gain and loss are present, and one of them is positive exactly when the close moved in the RSI window |
| Indicators.CompleteAfterWarmUp | utils.py:129-155 | a row past the warm-up survives `dropna` exactly when its log return is a number and the close moved within its RSI window |
| Indicators.FeatureTableExactLength | utils.py:129-155 | when every row past the warm-up has a numeric log return and a moving close, `dropna` removes exactly the 13 (`where`) or 14 (`clip`) warm-up rows |
| Indicators.FeatureTableLength | utils.py:155 | `dropna` keeps at most the rows after the warm-up, and none of a frame no longer than the warm-up |
| Indicators.FeatureTableOrdered | utils.py:155 | surviving rows keep their original date order |
| Indicators.RulesAgreeAfterWarmUp | UjiCobaModel.py:79-83 | from row 14 on, the `clip` and `where` rules give identical rows |
| Indicators.ClipTailMatchesWhere | UjiCobaModel.py:79-83 | the two rules' frames agree from row 14 to the end |
| Indicators.ClipHeadDropped | UjiCobaModel.py:79-99 | with `clip`, none of the first 14 rows survives |
| Indicators.WhereHeadKeepsAtMostRowThirteen | utils.py:133-155 | with `where`, only row 13 of the first 14 can survive |
| Indicators.ClipDropsRowThirteen | UjiCobaModel.py:79-99 | the validation table is the page table without row 13, which only the `where` rule can keep |
| Display.Divisor | utils.py:27-32 | each scale divisor is at least a million |
| Display.FormatBigNumber | utils.py:23-34 | dash exactly for a missing or zero amount; a scaled amount is mantissa × divisor with the mantissa at least 1 (and below 1000 below T); whole dollars only below a million |
| Display.BigNumberTierMonotone | utils.py:27-34 | a larger positive amount never gets a smaller suffix |
| Display.FormatPrice | utils.py:36-45 | `$0.00` exactly for missing or zero; otherwise the price itself with 12 decimals below 1e-7 (negatives included), 8 below 1, and 2 grouped decimals from 1 up |
| Display.PriceDecimalsMonotone | utils.py:40-45 | a larger positive price never shows more decimals |
| Display.ChangePct | utils.py:74-77 | exactly 0 unless the previous close is positive; otherwise the percentage that carries the previous close to the price, with matching sign |
| Display.AllTimeLow | utils.py:82-89 | the least strictly positive low, or 0 exactly when no low is positive |
| Display.MarketSummary | utils.py:53-106 | the ticker loop appends one row per usable ticker, in ticker order, and skips the others |
| Display.SummaryEntryFacts | utils.py:66-100 | a summary row belongs to its ticker, has a non-empty history, and its ATL is a positive low of that history and at most every positive low |
| Scaling.FeatureVector | pages/Prediction.py:135 | six features in the order `[Log_Ret, RSI, MACD, MACD_Signal, ATR, Volume]` |
| Scaling.Transform | pages/Prediction.py:138 | the scaled row has six entries |
| Scaling.InverseTransform | pages/Prediction.py:145 | the unscaled row has six entries |
| Scaling.ScalingRoundTrip | UjiCobaModel.py:152-159 | `inverse_transform` undoes `transform` and vice versa, column by column |
| Scaling.DecodeFirstIsColumnZero | pages/Prediction.py:143-145 | column 0 of the inverse depends on column 0 alone, and decoding it undoes the forward scaling |
| Scaling.Recent | pages/Prediction.py:137 | the last `min(60, n)` rows, in order |
| Scaling.LastWindow | pages/Prediction.py:137-139 | fails (`InsufficientHistory`) exactly with fewer than 60 rows and is never padded; otherwise the last 60 rows in order |
| Validation.TestIndices | UjiCobaModel.py:128-129 | the test positions are exactly the rows dated in `[TEST_START, TEST_END]`, both ends included, in index order |
| Validation.Evaluated | UjiCobaModel.py:142-146 | every evaluated position has a full 60-row window and is a test position |
| Validation.EvaluatedMembers | UjiCobaModel.py:142-146 | a position is evaluated exactly when it is a test position at or after row 60 |
| Validation.Backtest | UjiCobaModel.py:142-168 | the date loop fails only on a shape error, and otherwise yields three lists of equal length |
| Validation.BacktestSucceeds | UjiCobaModel.py:148-159 | the date loop finishes exactly when the model answers every evaluated date |
| Validation.BacktestEntries | UjiCobaModel.py:148-168 | one entry per evaluated date: that date, its close, and the decoded return compounded off the real close of the row before |
| Validation.BacktestStep | UjiCobaModel.py:142-168 | one date either skips, fails, or appends the date, the actual close and the prediction |
| Validation.BacktestErrorPersists | UjiCobaModel.py:155-214 | once the loop has raised, no later date changes the outcome |
| Validation.WalkForward | UjiCobaModel.py:135-168 | the imperative date loop computes exactly the date-loop specification |
| Validation.RelativeError | UjiCobaModel.py:174 | relative error with scikit-learn's epsilon floor: non-negative, and zero exactly for an exact prediction |
| Sequences.MeanNonNegative | UjiCobaModel.py:172-174 | a mean of non-negative terms is non-negative, and zero exactly when every term is |
| Validation.Mse | UjiCobaModel.py:172 | MSE is non-negative, and zero exactly for perfect predictions |
| Validation.Mae | UjiCobaModel.py:173 | MAE is non-negative, and zero exactly for perfect predictions |
| Validation.Mape | UjiCobaModel.py:174 | MAPE is non-negative, and zero exactly for perfect predictions |
| Validation.RmseIsRootOfMse | UjiCobaModel.py:172 | RMSE is the non-negative square root of MSE |
| Validation.Accuracy | UjiCobaModel.py:175 | accuracy is at most 100 for a non-negative MAPE, and exactly 100 iff MAPE is 0 |
| Validation.MapeExample | UjiCobaModel.py:174-175 | MAPE of the three-day example is 389/5940 and accuracy 555100/5940 |
| Validation.TrackEntry | UjiCobaModel.py:171-186 | an entry is recorded exactly when the lists are non-empty |
| Validation.TableEntryWhen | UjiCobaModel.py:128-186 | a table yields metrics exactly when some test date has a full window and the model answers every such date |
| Validation.TickerEntryWhen | UjiCobaModel.py:112-133 | an asset is recorded exactly when its model, scaler and data load and its table yields metrics |
| Validation.RecordAllStep | UjiCobaModel.py:107-214 | one more asset extends the metrics map by that asset's own outcome |
| Validation.RecordEachIsolation | UjiCobaModel.py:183-214 | with distinct tickers, each slot holds exactly its own asset's entry, or is absent |
| Validation.RecordEachKeys | UjiCobaModel.py:183-186 | every key of the map comes from the starting map or from a recorded asset |
| Validation.RecordAllIsolation | UjiCobaModel.py:107-214 | an asset has an entry exactly when its own evaluation succeeded, whatever the other assets did; the entry is its own; no other key appears |
| Validation.Harness.constructor | UjiCobaModel.py:15 | the metrics map starts empty |
| Validation.Harness.EvaluateTicker | UjiCobaModel.py:112-214 | one asset iteration stores that asset's entry, and leaves the map unchanged on every failure |
| Validation.Harness.Run | UjiCobaModel.py:107-214 | the asset loop leaves the map the specification's fold over all assets |
| Forecast.Decoded | pages/Prediction.py:143-145 | decoding fails (`ShapeMismatch`) exactly when the output length is neither 7 nor 1, and otherwise yields seven returns |
| Forecast.DecodedInvertsScaling | pages/Prediction.py:143-145 | seven outputs that are scaled returns decode to exactly those returns |
| Forecast.SingleOutputRepeats | pages/Prediction.py:144 | a single output is broadcast: all seven returns are its decoded value |
| Forecast.DecodeOutputs | pages/Prediction.py:143-145 | filling column 0 of a zero 7 x 6 array and reading column 0 of each inverse-transformed row computes exactly `Decoded` |
| Forecast.PricePath | pages/Prediction.py:155-165 | one forecast price per return |
| Forecast.DayChange | pages/Prediction.py:159 | NaN exactly when the base price is zero; otherwise the percentage that carries the base price to the next |
| Forecast.Changes | pages/Prediction.py:159-162 | one change per forecast price |
| Forecast.Rollout | pages/Prediction.py:151-165 | the compounding loop produces exactly the dates, price path and changes of the specification |
| Forecast.PricePathStep | pages/Prediction.py:155-165 | each forecast price is the previous one (the last close on day 0) carried by that day's return |
| Forecast.ChangesStep | pages/Prediction.py:157-159 | each change compares a forecast price with the previous predicted price |
| Forecast.PricePathClosedForm | pages/Prediction.py:155-165 | forecast price `i` is the last close carried by the sum of returns `0..i` |
| Forecast.PreviousClosedForm | pages/Prediction.py:155-165 | day `i` starts from the last close carried by the sum of the returns before `i` |
| Forecast.DayChangeOfGrowth | pages/Prediction.py:157-159 | carrying a price by `r` changes it by `(exp(r) - 1) · 100` percent, or NaN from zero |
| Forecast.CompoundedZero | pages/Prediction.py:157 | a carried price is zero exactly when its base is |
| Forecast.ChangeAt | pages/Prediction.py:157-159 | change `i` is NaN from a zero last close, and `(exp(r_i) - 1) · 100` otherwise |
| Forecast.ChangesFollowReturns | pages/Prediction.py:157-162 | the change column depends on the returns alone: all NaN from a zero last close, else `(exp(r_i) - 1) · 100` |
| Forecast.ChangeSignFollowsReturn | pages/Prediction.py:157-159 | with a non-zero last close, change `i` is non-negative (zero) exactly when return `i` is |
| Forecast.LogReturnsOfPositiveCloses | utils.py:129 | over positive closes, every log return after row 0 is present and equals `ln(c[t+1] / c[t])` |
| Forecast.CompoundRatio | pages/Prediction.py:113-157 | carrying `a` by `ln(b/a)` gives `b` |
| Forecast.CompoundingInvertsAt | pages/Prediction.py:113-165 | carrying the first close by the `Log_Ret` column's values from row 1 on reproduces close `i + 1` |
| Forecast.CompoundingInvertsLogReturns | pages/Prediction.py:113-165 | compounding inverts the log-return feature: the first close and the log returns give back every later close |
| Forecast.PageWindowIsNextDay | pages/Prediction.py:137-142 | the page's model input is the validation's input for the day after the last row |
| Forecast.ForecastFromFacts | pages/Prediction.py:133-165 | after feature engineering the page fails with fewer than 60 rows and otherwise forecasts exactly when the model gives 1 or 7 outputs; the forecast has seven dates after the last row, the compounded prices and their changes |
| Forecast.PagePredictionFacts | pages/Prediction.py:96-165 | the page stops without assets, fails with fewer than 60 rows, and otherwise forecasts exactly when the model gives 1 or 7 outputs; the forecast has seven dates after the last row, the compounded prices and their changes |
| Forecast.PredictPage | pages/Prediction.py:96-165 | the page's steps in order compute exactly the page specification |
| Forecast.PredictionTable | pages/Prediction.py:205-213 | seven rows carrying each day's date, formatted price and change; `change-up` and the `+` sign exactly when the change is non-negative (NaN shows `change-down`) |
| Forecast.ShownMetricsAreRecorded | pages/Prediction.py:50-58 | the scores shown for a coin are those its own validation recorded, or zeros when it was skipped or never validated |
| Forecast.MissingMetricsShowZeros | pages/Prediction.py:50-58 | an unreadable metrics file shows RMSE 0 and MAPE 0 for every coin |

## Left out

- Streamlit layout, CSS, HTML and Plotly/Matplotlib charts are not modelled.
  The chart on pages/Prediction.py:169-196 and the plot files of the
  validation script are among them.
- Navigation, session state and the default coin are not modelled. The
  page is given its coin's assets and history directly.
- Caching (`st.cache_data`, `st.cache_resource`) is not modelled.
- Network and file I/O become parameters:
  - a yfinance download is a `Frame` or a `seq<Bar>`;
  - `info` is a map;
  - a model or scaler file that does not load is `None`;
  - `metrics.json` is the map itself, or `None` when it cannot be read.
- JSON serialisation, `DualLogger`, `time.sleep` and directory creation are
  not modelled.
- pages/Detail.py and Home.py are not part of this model.
- Timezone stripping and MultiIndex column flattening are not modelled.
  They are DataFrame plumbing with no numeric behaviour.
- The date loop looks up each test date's row by `get_loc`. The model uses
  the position directly, which takes the dates in the index to be distinct.
- Date strings (`strftime`) and the digit strings of the formatters are not
  modelled. A formatter is modelled by the tier it selects: amount, suffix,
  decimals and grouping.
- IEEE floating point is not modelled:
  - Values are exact reals.
  - A NaN is `None`, and `dropna` removes exactly those.
  - Infinity is not modelled.
  - The RSI's `x/0` cases follow IEEE: an infinite ratio gives 100, and
    `0/0` gives NaN.
- `round` is a parameter. `Validation.TrackEntry` states
  which values are rounded to how many digits, not the decimal result.
- Keras internals are not modelled. The network is an arbitrary function.
  `Forecast.Decoded` covers its outputs of length 7 or 1, which are the
  lengths NumPy can broadcast into the dummy column. Any other length is a
  `ShapeMismatch`.
- Indicators.LogReturns: a negative close ratio gives `None`, as
  `np.log` gives NaN there. A zero previous close is taken as missing,
  because infinity is not modelled. NumPy would give an infinite log return
  there, and `dropna` would keep that row. A zero close after a non-zero one
  gives the ratio 0, and its log return is `ln(0)`: the model keeps that
  value, which stands for NumPy's `-inf`.
- Indicators.DownloadFeatures: a download without a `Volume` column is
  rejected here with `MissingColumn`. UjiCobaModel.py raises only when a
  test date first selects the feature columns (UjiCobaModel.py:149-150), and
  with no evaluated date it records nothing. Either way the asset gets no
  entry.
- In `get_market_summary`, a ticker whose fallback to the close before last
  raises is skipped, as the source's `except` does. This happens with a
  one-day history and no `previousClose`. The exception's message is not
  modelled.
