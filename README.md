# BitcoinML core in Dafny

This project models the batch logic of BitcoinML, a small Python tool that
turns one-minute Bitcoin price ticks into a daily, weekly or monthly table of
technical indicators, trains a linear regression on it, and projects prices
forward. The model covers three pieces and proves their properties:

- The **feature pipeline** (`src/preprocessing/preprocess_bitcoin.py`):
  - OHLCV resampling into calendar bins (`resample.dfy`).
  - The nine indicator columns: SMA 10/20, EMA 10/20, RSI 14, MACD with its
    signal line, and Bollinger bands (`indicators.dfy`).
  - Validation of the dataset choice, the NaN row drop, and the whole run,
    both as functions and as the in-place frame updates of the source
    (`pipeline.dfy`).
- The trainer's **`load_data`** (`src/models/linear_regression.py`):
  - Features are every column but Close.
  - The target is the next row's Close.
  - The split is unshuffled, with a trailing test fifth rounded up
    (`frames.dfy`, `training.dfy`).
- The **forward projection loop** of `predict_future`
  (`src/models/predict_future.py`). It runs on a `Table` class whose rows
  grow in place, like `temp_df` (`projection.dfy`).

`common.dfy` holds `Option` (pandas' NaN), `Result` (a raised exception) and
sums, means, maxima and minima. `datasets.dfy` holds the three name tables
that the three scripts keep.

Modelling choices:
- Prices are exact `real`s and a NaN cell is `None`.
- Three calendar or numeric operations are parameters:
  - The calendar bin of a timestamp (`bucket`, or `bucketOf` for a pandas
    rule).
  - The date offset of the projector (`advance`, or `offsetOf`).
  - The square root in the rolling standard deviation (`root`).
- The fitted model is a parameter (`predict`), and so is the reading of a
  processed file (`load`).
- Dates are integers.

Behaviour of the code worth knowing, which the model reproduces:
- **RSI with no loss.** pandas divides a positive average gain by a zero
  average loss to `inf`, so `100 - 100/(1 + inf)` gives RSI 100; only 0/0
  gives NaN. `RsiOf` returns 100 in that case, so such rows are kept by the
  NaN drop.
- **When the choice is checked.** `preprocess_bitcoin_data` reads the raw
  file, keeps the six columns and converts the timestamps before it looks
  the choice up in its rule table, and raises `ValueError` for an unknown
  one (`preprocess_bitcoin.py:70-87`). The model has no I/O, so only the
  outcome is modelled: an unknown choice yields `Failure(InvalidChoice)` and
  no table.
- **Empty input.** `preprocess_bitcoin.py` has no check for an empty tick
  table: resampling, the indicators and the NaN drop all run, and an empty
  table is written. `Preprocess` returns `Success` with no rows.
- **Unknown dataset in the projector.** `predict_future` prints a message
  and returns `None`; it does not raise. `Outcome.InvalidDataset` is a
  separate outcome from `Raised`.
- **Monthly labels.** Monthly bars are labelled by month START (`"MS"`), but
  the projector advances monthly dates by month END (`"1M"`).
  `MonthlyRulesDiffer` records that the two rules differ, and
  `Projection.MonthlyFirstProjection` proves that, on a calendar where the
  month end of a month start lies in that month, the first projected
  monthly date falls in the bin of the last monthly bar.

## Model

| member | source | states |
|---|---|---|
| Datasets.ChoicesAgree | src/models/linear_regression.py:52-56 | the pipeline's, the trainer's and the projector's tables accept exactly daily, weekly and monthly, and the file name read for a choice is the file name `bitcoin_<choice>.csv` the pipeline writes |
| Datasets.MonthlyRulesDiffer | src/models/predict_future.py:35-37 | the projector's monthly offset (month end) is not the pipeline's monthly rule (month start); daily and weekly agree |
| Resampling.Resample | src/preprocessing/preprocess_bitcoin.py:16-22 | never more bars than ticks; non-empty input gives a first bar labelled with the first tick's bin |
| Resampling.ResampleAggregates | src/preprocessing/preprocess_bitcoin.py:16-21 | on ticks with non-decreasing bins, each bar's bin has ticks, and the bar is their aggregate: Open of the first, High the maximum, Low the minimum, Close of the last, Volume the sum |
| Resampling.ResampleCoversKeys | src/preprocessing/preprocess_bitcoin.py:16-22 | the bar labels are exactly the labels of the non-empty bins, so empty bins produce no bar and are not filled |
| Resampling.ResampleAscending | src/preprocessing/preprocess_bitcoin.py:16-22 | on ticks with non-decreasing bins, bar labels strictly increase (one bar per bin, ascending) and none precede the first tick's bin |
| Resampling.OrderedTicksOrderedKeys | src/preprocessing/preprocess_bitcoin.py:16 | time-ordered ticks and a calendar rule that never maps a later time to an earlier bin give non-decreasing bins |
| Resampling.ResamplePreservesSanity | src/preprocessing/preprocess_bitcoin.py:16-21 | if every tick has Low <= Open, Close <= High, so has every bar |
| Resampling.ResampleSingletons | src/preprocessing/preprocess_bitcoin.py:16-22 | with strictly increasing bins each tick becomes its own bar unchanged |
| Resampling.ResampleIdempotent | src/preprocessing/preprocess_bitcoin.py:16-22 | resampling the bars again at the same rule gives the same bars, when a bin's label lies in that bin |
| Indicators.RollingMeanBounds | src/preprocessing/preprocess_bitcoin.py:29-30 | `rolling(w).mean()` is defined exactly from row w-1 on and there lies between the window's minimum and maximum |
| Indicators.RollingMeanConstant | src/preprocessing/preprocess_bitcoin.py:29-30 | on a constant column the rolling mean equals the constant wherever defined |
| Indicators.Alpha | src/preprocessing/preprocess_bitcoin.py:33-34 | the smoothing factor 2/(span+1) lies in (0, 1] |
| Indicators.Ema | src/preprocessing/preprocess_bitcoin.py:33-34 | the `adjust=False` EMA is defined at every row, with no warm-up |
| Indicators.EmaWithinSeen | src/preprocessing/preprocess_bitcoin.py:33-34 | each EMA value lies between the minimum and maximum of the closes seen so far |
| Indicators.EmaConstant | src/preprocessing/preprocess_bitcoin.py:33-34 | on a constant column the EMA equals the constant at every row |
| Indicators.EmaCausal | src/preprocessing/preprocess_bitcoin.py:33-34 | an EMA value depends only on the rows up to its own |
| Indicators.Macd | src/preprocessing/preprocess_bitcoin.py:48-50 | MACD is defined at every row |
| Indicators.MacdSignal | src/preprocessing/preprocess_bitcoin.py:51 | the signal line is defined at every row |
| Indicators.MacdConstant | src/preprocessing/preprocess_bitcoin.py:48-51 | on a constant column MACD and its signal are 0 at every row |
| Indicators.MacdSignalWithinSeen | src/preprocessing/preprocess_bitcoin.py:51 | the signal lies between the minimum and maximum of the MACD values seen so far |
| Indicators.GainsLosses | src/preprocessing/preprocess_bitcoin.py:37-39 | gain and loss are defined and non-negative from row 0 (the NaN first delta becomes 0), at most one is positive, and gain - loss is the change in Close |
| Indicators.RsiClosedForm | src/preprocessing/preprocess_bitcoin.py:44-45 | `100 - 100/(1 + g/l)` is NaN exactly when g = l = 0, otherwise equals 100·g/(g+l) in [0, 100], and is 100 exactly when l = 0 |
| Indicators.RsiAt | src/preprocessing/preprocess_bitcoin.py:41-45 | RSI is NaN before row 13; from row 13 both averages are defined and non-negative and RSI is their oscillator |
| Indicators.RsiBounded | src/preprocessing/preprocess_bitcoin.py:44-45 | where defined, RSI lies in [0, 100], and is below 100 exactly when the average loss is positive |
| Indicators.RsiUndefinedIffFlat | src/preprocessing/preprocess_bitcoin.py:37-45 | from row 13, RSI is NaN exactly when Close did not move over the moves its window covers |
| Indicators.SampleVariance | src/preprocessing/preprocess_bitcoin.py:55 | the sample variance of a window is never negative |
| Indicators.BollingerBands | src/preprocessing/preprocess_bitcoin.py:54-57 | the bands are defined exactly from row 19; Upper + Lower = 2·SMA_20, Upper - Lower = 4·std, so Lower <= SMA_20 <= Upper for a non-negative root |
| Indicators.BollingerConstant | src/preprocessing/preprocess_bitcoin.py:54-57 | on a constant column both bands equal the constant from row 19 |
| Pipeline.AddIndicators | src/preprocessing/preprocess_bitcoin.py:25-59 | adding the indicators gives one row per bar and leaves each bar's OHLCV unchanged |
| Pipeline.DropNa | src/preprocessing/preprocess_bitcoin.py:96 | no kept row holds a NaN cell, and no rows are added |
| Pipeline.DropNaMembers | src/preprocessing/preprocess_bitcoin.py:96 | a row is kept exactly when it was in the table and has no NaN cell |
| Pipeline.DropNaAppend | src/preprocessing/preprocess_bitcoin.py:96 | dropping distributes over concatenation, so kept rows stay in their order |
| Pipeline.DropNaSingle | src/preprocessing/preprocess_bitcoin.py:96 | a single row is kept exactly when it has no NaN cell |
| Pipeline.DropNaKeepsComplete | src/preprocessing/preprocess_bitcoin.py:96 | a table without NaN is unchanged |
| Pipeline.DropNaEmptiesIncomplete | src/preprocessing/preprocess_bitcoin.py:96 | a table with a NaN in every row becomes empty |
| Pipeline.DropNaPrefix | src/preprocessing/preprocess_bitcoin.py:96 | when exactly the rows from position w on have no NaN, dropping leaves exactly those rows |
| Pipeline.DropNaAscending | src/preprocessing/preprocess_bitcoin.py:96 | dropping rows keeps the labels strictly ascending |
| Pipeline.CompleteRows | src/preprocessing/preprocess_bitcoin.py:29-57 | a row has all nine indicator cells exactly when it is row 19 or later and its RSI window is not flat |
| Pipeline.FinalizeDropsWarmup | src/preprocessing/preprocess_bitcoin.py:96 | with no flat RSI window from row 19 on, finalisation removes exactly the first 19 rows |
| Pipeline.ConstantCloseIndicators | src/preprocessing/preprocess_bitcoin.py:29-57 | on constant closes every SMA, EMA and band equals the constant from row 19, MACD and signal are 0, and RSI is NaN |
| Pipeline.ConstantCloseDropsAll | src/preprocessing/preprocess_bitcoin.py:96 | a constant Close column leaves an empty finalised table |
| Pipeline.Preprocess | src/preprocessing/preprocess_bitcoin.py:80-102 | fails with `InvalidChoice` exactly for a choice outside daily, weekly and monthly; otherwise every saved row is NaN-free and the file name is the one the trainer and the projector look up for that choice |
| Pipeline.FinalRowsFromBars | src/preprocessing/preprocess_bitcoin.py:94-96 | every finalised row carries one of the input bars, and ascending bar labels stay ascending after the indicators and the NaN drop |
| Pipeline.PreprocessRows | src/preprocessing/preprocess_bitcoin.py:90-96 | on time-ordered ticks and a monotone rule the saved rows ascend by bin, each bar being the aggregate of all ticks of its bin |
| Pipeline.BarTable.AddTechnicalIndicators | src/preprocessing/preprocess_bitcoin.py:93 | the frame's rows become the indicator rows of its bars |
| Pipeline.BarTable.DropNaInPlace | src/preprocessing/preprocess_bitcoin.py:96 | the frame keeps exactly its NaN-free rows |
| Pipeline.PreprocessBitcoinData | src/preprocessing/preprocess_bitcoin.py:86-96 | validating, resampling, then updating the frame in place yields exactly the table `Preprocess` describes |
| Frames.IndexOf | src/models/linear_regression.py:14 | finds the first position of a column, or none exactly when the column is absent |
| Frames.DropColumnNames | src/models/linear_regression.py:14 | dropping a column that appears once leaves exactly the other names, one fewer |
| Frames.ToFrameShape | src/models/linear_regression.py:11 | the saved table read back is well formed, has 14 columns with Close fourth and no other, and holds each bar's Close there |
| Training.TestSize | src/models/linear_regression.py:19 | the test size for fraction 0.2 is the fewest samples covering a fifth of m (ceil(m/5)) |
| Training.LoadData | src/models/linear_regression.py:10-19 | fails exactly when Close is missing (KeyError) or there are at most two rows; otherwise the train part has m - ceil(m/5) >= 1 samples and the test part ceil(m/5), with m = rows - 1 |
| Training.LoadDataAligned | src/models/linear_regression.py:14-17 | training and test together are all samples in order; sample i's features are row i without Close and its target is row i+1's Close |
| Training.SplitChronological | src/models/linear_regression.py:19 | the training targets are the leading rows' next Closes and the test targets the trailing ones |
| Training.FeatureColumns | src/models/linear_regression.py:13-14 | the features are every column but Close, and each feature vector has one value per such column |
| Training.FourthColumnTargets | src/models/linear_regression.py:16-17 | on a 14-column frame with Close fourth, targets are the next rows' Close and features have 13 values |
| Training.TrainOnProcessed | src/models/linear_regression.py:16-17 | trained on the pipeline's output, targets are the following bars' Closes and each feature vector holds the other 13 values |
| Training.TrainingData | src/models/linear_regression.py:58-61 | an unknown dataset name trains nothing; a known one loads the file with the name the pipeline writes for it |
| Projection.WithClose | src/models/predict_future.py:41-42 | the copied row carries the prediction as Close and keeps every other value |
| Projection.WithCloseFeatures | src/models/predict_future.py:41-42 | two rows agreeing outside Close agree after the Close replacement |
| Projection.AdvancedForward | src/models/predict_future.py:35-37 | a forward offset applied k times moves a date strictly later each time |
| Projection.Table.Copy | src/models/predict_future.py:28 | the working copy of a well-formed table starts well formed and equal to the loaded table |
| Projection.Table.SetRow | src/models/predict_future.py:43 | `loc[d] = row` overwrites every row labelled d, or appends row under d when none is |
| Projection.GrownStep | src/models/predict_future.py:35-43 | one forward step picks a date not yet in the table and extends it by one copied row |
| Projection.GrownDates | src/models/predict_future.py:35-38 | the projected dates of a grown table strictly increase |
| Projection.Project | src/models/predict_future.py:30-43 | steps predictions, each from the last input row's features; the first is dated one offset after the last input date, whatever the dates; the last row's features never change; with increasing dates and a forward offset the table is the input plus one row per step, the input rows untouched |
| Projection.MonthlyFirstProjection | src/models/predict_future.py:35-37 | with a calendar where a month start's month end stays later in its month, the first projected monthly date (which `PredictFuture` fixes as one offset after the last date) is a new date in the bin of the last monthly bar |
| Projection.PredictFuture | src/models/predict_future.py:20-45 | invalid name gives no result; with steps >= 1 a missing Close raises KeyError and an empty table IndexError; otherwise max(steps, 0) predictions all equal to predict(features of the last row), the first always dated one offset after the last loaded date, and all dated one period apart after the last date and strictly increasing when the dates increase and the offset moves forward |

## Left out

- CSV reading and writing, directory creation, printing and the interactive prompt loops of all three scripts: I/O and UI. The processed file is the value `Processed(fileName, rows)`, and reading it back is `ToFrame` or the `load` parameter.
- The dataset download script is not part of this model (network and file copy).
- `convert_timestamp` (epoch seconds to UTC datetimes) and all pandas calendar semantics: `bucket`, `bucketOf`, `advance` and `offsetOf` are abstract. Sunday-anchored right-labelled weeks, month starts and month ends are therefore not modelled.
- IEEE floating point: NaN is `None` and `inf` appears only as RSI 100. Rounding is not modelled, so the test size is the exact `ceil(m / 5)` where scikit-learn computes `ceil(0.2 * m)` in floats.
- The square root is the abstract `root`: band lemmas assume only `root(v) >= 0` for `v >= 0`, or `root(0) = 0`.
- NaN values in the raw ticks: pandas' first and last skip them; the model's ticks carry no NaN.
- Model fitting, the MSE, `joblib` persistence and plotting in `train_and_evaluate`: foreign numerics and side effects. The fitted model appears only as `predict`.
- Datasets.ChoicesAgree: the tables keep file names only; directories are dropped. The pipeline and the projector use `src/data/processed` next to their own files, while the trainer uses `data/processed` relative to the working directory, so the trainer reads the pipeline's file only when run from `src/`.
- Resampling.Resample: groups runs of equal bins, which is pandas' grouping only when the ticks come in time order (as the raw file does); the lemmas assume that order.
- Training.LoadData: the date index of the four parts is not modelled. Frames are assumed well shaped and to name Close at most once, as read from CSV.
- Projection.PredictFuture: beyond the first prediction, the dates are characterised only when the loaded dates strictly increase and the offset moves forward. Otherwise `loc` can overwrite an existing row; the model's `SetRow` does so, but no date is proved for that case.
- Projection.PredictFuture: `df` is a value loaded by `load`, so it cannot be modified. All growth happens on the fresh `Table` copy.
- Pipeline.BarTable: the indicator step assigns nine columns one after another. Each assignment reads only Close and, for the signal line, the MACD column assigned just before it, so the model assigns the finished indicator rows in one update, which gives the same columns.
