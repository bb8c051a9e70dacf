# PM2.5 forecasting flow — a Dafny model

This project models the forecasting core of `work/myflow/test_ml.py`, a
Prefect flow that reads hourly PM2.5 readings for Bangkok air-quality
stations, cleans them, ranks the stations by mean concentration, fits a
per-station model to forecast the next six hours, assembles one table with
a row per station and writes it back to a LakeFS bucket.

The model has six modules:

- `Cleaning` (`cleaning.dfy`) covers `preprocess_data`. It checks for the
  three required columns, keeps non-negative readings and drops the two
  excluded stations.
- `Ranking` (`ranking.dfy`) covers the `groupby(...).mean()` and
  `nlargest(5)` ranking. Ties are broken by the smaller station name.
- `Forecasting` (`forecasting.dfy`) covers `forecast_pm25`. It contains:
  - each station's time-sorted series;
  - the per-station decision between a forecast row, an all-`None` row or
    no row;
  - the station loop, as a method proved against the specification
    function `Collect`;
  - the assembly of the two dictionaries into one table.
- `ForecastProperties` (`forecast_properties.dfy`) holds the properties of
  the assembled table. They cover which stations get a row, row content,
  order, uniqueness, row count and column labels.
- `Storage` (`storage.dfy`) covers `save_forecast_to_lakefs`. It contains
  the `/`-split of the path into bucket and key, the bucket guard, the
  empty-table skip and the write.
- `Flow` (`flow.dfy`) covers `load_data_from_lakefs` and `forecasting_flow`.

The other files, `wrappers.dfy` and `sequences.dfy`, hold `Option`/`Result`
and generic sequence lemmas: filtering, subsequences and first-appearance
deduplication.

The rest of the world appears as parameters:
- **The model fit** is a function `Model` from a station's time-sorted
  series to either its predicted means or an error. It stands for
  `ARIMA(series, order=(1, 0, 1)).fit().get_forecast(6).predicted_mean`,
  including any exception raised there.
- **The parquet read** is a `Result` holding either the frame that was read
  or the exception's message.
- **The object store** is a map from path to table.
- **The bucket check** is a set of existing bucket names.
- **The write** is a failure flag.

The model records the stations whose series are handed to the fit, in order.

Where the code and the repository's description of the system disagree, the
model follows the code:
- A top-5 station with fewer than four readings, or whose fit raises, gets
  **no row**. This is because the fallback rows are only written for
  non-top stations. So the table does not always have one row per cleaned
  station (`ForecastProperties.TopStationWithoutForecastHasNoRow`,
  `ForecastProperties.ForecastRowCount`).
- A result with no rows has **no columns** (`pd.DataFrame()`). The columns
  are not six vacuous labels (`ForecastProperties.ForecastColumns`).
- Ties in the ranking go to the station whose name sorts first. This is
  because `groupby` sorts its keys and `nlargest` keeps the first of equal
  values. It is not the station encountered first (`Ranking.RankProperties`).
- Rows are ordered top-5 group first, then the rest. Inside each group the
  order is the stations' first appearance in the cleaned data, not the rank
  order (`ForecastProperties.ForecastTopFirst`,
  `ForecastProperties.ForecastFirstAppearance`).
- When a required column is missing, the flow still calls the forecaster on
  the empty result and still checks the bucket before skipping the save
  (`Flow.FlowMissingColumn`).

## Model

| member | source | states |
|---|---|---|
| Cleaning.MissingColumns | work/myflow/test_ml.py:23-25 | a column is reported missing exactly when it is one of `timestamp`, `nameTH`, `PM25.value` and the frame lacks it |
| Cleaning.MissingColumnGivesEmpty | work/myflow/test_ml.py:25-28 | when any required column is absent the cleaned result has no records |
| Cleaning.PreprocessSound | work/myflow/test_ml.py:30-37 | with all columns present, a record is kept iff its value is present and non-negative and its station is not excluded; kept records keep their original order |
| Cleaning.CleanedValuesPresent | work/myflow/test_ml.py:31-34 | every cleaned record has a non-negative value and a station outside the exclusion list |
| Ranking.StationsExact | work/myflow/test_ml.py:56 | the station list has no duplicates and holds exactly the stations that occur in the cleaned data |
| Ranking.BestRanksFirst | work/myflow/test_ml.py:47-48 | the candidate `nlargest` takes first comes before every other one: a larger score, or the same score and a name that sorts first |
| Ranking.TopKDescending | work/myflow/test_ml.py:48 | the selected names are listed in that order |
| Ranking.TopKDominates | work/myflow/test_ml.py:48 | every candidate left out comes after every selected one |
| Ranking.RankProperties | work/myflow/test_ml.py:47-48 | the top list has min(5, number of stations) distinct stations from the data, listed in rank order (larger mean first, equal means by name), and every station left out ranks after every station in it |
| Forecasting.SeriesProperties | work/myflow/test_ml.py:57 | a station's series is sorted by timestamp, is a permutation of that station's rows and holds only readings of that station |
| Forecasting.Unavailable | work/myflow/test_ml.py:65 | the fallback row is six `None` cells |
| Forecasting.ForecastRow | work/myflow/test_ml.py:72-80 | the row always has six cells: position i holds the i-th predicted mean when there is one and `None` otherwise |
| Forecasting.PlaceCases | work/myflow/test_ml.py:62-90 | a non-top station always goes to the other dictionary; a top station gets a row only with at least four points and a successful fit; a row holds the forecast or the all-`None` fallback |
| Forecasting.ForecastStations | work/myflow/test_ml.py:53-90 | after the loop both dictionaries are valid insertion-ordered dicts whose items are `Collect` over the stations in first-appearance order, and the fitted stations are those with at least four points |
| Forecasting.ForecastPm25 | work/myflow/test_ml.py:40-103 | the returned table is `ForecastSpec`; an empty input gives the empty table and fits nothing |
| ForecastProperties.CollectCount | work/myflow/test_ml.py:56-90 | every station the loop visits ends in exactly one of: the top dictionary, the other dictionary, dropped |
| ForecastProperties.ForecastMembership | work/myflow/test_ml.py:62-100 | a station has a row iff it occurs in the cleaned data and is either outside the top list or has at least four points and a successful fit |
| ForecastProperties.TopStationWithoutForecastHasNoRow | work/myflow/test_ml.py:62-66 | a top station with fewer than four points or a failing fit has no row |
| ForecastProperties.ForecastRowContent | work/myflow/test_ml.py:62-98 | each row belongs to a cleaned station, has six cells, and holds the reindexed forecast when the series is long enough and the fit succeeds, all `None` otherwise |
| ForecastProperties.ForecastColumns | work/myflow/test_ml.py:92-100 | the columns are `t+1hr` … `t+6hr` whenever there is at least one row, and there are none otherwise |
| ForecastProperties.LabelsText | work/myflow/test_ml.py:96 | the labels are exactly `t+1hr`, `t+2hr`, …, `t+6hr` |
| ForecastProperties.ForecastTopFirst | work/myflow/test_ml.py:100 | a top-list row never comes after a row of another station |
| ForecastProperties.ForecastFirstAppearance | work/myflow/test_ml.py:56-100 | within each group rows follow the order in which their stations first appear in the cleaned data |
| ForecastProperties.ForecastDistinct | work/myflow/test_ml.py:53-100 | no station has two rows |
| ForecastProperties.ForecastRowCount | work/myflow/test_ml.py:56-100 | the table has at most one row per station, and one for every station iff every top station has at least four points and a successful fit |
| Storage.JoinSplit | work/myflow/test_ml.py:109-110 | joining the `/`-split pieces of a path with `/` gives the path back |
| Storage.SplitJoin | work/myflow/test_ml.py:109-110 | splitting the `/`-join of `/`-free pieces gives the pieces back |
| Storage.SavePathParts | work/myflow/test_ml.py:109-110 | a path splits into bucket and key iff it has at least three segments; the bucket is the third segment and holds no `/`; the first two segments joined by `/`, then `/` and the bucket, then `/` and the key when there are more than three segments, give the path |
| Storage.SavePathOf | work/myflow/test_ml.py:109-110 | `scheme://bucket/branch/file` names that bucket and the key `branch/file` |
| Storage.SaveForecast | work/myflow/test_ml.py:106-124 | saving succeeds iff the path has a bucket segment, the bucket exists and the table is empty or the write succeeds; a missing bucket is an error even for an empty table; an empty table leaves the store unchanged; a write replaces the table at the path and nothing else |
| Flow.LoadData | work/myflow/test_ml.py:6-18 | a failed read is re-raised with its message, an empty frame becomes the frame with no columns and rows, any other frame is returned unchanged |
| Flow.ForecastSavePathSplit | work/myflow/test_ml.py:132 | the flow's save path names bucket `forecast` and key `main/forecast-results.parquet` |
| Flow.ForecastingFlow | work/myflow/test_ml.py:127-147 | the result and the store afterwards are `FlowSpec`, and the fitted stations are `FlowFits` |
| Flow.FlowEarlyExit | work/myflow/test_ml.py:140-142 | after a failed read or on an empty frame nothing is fitted, the store is unchanged, and the result is the load error or the empty table |
| Flow.FlowMissingColumn | work/myflow/test_ml.py:140-147 | a non-empty frame without a required column fits nothing, leaves the store unchanged, and returns the empty table, or the missing-bucket error when bucket `forecast` does not exist |
| Flow.FlowStoreChange | work/myflow/test_ml.py:140-147 | the flow either leaves the store unchanged or stores the non-empty forecast it returns at the save path |
| Flow.FlowSucceeds | work/myflow/test_ml.py:140-147 | with rows and an existing bucket, the flow fails only when writing a non-empty forecast fails, and otherwise returns the forecast of the cleaned records |

## Left out

- Reading and writing parquet through `s3fs`, the storage options and the LakeFS endpoint are left out. The read result, the bucket set, the store and the write outcome are parameters.
- The ARIMA fit itself, `statsmodels`' numerics and its exceptions are left out. They are the `Model` parameter: a series maps to predicted means or an error.
- The forecast timestamps (`pd.date_range` starting at the last reading, line 79) are left out; the table keeps only the values. Any exception raised at lines 75-80 (for instance `date_range` on a missing or out-of-range last timestamp) depends only on the series, so it is an `Err` of `Model` and takes the fit-error path of lines 87-90. Missing timestamps themselves are not represented (`timestamp: int`).
- Prefect's `@task`/`@flow` scheduling and all logging are left out. They do not change any returned value.
- Floating point is left out. Readings and means are real numbers. `NaN` and `None` are both the absent value `None`, and a missing reading fails the `>= 0` filter as `NaN` does.
- Columns other than the three required ones are left out: a frame carries its column names and, per record, only those three fields.
- `sort_index` tie order is left out. Readings of one station that share a timestamp are sorted by an insertion sort, and the model does not claim pandas' order among them.
- `Forecasting.ForecastRow`: assumes `reindex(range(6))` acts on positions 0…5 of the predicted means. That is the intent of the code. Pandas reindexes by index label, and the model does not capture that.
- `deploy.py` and the dashboard are outside the forecasting core and are not part of this model.
