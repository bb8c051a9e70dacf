/**
 * `load_data_from_lakefs` and `forecasting_flow`
 * (work/myflow/test_ml.py:6-18, 127-147): load the table, stop early on an
 * empty one, clean it, forecast, save, and return the forecast. Reading the
 * parquet file is an input: either the frame that was read or the message of
 * the exception that reading raised.
 */
module Flow {
  import opened Wrappers
  import opened Cleaning
  import opened Ranking
  import opened Forecasting
  import opened Storage

  /** The table the flow reads; `read` below is the outcome of reading it. */
  const LakePath: string := "s3a://dust-concentration/main/dust_data.parquet"
  const ForecastBucket: string := "forecast"
  /** `main/forecast-results.parquet`. */
  const ForecastKey: string := "main" + "/" + "forecast-results.parquet"
  /** `s3a://forecast/main/forecast-results.parquet`. */
  const ForecastSavePath: string := "s3a:" + "/" + "/" + ForecastBucket + "/" + ForecastKey

  datatype FlowError =
    | LoadFailed(message: string)
    | SaveFailed(error: SaveError)

  /** `load_data_from_lakefs`: an empty frame is replaced by a frame with no
      columns and no rows; a failed read is re-raised. */
  function LoadData(read: Result<Frame, string>): (r: Result<Frame, FlowError>)
    ensures read.Err? <==> r.Err?
    ensures read.Err? ==> r.error == LoadFailed(read.error)
    ensures read.Ok? && IsEmpty(read.value) ==> r.value == EmptyFrame
    ensures read.Ok? && !IsEmpty(read.value) ==> r.value == read.value
    ensures r.Ok? ==> (IsEmpty(r.value) <==> IsEmpty(read.value))
  {
    match read
    case Err(message) => Err(LoadFailed(message))
    case Ok(frame) => if IsEmpty(frame) then Ok(EmptyFrame) else Ok(frame)
  }

  /** The flow's bucket and key. */
  lemma ForecastSavePathSplit()
    ensures SplitSavePath(ForecastSavePath) == Ok((ForecastBucket, ForecastKey))
  {
    assert '/' !in "s3a:" && '/' !in ForecastBucket && '/' !in "main" && '/' !in "forecast-results.parquet";
    SavePathOf("s3a:", ForecastBucket, "main", "forecast-results.parquet");
  }

  /** What the flow returns and what the store holds afterwards. The forecast
      is returned even when saving skipped the empty table. */
  function FlowSpec(read: Result<Frame, string>, fit: Model, buckets: set<string>, store: Store, writeFails: bool)
    : (Result<ForecastTable, FlowError>, Store)
  {
    match LoadData(read)
    case Err(e) => (Err(e), store)
    case Ok(frame) =>
      if IsEmpty(frame) then (Ok(EmptyTable), store)
      else
        var forecast := ForecastSpec(Preprocess(frame), fit);
        match SaveForecast(forecast, ForecastSavePath, buckets, store, writeFails)
        case Err(e) => (Err(SaveFailed(e)), store)
        case Ok(saved) => (Ok(forecast), saved)
  }

  /** The stations whose series the flow handed to the fit, in order. */
  function FlowFits(read: Result<Frame, string>): seq<string> {
    if read.Err? || IsEmpty(read.value) then []
    else
      var cleaned := Preprocess(read.value);
      if cleaned == [] then [] else FitCalls(cleaned, Stations(cleaned))
  }

  /** `forecasting_flow`. */
  method ForecastingFlow(read: Result<Frame, string>, fit: Model, buckets: set<string>, store: Store, writeFails: bool)
    returns (result: Result<ForecastTable, FlowError>, newStore: Store, fitted: seq<string>)
    ensures (result, newStore) == FlowSpec(read, fit, buckets, store, writeFails)
    ensures fitted == FlowFits(read)
  {
    var loaded := LoadData(read);
    if loaded.Err? {
      return Err(loaded.error), store, [];
    }
    var frame := loaded.value;
    if IsEmpty(frame) {
      return Ok(EmptyTable), store, [];
    }
    var cleaned := Preprocess(frame);
    var forecast;
    forecast, fitted := ForecastPm25(cleaned, fit);
    var saved := SaveForecast(forecast, ForecastSavePath, buckets, store, writeFails);
    if saved.Err? {
      return Err(SaveFailed(saved.error)), store, fitted;
    }
    return Ok(forecast), saved.value, fitted;
  }

  /** A failed read and an empty frame both end the flow before anything is
      fitted or written. */
  lemma FlowEarlyExit(read: Result<Frame, string>, fit: Model, buckets: set<string>, store: Store, writeFails: bool)
    requires read.Err? || IsEmpty(read.value)
    ensures FlowSpec(read, fit, buckets, store, writeFails).1 == store
    ensures FlowFits(read) == []
    ensures read.Err? ==> FlowSpec(read, fit, buckets, store, writeFails).0 == Err(LoadFailed(read.error))
    ensures read.Ok? ==> FlowSpec(read, fit, buckets, store, writeFails).0 == Ok(EmptyTable)
  {
  }

  /** A non-empty frame without one of the required columns cleans to no
      records, so nothing is fitted, the forecast is empty and the store is
      left alone; the flow still fails when the forecast bucket is missing. */
  lemma {:induction false} FlowMissingColumn(frame: Frame, c: string, fit: Model, buckets: set<string>, store: Store, writeFails: bool)
    requires !IsEmpty(frame) && c in RequiredColumns && c !in frame.columns
    ensures FlowFits(Ok(frame)) == []
    ensures FlowSpec(Ok(frame), fit, buckets, store, writeFails).1 == store
    ensures FlowSpec(Ok(frame), fit, buckets, store, writeFails).0 ==
              if ForecastBucket in buckets then Ok(EmptyTable) else Err(SaveFailed(BucketNotFound(ForecastBucket)))
  {
    MissingColumnGivesEmpty(frame, c);
    ForecastSavePathSplit();
    assert ForecastSpec([], fit) == EmptyTable;
  }

  /** The only change the flow makes to the store is to put a non-empty
      forecast, the one it returns, at the save path. */
  lemma FlowStoreChange(read: Result<Frame, string>, fit: Model, buckets: set<string>, store: Store, writeFails: bool)
    ensures var (result, newStore) := FlowSpec(read, fit, buckets, store, writeFails);
            newStore == store ||
            (result.Ok? && !IsEmptyTable(result.value) && newStore == store[ForecastSavePath := result.value])
  {
  }

  /** When the frame has rows and the forecast bucket exists, the flow fails
      only if writing a non-empty forecast fails, and otherwise returns the
      forecast of the cleaned records. */
  lemma {:induction false} FlowSucceeds(frame: Frame, fit: Model, buckets: set<string>, store: Store, writeFails: bool)
    requires !IsEmpty(frame) && ForecastBucket in buckets
    ensures var (result, _) := FlowSpec(Ok(frame), fit, buckets, store, writeFails);
            var forecast := ForecastSpec(Preprocess(frame), fit);
            (result.Err? <==> writeFails && !IsEmptyTable(forecast)) &&
            (result.Err? ==> result.error == SaveFailed(WriteError)) &&
            (result.Ok? ==> result.value == forecast)
  {
    ForecastSavePathSplit();
  }
}
