/**
  The per-model series and forecast files and the two update flows of
  services.py: the retrain gate (`_train_and_save_forecast`), consolidation
  and save (`_process_and_save_historical_data`), the manual update
  (`update_forecast_manually`) and the monthly pull from the remote record store
  (`update_and_retrain_model_from_db`).  The data directory is a map from path to
  file; the forecasting library, the record store, the clock and the outcome of
  a file removal are parameters.
*/
module ForecastService {
  import opened Wrappers
  import opened Consolidation
  import opened RemoteFetch
  import ManualInput
  import KeyedSeries

  const DataDir: string := "prophet_data"

  /** Fewer rows than this and no model is fitted. */
  const MinTrainingRows: nat := 20

  /** Days predicted past the end of the series. */
  const ForecastHorizonDays: nat := 30

  /** `os.path.join(DataDir, file)`: an absolute file name replaces the directory. */
  function JoinDataDir(file: string): string {
    if |file| > 0 && file[0] == '/' then file else DataDir + "/" + file
  }

  function DataFilePath(name: string): string { JoinDataDir(name + "_data.csv") }

  function ForecastFilePath(name: string): string { JoinDataDir(name + "_forecast.csv") }

  lemma JoinDataDirShape(file: string)
    ensures |JoinDataDir(file)| >= |file|
    ensures JoinDataDir(file)[|JoinDataDir(file)| - |file|..] == file
    ensures |file| > 0 && file[0] == '/' ==> JoinDataDir(file) == file
    ensures !(|file| > 0 && file[0] == '/') ==> JoinDataDir(file) == DataDir + "/" + file
  {
  }

  /** A model's series file is its name followed by `_data.csv`, and its
      forecast file its name followed by `_forecast.csv`, both in the data
      directory unless the name is an absolute path. */
  lemma FilePathShapes(name: string)
    ensures var d := DataFilePath(name);
      |d| >= |name| + 9 && d[|d| - |name| - 9..] == name + "_data.csv"
    ensures var f := ForecastFilePath(name);
      |f| >= |name| + 13 && f[|f| - |name| - 13..] == name + "_forecast.csv"
    ensures !(|name| > 0 && name[0] == '/') ==>
      && DataFilePath(name) == DataDir + "/" + name + "_data.csv"
      && ForecastFilePath(name) == DataDir + "/" + name + "_forecast.csv"
  {
    JoinDataDirShape(name + "_data.csv");
    JoinDataDirShape(name + "_forecast.csv");
  }

  lemma JoinDataDirInjective(f: string, g: string)
    requires JoinDataDir(f) == JoinDataDir(g)
    ensures f == g
  {
    var p := JoinDataDir(f);
    var absF := |f| > 0 && f[0] == '/';
    var absG := |g| > 0 && g[0] == '/';
    assert p[0] == '/' <==> absF by { if !absF { assert p[0] == 'p'; } }
    assert p[0] == '/' <==> absG by { if !absG { assert JoinDataDir(g)[0] == 'p'; } }
    if !absF {
      assert f == p[|DataDir| + 1..];
      assert g == JoinDataDir(g)[|DataDir| + 1..];
    }
  }

  lemma SuffixCancels(a: string, b: string, suffix: string)
    requires a + suffix == b + suffix
    ensures a == b
  {
    assert |a| == |b|;
    assert a == (a + suffix)[..|a|];
    assert b == (b + suffix)[..|b|];
  }

  /** A model's series file and forecast file never share a path with each
      other or with another model's files. */
  lemma FilePathsNeverClash(a: string, b: string)
    ensures DataFilePath(a) != ForecastFilePath(b)
    ensures DataFilePath(a) == DataFilePath(b) ==> a == b
    ensures ForecastFilePath(a) == ForecastFilePath(b) ==> a == b
  {
    var d, f := a + "_data.csv", b + "_forecast.csv";
    JoinDataDirShape(d);
    JoinDataDirShape(f);
    var pd, pf := JoinDataDir(d), JoinDataDir(f);
    assert pd[|pd| - 5] == d[|d| - 5] == 'a';
    assert pf[|pf| - 5] == f[|f| - 5] == 't';
    if DataFilePath(a) == DataFilePath(b) {
      JoinDataDirInjective(a + "_data.csv", b + "_data.csv");
      SuffixCancels(a, b, "_data.csv");
    }
    if ForecastFilePath(a) == ForecastFilePath(b) {
      JoinDataDirInjective(a + "_forecast.csv", b + "_forecast.csv");
      SuffixCancels(a, b, "_forecast.csv");
    }
  }

  /** A row of a forecast file: `ds`, `yhat`, `yhat_lower`, `yhat_upper`. */
  datatype ForecastPoint = ForecastPoint(ds: Timestamp, yhat: real, yhatLower: real, yhatUpper: real)

  /** A file of the data directory as the code reads it. */
  datatype StoredFile = SeriesCsv(rows: seq<Record>) | ForecastCsv(points: seq<ForecastPoint>) | Unreadable

  /** The forecasting step (fit, predict, write) succeeds with a forecast or raises. */
  datatype FitResult = Fitted(forecast: seq<ForecastPoint>) | FitFailed(error: string)

  datatype YearMonth = YearMonth(year: int, month: int)

  datatype Message =
    | NotEnoughData(name: string, rows: nat, dataPath: string, removedForecast: Option<string>)
    | Trained(name: string)
    | TrainingFailed(name: string, error: string)
    | InvalidBody
    | MissingDsOrY
    | NoValidPoints
    | UrlNotConfigured
    | ClientFailed(error: string)
    | NoNewDbData(name: string, month: YearMonth)
    | DbUpdate(inner: Message, usedMonth: Option<YearMonth>)

  /** The `(success, message)` pair every flow returns. */
  datatype Outcome = Outcome(success: bool, message: Message)

  /** The `ds` and `y` columns the model is fitted on. */
  function TrainingInput(series: seq<Row>): (r: seq<Point>)
    ensures |r| == |series|
    ensures forall i :: 0 <= i < |r| ==> r[i] == Point(series[i].ds, series[i].y)
  {
    seq(|series|, i requires 0 <= i < |series| => Point(series[i].ds, series[i].y))
  }

  /** A fetched table as an incoming batch: no `created_at` column, and the
      rows whose `ds` is NaT left out (`NaTRowsDroppedAtConsolidation` shows
      that this is where the consolidation would drop them). */
  function DbBatch(table: seq<Mapped>): (b: Batch)
    ensures !b.hasCreatedAt && |b.points| == |Dated(table)|
  {
    Batch(DatedIncoming(table), false)
  }

  /** The dated rows of a table as incoming rows without a `created_at` cell, in order. */
  function DatedIncoming(table: seq<Mapped>): (r: seq<Incoming>)
    ensures |r| == |Dated(table)|
  {
    if |table| == 0 then []
    else
      (if table[0].ds.Some? then [Incoming(table[0].ds.value, table[0].y, None)] else [])
      + DatedIncoming(table[1..])
  }

  /** The fetched table with the stamps of services.py:33-36, NaT `ds` rows included. */
  function StampedTable(table: seq<Mapped>, now: Timestamp): (r: seq<Record>)
    ensures |r| == |table|
    ensures forall i :: 0 <= i < |r| ==> r[i] == Record(table[i].ds, table[i].y, Some(now), Some(now))
  {
    seq(|table|, i requires 0 <= i < |table| => Record(table[i].ds, table[i].y, Some(now), Some(now)))
  }

  /** Stamping the batch built from the dated rows is the NaT drop of the stamped whole table. */
  lemma {:induction false} StampedTableParsed(table: seq<Mapped>, now: Timestamp)
    ensures WithParsedDs(StampedTable(table, now)) == StampRows(DbBatch(table), now)
  {
    if |table| > 0 {
      assert StampedTable(table, now)[1..] == StampedTable(table[1..], now);
      StampedTableParsed(table[1..], now);
      StampedBatchCons(table, now);
    }
  }

  /** The stamped batch of a table is that of its first row, if dated, followed by that of the rest. */
  lemma StampedBatchCons(table: seq<Mapped>, now: Timestamp)
    requires |table| > 0
    ensures StampRows(DbBatch(table), now) ==
      (if table[0].ds.Some? then [Row(table[0].ds.value, table[0].y, Some(now), Some(now))] else [])
      + StampRows(DbBatch(table[1..]), now)
  {
    var rest := DatedIncoming(table[1..]);
    if table[0].ds.Some? {
      var x := Incoming(table[0].ds.value, table[0].y, None);
      assert DbBatch(table) == Batch([x] + rest, false);
      StampRowsCons(x, rest, now);
    } else {
      assert DbBatch(table) == DbBatch(table[1..]);
    }
  }

  lemma StampRowsCons(x: Incoming, xs: seq<Incoming>, now: Timestamp)
    ensures StampRows(Batch([x] + xs, false), now) == [Row(x.ds, x.y, Some(now), Some(now))] + StampRows(Batch(xs, false), now)
  {
    var whole, rest := StampRows(Batch([x] + xs, false), now), StampRows(Batch(xs, false), now);
    forall i | 0 <= i < |rest| ensures whole[i + 1] == rest[i] {
      assert ([x] + xs)[i + 1] == xs[i];
    }
  }

  /** Leaving the NaT rows out of the batch gives the combined table the code
      builds: the stored rows and the whole stamped table, with the NaT `ds`
      rows dropped (services.py:60-65). */
  lemma NaTRowsDroppedAtConsolidation(stored: seq<Record>, table: seq<Mapped>, now: Timestamp)
    ensures Combined(stored, DbBatch(table), now) == WithParsedDs(stored + StampedTable(table, now))
  {
    CombinedSplits(stored, DbBatch(table), now);
    WithParsedDsConcat(stored, StampedTable(table, now));
    StampedTableParsed(table, now);
  }

  /** The result of the retrain gate on a saved series. */
  function GateOutcome(name: string, series: seq<Row>, fit: (seq<Point>, nat) -> FitResult,
                       removeOk: bool, forecastExists: bool): (r: Outcome)
    ensures r.success <==> |series| >= MinTrainingRows && fit(TrainingInput(series), ForecastHorizonDays).Fitted?
    ensures |series| < MinTrainingRows ==>
      r.message == NotEnoughData(name, |series|, DataFilePath(name),
                                 if forecastExists && removeOk then Some(ForecastFilePath(name)) else None)
    ensures |series| >= MinTrainingRows && !r.success ==>
      r.message == TrainingFailed(name, fit(TrainingInput(series), ForecastHorizonDays).error)
  {
    if |series| < MinTrainingRows then
      Outcome(false, NotEnoughData(name, |series|, DataFilePath(name),
                                   if forecastExists && removeOk then Some(ForecastFilePath(name)) else None))
    else
      match fit(TrainingInput(series), ForecastHorizonDays)
      case Fitted(_) => Outcome(true, Trained(name))
      case FitFailed(error) => Outcome(false, TrainingFailed(name, error))
  }

  /** The data directory after the retrain gate. */
  function GateFiles(files: map<string, StoredFile>, name: string, series: seq<Row>,
                     fit: (seq<Point>, nat) -> FitResult, removeOk: bool): (r: map<string, StoredFile>)
    ensures forall p :: p != ForecastFilePath(name) ==> (p in r <==> p in files) && (p in files ==> r[p] == files[p])
  {
    if |series| < MinTrainingRows then
      (if ForecastFilePath(name) in files && removeOk then files - {ForecastFilePath(name)} else files)
    else
      match fit(TrainingInput(series), ForecastHorizonDays)
      case Fitted(forecast) => files[ForecastFilePath(name) := ForecastCsv(forecast)]
      case FitFailed(_) => files
  }

  /** The gate: below 20 rows it reports failure, fits nothing and removes the
      forecast file (when one exists and removal succeeds); from 20 rows on, a
      successful fit over a 30-day horizon replaces the forecast and reports
      success, and a failed one reports failure and keeps the old forecast.
      No other file changes. */
  lemma GateRule(files: map<string, StoredFile>, name: string, series: seq<Row>,
                 fit: (seq<Point>, nat) -> FitResult, removeOk: bool)
    ensures var outcome := GateOutcome(name, series, fit, removeOk, ForecastFilePath(name) in files);
      var after := GateFiles(files, name, series, fit, removeOk);
      && (forall p :: p != ForecastFilePath(name) ==> (p in after <==> p in files) && (p in files ==> after[p] == files[p]))
      && (|series| < MinTrainingRows ==>
            && !outcome.success
            && outcome.message.NotEnoughData? && outcome.message.rows == |series|
            && (removeOk ==> ForecastFilePath(name) !in after)
            && (!removeOk ==> after == files))
      && (|series| >= MinTrainingRows ==>
            && (outcome.success <==> fit(TrainingInput(series), ForecastHorizonDays).Fitted?)
            && (outcome.success ==> after == files[ForecastFilePath(name) := ForecastCsv(fit(TrainingInput(series), ForecastHorizonDays).forecast)])
            && (!outcome.success ==> after == files))
  {
    var result := fit(TrainingInput(series), ForecastHorizonDays);
    if |series| < MinTrainingRows {
      assert GateFiles(files, name, series, fit, removeOk) ==
        if ForecastFilePath(name) in files && removeOk then files - {ForecastFilePath(name)} else files;
    } else if result.Fitted? {
      assert GateFiles(files, name, series, fit, removeOk) == files[ForecastFilePath(name) := ForecastCsv(result.forecast)];
    } else {
      assert GateFiles(files, name, series, fit, removeOk) == files;
    }
  }

  class Service {
    /** The rolling window, in rows (`HISTORICAL_WINDOW_DAYS`). */
    const window: nat
    /** The per-model collection configuration. */
    const collections: map<string, CollectionConfig>
    /** The remote record store's URL, if configured. */
    const storeUrl: Option<string>
    /** The data directory: path to file. */
    var files: map<string, StoredFile>

    constructor (window: nat, collections: map<string, CollectionConfig>, storeUrl: Option<string>,
                 files: map<string, StoredFile>)
      ensures this.window == window && this.collections == collections
      ensures this.storeUrl == storeUrl && this.files == files
    {
      this.window := window;
      this.collections := collections;
      this.storeUrl := storeUrl;
      this.files := files;
    }

    /** The stored series of a model; a missing or unreadable file reads as empty. */
    function StoredSeries(name: string): (r: seq<Record>)
      reads this
      ensures |r| > 0 ==> DataFilePath(name) in files && files[DataFilePath(name)] == SeriesCsv(r)
      ensures DataFilePath(name) in files && files[DataFilePath(name)].SeriesCsv? ==> r == files[DataFilePath(name)].rows
      ensures DataFilePath(name) !in files || files[DataFilePath(name)].Unreadable? ==> r == []
    {
      var path := DataFilePath(name);
      if path in files && files[path].SeriesCsv? then files[path].rows else []
    }

    /** Consolidates a batch into a model's series and overwrites its series file. */
    method ProcessAndSave(name: string, batch: Batch, now: Timestamp) returns (series: seq<Row>)
      modifies this
      ensures series == Consolidated(old(StoredSeries(name)), batch, now, window)
      ensures KeyedSeries.StrictlyAscending(series, RowDs) && |series| <= window
      ensures files == old(files)[DataFilePath(name) := SeriesCsv(AsRecords(series))]
    {
      var stored := StoredSeries(name);
      var combined := stored + AsRecords(StampRows(batch, now));
      var rows := WithParsedDs(combined);
      var deduplicated := KeepLast(rows);
      series := Window(deduplicated, window);
      ConsolidatedIsRollingWindow(stored, batch, now, window);
      files := files[DataFilePath(name) := SeriesCsv(AsRecords(series))];
    }

    /** The retrain gate on a saved series. */
    method TrainAndSave(name: string, series: seq<Row>, fit: (seq<Point>, nat) -> FitResult, removeOk: bool)
      returns (outcome: Outcome)
      modifies this
      ensures outcome == GateOutcome(name, series, fit, removeOk, ForecastFilePath(name) in old(files))
      ensures files == GateFiles(old(files), name, series, fit, removeOk)
    {
      var forecastPath := ForecastFilePath(name);
      ghost var before := files;
      if |series| < MinTrainingRows {
        var removed: Option<string> := None;
        if forecastPath in files && removeOk {
          files := files - {forecastPath};
          removed := Some(forecastPath);
        }
        outcome := Outcome(false, NotEnoughData(name, |series|, DataFilePath(name), removed));
        assert outcome == GateOutcome(name, series, fit, removeOk, forecastPath in before);
        assert files == GateFiles(before, name, series, fit, removeOk);
        return;
      }
      var result := fit(TrainingInput(series), ForecastHorizonDays);
      if result.Fitted? {
        files := files[forecastPath := ForecastCsv(result.forecast)];
        outcome := Outcome(true, Trained(name));
      } else {
        outcome := Outcome(false, TrainingFailed(name, result.error));
      }
      assert outcome == GateOutcome(name, series, fit, removeOk, forecastPath in before);
      assert files == GateFiles(before, name, series, fit, removeOk);
    }

    /** A manual update: validate, then consolidate and gate, or stop early without touching any file. */
    method UpdateManually(name: string, body: ManualInput.ManualBody, now: Timestamp,
                          fit: (seq<Point>, nat) -> FitResult, removeOk: bool)
      returns (outcome: Outcome)
      modifies this
      ensures match ManualInput.Validate(body)
        case InvalidInput => outcome == Outcome(false, InvalidBody) && files == old(files)
        case MissingColumns => outcome == Outcome(false, MissingDsOrY) && files == old(files)
        case Valid(batch) =>
          if |batch.points| == 0 then outcome == Outcome(true, NoValidPoints) && files == old(files)
          else
            var series := Consolidated(old(StoredSeries(name)), batch, now, window);
            var saved := old(files)[DataFilePath(name) := SeriesCsv(AsRecords(series))];
            && outcome == GateOutcome(name, series, fit, removeOk, ForecastFilePath(name) in saved)
            && files == GateFiles(saved, name, series, fit, removeOk)
    {
      match ManualInput.Validate(body) {
        case InvalidInput =>
          return Outcome(false, InvalidBody);
        case MissingColumns =>
          return Outcome(false, MissingDsOrY);
        case Valid(batch) =>
          if |batch.points| == 0 {
            return Outcome(true, NoValidPoints);
          }
          var series := ProcessAndSave(name, batch, now);
          outcome := TrainAndSave(name, series, fit, removeOk);
      }
    }

    /** A monthly pull from the remote record store, then consolidate and gate; the
        gate's message is wrapped as a database update. */
    method UpdateFromDb(name: string, year: int, month: int, clientError: Option<string>,
                        query: (string, string) -> QueryResult, parseDay: string -> ParsedDate,
                        now: Timestamp, fit: (seq<Point>, nat) -> FitResult, removeOk: bool)
      returns (outcome: Outcome)
      requires 1 <= year <= 9999 && 1 <= month <= 12
      modifies this
      ensures !IsSet(storeUrl) ==> outcome == Outcome(false, UrlNotConfigured) && files == old(files)
      ensures IsSet(storeUrl) && clientError.Some? ==>
        outcome == Outcome(false, ClientFailed(clientError.value)) && files == old(files)
      ensures IsSet(storeUrl) && clientError.None? ==>
        var table := Fetched(collections, name, year, month, query, parseDay);
        if |table| == 0 then
          outcome == Outcome(true, NoNewDbData(name, YearMonth(year, month))) && files == old(files)
        else
          var series := Consolidated(old(StoredSeries(name)), DbBatch(table), now, window);
          var saved := old(files)[DataFilePath(name) := SeriesCsv(AsRecords(series))];
          var gate := GateOutcome(name, series, fit, removeOk, ForecastFilePath(name) in saved);
          && outcome == Outcome(gate.success, DbUpdate(gate.message, if gate.success then Some(YearMonth(year, month)) else None))
          && files == GateFiles(saved, name, series, fit, removeOk)
    {
      if !IsSet(storeUrl) {
        return Outcome(false, UrlNotConfigured);
      }
      if clientError.Some? {
        return Outcome(false, ClientFailed(clientError.value));
      }
      var table := FetchMonth(collections, name, year, month, query, parseDay);
      if |table| == 0 {
        return Outcome(true, NoNewDbData(name, YearMonth(year, month)));
      }
      var series := ProcessAndSave(name, DbBatch(table), now);
      var gate := TrainAndSave(name, series, fit, removeOk);
      if gate.success {
        outcome := Outcome(true, DbUpdate(gate.message, Some(YearMonth(year, month))));
      } else {
        outcome := Outcome(false, DbUpdate(gate.message, None));
      }
    }
  }
}
