# Forecast data consolidation and retrain gating

This project models the data path of a small sales-forecasting service. The service keeps one time series per
forecasting model, as a CSV file of `ds` (day or timestamp), `y` (value), `created_at` and `updated_at`. It
also keeps one forecast file per model. New points arrive in one of two ways:

- the caller submits them as a JSON list (the manual update);
- the service pulls one month of records from a remote record store (PocketBase) and reduces them per day
  (the database update).

Each update consolidates the incoming points with the stored series:

1. every incoming row is stamped with the current time;
2. rows whose `ds` does not parse are dropped;
3. the last row per `ds` is kept, after a stable sort by `(ds, updated_at)`;
4. the result is cut to the newest `window` days and written back.

A retrain gate then refits the forecast when at least 20 rows remain. With fewer rows it deletes the old
forecast and reports failure. An older script merges new rows into a sales file by keeping the first row per
`ds`; it is modelled alongside as a contrast.

Modules:

- `Wrappers`: `Option`.
- `KeyedSeries`: sequences kept strictly ascending by an integer key, and the sorted upsert that gives the
  three per-key reductions:
  - keep the newest row (consolidation);
  - keep the first row (the older merge);
  - add the values of one day (`sum`/`count` aggregation).
- `Consolidation`: the stored and incoming row types, stamping, dropping unparseable `ds`, keep-last
  deduplication and the rolling window. Keep-last is proved against a declarative definition of the surviving
  row (`IsSurvivor`: the last row of its `ds` group after a stable sort by `(ds, updated_at)`, where NaT sorts
  after every timestamp).
- `LegacyMerge`: the keep-first merge of `update_forecast.py`.
- `MonthRange`: the calendar, the month's first and last microsecond, and the `%Y-%m-%d %H:%M:%S` formatting
  used in the filter. The formatting drops the microseconds, so the end bound in the filter text names the
  start of the month's last second.
- `RemoteFetch`: collection configuration, the filter text, converting each record, per-day `count`/`sum`
  aggregation, and the month pull. A record whose conversion raises is skipped. A record whose date part
  parses to NaT is kept, with no `ds`.
- `ManualInput`: validation of a submitted JSON list.
- `ForecastService`: file paths, the retrain gate, and class `Service`. The class holds the data directory as a
  map from path to file, and its methods are the consolidate-and-save step, the gate and the two update flows.

Timestamps are integers (microseconds). NaT is `None`, and `None` orders after every timestamp, as it does
in a pandas sort. Six outside calls are parameters of the model:

- the forecasting library: `fit`, which succeeds with a forecast or fails;
- the record-store query: `query`, which returns records or fails;
- the clock: `now`;
- the outcome of removing a file: `removeOk`;
- constructing the record-store client: `clientError`, an error or none;
- parsing a record's date part: `parseDay` (below).

Library parsing is modelled as data:

- a submitted JSON value carries its parse results (`RawValue`);
- a record's date part is parsed by the parameter `parseDay`, which gives a day, NaT (`pd.to_datetime` of an
  empty text, `nan` or `NaT`), or an exception;
- a stored CSV row is given already parsed (`Record`), with NaT as `None`.

Behaviour of the code worth knowing:

- The month filter is a closed range. `month_end_dt` is the last microsecond of the month
  (services.py:143), and `[month_start_dt, month_end_dt]` holds exactly the month (`MonthRangeIsClosed`).
  The filter text, however, is written with `%Y-%m-%d %H:%M:%S` (services.py:145), which has no
  microseconds. Its end bound is `… 23:59:59`, the start of the last second (`EndBoundTextIsLastWholeSecond`).
  A record stamped inside that last second, after its start, is not fetched (`FilterRangeSkipsLastSecond`).
- A record whose date part gives NaT is not skipped (services.py:165 raises only on text that does not parse).
  It becomes a point with a NaT `ds`.
  - With `count` or `sum`, `groupby` leaves NaT days out.
  - Otherwise the point stays in the fetched table. A table made only of such points is not empty, so the
    database flow consolidates and runs the gate. The NaT points themselves are dropped during consolidation
    (services.py:63-65), which can still rewrite the series and remove the forecast.
  - The model leaves them out when it builds the batch. `NaTRowsDroppedAtConsolidation` shows that this
    gives the same combined table.
- Resubmitting a series' own rows keeps every day and value in place (`ResubmissionKeepsDaysAndValues`).
  Each replaced row's `updated_at` is set to the new `now`, and its `created_at` too, because the batch
  has no `created_at` column.
- An incoming row does not always replace the stored row for its day. A stored row whose `updated_at` is
  NaT sorts after the `now` stamp, and so does one with a timestamp later than `now`. Either one survives
  (`StoredNaTOutlivesIncoming`).
- In the database flow, a model name without a collection configuration makes the fetch return nothing. The
  flow then reports success with "no new data" (services.py:131-133, 200-201).
- The manual flow does not check the model name.

## Model

| member | source | states |
|---|---|---|
| Consolidation.StampRows | services.py:33-36 | every incoming row keeps its `ds` and `y`, gets `updated_at = now`, and keeps its own `created_at` when the column exists, otherwise gets `created_at = now` |
| Consolidation.UpdAtMostTotalOrder | services.py:64-67 | the `updated_at` order with NaT last is reflexive, total, antisymmetric and transitive |
| Consolidation.WithParsedDs | services.py:63-65 | dropping NaT `ds` rows never adds a row: each kept row is a row of the combined table |
| Consolidation.WithParsedDsKeepsTimestamped | services.py:63-65 | a row survives the NaT-`ds` drop exactly when it was in the combined table with a parsed `ds` |
| Consolidation.WithParsedDsOfRows | services.py:63-65 | rows that all have a `ds` pass the drop unchanged and in order |
| Consolidation.KeepLast | services.py:67-68 | the deduplicated table is strictly ascending by `ds` and has exactly the days of its input |
| Consolidation.KeepLastPicksSurvivor | services.py:67-68 | deduplication finds a row for day `d` exactly when the input has one, and that row is the last of its `ds` group after the stable `(ds, updated_at)` sort |
| Consolidation.SurvivorUnique | services.py:67-68 | each `ds` group has exactly one survivor |
| Consolidation.KeptIsSurvivor | services.py:67-68 | every row of the deduplicated table is the survivor of its `ds` group |
| Consolidation.KeepLastDeduplicates | services.py:67-70 | the deduplicated table is strictly ascending by `ds`, has the same set of days as its input, and each row is the survivor of its group |
| Consolidation.KeepLastOfAscending | services.py:67-70 | a table already strictly ascending by `ds` is left unchanged by deduplication |
| Consolidation.Window | services.py:71-72 | truncation keeps `window` rows when the table is longer, and all rows otherwise |
| Consolidation.WindowIndex | services.py:71-72 | the kept rows are the last rows of the table, in order |
| Consolidation.WindowKeepsNewest | services.py:70-72 | the window keeps `min(window, n)` rows, the suffix of the table, ascending, and every dropped row is older than every kept one |
| Consolidation.WindowDropsOnlyOlder | services.py:70-72 | a day missing after truncation is older than every day kept |
| Consolidation.Combined | services.py:60-65 | the combined table has at most the stored rows plus the incoming rows |
| Consolidation.CombinedSplits | services.py:60-65 | the combined table is the stored rows with a `ds`, in order, followed by all stamped incoming rows |
| Consolidation.Consolidated | services.py:60-72 | the written series is strictly ascending by `ds` and has at most `window` rows |
| Consolidation.ConsolidatedIsRollingWindow | services.py:60-72 | the written series is strictly ascending with one row per `ds`, has `min(window, days)` rows, each row is the survivor of its group, and only days older than every kept day are cut |
| Consolidation.ConsolidatedRowOrigin | services.py:60-72 | every row of the written series is a stored row or an incoming row stamped `now` |
| Consolidation.IncomingSupersedesOlder | services.py:60-68 | when the stored rows for a day all carry a real `updated_at` no later than now, the kept row is the last incoming row for that day |
| Consolidation.StoredNaTOutlivesIncoming | services.py:56-68 | a stored row with NaT `updated_at` survives against any incoming row for its day |
| Consolidation.LaterSubmissionWins | services.py:60-72 | of two consolidations in time order, the second one's last row for a day is the one kept |
| Consolidation.ReconsolidationIsIdentity | services.py:60-72 | consolidating a consolidated series that fits the window with no new rows changes nothing |
| Consolidation.ResubmissionKeepsDaysAndValues | services.py:60-72 | resubmitting a consolidated series that fits the window gives the same number of rows, with the same `ds` and `y` at every position |
| Consolidation.OneNewDayGrowsByOne | services.py:60-72 | below the window, one row for a new day makes the series exactly one row longer |
| LegacyMerge.MergeKeepFirst | update_forecast.py:9 | the merge is strictly ascending by `ds` and its days are the union of both inputs' days |
| LegacyMerge.KeepFirstFindsFirst | update_forecast.py:9 | the merged row for each day is the first row with that day in stored-then-new order |
| LegacyMerge.MergeKeepFirstSpec | update_forecast.py:9 | the merge is strictly ascending by `ds`, its days are the union of both inputs' days, and the stored row wins a collision |
| MonthRange.DaysInMonth | services.py:141-143 | a month has 28 to 31 days, and February has 29 exactly in leap years |
| MonthRange.MinusOneMicro | services.py:143 | subtracting one microsecond gives a valid instant strictly earlier |
| MonthRange.MonthEnd | services.py:143 | `month_end_dt` is a valid instant at 23:59:59.999999 on the month's last day |
| MonthRange.MonthEndIsLastMicro | services.py:141-143 | both branches give 23:59:59.999999 on the month's last day, and in December that is one microsecond before the next 1 January |
| MonthRange.MonthRangeIsClosed | services.py:141-143 | an instant lies between `month_start_dt` and `month_end_dt` inclusive exactly when it is in the target month |
| MonthRange.DigitsRoundTrip | services.py:145 | the decimal digits of a number read back as that number |
| MonthRange.Pad2 | services.py:145 | a two-digit field is two decimal digits reading back as its value |
| MonthRange.FormatSeconds | services.py:145 | the text has the year, then `-`, month, `-`, day, space, hour, `:`, minute, `:`, second, each field reading back as its value; the microseconds are not written |
| MonthRange.LastWholeSecond | services.py:145 | the start of the month's last second is a valid instant |
| MonthRange.EndBoundTextIsLastWholeSecond | services.py:143-145 | the end bound's text equals the text of the month's last whole second, 23:59:59.000000 |
| MonthRange.FilterRangeSkipsLastSecond | services.py:141-147 | the range the filter text names holds exactly the month's instants except those after the start of its last second |
| RemoteFetch.DatePart | services.py:165 | the date part is the prefix of the text before its first space |
| RemoteFetch.RangeClause | services.py:145 | the range clause bounds the date field from the month's start to its last whole second, both inclusive |
| RemoteFetch.BuildFilter | services.py:145-147 | the filter starts with the range clause. It is longer exactly when both the filter field and the filter value are set, and then the rest is ` && <field> = '<value>'` |
| RemoteFetch.MapRecord | services.py:162-173 | a record converts exactly when it has the date field, its date part does not raise, and it is counted or has a numeric value field. The `ds` is missing exactly when the date part is NaT, and is otherwise the day's midnight. The value is 1 with `count` and the field's number otherwise |
| RemoteFetch.MappedRecords | services.py:161-173 | at most one row per record; every `ds` present is a midnight; with `count` every value is 1 |
| RemoteFetch.MappedRecordsKeepsConverted | services.py:161-173 | every record that converts, including one with a NaT `ds`, gives a row of the table |
| RemoteFetch.MapRecords | services.py:161-173 | the loop over records yields exactly the converted rows in record order, skipping records that raise |
| RemoteFetch.Dated | services.py:177-182 | the rows with a `ds` number at most the rows of the table |
| RemoteFetch.DatedComesFromRows | services.py:177-182 | every dated point is a row of the table with that `ds` and `y` |
| RemoteFetch.DatedKeepsDated | services.py:177-182 | every row with a `ds` gives a dated point |
| RemoteFetch.DatedOfAsMapped | services.py:179-184 | grouped points written back as table rows keep every `ds`: taking the dated rows gives the points back |
| RemoteFetch.GroupByDayTotals | services.py:179-182 | grouping gives each day present one point whose value is that day's total, and days with no point are absent |
| RemoteFetch.DayTotalAbsent | services.py:179-182 | a day with no point has total 0 |
| RemoteFetch.DayTotalOfOnes | services.py:179-180 | with all values 1, a day's total is its number of points (`count`) |
| RemoteFetch.GroupByDayDays | services.py:179-182 | grouping is strictly ascending by day, keeps exactly the input's days, and keeps midnights |
| RemoteFetch.Aggregate | services.py:179-184 | `count`/`sum` give rows that all have a `ds`, and their points are the per-day grouping of the dated rows; any other method returns the rows unchanged |
| RemoteFetch.AggregateShape | services.py:176-184 | every `ds` present stays a midnight; `count`/`sum` give one ascending row per dated day with that day's total or count, NaT rows counting for no day |
| RemoteFetch.Fetched | services.py:130-184 | the pull is empty for an unknown model, a failed query or no records, and without `count`/`sum` it is the converted rows in record order |
| RemoteFetch.FetchMonth | services.py:130-184 | the method's table is the pull `Fetched` describes |
| RemoteFetch.ConvertedRecordMakesTableNonEmpty | services.py:161-177 | without `count`/`sum`, one converted record, even with a NaT `ds`, makes the fetched table non-empty |
| RemoteFetch.FetchedShape | services.py:161-184 | a fetched table's dated rows fall on midnights. With `count`/`sum` it has one ascending row per dated day, with that day's total or count. Otherwise it holds the converted rows in order, NaT `ds` included |
| ManualInput.ParseItem | services.py:117-119 | an object gives a row exactly when it has `ds` and `y` and both parse; the row carries the parsed values and the object's own `created_at` |
| ManualInput.ParsedItems | services.py:117-119 | the kept rows come from objects whose `ds` and `y` parse |
| ManualInput.ParsedItemsConcat | services.py:117-119 | parsing a concatenation gives the rows of the first part followed by those of the second: submission order is kept |
| ManualInput.ParsedItemsOfOne | services.py:117-119 | a single object gives its one row when it parses and nothing otherwise |
| ManualInput.ParsedItemsKeepsParseable | services.py:117-119 | every object whose `ds` and `y` parse is kept |
| ManualInput.Validate | services.py:110-119 | an empty or non-list body is invalid, and only then; a table without a `ds` or `y` column lacks columns, and only then; a valid batch has a `created_at` column exactly when some object has that key |
| ManualInput.ValidateSpec | services.py:117-119 | a valid batch holds exactly the rows of the parseable objects |
| ForecastService.FilePathShapes | services.py:15-19 | a model's series path ends with `<name>_data.csv` and its forecast path with `<name>_forecast.csv`, both under the data directory for a relative name |
| ForecastService.JoinDataDirShape | services.py:15-19 | a joined path ends with the file name, and an absolute file name replaces the data directory |
| ForecastService.FilePathsNeverClash | services.py:15-19 | a series file never shares a path with a forecast file, and distinct names give distinct paths |
| ForecastService.TrainingInput | services.py:97 | the model is fitted on the `ds` and `y` of every row, in order |
| ForecastService.DbBatch | services.py:176-177 | a fetched table becomes a batch without a `created_at` column, one row per dated row |
| ForecastService.StampedTable | services.py:33-36 | the whole fetched table stamped `now`, NaT rows included |
| ForecastService.NaTRowsDroppedAtConsolidation | services.py:56-65 | leaving NaT rows out of the batch gives the same combined table as stamping the whole fetched table and dropping its NaT `ds` rows at consolidation |
| ForecastService.GateOutcome | services.py:81-103 | the gate succeeds exactly when there are at least 20 rows and the 30-day fit succeeds. Below 20 it reports the row count, the data path and the removed forecast path. A failed fit reports its error |
| ForecastService.GateFiles | services.py:81-103 | the gate changes no file except the model's forecast file |
| ForecastService.GateRule | services.py:85-103 | below 20 rows: failure, no fit, forecast removed when removal succeeds. From 20 rows: success exactly when the 30-day fit succeeds, which replaces the forecast; a failed fit keeps the old one. No other file changes |
| ForecastService.Service.StoredSeries | services.py:41-51 | a readable series file gives its rows; a missing or unreadable file gives an empty series |
| ForecastService.Service.ProcessAndSave | services.py:21-79 | the saved series is the consolidation of the stored file (empty when missing or unreadable) with the stamped batch; it is ascending with at most `window` rows, and only the series file is overwritten |
| ForecastService.Service.TrainAndSave | services.py:81-103 | the outcome and the new directory are those of the gate |
| ForecastService.Service.UpdateManually | services.py:105-127 | an invalid body, missing columns or no parseable rows return early without touching any file; otherwise the result is consolidate-then-gate |
| ForecastService.Service.UpdateFromDb | services.py:187-209 | no URL or a failed client returns failure. An empty pull returns success without touching files. Otherwise the series is consolidated with the dated rows and the gate's result is passed through, wrapped as a database update |

## Left out

- The forecasting library (Prophet `fit`, `make_future_dataframe`, `predict`) is a parameter that returns a forecast or fails. Its numerics are not modelled.
- The record-store client and its network query are parameters: client construction either fails with an error (`clientError`) or succeeds, and the query returns records or fails.
- Logging (`print`) has no behaviour to model.
- A forecast-format file stored at a series path reads as an empty series. The service never writes one there (`FilePathsNeverClash`).
- The text rules of `pd.to_datetime` (which texts give a day, NaT or an exception) are the parameter `parseDay`; only the three outcomes are modelled.
- CSV reading and writing and the file-system calls are modelled as a map from path to file. Missing columns in a stored file, their `NaT`/`0.0` defaults, and date coercion are folded into the parsed `Record` the file holds.
- Timezone stripping (`tz_localize`) is not modelled, because timestamps are plain microsecond counts.
- The exception branch of the manual update (services.py:120-121) is not modelled. With parsing abstracted to values, no step of it can raise.
- List items that are not JSON objects are not modelled: an item is a map from key to value.
- The `created_at` value of a submitted row is kept as its parsed timestamp. The code writes the submitted text through unchanged.
- The result column order and the CSV text format are not modelled.
- `y` is a `real`; floating-point rounding is not modelled.
- MonthRange.FormatSeconds writes the year without zero padding, following the C library's `%Y` on Linux. Years before 1000 on other platforms are not modelled.
- The rest of update_forecast.py is not part of this model: reading and writing `sales_data.csv`, the 90-day Prophet refit and the forecast file. Only the merge at line 9 is modelled. Its `ds` values are taken as already comparable timestamps.
- run_all.py, app.py, generate_data.py, train_model.py and config.py are not part of this model. They cover process start-up, the web route, synthetic data, initial training and environment loading. The window, the collection configuration and the store URL are constructor parameters of `Service`.
- Concurrent updates are not modelled; the code has no locking.
