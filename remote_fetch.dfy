/**
  Pulling one calendar month of a model's records from the remote record store
  and turning them into `(ds, y)` points (`fetch_data_for_month_from_pb` in
  services.py).  The store's query is a parameter: it is given the collection
  name and the filter text and either fails or returns records.
*/
module RemoteFetch {
  import opened Wrappers
  import opened KeyedSeries
  import opened Consolidation
  import opened MonthRange

  /** One entry of the per-model collection configuration. */
  datatype CollectionConfig = CollectionConfig(
    collectionName: string,
    dsField: string,
    yField: Option<string>,
    aggregationMethod: Option<string>,
    filterField: Option<string>,
    filterValue: Option<string>)

  /** A field of a remote record: its `str()` text and what `float()` makes of it. */
  datatype FieldValue = FieldValue(text: string, asFloat: Option<real>)

  datatype RemoteRecord = RemoteRecord(id: string, fields: map<string, FieldValue>)

  datatype QueryResult = QueryFailed(error: string) | Records(records: seq<RemoteRecord>)

  /** What `pd.to_datetime(text).date()` makes of a date part: a day, NaT
      (an empty text, `nan` or `NaT`), or an exception. */
  datatype ParsedDate = OnDay(day: int) | NotATime | Unparseable

  /** A converted record: its `ds` (`None` for NaT) and its `y`. */
  datatype Mapped = Mapped(ds: Option<Timestamp>, y: real)

  /** A `(ds, y)` point with a real `ds`. */
  datatype Point = Point(ds: Timestamp, y: real)

  function PointDs(p: Point): Timestamp { p.ds }

  const MicrosPerDay: int := 86_400_000_000

  /** Midnight of day number `day`. */
  function Midnight(day: int): Timestamp { day * MicrosPerDay }

  /** Python truthiness of an optional configuration string. */
  predicate IsSet(s: Option<string>) { s.Some? && s.value != "" }

  predicate CountsRecords(cfg: CollectionConfig) { cfg.aggregationMethod == Some("count") }

  predicate SumsPerDay(cfg: CollectionConfig) { cfg.aggregationMethod == Some("sum") }

  /** `text.split(" ")[0]`: the text up to its first space. */
  function DatePart(text: string): (r: string)
    ensures r <= text
    ensures ' ' !in r
    ensures |r| < |text| ==> text[|r|] == ' '
  {
    if |text| == 0 || text[0] == ' ' then "" else [text[0]] + DatePart(text[1..])
  }

  /** The range clause of the filter, on the configured date field.  The end
      bound is written to the second, so it names the start of the month's last
      second rather than `month_end_dt` itself. */
  function RangeClause(dsField: string, year: int, month: int): (r: string)
    requires 1 <= year <= 9999 && 1 <= month <= 12
    ensures r == dsField + " >= '" + FormatSeconds(MonthStart(year, month)) + "' && "
      + dsField + " <= '" + FormatSeconds(LastWholeSecond(year, month)) + "'"
  {
    MonthEndIsLastMicro(year, month);
    EndBoundTextIsLastWholeSecond(year, month);
    dsField + " >= '" + FormatSeconds(MonthStart(year, month)) + "' && "
      + dsField + " <= '" + FormatSeconds(MonthEnd(year, month)) + "'"
  }

  /** The filter text; the equality clause is appended only when both the filter field and the filter value are set. */
  function BuildFilter(cfg: CollectionConfig, year: int, month: int): (f: string)
    requires 1 <= year <= 9999 && 1 <= month <= 12
    ensures RangeClause(cfg.dsField, year, month) <= f
    ensures |f| > |RangeClause(cfg.dsField, year, month)| <==> IsSet(cfg.filterField) && IsSet(cfg.filterValue)
    ensures IsSet(cfg.filterField) && IsSet(cfg.filterValue) ==>
      f[|RangeClause(cfg.dsField, year, month)|..] == " && " + cfg.filterField.value + " = '" + cfg.filterValue.value + "'"
  {
    RangeClause(cfg.dsField, year, month)
      + if IsSet(cfg.filterField) && IsSet(cfg.filterValue)
        then " && " + cfg.filterField.value + " = '" + cfg.filterValue.value + "'"
        else ""
  }

  /** The value field's number, when the record is not counted: `float(getattr(record, y_field))`. */
  function YValue(cfg: CollectionConfig, rec: RemoteRecord): Option<real> {
    if cfg.yField.None? || cfg.yField.value !in rec.fields then None
    else rec.fields[cfg.yField.value].asFloat
  }

  /** One record converted, or `None` when a step of its conversion raises: a
      missing date field, a date part that raises, or (unless counting) a
      missing or non-numeric value field.  A date part that gives NaT does not
      raise: the record is kept with a NaT `ds`. */
  function MapRecord(cfg: CollectionConfig, parseDay: string -> ParsedDate, rec: RemoteRecord): (r: Option<Mapped>)
    ensures r.Some? <==>
      && cfg.dsField in rec.fields
      && !parseDay(DatePart(rec.fields[cfg.dsField].text)).Unparseable?
      && (CountsRecords(cfg) || YValue(cfg, rec).Some?)
    ensures r.Some? ==>
      && (r.value.ds.Some? <==> parseDay(DatePart(rec.fields[cfg.dsField].text)).OnDay?)
      && (r.value.ds.Some? ==> r.value.ds.value == Midnight(parseDay(DatePart(rec.fields[cfg.dsField].text)).day))
      && r.value.y == if CountsRecords(cfg) then 1.0 else YValue(cfg, rec).value
  {
    if cfg.dsField !in rec.fields then None
    else
      var parsed := parseDay(DatePart(rec.fields[cfg.dsField].text));
      if parsed.Unparseable? then None
      else
        var ds := if parsed.OnDay? then Some(Midnight(parsed.day)) else None;
        if CountsRecords(cfg) then Some(Mapped(ds, 1.0))
        else if cfg.yField.None? || cfg.yField.value !in rec.fields then None
        else if rec.fields[cfg.yField.value].asFloat.None? then None
        else Some(Mapped(ds, rec.fields[cfg.yField.value].asFloat.value))
  }

  /** The converted records, in record order. */
  function MappedRecords(cfg: CollectionConfig, parseDay: string -> ParsedDate, records: seq<RemoteRecord>): (r: seq<Mapped>)
    ensures |r| <= |records|
    ensures forall m :: m in r ==> m.ds.Some? ==> m.ds.value % MicrosPerDay == 0
    ensures CountsRecords(cfg) ==> forall m :: m in r ==> m.y == 1.0
  {
    if |records| == 0 then []
    else
      var rest := MappedRecords(cfg, parseDay, records[..|records| - 1]);
      match MapRecord(cfg, parseDay, records[|records| - 1])
      case None => rest
      case Some(m) => rest + [m]
  }

  /** Every record that converts is kept, in particular one whose `ds` is NaT. */
  lemma {:induction false} MappedRecordsKeepsConverted(cfg: CollectionConfig, parseDay: string -> ParsedDate,
                                                       records: seq<RemoteRecord>, i: int)
    requires 0 <= i < |records|
    requires MapRecord(cfg, parseDay, records[i]).Some?
    ensures MapRecord(cfg, parseDay, records[i]).value in MappedRecords(cfg, parseDay, records)
  {
    var n := |records| - 1;
    if i < n {
      assert records[..n][i] == records[i];
      MappedRecordsKeepsConverted(cfg, parseDay, records[..n], i);
    }
  }

  /** The loop over the fetched records: each record is converted or skipped,
      and a record that fails does not stop the batch. */
  method MapRecords(cfg: CollectionConfig, parseDay: string -> ParsedDate, records: seq<RemoteRecord>)
    returns (rows: seq<Mapped>)
    ensures rows == MappedRecords(cfg, parseDay, records)
  {
    rows := [];
    var i := 0;
    while i < |records|
      invariant 0 <= i <= |records|
      invariant rows == MappedRecords(cfg, parseDay, records[..i])
    {
      assert records[..i + 1][..i] == records[..i];
      match MapRecord(cfg, parseDay, records[i]) {
        case None =>
        case Some(m) => rows := rows + [m];
      }
      i := i + 1;
    }
    assert records[..i] == records;
  }

  /** The rows whose `ds` is not NaT, as points, in order. */
  function Dated(rows: seq<Mapped>): (r: seq<Point>)
    ensures |r| <= |rows|
  {
    if |rows| == 0 then []
    else
      var rest := Dated(rows[1..]);
      if rows[0].ds.Some? then [Point(rows[0].ds.value, rows[0].y)] + rest else rest
  }

  /** Every kept point is a row with that `ds` and `y`. */
  lemma {:induction false} DatedComesFromRows(rows: seq<Mapped>)
    ensures forall p :: p in Dated(rows) ==> Mapped(Some(p.ds), p.y) in rows
  {
    if |rows| > 0 {
      DatedComesFromRows(rows[1..]);
      forall p | p in Dated(rows) ensures Mapped(Some(p.ds), p.y) in rows {
        if p !in Dated(rows[1..]) {
          assert rows[0] == Mapped(Some(p.ds), p.y);
        } else {
          assert Mapped(Some(p.ds), p.y) in rows[1..];
        }
      }
    }
  }

  /** Every row with a `ds` is kept. */
  lemma {:induction false} DatedKeepsDated(rows: seq<Mapped>, i: int)
    requires 0 <= i < |rows| && rows[i].ds.Some?
    ensures Point(rows[i].ds.value, rows[i].y) in Dated(rows)
  {
    if i > 0 {
      assert rows[1..][i - 1] == rows[i];
      DatedKeepsDated(rows[1..], i - 1);
    }
  }

  /** Points as rows of a table; every `ds` is set. */
  function AsMapped(points: seq<Point>): (r: seq<Mapped>)
    ensures |r| == |points|
    ensures forall i :: 0 <= i < |r| ==> r[i] == Mapped(Some(points[i].ds), points[i].y)
  {
    seq(|points|, i requires 0 <= i < |points| => Mapped(Some(points[i].ds), points[i].y))
  }

  /** Writing points as rows and keeping the dated ones gives the points back. */
  lemma {:induction false} DatedOfAsMapped(points: seq<Point>)
    ensures Dated(AsMapped(points)) == points
  {
    if |points| > 0 {
      var rows := AsMapped(points);
      assert rows[1..] == AsMapped(points[1..]);
      DatedOfAsMapped(points[1..]);
      assert rows[0] == Mapped(Some(points[0].ds), points[0].y);
      assert Dated(rows) == [points[0]] + Dated(rows[1..]);
      assert points == [points[0]] + points[1..];
    }
  }

  /** Of two points of the same day, one point carrying their total. */
  function AddY(held: Point, arriving: Point): Point { Point(held.ds, held.y + arriving.y) }

  /** `groupby('ds')` with a per-day total, ascending by day. */
  function GroupByDay(points: seq<Point>): seq<Point> {
    UpsertAll([], points, PointDs, AddY)
  }

  /** The sum of the values of the points at `d`. */
  function DayTotal(points: seq<Point>, d: Timestamp): real {
    if |points| == 0 then 0.0
    else DayTotal(points[..|points| - 1], d) + (if points[|points| - 1].ds == d then points[|points| - 1].y else 0.0)
  }

  /** The number of points at `d`. */
  function DayCount(points: seq<Point>, d: Timestamp): nat {
    if |points| == 0 then 0
    else DayCount(points[..|points| - 1], d) + (if points[|points| - 1].ds == d then 1 else 0)
  }

  /** Grouping gives each day present one point whose value is that day's total; days without points are absent. */
  lemma {:induction false} GroupByDayTotals(points: seq<Point>, d: Timestamp)
    ensures Lookup(GroupByDay(points), d, PointDs) ==
      if d in Keys(points, PointDs) then Some(Point(d, DayTotal(points, d))) else None
  {
    if |points| == 0 {
      assert Keys(points, PointDs) == {};
    } else {
      var n := |points| - 1;
      GroupByDayTotals(points[..n], d);
      assert points == points[..n] + [points[n]];
      GroupByDayStep(points[..n], points[n], d);
    }
  }

  /** One more point: the day it falls on gains its value, and a new day starts at it. */
  lemma GroupByDayStep(p: seq<Point>, x: Point, d: Timestamp)
    requires Lookup(GroupByDay(p), d, PointDs) ==
      if d in Keys(p, PointDs) then Some(Point(d, DayTotal(p, d))) else None
    ensures Lookup(GroupByDay(p + [x]), d, PointDs) ==
      if d in Keys(p + [x], PointDs) then Some(Point(d, DayTotal(p + [x], d))) else None
  {
    var g := GroupByDay(p);
    GroupByDayDays(p);
    GroupByDaySnoc(p, x);
    DayTotalSnoc(p, x, d);
    KeysSnoc(p, x);
    assert KeepsKey(PointDs, AddY);
    UpsertLookup(g, x, d, PointDs, AddY);
    if d != x.ds {
      assert d in Keys(p + [x], PointDs) <==> d in Keys(p, PointDs);
      assert DayTotal(p + [x], d) == DayTotal(p, d);
    } else if d !in Keys(p, PointDs) {
      DayTotalAbsent(p, d);
      assert Lookup(g, d, PointDs).None?;
      assert DayTotal(p + [x], d) == x.y;
    } else {
      assert Lookup(g, d, PointDs) == Some(Point(d, DayTotal(p, d)));
    }
  }

  lemma GroupByDaySnoc(p: seq<Point>, x: Point)
    ensures GroupByDay(p + [x]) == Upsert(GroupByDay(p), x, PointDs, AddY)
  {
    assert (p + [x])[..|p|] == p;
  }

  lemma DayTotalSnoc(p: seq<Point>, x: Point, d: Timestamp)
    ensures DayTotal(p + [x], d) == DayTotal(p, d) + (if x.ds == d then x.y else 0.0)
  {
    assert (p + [x])[..|p|] == p;
  }

  lemma KeysSnoc(p: seq<Point>, x: Point)
    ensures Keys(p + [x], PointDs) == Keys(p, PointDs) + {x.ds}
  {
    KeysOfConcat(p, [x], PointDs);
    KeysOfOne(x, PointDs);
  }

  lemma {:induction false} DayTotalAbsent(points: seq<Point>, d: Timestamp)
    requires d !in Keys(points, PointDs)
    ensures DayTotal(points, d) == 0.0
  {
    if |points| > 0 {
      var n := |points| - 1;
      KeysOfConcat(points[..n], [points[n]], PointDs);
      assert points == points[..n] + [points[n]];
      DayTotalAbsent(points[..n], d);
    }
  }

  /** With every value 1, a day's total is the number of its points: `count` aggregation. */
  lemma {:induction false} DayTotalOfOnes(points: seq<Point>, d: Timestamp)
    requires forall p :: p in points ==> p.y == 1.0
    ensures DayTotal(points, d) == DayCount(points, d) as real
  {
    if |points| > 0 {
      var n := |points| - 1;
      assert points[n] in points;
      forall p | p in points[..n] ensures p.y == 1.0 { assert p in points; }
      DayTotalOfOnes(points[..n], d);
    }
  }

  /** The per-day reduction the configuration asks for.  `count` and `sum`
      group the dated rows by day (`groupby` leaves NaT keys out); anything
      else keeps one row per converted record, NaT rows included. */
  function Aggregate(cfg: CollectionConfig, rows: seq<Mapped>): (r: seq<Mapped>)
    ensures CountsRecords(cfg) || SumsPerDay(cfg) ==> Dated(r) == GroupByDay(Dated(rows)) && |r| == |Dated(r)|
    ensures !CountsRecords(cfg) && !SumsPerDay(cfg) ==> r == rows
  {
    if CountsRecords(cfg) || SumsPerDay(cfg) then
      DatedOfAsMapped(GroupByDay(Dated(rows)));
      AsMapped(GroupByDay(Dated(rows)))
    else rows
  }

  /** What a pull of one month returns: an empty table for an unknown model, a
      failed query, no records or no record that converts; otherwise the
      converted records, reduced per day when the configuration says so. */
  function Fetched(collections: map<string, CollectionConfig>, name: string, year: int, month: int,
                   query: (string, string) -> QueryResult, parseDay: string -> ParsedDate): (r: seq<Mapped>)
    requires 1 <= year <= 9999 && 1 <= month <= 12
    ensures name !in collections ==> r == []
    ensures name in collections ==>
      var cfg := collections[name];
      match query(cfg.collectionName, BuildFilter(cfg, year, month))
      case QueryFailed(_) => r == []
      case Records(records) =>
        && (|records| == 0 ==> r == [])
        && (!CountsRecords(cfg) && !SumsPerDay(cfg) ==> r == MappedRecords(cfg, parseDay, records))
  {
    if name !in collections then []
    else
      var cfg := collections[name];
      match query(cfg.collectionName, BuildFilter(cfg, year, month))
      case QueryFailed(_) => []
      case Records(records) =>
        var rows := MappedRecords(cfg, parseDay, records);
        if |rows| == 0 then [] else Aggregate(cfg, rows)
  }

  method FetchMonth(collections: map<string, CollectionConfig>, name: string, year: int, month: int,
                    query: (string, string) -> QueryResult, parseDay: string -> ParsedDate)
    returns (table: seq<Mapped>)
    requires 1 <= year <= 9999 && 1 <= month <= 12
    ensures table == Fetched(collections, name, year, month, query, parseDay)
  {
    if name !in collections {
      return [];
    }
    var cfg := collections[name];
    var filter := BuildFilter(cfg, year, month);
    var response := query(cfg.collectionName, filter);
    if response.QueryFailed? {
      return [];
    }
    if |response.records| == 0 {
      return [];
    }
    var rows := MapRecords(cfg, parseDay, response.records);
    if |rows| == 0 {
      return [];
    }
    table := Aggregate(cfg, rows);
  }

  /** Without `count` or `sum`, one record that converts, even with a NaT
      `ds`, makes the fetched table non-empty. */
  lemma ConvertedRecordMakesTableNonEmpty(collections: map<string, CollectionConfig>, name: string, year: int, month: int,
                                          query: (string, string) -> QueryResult, parseDay: string -> ParsedDate, i: int)
    requires 1 <= year <= 9999 && 1 <= month <= 12
    requires name in collections && !CountsRecords(collections[name]) && !SumsPerDay(collections[name])
    requires query(collections[name].collectionName, BuildFilter(collections[name], year, month)).Records?
    requires var records := query(collections[name].collectionName, BuildFilter(collections[name], year, month)).records;
      0 <= i < |records| && MapRecord(collections[name], parseDay, records[i]).Some?
    ensures |Fetched(collections, name, year, month, query, parseDay)| > 0
  {
    var cfg := collections[name];
    var records := query(cfg.collectionName, BuildFilter(cfg, year, month)).records;
    MappedRecordsKeepsConverted(cfg, parseDay, records, i);
  }

  /** Grouping is ascending by day, keeps exactly the days it is given, and so keeps midnights. */
  lemma GroupByDayDays(points: seq<Point>)
    ensures StrictlyAscending(GroupByDay(points), PointDs)
    ensures Keys(GroupByDay(points), PointDs) == Keys(points, PointDs)
    ensures (forall p :: p in points ==> p.ds % MicrosPerDay == 0) ==>
      forall g :: g in GroupByDay(points) ==> g.ds % MicrosPerDay == 0
  {
    assert KeepsKey(PointDs, AddY);
    assert Keys([], PointDs) == {};
    UpsertAllAscending([], points, PointDs, AddY);
    var grouped := GroupByDay(points);
    forall g | g in grouped ensures exists m :: 0 <= m < |points| && points[m].ds == g.ds {
      var k :| 0 <= k < |grouped| && grouped[k] == g;
      assert g.ds in Keys(grouped, PointDs);
    }
  }

  /** The dated rows of a converted table all fall on midnights. */
  lemma DatedMidnights(rows: seq<Mapped>)
    requires forall m :: m in rows ==> m.ds.Some? ==> m.ds.value % MicrosPerDay == 0
    ensures forall p :: p in Dated(rows) ==> p.ds % MicrosPerDay == 0
  {
    DatedComesFromRows(rows);
    forall p | p in Dated(rows) ensures p.ds % MicrosPerDay == 0 {
      assert Mapped(Some(p.ds), p.y) in rows;
    }
  }

  /** With `count` every dated value is 1. */
  lemma DatedOnes(rows: seq<Mapped>)
    requires forall m :: m in rows ==> m.y == 1.0
    ensures forall p :: p in Dated(rows) ==> p.y == 1.0
  {
    DatedComesFromRows(rows);
    forall p | p in Dated(rows) ensures p.y == 1.0 {
      assert Mapped(Some(p.ds), p.y) in rows;
    }
  }

  /** `count` and `sum` give one point per dated day, ascending, whose value is
      the day's total or number of rows; NaT rows count for no day. */
  lemma AggregateShape(cfg: CollectionConfig, rows: seq<Mapped>, d: Timestamp)
    requires forall m :: m in rows ==> m.ds.Some? ==> m.ds.value % MicrosPerDay == 0
    requires CountsRecords(cfg) ==> forall m :: m in rows ==> m.y == 1.0
    ensures forall m :: m in Aggregate(cfg, rows) ==> m.ds.Some? ==> m.ds.value % MicrosPerDay == 0
    ensures CountsRecords(cfg) || SumsPerDay(cfg) ==>
      var g := Dated(Aggregate(cfg, rows));
      && |g| == |Aggregate(cfg, rows)|
      && StrictlyAscending(g, PointDs)
      && Keys(g, PointDs) == Keys(Dated(rows), PointDs)
      && Lookup(g, d, PointDs) ==
           (if d in Keys(Dated(rows), PointDs) then Some(Point(d, DayTotal(Dated(rows), d))) else None)
    ensures CountsRecords(cfg) && d in Keys(Dated(rows), PointDs) ==>
      Lookup(Dated(Aggregate(cfg, rows)), d, PointDs) == Some(Point(d, DayCount(Dated(rows), d) as real))
  {
    var dated := Dated(rows);
    DatedMidnights(rows);
    GroupByDayDays(dated);
    GroupByDayTotals(dated, d);
    if CountsRecords(cfg) {
      DatedOnes(rows);
      DayTotalOfOnes(dated, d);
    }
    if CountsRecords(cfg) || SumsPerDay(cfg) {
      var grouped := GroupByDay(dated);
      forall m | m in Aggregate(cfg, rows) ensures m.ds.Some? ==> m.ds.value % MicrosPerDay == 0 {
        var i :| 0 <= i < |grouped| && AsMapped(grouped)[i] == m;
        assert grouped[i] in grouped;
      }
    }
  }

  /** The shape of a fetched table that the query answered: every `ds` set is a
      midnight; with `count` or `sum` every row has a `ds`, one per dated day,
      ascending, whose value is the day's number of converted records or their
      total; otherwise one row per converted record, in record order, NaT `ds`
      included. */
  lemma FetchedShape(collections: map<string, CollectionConfig>, name: string, year: int, month: int,
                     query: (string, string) -> QueryResult, parseDay: string -> ParsedDate, d: Timestamp)
    requires 1 <= year <= 9999 && 1 <= month <= 12
    requires name in collections
    requires query(collections[name].collectionName, BuildFilter(collections[name], year, month)).Records?
    ensures var cfg := collections[name];
      var mapped := MappedRecords(cfg, parseDay, query(cfg.collectionName, BuildFilter(cfg, year, month)).records);
      var table := Fetched(collections, name, year, month, query, parseDay);
      && (forall m :: m in table ==> m.ds.Some? ==> m.ds.value % MicrosPerDay == 0)
      && (!CountsRecords(cfg) && !SumsPerDay(cfg) ==> table == mapped)
      && (CountsRecords(cfg) || SumsPerDay(cfg) ==>
            && |Dated(table)| == |table|
            && StrictlyAscending(Dated(table), PointDs)
            && Keys(Dated(table), PointDs) == Keys(Dated(mapped), PointDs)
            && Lookup(Dated(table), d, PointDs) ==
                 (if d in Keys(Dated(mapped), PointDs) then Some(Point(d, DayTotal(Dated(mapped), d))) else None))
      && (CountsRecords(cfg) && d in Keys(Dated(mapped), PointDs) ==>
            Lookup(Dated(table), d, PointDs) == Some(Point(d, DayCount(Dated(mapped), d) as real)))
  {
    var cfg := collections[name];
    var mapped := MappedRecords(cfg, parseDay, query(cfg.collectionName, BuildFilter(cfg, year, month)).records);
    AggregateShape(cfg, mapped, d);
    if |mapped| == 0 {
      assert Dated(mapped) == [];
      assert Keys(Dated(mapped), PointDs) == {};
    }
  }
}
