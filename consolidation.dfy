/**
  Consolidation of a model's stored series with a batch of incoming rows
  (`_process_and_save_historical_data` in services.py).  The stored rows come
  first, the incoming rows after them, in input order; rows whose `ds` is NaT
  are dropped; per `ds` the row that sorts last by `(ds, updated_at)` (a stable
  sort, NaT after every timestamp) is kept; the result is ascending by `ds` and
  cut to its last `window` rows.
*/
module Consolidation {
  import opened Wrappers
  import opened KeyedSeries

  /** A point in time, in microseconds; `None` in an optional timestamp is pandas' NaT. */
  type Timestamp = int

  /** A row of the combined table before the NaT `ds` rows are dropped. */
  datatype Record = Record(ds: Option<Timestamp>, y: real, createdAt: Option<Timestamp>, updatedAt: Option<Timestamp>)

  /** A row of the historical series: `ds`, `y`, `created_at`, `updated_at`. */
  datatype Row = Row(ds: Timestamp, y: real, createdAt: Option<Timestamp>, updatedAt: Option<Timestamp>)

  /** An incoming data point with a parsed `ds`; `createdAt` is its own `created_at` cell, if any. */
  datatype Incoming = Incoming(ds: Timestamp, y: real, createdAt: Option<Timestamp>)

  /** An incoming table: its rows and whether it has a `created_at` column at all. */
  datatype Batch = Batch(points: seq<Incoming>, hasCreatedAt: bool)

  function RowDs(r: Row): Timestamp { r.ds }

  function AsRecord(r: Row): Record { Record(Some(r.ds), r.y, r.createdAt, r.updatedAt) }

  function AsRecords(s: seq<Row>): (r: seq<Record>)
    ensures |r| == |s|
    ensures forall i :: 0 <= i < |s| ==> r[i] == AsRecord(s[i])
  {
    seq(|s|, i requires 0 <= i < |s| => AsRecord(s[i]))
  }

  /** The order of `updated_at` values in an ascending sort: NaT after every timestamp. */
  predicate UpdAtMost(a: Option<Timestamp>, b: Option<Timestamp>) {
    b.None? || (a.Some? && a.value <= b.value)
  }

  lemma UpdAtMostTotalOrder()
    ensures forall a :: UpdAtMost(a, a)
    ensures forall a, b :: UpdAtMost(a, b) || UpdAtMost(b, a)
    ensures forall a, b :: UpdAtMost(a, b) && UpdAtMost(b, a) ==> a == b
    ensures forall a, b, c :: UpdAtMost(a, b) && UpdAtMost(b, c) ==> UpdAtMost(a, c)
  {
  }

  /** Stamping of the incoming rows: `updated_at` is now; `created_at` is the
      row's own cell when the table has that column, now otherwise. */
  function StampRows(b: Batch, now: Timestamp): (r: seq<Row>)
    ensures |r| == |b.points|
    ensures forall i :: 0 <= i < |r| ==>
      && r[i].ds == b.points[i].ds && r[i].y == b.points[i].y
      && r[i].updatedAt == Some(now)
      && r[i].createdAt == (if b.hasCreatedAt then b.points[i].createdAt else Some(now))
  {
    seq(|b.points|, i requires 0 <= i < |b.points| =>
      var p := b.points[i];
      Row(p.ds, p.y, if b.hasCreatedAt then p.createdAt else Some(now), Some(now)))
  }

  /** The combined table without its NaT `ds` rows, in the same order. */
  function WithParsedDs(rs: seq<Record>): (r: seq<Row>)
    ensures |r| <= |rs|
    ensures forall x :: x in r ==> AsRecord(x) in rs
  {
    if |rs| == 0 then []
    else
      var rest := WithParsedDs(rs[1..]);
      if rs[0].ds.None? then rest
      else [Row(rs[0].ds.value, rs[0].y, rs[0].createdAt, rs[0].updatedAt)] + rest
  }

  /** A row wins its `ds` group when no other row of the group sorts after it by
      `(ds, updated_at)` in a stable sort: every other row has an earlier
      `updated_at`, or the same one and an earlier position. */
  ghost predicate IsSurvivor(rows: seq<Row>, i: int) {
    0 <= i < |rows| &&
    forall j :: 0 <= j < |rows| && j != i && rows[j].ds == rows[i].ds ==>
      UpdAtMost(rows[j].updatedAt, rows[i].updatedAt) &&
      (rows[j].updatedAt == rows[i].updatedAt ==> j < i)
  }

  /** `row` is the row that wins its `ds` group in `rows`. */
  ghost predicate SurvivorRow(rows: seq<Row>, row: Row) {
    exists i :: IsSurvivor(rows, i) && rows[i] == row
  }

  /** Of a held row and an arriving row with the same `ds`, the one a stable sort places last. */
  function Newer(held: Row, arriving: Row): Row {
    if UpdAtMost(held.updatedAt, arriving.updatedAt) then arriving else held
  }

  /** `sort_values(['ds', 'updated_at'])` then `drop_duplicates('ds', keep='last')`. */
  function KeepLast(rows: seq<Row>): (r: seq<Row>)
    ensures StrictlyAscending(r, RowDs)
    ensures Keys(r, RowDs) == Keys(rows, RowDs)
  {
    NewerKeepsKey();
    assert Keys([], RowDs) == {};
    UpsertAllAscending([], rows, RowDs, Newer);
    UpsertAll([], rows, RowDs, Newer)
  }

  /** `tail(window)` when the table is longer than the window. */
  function Window(s: seq<Row>, window: nat): (r: seq<Row>)
    ensures |r| == if |s| > window then window else |s|
  {
    if |s| > window then s[|s| - window..] else s
  }

  /** The stored rows followed by the stamped incoming rows, NaT `ds` rows dropped. */
  function Combined(stored: seq<Record>, batch: Batch, now: Timestamp): (r: seq<Row>)
    ensures |r| <= |stored| + |batch.points|
  {
    WithParsedDs(stored + AsRecords(StampRows(batch, now)))
  }

  /** The series written back by one consolidation. */
  function Consolidated(stored: seq<Record>, batch: Batch, now: Timestamp, window: nat): (r: seq<Row>)
    ensures StrictlyAscending(r, RowDs)
    ensures |r| <= window
  {
    var m := KeepLast(Combined(stored, batch, now));
    WindowKeepsNewest(m, window);
    Window(m, window)
  }

  lemma NewerKeepsKey()
    ensures KeepsKey(RowDs, Newer)
  {
  }

  lemma {:induction false} WithParsedDsConcat(a: seq<Record>, b: seq<Record>)
    ensures WithParsedDs(a + b) == WithParsedDs(a) + WithParsedDs(b)
  {
    if |a| > 0 {
      assert (a + b)[1..] == a[1..] + b;
      WithParsedDsConcat(a[1..], b);
    } else {
      assert a + b == b;
    }
  }

  /** Dropping NaT `ds` rows keeps exactly the rows with a timestamp, in order. */
  lemma {:induction false} WithParsedDsKeepsTimestamped(rs: seq<Record>)
    ensures forall r :: r in WithParsedDs(rs) <==> AsRecord(r) in rs
  {
    if |rs| > 0 {
      WithParsedDsKeepsTimestamped(rs[1..]);
      forall r ensures r in WithParsedDs(rs) <==> AsRecord(r) in rs {
        assert AsRecord(r) in rs <==> AsRecord(r) == rs[0] || AsRecord(r) in rs[1..] by {
          assert rs == [rs[0]] + rs[1..];
        }
      }
    }
  }

  lemma {:induction false} WithParsedDsOfRows(s: seq<Row>)
    ensures WithParsedDs(AsRecords(s)) == s
  {
    if |s| > 0 {
      assert AsRecords(s)[1..] == AsRecords(s[1..]);
      WithParsedDsOfRows(s[1..]);
    }
  }

  lemma SurvivorUnaffected(p: seq<Row>, r: Row, i: int)
    requires IsSurvivor(p, i) && p[i].ds != r.ds
    ensures IsSurvivor(p + [r], i)
  {
    var rows := p + [r];
    forall j | 0 <= j < |rows| && j != i && rows[j].ds == rows[i].ds
      ensures UpdAtMost(rows[j].updatedAt, rows[i].updatedAt) && (rows[j].updatedAt == rows[i].updatedAt ==> j < i)
    {
      assert rows[j] == p[j];
    }
  }

  lemma SurvivorFirstOfGroup(p: seq<Row>, r: Row)
    requires r.ds !in Keys(p, RowDs)
    ensures IsSurvivor(p + [r], |p|)
  {
    var rows := p + [r];
    forall j | 0 <= j < |p| ensures rows[j].ds != r.ds {
      assert rows[j] == p[j];
      assert p[j].ds in Keys(p, RowDs);
    }
  }

  lemma SurvivorReplaced(p: seq<Row>, r: Row, i: int)
    requires IsSurvivor(p, i) && p[i].ds == r.ds
    requires UpdAtMost(p[i].updatedAt, r.updatedAt)
    ensures IsSurvivor(p + [r], |p|)
  {
    var rows := p + [r];
    UpdAtMostTotalOrder();
    forall j | 0 <= j < |p| && rows[j].ds == r.ds
      ensures UpdAtMost(rows[j].updatedAt, r.updatedAt)
    {
      assert rows[j] == p[j];
      if j != i {
        assert UpdAtMost(p[j].updatedAt, p[i].updatedAt);
      }
    }
  }

  lemma SurvivorHeld(p: seq<Row>, r: Row, i: int)
    requires IsSurvivor(p, i) && p[i].ds == r.ds
    requires !UpdAtMost(p[i].updatedAt, r.updatedAt)
    ensures IsSurvivor(p + [r], i)
  {
    var rows := p + [r];
    UpdAtMostTotalOrder();
    forall j | 0 <= j < |rows| && j != i && rows[j].ds == rows[i].ds
      ensures UpdAtMost(rows[j].updatedAt, rows[i].updatedAt) && (rows[j].updatedAt == rows[i].updatedAt ==> j < i)
    {
      if j < |p| { assert rows[j] == p[j]; }
    }
  }

  /** Keep-last deduplication keeps one row for every `ds` present, and that row
      is the survivor of its group. */
  lemma {:induction false} KeepLastPicksSurvivor(rows: seq<Row>, d: Timestamp)
    ensures Lookup(KeepLast(rows), d, RowDs).Some? <==> d in Keys(rows, RowDs)
    ensures Lookup(KeepLast(rows), d, RowDs).Some? ==>
      SurvivorRow(rows, Lookup(KeepLast(rows), d, RowDs).value)
  {
    NewerKeepsKey();
    UpsertAllAscending([], rows, RowDs, Newer);
    LookupFindsKey(KeepLast(rows), d, RowDs);
    assert Keys([], RowDs) == {};
    if |rows| > 0 {
      var n := |rows| - 1;
      var p, r := rows[..n], rows[n];
      assert rows == p + [r];
      assert KeepLast(rows) == Upsert(KeepLast(p), r, RowDs, Newer);
      UpsertAllAscending([], p, RowDs, Newer);
      UpsertLookup(KeepLast(p), r, d, RowDs, Newer);
      KeepLastPicksSurvivor(p, d);
      LookupFindsKey(KeepLast(p), d, RowDs);
      var before := Lookup(KeepLast(p), d, RowDs);
      if before.Some? {
        var i :| IsSurvivor(p, i) && p[i] == before.value;
        assert rows[i] == p[i];
        if d != r.ds {
          SurvivorUnaffected(p, r, i);
        } else if UpdAtMost(before.value.updatedAt, r.updatedAt) {
          SurvivorReplaced(p, r, i);
        } else {
          SurvivorHeld(p, r, i);
        }
      } else if d == r.ds {
        SurvivorFirstOfGroup(p, r);
      }
    }
  }

  /** A `ds` group has one survivor. */
  lemma SurvivorUnique(rows: seq<Row>, i: int, k: int)
    requires IsSurvivor(rows, i) && IsSurvivor(rows, k)
    requires rows[i].ds == rows[k].ds
    ensures i == k
  {
    UpdAtMostTotalOrder();
  }

  /** The deduplicated table is strictly ascending by `ds` and each of its rows is the survivor of its group. */
  lemma KeepLastDeduplicates(rows: seq<Row>)
    ensures StrictlyAscending(KeepLast(rows), RowDs)
    ensures Keys(KeepLast(rows), RowDs) == Keys(rows, RowDs)
    ensures forall k :: 0 <= k < |KeepLast(rows)| ==> SurvivorRow(rows, KeepLast(rows)[k])
  {
    forall k | 0 <= k < |KeepLast(rows)| ensures SurvivorRow(rows, KeepLast(rows)[k]) {
      KeptIsSurvivor(rows, k);
    }
  }

  /** The row at position `k` of the deduplicated table is the survivor of its group. */
  lemma KeptIsSurvivor(rows: seq<Row>, k: int)
    requires 0 <= k < |KeepLast(rows)|
    ensures SurvivorRow(rows, KeepLast(rows)[k])
  {
    LookupAscending(KeepLast(rows), k, RowDs);
    KeepLastPicksSurvivor(rows, KeepLast(rows)[k].ds);
  }

  /** Truncation keeps the `window` rows with the latest `ds` and drops only older ones. */
  lemma WindowKeepsNewest(s: seq<Row>, window: nat)
    requires StrictlyAscending(s, RowDs)
    ensures StrictlyAscending(Window(s, window), RowDs)
    ensures |Window(s, window)| == if |s| > window then window else |s|
    ensures Window(s, window) == s[|s| - |Window(s, window)|..]
    ensures forall i, k :: 0 <= i < |s| - |Window(s, window)| && 0 <= k < |Window(s, window)| ==>
      s[i].ds < Window(s, window)[k].ds
  {
    var r := Window(s, window);
    forall i, j | 0 <= i < j < |r| ensures r[i].ds < r[j].ds {
      assert r[i] == s[|s| - |r| + i] && r[j] == s[|s| - |r| + j];
    }
    forall i, k | 0 <= i < |s| - |r| && 0 <= k < |r| ensures s[i].ds < r[k].ds {
      assert r[k] == s[|s| - |r| + k];
    }
  }

  lemma CombinedSplits(stored: seq<Record>, batch: Batch, now: Timestamp)
    ensures Combined(stored, batch, now) == WithParsedDs(stored) + StampRows(batch, now)
  {
    WithParsedDsConcat(stored, AsRecords(StampRows(batch, now)));
    WithParsedDsOfRows(StampRows(batch, now));
  }

  lemma WindowDropsOnlyOlder(s: seq<Row>, window: nat)
    requires StrictlyAscending(s, RowDs)
    ensures forall t, k :: t in Keys(s, RowDs) && t !in Keys(Window(s, window), RowDs) && 0 <= k < |Window(s, window)| ==>
      t < Window(s, window)[k].ds
  {
    var r := Window(s, window);
    WindowKeepsNewest(s, window);
    forall m | |s| - |r| <= m < |s| ensures s[m].ds in Keys(r, RowDs) {
      assert r[m - (|s| - |r|)] == s[m];
    }
    forall t, k | t in Keys(s, RowDs) && t !in Keys(r, RowDs) && 0 <= k < |r| ensures t < r[k].ds {
      var m :| 0 <= m < |s| && s[m].ds == t;
    }
  }

  /** What one consolidation writes: at most one row per `ds`, ascending, at most
      `window` rows, each the survivor of its `ds` group in the combined table, and
      only days older than every kept day are cut by the window. */
  lemma ConsolidatedIsRollingWindow(stored: seq<Record>, batch: Batch, now: Timestamp, window: nat)
    ensures StrictlyAscending(Consolidated(stored, batch, now, window), RowDs)
    ensures var days := |Keys(Combined(stored, batch, now), RowDs)|;
      |Consolidated(stored, batch, now, window)| == if days > window then window else days
    ensures forall k :: 0 <= k < |Consolidated(stored, batch, now, window)| ==>
      SurvivorRow(Combined(stored, batch, now), Consolidated(stored, batch, now, window)[k])
    ensures forall i, k ::
      0 <= i < |Combined(stored, batch, now)| && 0 <= k < |Consolidated(stored, batch, now, window)| &&
      Combined(stored, batch, now)[i].ds !in Keys(Consolidated(stored, batch, now, window), RowDs) ==>
        Combined(stored, batch, now)[i].ds < Consolidated(stored, batch, now, window)[k].ds
  {
    var c := Combined(stored, batch, now);
    assert Consolidated(stored, batch, now, window) == Window(KeepLast(c), window);
    KeptWindowSize(c, window);
    KeptWindowSurvivors(c, window);
    KeptWindowDropsOlder(c, window);
  }

  lemma KeptWindowSize(c: seq<Row>, window: nat)
    ensures var days := |Keys(c, RowDs)|;
      |Window(KeepLast(c), window)| == if days > window then window else days
  {
    AscendingCardinality(KeepLast(c), RowDs);
  }

  lemma KeptWindowSurvivors(c: seq<Row>, window: nat)
    ensures forall k :: 0 <= k < |Window(KeepLast(c), window)| ==> SurvivorRow(c, Window(KeepLast(c), window)[k])
  {
    var d := KeepLast(c);
    var r := Window(d, window);
    forall k | 0 <= k < |r| ensures SurvivorRow(c, r[k]) {
      assert r[k] == d[|d| - |r| + k];
      KeptIsSurvivor(c, |d| - |r| + k);
    }
  }

  lemma KeptWindowDropsOlder(c: seq<Row>, window: nat)
    ensures forall i, k ::
      0 <= i < |c| && 0 <= k < |Window(KeepLast(c), window)| && c[i].ds !in Keys(Window(KeepLast(c), window), RowDs) ==>
        c[i].ds < Window(KeepLast(c), window)[k].ds
  {
    var d := KeepLast(c);
    var r := Window(d, window);
    WindowDropsOnlyOlder(d, window);
    forall i, k | 0 <= i < |c| && 0 <= k < |r| && c[i].ds !in Keys(r, RowDs)
      ensures c[i].ds < r[k].ds
    {
      assert c[i].ds in Keys(d, RowDs);
    }
  }

  /** Last writer wins: when every stored row for day `d` has a real `updated_at`
      no later than now, the kept row for `d` is the last incoming row for `d`. */
  lemma IncomingSupersedesOlder(stored: seq<Record>, batch: Batch, now: Timestamp, j: int)
    requires 0 <= j < |batch.points|
    requires forall q :: j < q < |batch.points| ==> batch.points[q].ds != batch.points[j].ds
    requires forall rec :: rec in stored && rec.ds == Some(batch.points[j].ds) ==>
      rec.updatedAt.Some? && rec.updatedAt.value <= now
    ensures Lookup(KeepLast(Combined(stored, batch, now)), batch.points[j].ds, RowDs) ==
      Some(StampRows(batch, now)[j])
  {
    var d := batch.points[j].ds;
    var e := WithParsedDs(stored);
    var inc := StampRows(batch, now);
    var c := Combined(stored, batch, now);
    CombinedSplits(stored, batch, now);
    WithParsedDsKeepsTimestamped(stored);
    var at := |e| + j;
    assert c[at] == inc[j];
    assert IsSurvivor(c, at) by {
      forall q | 0 <= q < |c| && q != at && c[q].ds == d
        ensures UpdAtMost(c[q].updatedAt, c[at].updatedAt) && (c[q].updatedAt == c[at].updatedAt ==> q < at)
      {
        if q < |e| {
          assert c[q] == e[q];
          assert AsRecord(e[q]) in stored;
        } else {
          assert c[q] == inc[q - |e|];
        }
      }
    }
    assert d in Keys(c, RowDs);
    KeepLastPicksSurvivor(c, d);
    var i :| IsSurvivor(c, i) && c[i] == Lookup(KeepLast(c), d, RowDs).value;
    SurvivorUnique(c, i, at);
  }

  /** A row of the consolidated series is the row deduplication keeps for its `ds`. */
  lemma KeptRowIsFound(c: seq<Row>, window: nat, k: int)
    requires 0 <= k < |Window(KeepLast(c), window)|
    ensures Lookup(KeepLast(c), Window(KeepLast(c), window)[k].ds, RowDs) == Some(Window(KeepLast(c), window)[k])
  {
    var m := KeepLast(c);
    var j := |m| - |Window(m, window)| + k;
    WindowIndex(m, window, k);
    LookupAscending(m, j, RowDs);
  }

  lemma WindowIndex(s: seq<Row>, window: nat, k: int)
    requires 0 <= k < |Window(s, window)|
    ensures Window(s, window)[k] == s[|s| - |Window(s, window)| + k]
  {
  }

  /** Each consolidated row is a stored row or an incoming row stamped now. */
  lemma ConsolidatedRowOrigin(stored: seq<Record>, batch: Batch, now: Timestamp, window: nat, k: int)
    requires 0 <= k < |Consolidated(stored, batch, now, window)|
    ensures var row := Consolidated(stored, batch, now, window)[k];
      AsRecord(row) in stored || row.updatedAt == Some(now)
  {
    var c := Combined(stored, batch, now);
    var m := KeepLast(c);
    var after := Window(m, window);
    KeptRowIsInInput(c, window, k);
    CombinedRowOrigin(stored, batch, now, after[k]);
  }

  lemma KeptRowIsInInput(c: seq<Row>, window: nat, k: int)
    requires 0 <= k < |Window(KeepLast(c), window)|
    ensures Window(KeepLast(c), window)[k] in c
  {
    var m := KeepLast(c);
    var after := Window(m, window);
    KeptRowIsFound(c, window, k);
    KeepLastPicksSurvivor(c, after[k].ds);
  }

  lemma CombinedRowOrigin(stored: seq<Record>, batch: Batch, now: Timestamp, row: Row)
    requires row in Combined(stored, batch, now)
    ensures AsRecord(row) in stored || row.updatedAt == Some(now)
  {
    CombinedSplits(stored, batch, now);
    var e := WithParsedDs(stored);
    if row in e {
      WithParsedDsKeepsTimestamped(stored);
    } else {
      var inc := StampRows(batch, now);
      assert row in inc;
      var t :| 0 <= t < |inc| && inc[t] == row;
    }
  }

  /** A stored row for day `d` whose `updated_at` is NaT is never replaced by incoming
      data: NaT sorts after the `now` stamp, so the kept row is a stored one. */
  lemma StoredNaTOutlivesIncoming(stored: seq<Record>, batch: Batch, now: Timestamp, d: Timestamp)
    requires exists rec :: rec in stored && rec.ds == Some(d) && rec.updatedAt.None?
    ensures Lookup(KeepLast(Combined(stored, batch, now)), d, RowDs).Some?
    ensures Lookup(KeepLast(Combined(stored, batch, now)), d, RowDs).value.updatedAt.None?
    ensures AsRecord(Lookup(KeepLast(Combined(stored, batch, now)), d, RowDs).value) in stored
  {
    var e := WithParsedDs(stored);
    var c := Combined(stored, batch, now);
    CombinedSplits(stored, batch, now);
    WithParsedDsKeepsTimestamped(stored);
    var rec :| rec in stored && rec.ds == Some(d) && rec.updatedAt.None?;
    var row := Row(d, rec.y, rec.createdAt, rec.updatedAt);
    assert AsRecord(row) == rec;
    assert row in e;
    var q :| 0 <= q < |e| && e[q] == row;
    assert c[q] == row;
    assert d in Keys(c, RowDs);
    KeepLastPicksSurvivor(c, d);
    var i :| IsSurvivor(c, i) && c[i] == Lookup(KeepLast(c), d, RowDs).value;
    assert c[i].updatedAt.None?;
    CombinedRowOrigin(stored, batch, now, c[i]);
  }

  /** Consolidating a consolidated series that fits the window, with no incoming rows, changes nothing. */
  lemma ReconsolidationIsIdentity(s: seq<Row>, now: Timestamp, window: nat)
    requires StrictlyAscending(s, RowDs) && |s| <= window
    ensures Consolidated(AsRecords(s), Batch([], false), now, window) == s
  {
    CombinedSplits(AsRecords(s), Batch([], false), now);
    WithParsedDsOfRows(s);
    assert Combined(AsRecords(s), Batch([], false), now) == s;
    KeepLastOfAscending(s);
  }

  lemma {:induction false} KeepLastOfAscending(s: seq<Row>)
    requires StrictlyAscending(s, RowDs)
    ensures KeepLast(s) == s
  {
    if |s| > 0 {
      var n := |s| - 1;
      assert StrictlyAscending(s[..n], RowDs);
      KeepLastOfAscending(s[..n]);
      UpsertPastLast(s[..n], s[n], RowDs, Newer);
      assert s[..n] + [s[n]] == s;
    }
  }

  /** Two submissions for the same day: the later call's value is the one kept,
      provided the stored rows for that day carried real timestamps no later than
      the first call. */
  lemma LaterSubmissionWins(stored: seq<Record>, first: Batch, now1: Timestamp,
                            second: Batch, now2: Timestamp, j: int, window: nat)
    requires now1 <= now2
    requires 0 <= j < |second.points|
    requires forall q :: j < q < |second.points| ==> second.points[q].ds != second.points[j].ds
    requires forall rec :: rec in stored && rec.ds == Some(second.points[j].ds) ==>
      rec.updatedAt.Some? && rec.updatedAt.value <= now1
    ensures var after := Consolidated(stored, first, now1, window);
      Lookup(KeepLast(Combined(AsRecords(after), second, now2)), second.points[j].ds, RowDs) ==
        Some(StampRows(second, now2)[j])
  {
    var d := second.points[j].ds;
    var after := Consolidated(stored, first, now1, window);
    forall rec | rec in AsRecords(after) && rec.ds == Some(d)
      ensures rec.updatedAt.Some? && rec.updatedAt.value <= now2
    {
      var k :| 0 <= k < |after| && AsRecords(after)[k] == rec;
      ConsolidatedRowOrigin(stored, first, now1, window, k);
    }
    IncomingSupersedesOlder(AsRecords(after), second, now2, j);
  }

  /** A consolidated series below the window that receives one row for a new day
      grows by exactly one row (19 stored days and one new day give 20 rows). */
  lemma OneNewDayGrowsByOne(s: seq<Row>, batch: Batch, now: Timestamp, window: nat)
    requires StrictlyAscending(s, RowDs) && |s| < window
    requires |batch.points| == 1 && batch.points[0].ds !in Keys(s, RowDs)
    ensures |Consolidated(AsRecords(s), batch, now, window)| == |s| + 1
  {
    CombinedSplits(AsRecords(s), batch, now);
    WithParsedDsOfRows(s);
    var c := Combined(AsRecords(s), batch, now);
    var inc := StampRows(batch, now);
    assert c == s + inc;
    KeysOfConcat(s, inc, RowDs);
    assert inc == [inc[0]];
    KeysOfOne(inc[0], RowDs);
    AscendingCardinality(s, RowDs);
    ConsolidatedIsRollingWindow(AsRecords(s), batch, now, window);
  }

  /** The batch a caller sends when resubmitting a series' own `ds` and `y` values, without `created_at`. */
  function Resubmission(s: seq<Row>): (b: Batch)
    ensures !b.hasCreatedAt && |b.points| == |s|
    ensures forall i :: 0 <= i < |s| ==> b.points[i] == Incoming(s[i].ds, s[i].y, None)
  {
    Batch(seq(|s|, i requires 0 <= i < |s| => Incoming(s[i].ds, s[i].y, None)), false)
  }

  /** Resubmitting a consolidated series that fits the window neither grows nor
      reorders it: every position keeps its `ds` and its `y`.  The timestamps do
      change: a row whose stored `updated_at` is no later than now is replaced by
      its resubmitted copy, stamped now. */
  lemma ResubmissionKeepsDaysAndValues(s: seq<Row>, now: Timestamp, window: nat)
    requires StrictlyAscending(s, RowDs) && |s| <= window
    ensures var r := Consolidated(AsRecords(s), Resubmission(s), now, window);
      && |r| == |s|
      && forall k :: 0 <= k < |s| ==> r[k].ds == s[k].ds && r[k].y == s[k].y
  {
    var c := Combined(AsRecords(s), Resubmission(s), now);
    ResubmittedCombined(s, now);
    var m := KeepLast(c);
    AscendingSameKeys(m, s, RowDs);
    assert Consolidated(AsRecords(s), Resubmission(s), now, window) == m;
    forall k | 0 <= k < |s| ensures m[k].ds == s[k].ds && m[k].y == s[k].y {
      ResubmittedValueAt(s, now, k);
    }
  }

  /** The combined table of a resubmission is the series followed by its stamped copy, with the series' days. */
  lemma ResubmittedCombined(s: seq<Row>, now: Timestamp)
    ensures Combined(AsRecords(s), Resubmission(s), now) == s + StampRows(Resubmission(s), now)
    ensures Keys(Combined(AsRecords(s), Resubmission(s), now), RowDs) == Keys(s, RowDs)
  {
    var inc := StampRows(Resubmission(s), now);
    CombinedSplits(AsRecords(s), Resubmission(s), now);
    WithParsedDsOfRows(s);
    KeysOfConcat(s, inc, RowDs);
    forall v | v in Keys(inc, RowDs) ensures v in Keys(s, RowDs) {
      var i :| 0 <= i < |inc| && inc[i].ds == v;
    }
  }

  lemma ResubmittedValueAt(s: seq<Row>, now: Timestamp, k: int)
    requires StrictlyAscending(s, RowDs)
    requires 0 <= k < |s| && k < |KeepLast(Combined(AsRecords(s), Resubmission(s), now))|
    requires KeepLast(Combined(AsRecords(s), Resubmission(s), now))[k].ds == s[k].ds
    ensures KeepLast(Combined(AsRecords(s), Resubmission(s), now))[k].y == s[k].y
  {
    var inc := StampRows(Resubmission(s), now);
    var c := Combined(AsRecords(s), Resubmission(s), now);
    ResubmittedCombined(s, now);
    KeptIsSurvivor(c, k);
    var i :| IsSurvivor(c, i) && c[i] == KeepLast(c)[k];
    var src := if i < |s| then i else i - |s|;
    assert c[i].ds == s[src].ds && c[i].y == s[src].y by {
      if i >= |s| { assert c[i] == inc[i - |s|]; }
    }
    AscendingKeyFixesIndex(s, src, k, RowDs);
  }
}
