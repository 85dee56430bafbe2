/**
  The older merge rule of update_forecast.py: the stored `sales_data.csv` rows
  and the new rows are concatenated, duplicates of `ds` are dropped keeping the
  first occurrence, and the result is sorted by `ds`.  No window is applied.
*/
module LegacyMerge {
  import opened Wrappers
  import opened KeyedSeries
  import opened Consolidation

  /** A row of `sales_data.csv`. */
  datatype SalesRow = SalesRow(ds: Timestamp, y: real)

  function SalesDs(r: SalesRow): Timestamp { r.ds }

  /** On a `ds` collision the row already held stays. */
  function KeepHeld(held: SalesRow, arriving: SalesRow): SalesRow { held }

  /** `concat([static_df, new_data_df]).drop_duplicates(subset='ds').sort_values('ds')`. */
  function MergeKeepFirst(stored: seq<SalesRow>, incoming: seq<SalesRow>): (r: seq<SalesRow>)
    ensures StrictlyAscending(r, SalesDs)
    ensures Keys(r, SalesDs) == Keys(stored, SalesDs) + Keys(incoming, SalesDs)
  {
    assert KeepsKey(SalesDs, KeepHeld);
    assert Keys([], SalesDs) == {};
    UpsertAllAscending([], stored + incoming, SalesDs, KeepHeld);
    KeysOfConcat(stored, incoming, SalesDs);
    UpsertAll([], stored + incoming, SalesDs, KeepHeld)
  }

  /** Folding keep-first upserts finds, under every key, the first row with that key. */
  lemma {:induction false} KeepFirstFindsFirst(xs: seq<SalesRow>, d: Timestamp)
    ensures Lookup(UpsertAll([], xs, SalesDs, KeepHeld), d, SalesDs) == Lookup(xs, d, SalesDs)
  {
    if |xs| > 0 {
      var n := |xs| - 1;
      assert xs == xs[..n] + [xs[n]];
      assert KeepsKey(SalesDs, KeepHeld);
      UpsertAllAscending([], xs[..n], SalesDs, KeepHeld);
      UpsertLookup(UpsertAll([], xs[..n], SalesDs, KeepHeld), xs[n], d, SalesDs, KeepHeld);
      KeepFirstFindsFirst(xs[..n], d);
      LookupConcat(xs[..n], [xs[n]], d, SalesDs);
    }
  }

  /** The merged file: one row per `ds`, ascending, the days of both inputs and no
      others, and on a collision the stored row, never the new one. */
  lemma MergeKeepFirstSpec(stored: seq<SalesRow>, incoming: seq<SalesRow>, d: Timestamp)
    ensures StrictlyAscending(MergeKeepFirst(stored, incoming), SalesDs)
    ensures Keys(MergeKeepFirst(stored, incoming), SalesDs) == Keys(stored, SalesDs) + Keys(incoming, SalesDs)
    ensures Lookup(MergeKeepFirst(stored, incoming), d, SalesDs) ==
      if Lookup(stored, d, SalesDs).Some? then Lookup(stored, d, SalesDs) else Lookup(incoming, d, SalesDs)
  {
    assert KeepsKey(SalesDs, KeepHeld);
    assert Keys([], SalesDs) == {};
    UpsertAllAscending([], stored + incoming, SalesDs, KeepHeld);
    KeysOfConcat(stored, incoming, SalesDs);
    KeepFirstFindsFirst(stored + incoming, d);
    LookupConcat(stored, incoming, d, SalesDs);
  }
}
