/**
  Validation of the body of a manual update (`update_forecast_manually` in
  services.py, before consolidation): a non-empty list of objects with `ds` and
  `y` columns; rows whose `ds` or `y` does not parse are dropped.
*/
module ManualInput {
  import opened Wrappers
  import opened Consolidation

  /** A value of the submitted JSON, with what `pd.to_datetime(errors='coerce')`
      and `pd.to_numeric(errors='coerce')` make of it. */
  datatype RawValue = RawValue(asTimestamp: Option<Timestamp>, asNumber: Option<real>)

  /** One submitted object: its keys and values. */
  type Item = map<string, RawValue>

  /** The request body: a JSON list of objects, or anything else. */
  datatype ManualBody = NotAList | ItemList(items: seq<Item>)

  datatype Validation = InvalidInput | MissingColumns | Valid(batch: Batch)

  /** A column of the table built from the objects exists when some object has that key. */
  predicate HasColumn(items: seq<Item>, column: string) {
    exists i :: 0 <= i < |items| && column in items[i]
  }

  /** One object as an incoming row, or `None` when its `ds` or `y` is missing or does not parse. */
  function ParseItem(item: Item): (r: Option<Incoming>)
    ensures r.Some? <==> "ds" in item && "y" in item && item["ds"].asTimestamp.Some? && item["y"].asNumber.Some?
    ensures r.Some? ==>
      && Some(r.value.ds) == item["ds"].asTimestamp && Some(r.value.y) == item["y"].asNumber
      && r.value.createdAt == if "created_at" in item then item["created_at"].asTimestamp else None
  {
    if "ds" !in item || "y" !in item then None
    else if item["ds"].asTimestamp.None? || item["y"].asNumber.None? then None
    else Some(Incoming(item["ds"].asTimestamp.value, item["y"].asNumber.value,
                       if "created_at" in item then item["created_at"].asTimestamp else None))
  }

  /** The rows that survive `dropna(subset=['ds', 'y'])`, in submission order. */
  function ParsedItems(items: seq<Item>): (r: seq<Incoming>)
    ensures |r| <= |items|
    ensures forall p :: p in r ==> exists i :: 0 <= i < |items| && ParseItem(items[i]) == Some(p)
  {
    if |items| == 0 then []
    else
      var rest := ParsedItems(items[1..]);
      assert forall p :: p in rest ==> exists i :: 0 <= i < |items| && ParseItem(items[i]) == Some(p) by {
        forall p | p in rest ensures exists i :: 0 <= i < |items| && ParseItem(items[i]) == Some(p) {
          var i :| 0 <= i < |items| - 1 && ParseItem(items[1..][i]) == Some(p);
          assert items[1..][i] == items[i + 1];
        }
      }
      match ParseItem(items[0])
      case None => rest
      case Some(p) => [p] + rest
  }

  /** The checks of services.py:110-119 on the request body. */
  function Validate(body: ManualBody): (r: Validation)
    ensures r == InvalidInput <==> body.NotAList? || |body.items| == 0
    ensures r == MissingColumns <==>
      body.ItemList? && |body.items| > 0 && (!HasColumn(body.items, "ds") || !HasColumn(body.items, "y"))
    ensures r.Valid? ==> r.batch.hasCreatedAt == HasColumn(body.items, "created_at")
  {
    if body.NotAList? || |body.items| == 0 then InvalidInput
    else if !HasColumn(body.items, "ds") || !HasColumn(body.items, "y") then MissingColumns
    else Valid(Batch(ParsedItems(body.items), HasColumn(body.items, "created_at")))
  }

  /** Every object whose `ds` and `y` parse becomes a row: nothing parseable is dropped. */
  lemma {:induction false} ParsedItemsKeepsParseable(items: seq<Item>, i: int)
    requires 0 <= i < |items| && ParseItem(items[i]).Some?
    ensures ParseItem(items[i]).value in ParsedItems(items)
  {
    if i > 0 {
      assert items[1..][i - 1] == items[i];
      ParsedItemsKeepsParseable(items[1..], i - 1);
    }
  }

  /** Parsing a concatenation parses each part: the kept rows keep the
      submission order and each parseable object gives exactly one row. */
  lemma {:induction false} ParsedItemsConcat(a: seq<Item>, b: seq<Item>)
    ensures ParsedItems(a + b) == ParsedItems(a) + ParsedItems(b)
  {
    if |a| == 0 {
      assert a + b == b;
    } else {
      assert (a + b)[0] == a[0];
      assert (a + b)[1..] == a[1..] + b;
      ParsedItemsConcat(a[1..], b);
    }
  }

  /** A single object gives its row when it parses and nothing otherwise. */
  lemma ParsedItemsOfOne(item: Item)
    ensures ParsedItems([item]) == if ParseItem(item).Some? then [ParseItem(item).value] else []
  {
    assert [item][1..] == [];
  }

  /** A valid body's batch holds exactly the parseable objects. */
  lemma ValidateSpec(body: ManualBody)
    ensures Validate(body).Valid? ==>
      forall p :: p in Validate(body).batch.points <==>
        exists i :: 0 <= i < |body.items| && ParseItem(body.items[i]) == Some(p)
  {
    if Validate(body).Valid? {
      forall p | exists i :: 0 <= i < |body.items| && ParseItem(body.items[i]) == Some(p)
        ensures p in Validate(body).batch.points
      {
        var i :| 0 <= i < |body.items| && ParseItem(body.items[i]) == Some(p);
        ParsedItemsKeepsParseable(body.items, i);
      }
    }
  }
}
