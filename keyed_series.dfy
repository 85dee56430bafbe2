/**
  Sequences of rows kept strictly ascending by an integer key, with at most one
  row per key.  `Upsert` inserts a row at its place or, when a row with the same
  key is already there, replaces it by `combine(held, arriving)`.  Folding
  `Upsert` over rows in order gives the three per-key reductions of the system:
  keep the newest row (consolidation), keep the first row (the older merge
  script) and add the values of one day (per-day aggregation).
*/
module KeyedSeries {
  import opened Wrappers

  ghost predicate StrictlyAscending<T>(s: seq<T>, key: T -> int) {
    forall i, j :: 0 <= i < j < |s| ==> key(s[i]) < key(s[j])
  }

  /** `combine` never changes the key of two rows that share it. */
  ghost predicate KeepsKey<T(!new)>(key: T -> int, combine: (T, T) -> T) {
    forall a, b :: key(a) == key(b) ==> key(combine(a, b)) == key(a)
  }

  function Keys<T>(s: seq<T>, key: T -> int): set<int> {
    set i | 0 <= i < |s| :: key(s[i])
  }

  /** The first row of `s` whose key is `k`. */
  function Lookup<T>(s: seq<T>, k: int, key: T -> int): (r: Option<T>)
    ensures r.Some? ==> r.value in s && key(r.value) == k
  {
    if |s| == 0 then None
    else if key(s[0]) == k then Some(s[0])
    else Lookup(s[1..], k, key)
  }

  function Upsert<T>(s: seq<T>, x: T, key: T -> int, combine: (T, T) -> T): seq<T>
  {
    if |s| == 0 then [x]
    else if key(x) < key(s[0]) then [x] + s
    else if key(x) == key(s[0]) then [combine(s[0], x)] + s[1..]
    else [s[0]] + Upsert(s[1..], x, key, combine)
  }

  /** `Upsert` of every row of `xs` into `s`, in the order of `xs`. */
  function UpsertAll<T>(s: seq<T>, xs: seq<T>, key: T -> int, combine: (T, T) -> T): seq<T>
  {
    if |xs| == 0 then s
    else Upsert(UpsertAll(s, xs[..|xs| - 1], key, combine), xs[|xs| - 1], key, combine)
  }

  lemma {:induction false} LookupFindsKey<T>(s: seq<T>, k: int, key: T -> int)
    ensures Lookup(s, k, key).Some? <==> k in Keys(s, key)
  {
    if |s| > 0 {
      LookupFindsKey(s[1..], k, key);
      assert Keys(s, key) == {key(s[0])} + Keys(s[1..], key) by {
        forall i | 0 <= i < |s| ensures key(s[i]) in {key(s[0])} + Keys(s[1..], key) {
          if i > 0 { assert key(s[i]) == key(s[1..][i - 1]); }
        }
        forall i | 0 <= i < |s| - 1 ensures key(s[1..][i]) in Keys(s, key) {
          assert s[1..][i] == s[i + 1];
        }
      }
    }
  }

  /** In an ascending sequence every row is the one found under its own key. */
  lemma {:induction false} LookupAscending<T>(s: seq<T>, i: int, key: T -> int)
    requires StrictlyAscending(s, key)
    requires 0 <= i < |s|
    ensures Lookup(s, key(s[i]), key) == Some(s[i])
  {
    if i > 0 {
      assert key(s[0]) < key(s[i]);
      LookupAscending(s[1..], i - 1, key);
    }
  }

  lemma KeysOfConcat<T>(a: seq<T>, b: seq<T>, key: T -> int)
    ensures Keys(a + b, key) == Keys(a, key) + Keys(b, key)
  {
    var c := a + b;
    forall v | v in Keys(c, key) ensures v in Keys(a, key) + Keys(b, key) {
      var i :| 0 <= i < |c| && key(c[i]) == v;
      if i < |a| { assert c[i] == a[i]; } else { assert c[i] == b[i - |a|]; }
    }
    forall v | v in Keys(a, key) + Keys(b, key) ensures v in Keys(c, key) {
      if v in Keys(a, key) {
        var i :| 0 <= i < |a| && key(a[i]) == v;
        assert c[i] == a[i];
      } else {
        var i :| 0 <= i < |b| && key(b[i]) == v;
        assert c[|a| + i] == b[i];
      }
    }
  }

  lemma KeysOfOne<T>(x: T, key: T -> int)
    ensures Keys([x], key) == {key(x)}
  {
    assert [x][0] == x;
  }

  lemma AscendingCons<T>(y: T, t: seq<T>, key: T -> int)
    requires StrictlyAscending(t, key)
    requires forall j :: 0 <= j < |t| ==> key(y) < key(t[j])
    ensures StrictlyAscending([y] + t, key)
  {
    var u := [y] + t;
    forall i, j | 0 <= i < j < |u| ensures key(u[i]) < key(u[j]) {
      if i > 0 { assert u[i] == t[i - 1]; }
      assert u[j] == t[j - 1];
    }
  }

  lemma BelowAllKeys<T>(y: T, t: seq<T>, key: T -> int)
    requires forall v :: v in Keys(t, key) ==> key(y) < v
    ensures forall j :: 0 <= j < |t| ==> key(y) < key(t[j])
  {
    forall j | 0 <= j < |t| ensures key(y) < key(t[j]) { assert key(t[j]) in Keys(t, key); }
  }

  lemma {:induction false} UpsertAscending<T(!new)>(s: seq<T>, x: T, key: T -> int, combine: (T, T) -> T)
    requires StrictlyAscending(s, key)
    requires KeepsKey(key, combine)
    ensures StrictlyAscending(Upsert(s, x, key, combine), key)
    ensures Keys(Upsert(s, x, key, combine), key) == Keys(s, key) + {key(x)}
  {
    KeysOfOne(x, key);
    if |s| == 0 {
    } else if key(x) < key(s[0]) {
      KeysOfConcat([x], s, key);
      forall j | 0 <= j < |s| ensures key(x) < key(s[j]) { assert key(s[0]) <= key(s[j]); }
      AscendingCons(x, s, key);
    } else {
      var rest := s[1..];
      assert s == [s[0]] + rest;
      KeysOfConcat([s[0]], rest, key);
      KeysOfOne(s[0], key);
      assert StrictlyAscending(rest, key);
      forall j | 0 <= j < |rest| ensures key(s[0]) < key(rest[j]) { assert rest[j] == s[j + 1]; }
      if key(x) == key(s[0]) {
        var c := combine(s[0], x);
        KeysOfConcat([c], rest, key);
        KeysOfOne(c, key);
        AscendingCons(c, rest, key);
      } else {
        var t := Upsert(rest, x, key, combine);
        UpsertAscending(rest, x, key, combine);
        KeysOfConcat([s[0]], t, key);
        forall v | v in Keys(t, key) ensures key(s[0]) < v {
          if v != key(x) {
            var p :| 0 <= p < |rest| && key(rest[p]) == v;
          }
        }
        BelowAllKeys(s[0], t, key);
        AscendingCons(s[0], t, key);
      }
    }
  }

  /** How `Upsert` changes what is found under each key. */
  lemma {:induction false} UpsertLookup<T(!new)>(s: seq<T>, x: T, k: int, key: T -> int, combine: (T, T) -> T)
    requires StrictlyAscending(s, key)
    requires KeepsKey(key, combine)
    ensures Lookup(Upsert(s, x, key, combine), k, key) ==
      if k != key(x) then Lookup(s, k, key)
      else if Lookup(s, k, key).None? then Some(x)
      else Some(combine(Lookup(s, k, key).value, x))
  {
    if |s| > 0 {
      if key(x) < key(s[0]) {
        if k == key(x) {
          forall i | 0 <= i < |s| ensures key(s[i]) != k { assert key(s[0]) <= key(s[i]); }
          LookupFindsKey(s, k, key);
        }
      } else if key(x) == key(s[0]) {
        if k != key(x) {
          assert Upsert(s, x, key, combine)[1..] == s[1..];
        }
      } else {
        UpsertLookup(s[1..], x, k, key, combine);
        assert Upsert(s, x, key, combine)[1..] == Upsert(s[1..], x, key, combine);
      }
    }
  }

  lemma {:induction false} UpsertAllAscending<T(!new)>(s: seq<T>, xs: seq<T>, key: T -> int, combine: (T, T) -> T)
    requires StrictlyAscending(s, key)
    requires KeepsKey(key, combine)
    ensures StrictlyAscending(UpsertAll(s, xs, key, combine), key)
    ensures Keys(UpsertAll(s, xs, key, combine), key) == Keys(s, key) + Keys(xs, key)
  {
    if |xs| > 0 {
      var p := xs[..|xs| - 1];
      UpsertAllAscending(s, p, key, combine);
      UpsertAscending(UpsertAll(s, p, key, combine), xs[|xs| - 1], key, combine);
      assert Keys(xs, key) == Keys(p, key) + {key(xs[|xs| - 1])} by {
        forall i | 0 <= i < |xs| ensures key(xs[i]) in Keys(p, key) + {key(xs[|xs| - 1])} {
          if i < |xs| - 1 { assert xs[i] == p[i]; }
        }
        forall i | 0 <= i < |p| ensures key(p[i]) in Keys(xs, key) { assert xs[i] == p[i]; }
      }
    }
  }

  /** Keys of a strictly ascending sequence are distinct, so it has as many rows as keys. */
  lemma {:induction false} AscendingCardinality<T>(s: seq<T>, key: T -> int)
    requires StrictlyAscending(s, key)
    ensures |Keys(s, key)| == |s|
  {
    if |s| > 0 {
      AscendingCardinality(s[1..], key);
      assert Keys(s, key) == {key(s[0])} + Keys(s[1..], key) by {
        forall i | 0 <= i < |s| ensures key(s[i]) in {key(s[0])} + Keys(s[1..], key) {
          if i > 0 { assert s[i] == s[1..][i - 1]; }
        }
        forall i | 0 <= i < |s| - 1 ensures key(s[1..][i]) in Keys(s, key) { assert s[1..][i] == s[i + 1]; }
      }
      forall i | 0 <= i < |s| - 1 ensures key(s[1..][i]) != key(s[0]) { assert s[1..][i] == s[i + 1]; }
    }
  }

  /** A row whose key is above every key already there goes to the end. */
  lemma {:induction false} UpsertPastLast<T>(s: seq<T>, x: T, key: T -> int, combine: (T, T) -> T)
    requires forall i :: 0 <= i < |s| ==> key(s[i]) < key(x)
    ensures Upsert(s, x, key, combine) == s + [x]
  {
    if |s| > 0 {
      UpsertPastLast(s[1..], x, key, combine);
      assert s == [s[0]] + s[1..];
    }
  }

  /** The first row under a key in `a + b` is the first one in `a`, or else the first one in `b`. */
  lemma {:induction false} LookupConcat<T>(a: seq<T>, b: seq<T>, k: int, key: T -> int)
    ensures Lookup(a + b, k, key) == if Lookup(a, k, key).Some? then Lookup(a, k, key) else Lookup(b, k, key)
  {
    if |a| > 0 {
      assert (a + b)[0] == a[0];
      assert (a + b)[1..] == a[1..] + b;
      LookupConcat(a[1..], b, k, key);
    } else {
      assert a + b == b;
    }
  }

  /** Dropping the first row of an ascending sequence removes exactly its key. */
  lemma KeysOfTail<T>(s: seq<T>, key: T -> int)
    requires StrictlyAscending(s, key) && |s| > 0
    ensures Keys(s[1..], key) == Keys(s, key) - {key(s[0])}
  {
    assert s == [s[0]] + s[1..];
    KeysOfConcat([s[0]], s[1..], key);
    KeysOfOne(s[0], key);
    forall v | v in Keys(s[1..], key) ensures v != key(s[0]) {
      var j :| 0 <= j < |s| - 1 && key(s[1..][j]) == v;
      assert s[1..][j] == s[j + 1];
    }
  }

  /** Two strictly ascending sequences with the same keys agree on the key at every position. */
  lemma {:induction false} AscendingSameKeys<T>(a: seq<T>, b: seq<T>, key: T -> int)
    requires StrictlyAscending(a, key) && StrictlyAscending(b, key)
    requires Keys(a, key) == Keys(b, key)
    ensures |a| == |b|
    ensures forall k :: 0 <= k < |a| ==> key(a[k]) == key(b[k])
  {
    AscendingCardinality(a, key);
    AscendingCardinality(b, key);
    if |a| > 0 {
      assert key(a[0]) in Keys(b, key);
      var j :| 0 <= j < |b| && key(b[j]) == key(a[0]);
      assert key(b[0]) <= key(a[0]);
      assert key(b[0]) in Keys(a, key);
      var i :| 0 <= i < |a| && key(a[i]) == key(b[0]);
      assert key(a[0]) <= key(b[0]);
      KeysOfTail(a, key);
      KeysOfTail(b, key);
      AscendingSameKeys(a[1..], b[1..], key);
      forall k | 0 < k < |a| ensures key(a[k]) == key(b[k]) {
        assert a[k] == a[1..][k - 1] && b[k] == b[1..][k - 1];
      }
    }
  }

  /** In a strictly ascending sequence a key occurs at one position only. */
  lemma AscendingKeyFixesIndex<T>(s: seq<T>, i: int, j: int, key: T -> int)
    requires StrictlyAscending(s, key)
    requires 0 <= i < |s| && 0 <= j < |s| && key(s[i]) == key(s[j])
    ensures i == j
  {
  }
}
