/** Definitions shared by every component of the model. */
module Basics {

  datatype Option<+T> = None | Some(value: T)

  datatype Result<+T, +E> = Ok(value: T) | Err(error: E)

  newtype byte = x: int | 0 <= x < 256

  type Bytes = seq<byte>

  const HASH_SIZE: nat := 32

  type Hash32 = h: Bytes | |h| == HASH_SIZE witness seq(HASH_SIZE, _ => 0)

  const TWO_56: nat := 0x100_0000_0000_0000
  const TWO_63: nat := 0x8000_0000_0000_0000
  const INT64_MIN: int := -0x8000_0000_0000_0000
  const TWO_64: nat := 0x1_0000_0000_0000_0000

  type u64 = x: int | 0 <= x < TWO_64

  /** Go's int64(x) of a uint64. */
  function AsInt64(x: u64): int {
    if x < TWO_63 then x else x - TWO_64
  }

  /** Go's uint64(x) of an integer. */
  function AsUint64(x: int): u64 {
    x % TWO_64
  }

  function Pow2(n: nat): (p: nat)
    ensures p >= 1
  {
    if n == 0 then 1 else 2 * Pow2(n - 1)
  }

  function Max(a: int, b: int): (m: int)
    ensures a <= m && b <= m && (m == a || m == b)
  {
    if a < b then b else a
  }

  function Min(a: int, b: int): (m: int)
    ensures m <= a && m <= b && (m == a || m == b)
  {
    if a < b then a else b
  }
}

/** Block intervals, both ends included. */
module Intervals {

  datatype Range = Range(lo: int, hi: int)

  /** The ranges are consecutive and cover exactly [lo, hi). */
  predicate Tiles(ranges: seq<Range>, lo: int, hi: int)
    decreases |ranges|
  {
    if ranges == [] then lo == hi
    else
      var last := ranges[|ranges| - 1];
      last.hi + 1 == hi && last.lo <= hi && Tiles(ranges[..|ranges| - 1], lo, last.lo)
  }

  /** Consecutive ranges give every block of [lo, hi) to exactly one of them, and no block outside to any. */
  lemma {:induction false} TilesPartition(ranges: seq<Range>, lo: int, hi: int, b: int)
    requires Tiles(ranges, lo, hi)
    ensures lo <= hi
    ensures lo <= b < hi <==> exists i :: 0 <= i < |ranges| && ranges[i].lo <= b <= ranges[i].hi
    ensures forall i, j :: 0 <= i < j < |ranges| ==> ranges[i].hi < ranges[j].lo
    decreases |ranges|
  {
    if ranges == [] {
    } else {
      var n := |ranges| - 1;
      var init := ranges[..n];
      TilesPartition(init, lo, ranges[n].lo, b);
      if lo <= b < ranges[n].lo {
        var i :| 0 <= i < |init| && init[i].lo <= b <= init[i].hi;
        assert ranges[i] == init[i];
      }
      forall i | 0 <= i < n
        ensures ranges[i].hi < ranges[n].lo
      {
        assert init[i] == ranges[i];
        TilesBelow(init, lo, ranges[n].lo, i);
      }
      assert forall i, j :: 0 <= i < j < n ==> init[i] == ranges[i] && init[j] == ranges[j];
      forall i | 0 <= i < |ranges| && ranges[i].lo <= b <= ranges[i].hi
        ensures lo <= b < hi
      {
        if i < n {
          assert init[i] == ranges[i];
        }
      }
    }
  }

  lemma {:induction false} TilesBelow(ranges: seq<Range>, lo: int, hi: int, i: nat)
    requires Tiles(ranges, lo, hi) && i < |ranges|
    ensures lo <= ranges[i].lo <= ranges[i].hi + 1 && ranges[i].hi < hi
    decreases |ranges|
  {
    var n := |ranges| - 1;
    if n == 0 {
    } else {
      TilesBelow(ranges[..n], lo, ranges[n].lo, if i < n then i else 0);
      TilesOrdered(ranges[..n], lo, ranges[n].lo);
    }
  }

  lemma {:induction false} TilesOrdered(ranges: seq<Range>, lo: int, hi: int)
    requires Tiles(ranges, lo, hi)
    ensures lo <= hi
    decreases |ranges|
  {
    if ranges == [] {
    } else {
      TilesOrdered(ranges[..|ranges| - 1], lo, ranges[|ranges| - 1].lo);
    }
  }
}

/** Tables keyed by a column of their rows, with INSERT ... ON CONFLICT DO NOTHING. */
module InsertIfAbsent {

  function InsertAbsent<K, V>(t: map<K, V>, rows: seq<V>, key: V -> K): map<K, V>
    decreases |rows|
  {
    if rows == [] then t else
      var rest := InsertAbsent(t, rows[..|rows| - 1], key);
      var row := rows[|rows| - 1];
      if key(row) in rest then rest else rest[key(row) := row]
  }

  /** Inserting in two parts is inserting the whole. */
  lemma {:induction false} InsertConcat<K, V>(t: map<K, V>, a: seq<V>, b: seq<V>, key: V -> K)
    ensures InsertAbsent(t, a + b, key) == InsertAbsent(InsertAbsent(t, a, key), b, key)
    decreases |b|
  {
    if b == [] {
      assert a + b == a;
    } else {
      assert (a + b)[..|a + b| - 1] == a + b[..|b| - 1];
      InsertConcat(t, a, b[..|b| - 1], key);
    }
  }

  /** What is stored under `k`: the row that was there, or one of the inserted rows with that key. */
  lemma {:induction false} InsertedRows<K, V>(t: map<K, V>, rows: seq<V>, key: V -> K, k: K)
    ensures k in t ==> k in InsertAbsent(t, rows, key) && InsertAbsent(t, rows, key)[k] == t[k]
    ensures k in InsertAbsent(t, rows, key) && k !in t ==>
      InsertAbsent(t, rows, key)[k] in rows && key(InsertAbsent(t, rows, key)[k]) == k
    ensures k in InsertAbsent(t, rows, key) <==> k in t || exists row :: row in rows && key(row) == k
    decreases |rows|
  {
    if rows == [] {
    } else {
      var init, last := rows[..|rows| - 1], rows[|rows| - 1];
      assert rows == init + [last];
      assert forall row :: row in rows <==> row in init || row == last;
      InsertedRows(t, init, key, k);
    }
  }

  lemma {:induction false} FirstIsStored<K, V>(t: map<K, V>, rows: seq<V>, key: V -> K, i: nat)
    requires i < |rows| && forall j :: 0 <= j < i ==> key(rows[j]) != key(rows[i])
    ensures key(rows[i]) in InsertAbsent(t, rows, key)
    ensures InsertAbsent(t, rows, key)[key(rows[i])] == if key(rows[i]) in t then t[key(rows[i])] else rows[i]
    decreases |rows|
  {
    var n := |rows| - 1;
    if i == n {
      InsertedRows(t, rows[..n], key, key(rows[n]));
    } else {
      FirstIsStored(t, rows[..n], key, i);
    }
  }

  /** Of several rows with one key the first is stored, unless the key was taken. */
  lemma {:induction false} StoredByKey<K, V>(t: map<K, V>, rows: seq<V>, key: V -> K, k: K)
    ensures k in InsertAbsent(t, rows, key) <==> k in t || exists i :: 0 <= i < |rows| && key(rows[i]) == k
    ensures k in t ==> k in InsertAbsent(t, rows, key) && InsertAbsent(t, rows, key)[k] == t[k]
    ensures forall i :: 0 <= i < |rows| && key(rows[i]) == k ==>
      k in t || (exists j :: 0 <= j < i && key(rows[j]) == k)
      || (k in InsertAbsent(t, rows, key) && InsertAbsent(t, rows, key)[k] == rows[i])
  {
    InsertedRows(t, rows, key, k);
    forall i | 0 <= i < |rows| && key(rows[i]) == k && forall j :: 0 <= j < i ==> key(rows[j]) != k
      ensures k !in t ==> InsertAbsent(t, rows, key)[k] == rows[i]
    {
      FirstIsStored(t, rows, key, i);
    }
  }
}
