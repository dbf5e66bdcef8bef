/**
 The idiom `*map.entry(idx).or_insert(0) += v` over a list of rows, some of which are skipped.
 */
module Buckets {
  import opened Options

  /** A row that counts `amount` into bucket `index`. */
  datatype Row = Row(index: nat, amount: real)

  /** Fees by step; an index without entries is never kept. */
  type Fees = Option<map<nat, real>>

  function NonEmpty(m: map<nat, real>): Fees { if m == map[] then None else Some(m) }

  /** What the rows put into one bucket. */
  function BucketTotal(rows: seq<Option<Row>>, index: nat): real {
    if rows == [] then 0.0
    else
      var last := rows[|rows| - 1];
      BucketTotal(rows[..|rows| - 1], index) +
      if last.Some? && last.value.index == index then last.value.amount else 0.0
  }

  predicate Touched(rows: seq<Option<Row>>, index: nat) {
    exists i :: 0 <= i < |rows| && rows[i].Some? && rows[i].value.index == index
  }

  /** The map holds exactly the touched buckets with their totals. */
  ghost predicate Holds(m: map<nat, real>, rows: seq<Option<Row>>) {
    forall index: nat ::
      (index in m <==> Touched(rows, index)) && (index in m ==> m[index] == BucketTotal(rows, index))
  }

  function Put(m: map<nat, real>, row: Option<Row>): map<nat, real> {
    if row.None? then m
    else m[row.value.index := (if row.value.index in m then m[row.value.index] else 0.0) + row.value.amount]
  }

  lemma {:induction false} UntouchedIsZero(rows: seq<Option<Row>>, index: nat)
    requires !Touched(rows, index)
    ensures BucketTotal(rows, index) == 0.0
  {
    if rows != [] {
      assert forall i :: 0 <= i < |rows| - 1 ==> rows[..|rows| - 1][i] == rows[i];
      UntouchedIsZero(rows[..|rows| - 1], index);
    }
  }

  lemma PutAt(rows: seq<Option<Row>>, row: Option<Row>, index: nat)
    ensures var all := rows + [row];
            var hit := row.Some? && row.value.index == index;
            && (Touched(all, index) <==> Touched(rows, index) || hit)
            && BucketTotal(all, index) == BucketTotal(rows, index) + if hit then row.value.amount else 0.0
  {
    var all := rows + [row];
    assert all[..|rows|] == rows && all[|rows|] == row;
    if Touched(rows, index) {
      var i :| 0 <= i < |rows| && rows[i].Some? && rows[i].value.index == index;
      assert all[i] == rows[i];
    }
  }

  /** Putting one more row keeps the map exact. */
  lemma PutHolds(m: map<nat, real>, rows: seq<Option<Row>>, row: Option<Row>)
    requires Holds(m, rows)
    ensures Holds(Put(m, row), rows + [row])
  {
    var m' := Put(m, row);
    forall index: nat
      ensures index in m' <==> Touched(rows + [row], index)
      ensures index in m' ==> m'[index] == BucketTotal(rows + [row], index)
    {
      PutAt(rows, row, index);
      if !Touched(rows, index) {
        UntouchedIsZero(rows, index);
      }
    }
  }

  function At(m: map<nat, real>, index: nat): real { if index in m then m[index] else 0.0 }

  /** The map read at the indices below `n`. */
  function SumBelow(m: map<nat, real>, n: nat): real {
    if n == 0 then 0.0 else SumBelow(m, n - 1) + At(m, n - 1)
  }

  /** The rows of the buckets below `n`. */
  function RowsBelow(rows: seq<Option<Row>>, n: nat): real {
    if rows == [] then 0.0
    else
      var last := rows[|rows| - 1];
      RowsBelow(rows[..|rows| - 1], n) + if last.Some? && last.value.index < n then last.value.amount else 0.0
  }

  lemma {:induction false} RowsBelowNext(rows: seq<Option<Row>>, n: nat)
    ensures RowsBelow(rows, n + 1) == RowsBelow(rows, n) + BucketTotal(rows, n)
    ensures RowsBelow(rows, 0) == 0.0
  {
    if rows != [] {
      RowsBelowNext(rows[..|rows| - 1], n);
    }
  }

  /** Reading the buckets below `n` gives back exactly the rows counted there. */
  lemma {:induction false} Conserved(m: map<nat, real>, rows: seq<Option<Row>>, n: nat)
    requires Holds(m, rows)
    ensures SumBelow(m, n) == RowsBelow(rows, n)
  {
    if n == 0 {
      RowsBelowNext(rows, 0);
    } else {
      Conserved(m, rows, n - 1);
      RowsBelowNext(rows, n - 1);
      if !Touched(rows, n - 1) {
        UntouchedIsZero(rows, n - 1);
      }
    }
  }

  /** The map built by putting the rows in one after another. */
  function Filed(rows: seq<Option<Row>>): (m: map<nat, real>) {
    if rows == [] then map[] else Put(Filed(rows[..|rows| - 1]), rows[|rows| - 1])
  }

  lemma FiledNext(rows: seq<Option<Row>>, row: Option<Row>)
    ensures Filed(rows + [row]) == Put(Filed(rows), row)
  {
    assert (rows + [row])[..|rows|] == rows;
  }

  lemma {:induction false} FiledHolds(rows: seq<Option<Row>>)
    ensures Holds(Filed(rows), rows)
  {
    if rows != [] {
      var front := rows[..|rows| - 1];
      FiledHolds(front);
      PutHolds(Filed(front), front, rows[|rows| - 1]);
      assert front + [rows[|rows| - 1]] == rows;
    }
  }

  predicate PositiveRows(rows: seq<Option<Row>>) {
    forall i :: 0 <= i < |rows| && rows[i].Some? ==> rows[i].value.amount > 0.0
  }

  predicate PositiveValues(m: map<nat, real>) { forall k :: k in m ==> m[k] > 0.0 }

  lemma {:induction false} FiledPositive(rows: seq<Option<Row>>)
    requires PositiveRows(rows)
    ensures PositiveValues(Filed(rows))
  {
    if rows != [] {
      FiledPositive(rows[..|rows| - 1]);
    }
  }

  // ---------------------------------------------------------------------------------------
  // The sum of all values
  // ---------------------------------------------------------------------------------------

  predicate Bounds(n: nat, keys: set<nat>) { forall k :: k in keys ==> k < n }

  lemma {:induction false} HasBound(keys: set<nat>)
    ensures exists n: nat :: Bounds(n, keys)
  {
    if keys == {} {
      assert Bounds(0, keys);
    } else {
      var k :| k in keys;
      HasBound(keys - {k});
      var n: nat :| Bounds(n, keys - {k});
      assert forall j :: j in keys && j != k ==> j in keys - {k};
      assert Bounds(n + k + 1, keys);
    }
  }

  ghost function SumOfValues(m: map<nat, real>): real {
    HasBound(m.Keys);
    var n: nat :| Bounds(n, m.Keys);
    SumBelow(m, n)
  }

  lemma {:induction false} NothingBeyond(m: map<nat, real>, n: nat, k: nat)
    requires Bounds(n, m.Keys) && n <= k
    ensures SumBelow(m, k) == SumBelow(m, n)
  {
    if n < k {
      NothingBeyond(m, n, k - 1);
    }
  }

  /** The sum of the values is the sum up to any bound of the keys. */
  lemma SumUpTo(m: map<nat, real>, n: nat)
    requires Bounds(n, m.Keys)
    ensures SumBelow(m, n) == SumOfValues(m)
  {
    HasBound(m.Keys);
    var b: nat :| Bounds(b, m.Keys) && SumOfValues(m) == SumBelow(m, b);
    if b <= n {
      NothingBeyond(m, b, n);
    } else {
      NothingBeyond(m, n, b);
    }
  }

  lemma {:induction false} SumBelowPut(m: map<nat, real>, k: nat, v: real, n: nat)
    requires k !in m
    ensures SumBelow(m[k := v], n) == SumBelow(m, n) + if k < n then v else 0.0
  {
    if n > 0 {
      SumBelowPut(m, k, v, n - 1);
    }
  }

  method SumValues(m: map<nat, real>) returns (sum: real)
    ensures sum == SumOfValues(m)
  {
    HasBound(m.Keys);
    ghost var n: nat :| Bounds(n, m.Keys);
    var todo := m.Keys;
    ghost var done: map<nat, real> := map[];
    sum := 0.0;
    assert SumBelow(done, n) == 0.0 by { EmptySum(n); }
    while todo != {}
      invariant todo <= m.Keys
      invariant done == map k | k in m && k !in todo :: m[k]
      invariant sum == SumBelow(done, n)
    {
      var k :| k in todo;
      SumBelowPut(done, k, m[k], n);
      sum := sum + m[k];
      todo := todo - {k};
      done := done[k := m[k]];
    }
    assert done == m;
    SumUpTo(m, n);
  }

  lemma {:induction false} EmptySum(n: nat)
    ensures SumBelow(map[], n) == 0.0
  {
    if n > 0 {
      EmptySum(n - 1);
    }
  }

  lemma {:induction false} SumBelowGrows(m: map<nat, real>, n: nat, k: nat)
    requires PositiveValues(m) && n <= k
    ensures SumBelow(m, n) <= SumBelow(m, k)
    ensures SumBelow(m, n) == SumBelow(m, k) <==> forall i :: n <= i < k ==> i !in m
  {
    if n < k {
      SumBelowGrows(m, n, k - 1);
    }
  }
}
