/** The SQL table the exporter pipeline reads, through the cursor-paged
    query: every row carries its rowversion as the `bigint` column
    `TimestampAsLong`, and a query returns the first 500 rows whose cursor
    lies strictly above the `@cursor` parameter, in ascending cursor order.
    Rowversions are unique, so the table is kept as a sequence strictly
    ascending by cursor. The reference run of the pipeline's loop over such
    a table is defined here too. */
module CursorSource {
  import opened Wrappers
  import opened Values
  import opened Batching

  /** The projected cursor column. */
  const CursorAlias: string := "TimestampAsLong"

  /** `SqlBatchSize`, the `TOP` of every query. */
  const SqlBatchSize: nat := 500

  predicate HasCursor(row: Row) {
    CursorAlias in row && row[CursorAlias].LongValue?
  }

  /** `(long)row["TimestampAsLong"]`. */
  function CursorOf(row: Row): int64
    requires HasCursor(row)
  {
    row[CursorAlias].int64
  }

  predicate AllHaveCursor(rows: seq<Row>) {
    forall i :: 0 <= i < |rows| ==> HasCursor(rows[i])
  }

  predicate Ascending(rows: seq<Row>) {
    && AllHaveCursor(rows)
    && forall i, j :: 0 <= i < j < |rows| ==> CursorOf(rows[i]) < CursorOf(rows[j])
  }

  /** A table as the query sees it. */
  type SortedRows = rows: seq<Row> | Ascending(rows) witness []

  /** `WHERE cursor > bound`, keeping the rows' order. */
  function Above(rows: seq<Row>, bound: int): (r: seq<Row>)
    requires AllHaveCursor(rows)
    ensures AllHaveCursor(r) && |r| <= |rows|
    ensures forall i :: 0 <= i < |r| ==> CursorOf(r[i]) > bound
    decreases |rows|
  {
    if rows == [] then []
    else (if CursorOf(rows[0]) > bound then [rows[0]] else []) + Above(rows[1..], bound)
  }

  /** The filter keeps exactly the rows above the bound. */
  lemma {:induction false} AboveMembers(rows: seq<Row>, bound: int)
    requires AllHaveCursor(rows)
    ensures forall r :: r in Above(rows, bound) <==> r in rows && CursorOf(r) > bound
    decreases |rows|
  {
    if rows != [] {
      AboveMembers(rows[1..], bound);
      assert rows == [rows[0]] + rows[1..];
    }
  }

  /** Rows all above the bound pass the filter unchanged. */
  lemma {:induction false} AllAbove(rows: seq<Row>, bound: int)
    requires AllHaveCursor(rows)
    requires forall i :: 0 <= i < |rows| ==> CursorOf(rows[i]) > bound
    ensures Above(rows, bound) == rows
    decreases |rows|
  {
    if rows != [] {
      AllAbove(rows[1..], bound);
    }
  }

  /** Of an ascending table the filter keeps a suffix, itself ascending. */
  lemma {:induction false} AboveSuffix(rows: seq<Row>, bound: int)
    requires Ascending(rows)
    ensures Above(rows, bound) == rows[|rows| - |Above(rows, bound)|..]
    ensures Ascending(Above(rows, bound))
    decreases |rows|
  {
    if rows != [] {
      if CursorOf(rows[0]) > bound {
        AllAbove(rows, bound);
      } else {
        AboveSuffix(rows[1..], bound);
      }
    }
  }

  /** Filtering twice is filtering by the larger bound. */
  lemma {:induction false} AboveAbove(rows: seq<Row>, low: int, high: int)
    requires AllHaveCursor(rows) && low <= high
    ensures Above(Above(rows, low), high) == Above(rows, high)
    decreases |rows|
  {
    if rows != [] {
      AboveAbove(rows[1..], low, high);
      var head := if CursorOf(rows[0]) > low then [rows[0]] else [];
      AboveAppend(head, Above(rows[1..], low), high);
      if CursorOf(rows[0]) > low {
        assert Above(head, high) == if CursorOf(rows[0]) > high then [rows[0]] else [];
      }
    }
  }

  /** Rows that all carry a cursor still do after concatenation. */
  lemma AppendHasCursor(a: seq<Row>, b: seq<Row>)
    requires AllHaveCursor(a) && AllHaveCursor(b)
    ensures AllHaveCursor(a + b)
  {
    forall i | 0 <= i < |a + b|
      ensures HasCursor((a + b)[i])
    {
      if i < |a| {
        assert (a + b)[i] == a[i];
      } else {
        assert (a + b)[i] == b[i - |a|];
      }
    }
  }

  lemma {:induction false} AboveAppend(a: seq<Row>, b: seq<Row>, bound: int)
    requires AllHaveCursor(a) && AllHaveCursor(b)
    ensures AllHaveCursor(a + b)
    ensures Above(a + b, bound) == Above(a, bound) + Above(b, bound)
    decreases |a|
  {
    AppendHasCursor(a, b);
    if a == [] {
      assert a + b == b;
    } else {
      var head := if CursorOf(a[0]) > bound then [a[0]] else [];
      assert (a + b)[0] == a[0];
      assert (a + b)[1..] == a[1..] + b;
      assert AllHaveCursor(a[1..]) by {
        forall i | 0 <= i < |a[1..]| ensures HasCursor(a[1..][i]) {
          assert a[1..][i] == a[i + 1];
        }
      }
      AboveAppend(a[1..], b, bound);
      calc {
        Above(a + b, bound);
        head + Above(a[1..] + b, bound);
        head + (Above(a[1..], bound) + Above(b, bound));
        (head + Above(a[1..], bound)) + Above(b, bound);
        Above(a, bound) + Above(b, bound);
      }
    }
  }

  /** Of an ascending sequence, the rows above its k-th cursor are those after it. */
  lemma {:induction false} AboveKth(s: seq<Row>, k: nat)
    requires Ascending(s) && 0 < k <= |s|
    ensures Above(s, CursorOf(s[k - 1])) == s[k..]
    decreases k
  {
    var c := CursorOf(s[k - 1]);
    if k == 1 {
      AllAbove(s[1..], c);
    } else {
      assert s[1..][k - 2] == s[k - 1];
      AboveKth(s[1..], k - 1);
    }
  }

  /** One query: the first `SqlBatchSize` rows above the bound. */
  function Fetch(rows: SortedRows, bound: int): (r: seq<Row>)
    ensures AllHaveCursor(r)
  {
    var a := Above(rows, bound);
    if |a| <= SqlBatchSize then a else a[..SqlBatchSize]
  }

  /** A query returns at most 500 rows, all above the bound, ascending, and
      no row above the bound that it skips; it is empty only when no row
      lies above the bound. */
  lemma FetchShape(rows: SortedRows, bound: int)
    ensures var f := Fetch(rows, bound);
      && |f| <= SqlBatchSize
      && Ascending(f)
      && (forall i :: 0 <= i < |f| ==> CursorOf(f[i]) > bound)
      && f == Above(rows, bound)[..|f|]
      && (f == [] <==> Above(rows, bound) == [])
  {
    AboveSuffix(rows, bound);
    var a := Above(rows, bound);
    if |a| <= SqlBatchSize {
      assert a[..|a|] == a;
    } else {
      AscendingPrefix(a, SqlBatchSize);
    }
  }

  /** A prefix of an ascending sequence is ascending. */
  lemma AscendingPrefix(s: seq<Row>, n: nat)
    requires Ascending(s) && n <= |s|
    ensures Ascending(s[..n])
  {
    assert forall i :: 0 <= i < n ==> s[..n][i] == s[i];
  }

  /** The largest cursor of a batch (`Select(...).Max()`). */
  function BatchMax(batch: seq<Row>): (m: int64)
    requires batch != [] && AllHaveCursor(batch)
    ensures forall i :: 0 <= i < |batch| ==> CursorOf(batch[i]) <= m
    ensures exists i :: 0 <= i < |batch| && CursorOf(batch[i]) == m
    decreases |batch|
  {
    if |batch| == 1 then CursorOf(batch[0])
    else
      var rest := BatchMax(batch[1..]);
      assert forall i :: 1 <= i < |batch| ==> batch[i] == batch[1..][i - 1];
      if CursorOf(batch[0]) > rest then CursorOf(batch[0]) else rest
  }

  /** The maximum of an ascending batch is its last cursor. */
  lemma BatchMaxAscending(batch: seq<Row>)
    requires batch != [] && Ascending(batch)
    ensures BatchMax(batch) == CursorOf(batch[|batch| - 1])
  {
  }

  /** The position `ReadSqlAndConvert` reports: the old one for an empty result,
      else the batch maximum, whatever the old position was. */
  function NextPosition(position: int64, batch: seq<Row>): int64
    requires AllHaveCursor(batch)
  {
    if batch == [] then position else BatchMax(batch)
  }

  /** After a non-empty fetch the position strictly increases, and the rows
      above the new position are exactly those after the batch. */
  lemma NextAbove(rows: SortedRows, position: int64)
    requires Fetch(rows, position) != []
    ensures var f := Fetch(rows, position);
      && NextPosition(position, f) > position
      && Above(rows, NextPosition(position, f)) == Above(rows, position)[|f|..]
  {
    var f := Fetch(rows, position);
    var a := Above(rows, position);
    FetchShape(rows, position);
    BatchMaxAscending(f);
    var m := NextPosition(position, f);
    assert m == CursorOf(a[|f| - 1]);
    AboveAbove(rows, position, m);
    AboveSuffix(rows, position);
    AboveKth(a, |f|);
  }

  /** The batches the loop exports, starting from `position`. */
  function Batches(rows: SortedRows, position: int64): seq<seq<Row>>
    decreases |Above(rows, position)|
  {
    var f := Fetch(rows, position);
    if f == [] then []
    else
      NextAbove(rows, position);
      [f] + Batches(rows, NextPosition(position, f))
  }

  /** The `@cursor` of each query the loop issues, the last one the empty fetch. */
  function Positions(rows: SortedRows, position: int64): seq<int64>
    decreases |Above(rows, position)|
  {
    var f := Fetch(rows, position);
    if f == [] then [position]
    else
      NextAbove(rows, position);
      [position] + Positions(rows, NextPosition(position, f))
  }

  /** The checkpoint the loop ends with. */
  function FinalPosition(rows: SortedRows, position: int64): int64
    decreases |Above(rows, position)|
  {
    var f := Fetch(rows, position);
    if f == [] then position
    else
      NextAbove(rows, position);
      FinalPosition(rows, NextPosition(position, f))
  }

  /** The batches, in order, are exactly the rows above the starting
      position: each exported once, none skipped; every batch holds 1 to 500 rows. */
  lemma BatchesComplete(rows: SortedRows, position: int64)
    ensures Flatten(Batches(rows, position)) == Above(rows, position)
    ensures forall i :: 0 <= i < |Batches(rows, position)| ==> 1 <= |Batches(rows, position)[i]| <= SqlBatchSize
  {
    BatchesFlatten(rows, position);
    BatchesSizes(rows, position);
  }

  lemma {:induction false} BatchesFlatten(rows: SortedRows, position: int64)
    ensures Flatten(Batches(rows, position)) == Above(rows, position)
    decreases |Above(rows, position)|
  {
    var f := Fetch(rows, position);
    FetchShape(rows, position);
    if f != [] {
      NextAbove(rows, position);
      var next := NextPosition(position, f);
      BatchesFlatten(rows, next);
      var a := Above(rows, position);
      var bs := Batches(rows, position);
      assert bs[0] == f && bs[1..] == Batches(rows, next);
      assert Flatten(bs) == f + Flatten(Batches(rows, next));
      assert a == a[..|f|] + a[|f|..];
    }
  }

  lemma {:induction false} BatchesSizes(rows: SortedRows, position: int64)
    ensures forall i :: 0 <= i < |Batches(rows, position)| ==> 1 <= |Batches(rows, position)[i]| <= SqlBatchSize
    decreases |Above(rows, position)|
  {
    var f := Fetch(rows, position);
    FetchShape(rows, position);
    if f != [] {
      NextAbove(rows, position);
      var next := NextPosition(position, f);
      BatchesSizes(rows, next);
      var bs := Batches(rows, position);
      var rest := Batches(rows, next);
      assert bs == [f] + rest;
      forall i | 0 <= i < |bs| ensures 1 <= |bs[i]| <= SqlBatchSize {
        if i > 0 {
          assert bs[i] == rest[i - 1];
        }
      }
    }
  }

  /** The queried positions start at the initial one, strictly increase,
      and end at the final checkpoint, above which no row remains. */
  lemma PositionsIncrease(rows: SortedRows, position: int64)
    ensures var ps := Positions(rows, position);
      && ps[0] == position
      && (forall i, j :: 0 <= i < j < |ps| ==> ps[i] < ps[j])
      && ps[|ps| - 1] == FinalPosition(rows, position)
      && |ps| == |Batches(rows, position)| + 1
    ensures Above(rows, FinalPosition(rows, position)) == []
    ensures FinalPosition(rows, position) >= position
  {
    PositionsShape(rows, position);
    PositionsStrict(rows, position);
    FinalShape(rows, position);
  }

  lemma {:induction false} PositionsShape(rows: SortedRows, position: int64)
    ensures var ps := Positions(rows, position);
      && |ps| == |Batches(rows, position)| + 1
      && ps[0] == position
      && ps[|ps| - 1] == FinalPosition(rows, position)
    decreases |Above(rows, position)|
  {
    var f := Fetch(rows, position);
    if f != [] {
      NextAbove(rows, position);
      PositionsShape(rows, NextPosition(position, f));
    }
  }

  lemma {:induction false} PositionsStrict(rows: SortedRows, position: int64)
    ensures forall i, j :: 0 <= i < j < |Positions(rows, position)| ==>
      Positions(rows, position)[i] < Positions(rows, position)[j]
    decreases |Above(rows, position)|
  {
    var f := Fetch(rows, position);
    if f != [] {
      NextAbove(rows, position);
      var next := NextPosition(position, f);
      PositionsStrict(rows, next);
      PositionsShape(rows, next);
      assert Positions(rows, position) == [position] + Positions(rows, next);
      StrictCons(position, Positions(rows, next));
    }
  }

  /** A value below the head of a strictly ascending sequence extends it. */
  lemma StrictCons(x: int64, qs: seq<int64>)
    requires qs != [] && x < qs[0]
    requires forall i, j :: 0 <= i < j < |qs| ==> qs[i] < qs[j]
    ensures forall i, j :: 0 <= i < j < |[x] + qs| ==> ([x] + qs)[i] < ([x] + qs)[j]
  {
    var ps := [x] + qs;
    forall i, j | 0 <= i < j < |ps| ensures ps[i] < ps[j] {
      assert ps[j] == qs[j - 1];
      if i > 0 {
        assert ps[i] == qs[i - 1];
      }
    }
  }

  lemma {:induction false} FinalShape(rows: SortedRows, position: int64)
    ensures Above(rows, FinalPosition(rows, position)) == []
    ensures FinalPosition(rows, position) >= position
    decreases |Above(rows, position)|
  {
    var f := Fetch(rows, position);
    FetchShape(rows, position);
    if f != [] {
      NextAbove(rows, position);
      FinalShape(rows, NextPosition(position, f));
    }
  }

  /** The final checkpoint is the largest cursor above the starting position,
      or the starting position itself when there is none. */
  lemma {:induction false} FinalIsLargest(rows: SortedRows, position: int64)
    ensures var a := Above(rows, position);
      FinalPosition(rows, position) == if a == [] then position else CursorOf(a[|a| - 1])
    decreases |Above(rows, position)|
  {
    var f := Fetch(rows, position);
    FetchShape(rows, position);
    if f != [] {
      NextAbove(rows, position);
      var next := NextPosition(position, f);
      FinalIsLargest(rows, next);
      var a := Above(rows, position);
      BatchMaxAscending(f);
      if Above(rows, next) == [] {
        assert |f| == |a|;
      }
    }
  }

  /** The table as the pipeline sees it. `cursors` is the trace of the
      `@cursor` of every query issued; a query fails when its ordinal is in
      `faults`. The table does not change while the pipeline runs. */
  class SqlSource {
    const rows: SortedRows
    var cursors: seq<int64>
    const faults: set<nat>

    constructor (rows: SortedRows, faults: set<nat>)
      ensures this.rows == rows && cursors == [] && this.faults == faults
    {
      this.rows, cursors, this.faults := rows, [], faults;
    }

    /** `QueryAsync` of the cursor-paged statement with `@cursor` bound to `cursor`. */
    method Query(cursor: int64) returns (r: Option<seq<Row>>)
      modifies this`cursors
      ensures cursors == old(cursors) + [cursor]
      ensures r.Some? <==> |old(cursors)| !in faults
      ensures r.Some? ==> r.value == Fetch(rows, cursor)
    {
      r := if |cursors| in faults then None else Some(Fetch(rows, cursor));
      cursors := cursors + [cursor];
    }
  }
}
