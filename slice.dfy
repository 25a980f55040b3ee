/**
 * Slicer: `create_slice` keeps the rows whose filter column equals a value
 * (every row, the first included, for the wildcard `"*"`) and projects each
 * kept row onto a list of column indices, in the order given. It builds a new
 * table and leaves its arguments as they were.
 */
module Slicer {
  import opened Cells

  /** Whether the filter keeps `row`: the wildcard keeps every row, no cell is compared. */
  predicate Keeps(row: seq<Cell>, filterCol: int, value: Cell)
    ensures value == Wildcard ==> Keeps(row, filterCol, value)
    ensures value != Wildcard && Keeps(row, filterCol, value) ==> 0 <= filterCol < |row| && row[filterCol] == value
  {
    value == Wildcard || (0 <= filterCol < |row| && row[filterCol] == value)
  }

  /** The rows the filter keeps, in table order. */
  function KeptRows(table: seq<seq<Cell>>, filterCol: int, value: Cell): (r: seq<seq<Cell>>)
    ensures |r| <= |table|
    ensures forall j | 0 <= j < |r| :: Keeps(r[j], filterCol, value)
  {
    if table == [] then []
    else
      var rest := KeptRows(table[1..], filterCol, value);
      if Keeps(table[0], filterCol, value) then
        assert forall j | 0 < j < 1 + |rest| :: ([table[0]] + rest)[j] == rest[j - 1];
        [table[0]] + rest
      else rest
  }

  /** Every selected column exists in `row`. */
  predicate InRange(row: seq<Cell>, cols: seq<int>) {
    forall k | 0 <= k < |cols| :: 0 <= cols[k] < |row|
  }

  /** Every selected column exists in each of `rows`. */
  predicate AllInRange(rows: seq<seq<Cell>>, cols: seq<int>) {
    forall j | 0 <= j < |rows| :: InRange(rows[j], cols)
  }

  /** The cells of `row` at `cols`, in the order of `cols` (repeats allowed). */
  function Project(row: seq<Cell>, cols: seq<int>): (r: seq<Cell>)
    requires InRange(row, cols)
    ensures |r| == |cols|
    ensures forall k | 0 <= k < |cols| :: r[k] == row[cols[k]]
  {
    seq(|cols|, k requires 0 <= k < |cols| => row[cols[k]])
  }

  /**
   * `create_slice(table, filterCol, value, selectCols)`: the kept rows, each
   * projected onto `selectCols` (kept whole when the columns are omitted).
   * `None` when a kept row lacks a selected column.
   */
  function CreateSlice(table: seq<seq<Cell>>, filterCol: int, value: Cell, selectCols: Option<seq<int>>)
    : (r: Option<seq<seq<Cell>>>)
    ensures r.Some? <==> selectCols.None? || AllInRange(KeptRows(table, filterCol, value), selectCols.value)
    ensures r.Some? ==> |r.value| == |KeptRows(table, filterCol, value)|
    ensures r.Some? && selectCols.Some? ==> forall j | 0 <= j < |r.value| :: |r.value[j]| == |selectCols.value|
  {
    var kept := KeptRows(table, filterCol, value);
    match selectCols
    case None => Some(kept)
    case Some(cols) =>
      if AllInRange(kept, cols)
      then Some(seq(|kept|, j requires 0 <= j < |kept| => Project(kept[j], cols)))
      else None
  }

  /** Filtering a table laid end to end is filtering each part: input order is kept. */
  lemma {:induction false} KeptRowsAppend(a: seq<seq<Cell>>, b: seq<seq<Cell>>, filterCol: int, value: Cell)
    ensures KeptRows(a + b, filterCol, value) == KeptRows(a, filterCol, value) + KeptRows(b, filterCol, value)
  {
    if a == [] {
      assert a + b == b;
    } else {
      assert (a + b)[1..] == a[1..] + b;
      KeptRowsAppend(a[1..], b, filterCol, value);
    }
  }

  /** A single row is kept exactly when its filter cell equals the value (or the value is the wildcard). */
  lemma KeptRowsOfRow(row: seq<Cell>, filterCol: int, value: Cell)
    ensures KeptRows([row], filterCol, value) == if Keeps(row, filterCol, value) then [row] else []
  {
    assert [row][1..] == [];
  }

  /** No matching row is lost. */
  lemma {:induction false} KeptRowsComplete(table: seq<seq<Cell>>, filterCol: int, value: Cell, i: nat)
    requires i < |table| && Keeps(table[i], filterCol, value)
    ensures table[i] in KeptRows(table, filterCol, value)
  {
    if i > 0 {
      KeptRowsComplete(table[1..], filterCol, value, i - 1);
    }
  }

  /** The wildcard keeps the whole table, its first row included. */
  lemma {:induction false} WildcardKeepsAll(table: seq<seq<Cell>>, filterCol: int)
    ensures KeptRows(table, filterCol, Wildcard) == table
  {
    if table != [] {
      WildcardKeepsAll(table[1..], filterCol);
    }
  }

  /**
   * With the wildcard, the slice is every row of the table projected onto
   * the selected columns, row for row.
   */
  lemma WildcardSlice(table: seq<seq<Cell>>, filterCol: int, cols: seq<int>)
    requires AllInRange(table, cols)
    ensures var r := CreateSlice(table, filterCol, Wildcard, Some(cols));
      && r.Some? && |r.value| == |table|
      && forall i | 0 <= i < |table| :: r.value[i] == Project(table[i], cols)
  {
    WildcardKeepsAll(table, filterCol);
  }

  /**
   * Each output row holds, at position `k`, the cell of its source row at
   * `cols[k]`; where the filter column is selected, that cell is the filter
   * value itself.
   */
  lemma SliceCells(table: seq<seq<Cell>>, filterCol: int, value: Cell, cols: seq<int>)
    requires CreateSlice(table, filterCol, value, Some(cols)).Some?
    ensures var out := CreateSlice(table, filterCol, value, Some(cols)).value;
      var kept := KeptRows(table, filterCol, value);
      && (forall j, k | 0 <= j < |out| && 0 <= k < |cols| :: out[j][k] == kept[j][cols[k]])
      && (value != Wildcard ==>
            forall j, k | 0 <= j < |out| && 0 <= k < |cols| && cols[k] == filterCol :: out[j][k] == value)
  {
  }

  /** Slicing a table laid end to end gives the two slices end to end. */
  lemma SliceAppend(a: seq<seq<Cell>>, b: seq<seq<Cell>>, filterCol: int, value: Cell, cols: seq<int>)
    requires CreateSlice(a, filterCol, value, Some(cols)).Some?
    requires CreateSlice(b, filterCol, value, Some(cols)).Some?
    ensures CreateSlice(a + b, filterCol, value, Some(cols))
         == Some(CreateSlice(a, filterCol, value, Some(cols)).value + CreateSlice(b, filterCol, value, Some(cols)).value)
  {
    KeptRowsAppend(a, b, filterCol, value);
    var ka, kb := KeptRows(a, filterCol, value), KeptRows(b, filterCol, value);
    assert AllInRange(ka + kb, cols);
    var pa := seq(|ka|, j requires 0 <= j < |ka| => Project(ka[j], cols));
    var pb := seq(|kb|, j requires 0 <= j < |kb| => Project(kb[j], cols));
    var pab := seq(|ka + kb|, j requires 0 <= j < |ka + kb| => Project((ka + kb)[j], cols));
    assert pab == pa + pb;
  }
}
