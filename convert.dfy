/**
 * ColumnConverter: `convert_to_number` rewrites, in the caller's own rows,
 * every cell of one column that passes `valid_number` with its numeric value,
 * and returns how many cells it rewrote. It is the library's one in-place
 * operation: the rows are mutable arrays, the outer list is not changed.
 */
module ColumnConverter {
  import opened Cells
  import opened NumberValidator

  /** The row after converting its cell at `col` (rows too short for `col` stay as they are). */
  function ConvertRow(row: seq<Cell>, col: int): (r: seq<Cell>)
    ensures |r| == |row|
    ensures forall j | 0 <= j < |row| && j != col :: r[j] == row[j]
    ensures 0 <= col < |row| ==> r[col] == Coerce(row[col])
  {
    if 0 <= col < |row| then row[col := Coerce(row[col])] else row
  }

  /** The whole table after the conversion of column `col`. */
  function ConvertColumn(rows: seq<seq<Cell>>, col: int): (r: seq<seq<Cell>>)
    ensures |r| == |rows|
    ensures forall i | 0 <= i < |rows| :: r[i] == ConvertRow(rows[i], col)
  {
    seq(|rows|, i requires 0 <= i < |rows| => ConvertRow(rows[i], col))
  }

  /** Whether row `row` has a cell at `col` that `valid_number` accepts. */
  predicate Convertible(row: seq<Cell>, col: int) {
    0 <= col < |row| && ValidNumber(row[col])
  }

  /** How many rows have a convertible cell at `col`. */
  function CountConvertible(rows: seq<seq<Cell>>, col: int): (n: nat)
    ensures n <= |rows|
  {
    if rows == [] then 0
    else CountConvertible(rows[..|rows| - 1], col) + (if Convertible(rows[|rows| - 1], col) then 1 else 0)
  }

  /** The current contents of the rows. */
  ghost function Snapshot(table: seq<array<Cell>>): (r: seq<seq<Cell>>)
    reads set i | 0 <= i < |table| :: table[i]
    ensures |r| == |table| && forall i | 0 <= i < |table| :: r[i] == table[i][..]
  {
    seq(|table|, i requires 0 <= i < |table| reads set j | 0 <= j < |table| :: table[j] => table[i][..])
  }

  /** Counting one more row adds one exactly when that row is convertible. */
  lemma CountStep(rows: seq<seq<Cell>>, i: nat, col: int)
    requires i < |rows|
    ensures CountConvertible(rows[..i + 1], col)
         == CountConvertible(rows[..i], col) + (if Convertible(rows[i], col) then 1 else 0)
  {
    assert rows[..i + 1][..i] == rows[..i];
  }

  /** Coerces the cell of `row` at `col` in place, if there is one; reports whether it passed `valid_number`. */
  method ConvertCell(row: array<Cell>, col: int) returns (converted: bool)
    modifies row
    ensures row[..] == ConvertRow(old(row[..]), col)
    ensures converted == Convertible(old(row[..]), col)
  {
    converted := 0 <= col < row.Length && ValidNumber(row[col]);
    if converted {
      row[col] := Coerce(row[col]);
    }
  }

  /**
   * The loop state of `convert_to_number` at row `i`: every row holds its
   * converted contents, except that rows from `i` on may still hold their
   * original contents.
   */
  ghost predicate ConvertedUpTo(table: seq<array<Cell>>, before: seq<seq<Cell>>, col: int, i: int)
    requires |before| == |table|
    reads set k | 0 <= k < |table| :: table[k]
  {
    forall k | 0 <= k < |table| :: table[k][..] == ConvertRow(before[k], col) || (i <= k && table[k][..] == before[k])
  }

  /**
   * One step of `convert_to_number`: converts row `i`, and so every other
   * entry of the table that is the same row object.
   */
  method ConvertAt(table: seq<array<Cell>>, col: int, i: int, ghost before: seq<seq<Cell>>) returns (converted: bool)
    requires 0 <= i < |table| && |before| == |table|
    requires ConvertedUpTo(table, before, col, i)
    modifies table[i]
    ensures ConvertedUpTo(table, before, col, i + 1)
    ensures converted == Convertible(before[i], col)
  {
    converted := ConvertCell(table[i], col);
    ConvertRowAgain(before[i], col);
    forall k | 0 <= k < |table|
      ensures table[k][..] == ConvertRow(before[k], col) || (i + 1 <= k && table[k][..] == before[k])
    {
      ConvertRowAgain(before[k], col);
      if table[k] != table[i] {
        assert table[k][..] == old(table[k][..]);
      }
    }
  }

  /**
   * `convert_to_number(table, col)`: coerces column `col` of every row in
   * place and returns the number of cells coerced. A negative or
   * out-of-range column converts nothing. The same row object may appear
   * more than once in the table; converting it again changes nothing.
   */
  method ConvertToNumber(table: seq<array<Cell>>, col: int) returns (count: nat)
    modifies set i | 0 <= i < |table| :: table[i]
    ensures Snapshot(table) == ConvertColumn(old(Snapshot(table)), col)
    ensures count == CountConvertible(old(Snapshot(table)), col)
  {
    ghost var before := Snapshot(table);
    count := 0;
    var i := 0;
    while i < |table|
      invariant 0 <= i <= |table|
      invariant ConvertedUpTo(table, before, col, i)
      invariant count == CountConvertible(before[..i], col)
    {
      CountStep(before, i, col);
      var converted := ConvertAt(table, col, i, before);
      if converted {
        count := count + 1;
      }
      i := i + 1;
    }
    assert before[..|table|] == before;
  }

  /** Converting an already converted row changes nothing and keeps its convertibility. */
  lemma ConvertRowAgain(row: seq<Cell>, col: int)
    ensures ConvertRow(ConvertRow(row, col), col) == ConvertRow(row, col)
    ensures Convertible(ConvertRow(row, col), col) == Convertible(row, col)
  {
  }

  /**
   * After the conversion a cell of column `col` holds a number exactly when
   * it passed `valid_number`, and then it holds the coerced value; text that
   * did not pass is kept as it was.
   */
  lemma ConvertedColumnCells(rows: seq<seq<Cell>>, col: int, i: nat)
    requires i < |rows| && 0 <= col < |rows[i]|
    ensures var cell := ConvertColumn(rows, col)[i][col];
      && (cell.Num? <==> ValidNumber(rows[i][col]))
      && (cell.Num? ==> Some(cell.value) == ToNumber(rows[i][col]))
      && (!cell.Num? ==> cell == rows[i][col])
  {
  }

  /** Converting a column twice is the same as converting it once, and converts as many cells again. */
  lemma ConvertColumnIdempotent(rows: seq<seq<Cell>>, col: int)
    ensures ConvertColumn(ConvertColumn(rows, col), col) == ConvertColumn(rows, col)
    ensures CountConvertible(ConvertColumn(rows, col), col) == CountConvertible(rows, col)
  {
    forall i | 0 <= i < |rows|
      ensures ConvertRow(ConvertRow(rows[i], col), col) == ConvertRow(rows[i], col)
    {
      ConvertRowAgain(rows[i], col);
    }
    CountAfterConvert(rows, col);
  }

  /** The converted column has its convertible cells in the same rows as before. */
  lemma {:induction false} CountAfterConvert(rows: seq<seq<Cell>>, col: int)
    ensures CountConvertible(ConvertColumn(rows, col), col) == CountConvertible(rows, col)
  {
    if rows != [] {
      var init := rows[..|rows| - 1];
      CountAfterConvert(init, col);
      assert ConvertColumn(rows, col)[..|rows| - 1] == ConvertColumn(init, col);
      ConvertRowAgain(rows[|rows| - 1], col);
    }
  }

  /** How many rows hold a number at `col`. */
  function CountNumeric(rows: seq<seq<Cell>>, col: int): (n: nat)
    ensures n <= |rows|
  {
    if rows == [] then 0
    else CountNumeric(rows[..|rows| - 1], col) + (if 0 <= col < |rows[|rows| - 1]| && rows[|rows| - 1][col].Num? then 1 else 0)
  }

  /** The count returned is the number of column cells that hold a number afterwards. */
  lemma {:induction false} CountIsNumericAfter(rows: seq<seq<Cell>>, col: int)
    ensures CountConvertible(rows, col) == CountNumeric(ConvertColumn(rows, col), col)
  {
    if rows != [] {
      var init := rows[..|rows| - 1];
      CountIsNumericAfter(init, col);
      assert ConvertColumn(rows, col)[..|rows| - 1] == ConvertColumn(init, col);
    }
  }

  /** Nothing is counted exactly when no row has a convertible cell at `col`; then nothing changes. */
  lemma {:induction false} NothingConverted(rows: seq<seq<Cell>>, col: int)
    ensures CountConvertible(rows, col) == 0 <==> forall i | 0 <= i < |rows| :: !Convertible(rows[i], col)
    ensures CountConvertible(rows, col) == 0 ==> ConvertColumn(rows, col) == rows
  {
    if rows != [] {
      var init := rows[..|rows| - 1];
      NothingConverted(init, col);
      assert forall i | 0 <= i < |init| :: init[i] == rows[i];
    }
    if CountConvertible(rows, col) == 0 {
      forall i | 0 <= i < |rows|
        ensures ConvertColumn(rows, col)[i] == rows[i]
      {
        UnconvertibleRowUnchanged(rows[i], col);
      }
    }
  }

  /** A row without a convertible cell at `col` is left as it is. */
  lemma UnconvertibleRowUnchanged(row: seq<Cell>, col: int)
    requires !Convertible(row, col)
    ensures ConvertRow(row, col) == row
  {
  }

  /** A negative column, or one beyond every row, converts nothing and changes nothing. */
  lemma OutOfRangeColumn(rows: seq<seq<Cell>>, col: int)
    requires col < 0 || forall i | 0 <= i < |rows| :: col >= |rows[i]|
    ensures CountConvertible(rows, col) == 0
    ensures ConvertColumn(rows, col) == rows
  {
    NothingConverted(rows, col);
  }
}
