/**
 * ShapeInspector and Reshaper: `data_dimensions` reports the shape of a 2-D
 * list (or of a 1-D list read as one row); `flatten` turns a single-column
 * 2-D list into the 1-D list of its cells.
 */
module Shape {
  import opened Cells

  /**
   * `data_dimensions`: `[rows, length of the first row]` for a 2-D list,
   * `[1, length]` for a non-empty 1-D list, `None` for `None`, a string or
   * the empty list.
   */
  function DataDimensions(d: Data): (r: Option<seq<nat>>)
    ensures r.None? <==> d.Null? || d.Str? || d == Flat([])
    ensures r.Some? ==> |r.value| == 2 && r.value[0] >= 1
    ensures d.Flat? && r.Some? ==> r.value == [1, |d.cells|]
    ensures d.Grid? ==> r == Some([|d.rows|, |d.rows[0]|])
  {
    match d
    case Grid(rows) => Some([|rows|, |rows[0]|])
    case Flat(cells) => if cells == [] then None else Some([1, |cells|])
    case _ => None
  }

  /** Every row has the length of the first. */
  predicate Rectangular(t: Table) {
    forall i | 0 <= i < |t| :: |t[i]| == |t[0]|
  }

  /** How many cells the rows hold together. */
  function CellCount(rows: seq<seq<Cell>>): nat {
    if rows == [] then 0 else |rows[0]| + CellCount(rows[1..])
  }

  /** The single-column table whose rows hold the given cells, one each. */
  function Column(cells: seq<Cell>): (t: Table)
    requires |cells| > 0
    ensures |t| == |cells| && forall i | 0 <= i < |t| :: t[i] == [cells[i]]
  {
    seq(|cells|, i requires 0 <= i < |cells| => [cells[i]])
  }

  /**
   * `flatten`: the cells of a 2-D list whose rows each hold exactly one cell,
   * in row order; `None` for a 1-D list, a wider (or empty) row, or any
   * other argument.
   */
  function Flatten(d: Data): (r: Option<seq<Cell>>)
    ensures r.Some? <==> d.Grid? && forall i | 0 <= i < |d.rows| :: |d.rows[i]| == 1
    ensures r.Some? ==> |r.value| == |d.rows|
  {
    match d
    case Grid(rows) =>
      if forall i | 0 <= i < |rows| :: |rows[i]| == 1
      then Some(seq(|rows|, i requires 0 <= i < |rows| => rows[i][0]))
      else None
    case _ => None
  }

  /** A rectangular table holds `rows * columns` cells, as reported by `DataDimensions`. */
  lemma {:induction false} RectangularCellCount(t: Table)
    requires Rectangular(t)
    ensures var dims := DataDimensions(Grid(t)).value;
      CellCount(t) == dims[0] * dims[1]
  {
    RowsOfWidth(t, |t[0]|);
  }

  lemma {:induction false} RowsOfWidth(rows: seq<seq<Cell>>, w: nat)
    requires forall i | 0 <= i < |rows| :: |rows[i]| == w
    ensures CellCount(rows) == |rows| * w
  {
    if rows != [] {
      RowsOfWidth(rows[1..], w);
    }
  }

  /** Flattening the column built from non-empty cells gives the cells back. */
  lemma FlattenColumn(cells: seq<Cell>)
    requires |cells| > 0
    ensures Flatten(Grid(Column(cells))) == Some(cells)
  {
    var t := Column(cells);
    assert forall i | 0 <= i < |t| :: |t[i]| == 1;
    assert Flatten(Grid(t)) == Some(seq(|t|, i requires 0 <= i < |t| => t[i][0]));
    assert seq(|t|, i requires 0 <= i < |t| => t[i][0]) == cells;
  }

  /** Whatever `Flatten` accepts is exactly the column of its result. */
  lemma ColumnOfFlatten(d: Data)
    requires Flatten(d).Some?
    ensures |Flatten(d).value| > 0 && d == Grid(Column(Flatten(d).value))
  {
    var cells := Flatten(d).value;
    assert forall i | 0 <= i < |d.rows| :: d.rows[i] == [d.rows[i][0]];
  }

  /**
   * Flattening transposes the reported shape: an n-by-1 table becomes a
   * 1-D list of shape 1-by-n.
   */
  lemma FlattenTransposesDimensions(d: Data)
    requires Flatten(d).Some?
    ensures DataDimensions(d) == Some([|d.rows|, 1])
    ensures DataDimensions(Flat(Flatten(d).value)) == Some([1, |d.rows|])
  {
    assert |d.rows[0]| == 1;
  }
}
