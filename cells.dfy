/**
 * The values the tabular-data library works on: cells, tables, and the
 * loosely typed arguments of the functions that must reject a wrong shape.
 */
module Cells {

  /** The library's absence marker (Python's `None` as a result). */
  datatype Option<T> = None | Some(value: T)

  /** A table entry: a number (kept exact) or a piece of text. */
  datatype Cell = Num(value: real) | Text(text: string)

  /** A 2-D list: at least one row, each row a list of cells. */
  type Table = rows: seq<seq<Cell>> | |rows| > 0 witness [[]]

  /**
   * An argument whose shape is checked by the callee: Python's `None`,
   * a string, a 1-D list of cells (the empty list included) or a 2-D list.
   */
  datatype Data = Null | Str(s: string) | Flat(cells: seq<Cell>) | Grid(rows: Table)

  /** The wildcard filter value of `create_slice`. */
  const Wildcard: Cell := Text("*")
}
