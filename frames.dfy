/**
 * The part of a pandas DataFrame that the ETL relies on: an ordered list of
 * column names and a sequence of rows, each row mapping every column name to
 * a cell.  Index labels, dtypes and alignment are not modelled.
 */
module Frames {

  /** A cell as read_csv leaves it: a missing value (NaN), a text, or a number. */
  datatype Cell = Null | Str(text: string) | Num(value: real)

  type Row = map<string, Cell>

  datatype Frame = Frame(columns: seq<string>, rows: seq<Row>)

  function ColumnSet(df: Frame): set<string>
  {
    set c | c in df.columns
  }

  /** Column names are distinct and every row has exactly the frame's columns. */
  predicate WellFormed(df: Frame)
  {
    (forall i, j :: 0 <= i < j < |df.columns| ==> df.columns[i] != df.columns[j]) &&
    (forall i :: 0 <= i < |df.rows| ==> df.rows[i].Keys == ColumnSet(df))
  }

  /** `df[c]`: the cells of column `c`, top to bottom. */
  function Column(df: Frame, c: string): (col: seq<Cell>)
    requires WellFormed(df) && c in df.columns
  {
    assert c in ColumnSet(df);
    seq(|df.rows|, i requires 0 <= i < |df.rows| => df.rows[i][c])
  }

  /** A column of `n` copies of one value (pandas broadcasting a scalar). */
  function Constant(n: nat, v: Cell): (col: seq<Cell>)
  {
    seq(n, _ => v)
  }

  /**
   * `df[c] = vals`: an existing column is overwritten where it stands, a new
   * one is appended at the end; every row gets its cell of `vals`.
   */
  function SetColumn(df: Frame, c: string, vals: seq<Cell>): (r: Frame)
    requires WellFormed(df) && |vals| == |df.rows|
    ensures WellFormed(r)
    ensures r.columns == if c in df.columns then df.columns else df.columns + [c]
    ensures |r.rows| == |df.rows|
    ensures forall i :: 0 <= i < |r.rows| ==> r.rows[i] == df.rows[i][c := vals[i]]
  {
    var cols := if c in df.columns then df.columns else df.columns + [c];
    var r := Frame(cols, seq(|df.rows|, i requires 0 <= i < |df.rows| => df.rows[i][c := vals[i]]));
    assert ColumnSet(r) == ColumnSet(df) + {c};
    r
  }
}
