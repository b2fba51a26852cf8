/**
 * The in-memory table (a pandas DataFrame) as far as the dashboard looks at
 * it: an ordered list of column names and rows of scalar cells.
 */
module Frame {
  import opened Wrappers

  /** A scalar cell as read from the store or a spreadsheet. */
  datatype Cell = Integer(i: int) | Real(x: real) | Text(s: string) | Null

  /** A cell that a numeric column may hold: a number, or a missing value. */
  predicate IsNumericCell(c: Cell) {
    c.Integer? || c.Real? || c.Null?
  }

  /** What a cell adds to a column sum; a missing value adds nothing. */
  function Value(c: Cell): real {
    match c
    case Integer(i) => i as real
    case Real(x) => x
    case _ => 0.0
  }

  datatype Table = Table(columns: seq<string>, rows: seq<seq<Cell>>)

  predicate Rectangular(t: Table) {
    forall i :: 0 <= i < |t.rows| ==> |t.rows[i]| == |t.columns|
  }

  predicate DistinctColumns(columns: seq<string>) {
    forall i, j :: 0 <= i < j < |columns| ==> columns[i] != columns[j]
  }

  /**
   * Every row has one cell per column, and column names are unique: a table
   * read from SQLite cannot repeat a column name, and the spreadsheet reader
   * renames repeated headers.
   */
  predicate WellFormed(t: Table) {
    Rectangular(t) && DistinctColumns(t.columns)
  }

  type DataFrame = t: Table | WellFormed(t) witness Table([], [])

  /** `pd.DataFrame()`: no columns and no rows. */
  const EmptyFrame: DataFrame := Table([], [])

  /** pandas' `df.empty`: true when either axis has length zero, so the frame holds no cell. */
  predicate IsEmpty(df: DataFrame): (empty: bool)
    ensures empty <==> |df.rows| * |df.columns| == 0
  {
    |df.rows| == 0 || |df.columns| == 0
  }

  /** The position of `name` among `columns`, found by a scan from the left. */
  function IndexOf(columns: seq<string>, name: string): (r: Option<nat>)
    ensures r.None? <==> name !in columns
    ensures r.Some? ==> r.value < |columns| && columns[r.value] == name && name !in columns[..r.value]
  {
    if columns == [] then None
    else if columns[0] == name then Some(0)
    else
      match IndexOf(columns[1..], name)
      case None => None
      case Some(k) =>
        assert columns[1..][..k] == columns[1..k + 1];
        Some(k + 1)
  }

  /** With unique names, the scan finds the one column that carries the name. */
  lemma IndexOfUnique(columns: seq<string>, name: string, j: nat)
    requires DistinctColumns(columns)
    requires j < |columns| && columns[j] == name
    ensures IndexOf(columns, name) == Some(j)
  {
  }

  /** `df[columns[j]]`: the j-th cell of every row, in row order. */
  function Column(rows: seq<seq<Cell>>, j: nat): (cells: seq<Cell>)
    requires forall i :: 0 <= i < |rows| ==> j < |rows[i]|
    ensures |cells| == |rows| && forall i :: 0 <= i < |rows| ==> cells[i] == rows[i][j]
  {
    seq(|rows|, i requires 0 <= i < |rows| => rows[i][j])
  }

  /** `is_numeric_dtype`: every non-missing cell of the column is a number. */
  predicate IsNumericColumn(cells: seq<Cell>): (numeric: bool)
    ensures numeric <==> forall i :: 0 <= i < |cells| ==> !cells[i].Text?
  {
    forall i :: 0 <= i < |cells| ==> IsNumericCell(cells[i])
  }

  /** `Series.sum()`: the sum of the values, missing values skipped. */
  function Sum(cells: seq<Cell>): (total: real)
    ensures (forall i :: 0 <= i < |cells| ==> Value(cells[i]) == 0.0) ==> total == 0.0
    ensures (forall i :: 0 <= i < |cells| ==> Value(cells[i]) >= 0.0) ==> total >= 0.0
  {
    if cells == [] then 0.0 else Sum(cells[..|cells| - 1]) + Value(cells[|cells| - 1])
  }

  lemma {:induction false} SumAppend(a: seq<Cell>, b: seq<Cell>)
    ensures Sum(a + b) == Sum(a) + Sum(b)
    decreases |b|
  {
    if b == [] {
      assert a + b == a;
    } else {
      var b' := b[..|b| - 1];
      assert (a + b)[..|a + b| - 1] == a + b';
      SumAppend(a, b');
    }
  }

  /** Missing cells contribute nothing to a column sum, wherever they stand. */
  lemma NullAddsNothing(a: seq<Cell>, b: seq<Cell>)
    ensures Sum(a + [Null] + b) == Sum(a + b)
  {
    SumAppend(a + [Null], b);
    SumAppend(a, b);
    assert (a + [Null])[..|a|] == a;
  }

  lemma NumericConcat(a: seq<Cell>, b: seq<Cell>)
    ensures IsNumericColumn(a + b) <==> IsNumericColumn(a) && IsNumericColumn(b)
  {
    if IsNumericColumn(a + b) {
      assert forall i :: 0 <= i < |a| ==> a[i] == (a + b)[i];
      assert forall i :: 0 <= i < |b| ==> b[i] == (a + b)[|a| + i];
    }
  }

  lemma ColumnConcat(upper: seq<seq<Cell>>, lower: seq<seq<Cell>>, j: nat)
    requires forall i :: 0 <= i < |upper| ==> j < |upper[i]|
    requires forall i :: 0 <= i < |lower| ==> j < |lower[i]|
    ensures forall i :: 0 <= i < |upper + lower| ==> j < |(upper + lower)[i]|
    ensures Column(upper + lower, j) == Column(upper, j) + Column(lower, j)
  {
    var rows := upper + lower;
    assert forall i :: 0 <= i < |rows| ==> rows[i] == if i < |upper| then upper[i] else lower[i - |upper|];
  }

  /** Stacking the rows of two tables with the same columns keeps the table well formed. */
  lemma StackedWellFormed(top: DataFrame, bottom: DataFrame)
    requires top.columns == bottom.columns
    ensures WellFormed(Table(top.columns, top.rows + bottom.rows))
  {
    var rows := top.rows + bottom.rows;
    assert forall i :: 0 <= i < |rows| ==> rows[i] == if i < |top.rows| then top.rows[i] else bottom.rows[i - |top.rows|];
  }

  /**
   * Stacking the rows of two tables with the same columns (the shape an
   * appended import produces) adds their column sums, and the stacked column
   * is numeric exactly when both parts are.
   */
  lemma StackedColumn(top: DataFrame, bottom: DataFrame, j: nat)
    requires top.columns == bottom.columns && j < |top.columns|
    ensures WellFormed(Table(top.columns, top.rows + bottom.rows))
    ensures Sum(Column(top.rows + bottom.rows, j)) == Sum(Column(top.rows, j)) + Sum(Column(bottom.rows, j))
    ensures IsNumericColumn(Column(top.rows + bottom.rows, j))
      <==> IsNumericColumn(Column(top.rows, j)) && IsNumericColumn(Column(bottom.rows, j))
  {
    StackedWellFormed(top, bottom);
    assert Rectangular(top) && Rectangular(bottom);
    ColumnConcat(top.rows, bottom.rows, j);
    var upper, lower := Column(top.rows, j), Column(bottom.rows, j);
    SumAppend(upper, lower);
    NumericConcat(upper, lower);
  }
}
