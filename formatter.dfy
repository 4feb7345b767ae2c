/**
 * The formatting pass over the reopened worksheet: the auto-fit of column widths
 * from the length of each cell's str(), and the named table registered over the
 * whole data range.
 */
module Formatter {
  import opened Wrappers
  import opened Tabulator
  import Decimal

  /** str(cell.value); None when the conversion raises. */
  function Str(c: Cell): (r: Option<string>)
    ensures r.None? <==> c.Unprintable?
    ensures c.Empty? ==> r == Some("None")
    ensures c.Text? ==> r == Some(c.s)
    ensures c.Bool? ==> r == Some(if c.b then "True" else "False")
    ensures c.Int? ==> r == Some(Decimal.IntToString(c.i))
  {
    match c
    case Empty => Some("None")
    case Int(i) => Some(Decimal.IntToString(i))
    case Bool(b) => Some(if b then "True" else "False")
    case Text(s) => Some(s)
    case Unprintable => None
  }

  /** The cell takes part in the measurement with length n. */
  predicate Measures(c: Cell, n: nat) {
    Str(c).Some? && |Str(c).value| == n
  }

  /**
   * The running maximum the auto-fit loop keeps, after scanning the cells from
   * first to last: it starts at 0 and a cell whose str() raises leaves it as it is.
   */
  function MaxLen(cells: seq<Cell>): (m: nat)
    ensures forall i :: 0 <= i < |cells| && Str(cells[i]).Some? ==> |Str(cells[i]).value| <= m
    decreases |cells|
  {
    if cells == [] then 0
    else
      var m := MaxLen(cells[..|cells| - 1]);
      match Str(cells[|cells| - 1])
      case None => m
      case Some(t) => if |t| > m then |t| else m
  }

  /**
   * m is the longest str() length among the cells that can be converted, or 0 when
   * none can: no cell is longer, and some cell is that long unless m is 0.
   */
  ghost predicate IsLongest(cells: seq<Cell>, m: nat) {
    && (forall c :: c in cells && Str(c).Some? ==> |Str(c).value| <= m)
    && (m == 0 || exists c :: c in cells && Measures(c, m))
  }

  lemma {:induction false} MaxLenIsLongest(cells: seq<Cell>)
    ensures IsLongest(cells, MaxLen(cells))
  {
    if cells != [] {
      var init, last := cells[..|cells| - 1], cells[|cells| - 1];
      assert cells == init + [last];
      MaxLenIsLongest(init);
      if MaxLen(cells) != MaxLen(init) {
        assert Measures(last, MaxLen(cells));
      } else if MaxLen(init) != 0 {
        var w :| w in init && Measures(w, MaxLen(init));
        assert w in cells;
      }
    }
  }

  lemma LongestIsUnique(cells: seq<Cell>, m: nat, n: nat)
    requires IsLongest(cells, m) && IsLongest(cells, n)
    ensures m == n
  {
  }

  /** The measured length does not depend on the order of the cells. */
  lemma {:induction false} MaxLenPermutation(a: seq<Cell>, b: seq<Cell>)
    requires multiset(a) == multiset(b)
    ensures MaxLen(a) == MaxLen(b)
  {
    MaxLenIsLongest(a);
    MaxLenIsLongest(b);
    forall c | c in b ensures c in a {
      assert c in multiset(b);
    }
    forall c | c in a ensures c in b {
      assert c in multiset(a);
    }
    LongestIsUnique(b, MaxLen(a), MaxLen(b));
  }

  /** A cell whose str() raises is skipped: the running maximum stays as it was. */
  lemma {:induction false} SkippedCellKeepsMax(cells: seq<Cell>, c: Cell)
    requires Str(c).None?
    ensures MaxLen(cells + [c]) == MaxLen(cells)
  {
    assert (cells + [c])[..|cells|] == cells;
  }

  /** An empty cell is measured as str(None) == "None", so it counts as 4, not 0. */
  lemma {:induction false} EmptyCellCountsFour(cells: seq<Cell>)
    requires Empty in cells
    ensures MaxLen(cells) >= 4
  {
    MaxLenIsLongest(cells);
  }

  /** The width set for a column whose longest cell has the given length: padding 2, capped at 50. */
  function Width(maxLength: nat): (w: nat)
    ensures 2 <= w <= 50
    ensures w <= maxLength + 2
    ensures w == maxLength + 2 || w == 50
  {
    if maxLength + 2 < 50 then maxLength + 2 else 50
  }

  /** The inner loop of the auto-fit pass over one column. */
  method LongestText(column: seq<Cell>) returns (maxLength: nat)
    ensures maxLength == MaxLen(column)
    ensures IsLongest(column, maxLength)
  {
    maxLength := 0;
    var i := 0;
    while i < |column|
      invariant 0 <= i <= |column|
      invariant maxLength == MaxLen(column[..i])
    {
      assert column[..i + 1][..i] == column[..i];
      match Str(column[i]) {
        case None =>
        case Some(t) =>
          if |t| > maxLength {
            maxLength := |t|;
          }
      }
      i := i + 1;
    }
    assert column[..i] == column;
    MaxLenIsLongest(column);
  }

  /** A worksheet grid: every row has the same number of columns. */
  ghost predicate Rectangular(grid: seq<seq<Cell>>, ncols: nat) {
    forall r :: 0 <= r < |grid| ==> |grid[r]| == ncols
  }

  /** The cells of column c (counting from 1), top to bottom, header first. */
  function Column(grid: seq<seq<Cell>>, ncols: nat, c: nat): (cells: seq<Cell>)
    requires Rectangular(grid, ncols) && 1 <= c <= ncols
    ensures |cells| == |grid|
    ensures forall r :: 0 <= r < |grid| ==> cells[r] == grid[r][c - 1]
  {
    seq(|grid|, r requires 0 <= r < |grid| => grid[r][c - 1])
  }

  /** The width entry the auto-fit pass writes for every column of the grid. */
  function FittedWidths(grid: seq<seq<Cell>>, ncols: nat): (widths: map<nat, nat>)
    requires Rectangular(grid, ncols)
    ensures forall c: nat :: c in widths <==> 1 <= c <= ncols
    ensures forall c :: c in widths ==> 2 <= widths[c] <= 50
  {
    map c: nat | 1 <= c <= ncols :: Width(MaxLen(Column(grid, ncols, c)))
  }

  /**
   * A column's width is min(L + 2, 50) where L is the longest str() length in that
   * column, header included, however the scan reaches it.
   */
  lemma ColumnWidth(grid: seq<seq<Cell>>, ncols: nat, c: nat, longest: nat)
    requires Rectangular(grid, ncols) && 1 <= c <= ncols
    requires IsLongest(Column(grid, ncols, c), longest)
    ensures FittedWidths(grid, ncols)[c] == if longest + 2 < 50 then longest + 2 else 50
  {
    MaxLenIsLongest(Column(grid, ncols, c));
    LongestIsUnique(Column(grid, ncols, c), longest, MaxLen(Column(grid, ncols, c)));
  }

  /**
   * A column's width depends only on the cells of that column, and not on their
   * order: two grids whose column c holds the same cells get the same width there.
   */
  lemma WidthIsLocal(g: seq<seq<Cell>>, h: seq<seq<Cell>>, ncols: nat, c: nat)
    requires Rectangular(g, ncols) && Rectangular(h, ncols) && 1 <= c <= ncols
    requires multiset(Column(g, ncols, c)) == multiset(Column(h, ncols, c))
    ensures FittedWidths(g, ncols)[c] == FittedWidths(h, ncols)[c]
  {
    MaxLenPermutation(Column(g, ncols, c), Column(h, ncols, c));
  }

  /** A column holding only empty cells gets width 6, because str(None) has length 4. */
  lemma EmptyColumnWidth(grid: seq<seq<Cell>>, ncols: nat, c: nat)
    requires Rectangular(grid, ncols) && 1 <= c <= ncols && |grid| > 0
    requires forall r :: 0 <= r < |grid| ==> grid[r][c - 1] == Empty
    ensures FittedWidths(grid, ncols)[c] == 6
  {
    var cells := Column(grid, ncols, c);
    assert cells[0] == Empty;
    MaxLenIsLongest(cells);
    assert IsLongest(cells, 4);
    LongestIsUnique(cells, 4, MaxLen(cells));
  }

  /** The header row to_excel writes: the column names in order. */
  function HeaderRow(columns: seq<string>): (row: seq<Cell>)
    ensures |row| == |columns|
    ensures forall j :: 0 <= j < |columns| ==> row[j] == Text(columns[j])
  {
    seq(|columns|, j requires 0 <= j < |columns| => Text(columns[j]))
  }

  /**
   * What a written cell reads back as: an empty string is not stored in the
   * workbook, so after reopening it is None, like a missing field.
   */
  function Reload(c: Cell): (r: Cell)
    ensures r != Text("")
    ensures c == Text("") ==> r == Empty
    ensures c != Text("") ==> r == c
  {
    if c == Text("") then Empty else c
  }

  function ReloadRow(row: seq<Cell>): (reloaded: seq<Cell>)
    ensures |reloaded| == |row|
  {
    seq(|row|, j requires 0 <= j < |row| => Reload(row[j]))
  }

  /** The grid of the reopened worksheet: the header row, then one row per table row, every cell reloaded. */
  function SheetGrid(columns: seq<string>, rows: seq<seq<Cell>>): (grid: seq<seq<Cell>>)
    requires Aligned(columns, rows)
    ensures |grid| == |rows| + 1 && Rectangular(grid, |columns|)
  {
    [ReloadRow(HeaderRow(columns))] + seq(|rows|, i requires 0 <= i < |rows| => ReloadRow(rows[i]))
  }

  /** Every cell of a reopened sheet that converts is measured as at least one character. */
  lemma ReloadedCellMeasuresPositive(c: Cell)
    ensures Str(Reload(c)).Some? ==> |Str(Reload(c)).value| >= 1
  {
  }

  /** Every column of a reopened sheet gets width at least 3: its header cell always converts. */
  lemma SheetWidthsAtLeastThree(columns: seq<string>, rows: seq<seq<Cell>>, c: nat)
    requires Aligned(columns, rows) && 1 <= c <= |columns|
    ensures FittedWidths(SheetGrid(columns, rows), |columns|)[c] >= 3
  {
    var cells := Column(SheetGrid(columns, rows), |columns|, c);
    assert cells[0] == Reload(Text(columns[c - 1]));
    ReloadedCellMeasuresPositive(Text(columns[c - 1]));
    MaxLenIsLongest(cells);
  }

  /**
   * A column whose every value is missing or the empty string reads back as None
   * throughout, so its width is min(max(len(name), 4) + 2, 50).
   */
  lemma MissingFieldColumnWidth(columns: seq<string>, rows: seq<seq<Cell>>, c: nat)
    requires Aligned(columns, rows) && 1 <= c <= |columns| && |rows| > 0
    requires forall i :: 0 <= i < |rows| ==> rows[i][c - 1] == Empty || rows[i][c - 1] == Text("")
    ensures FittedWidths(SheetGrid(columns, rows), |columns|)[c] ==
      Width(if |columns[c - 1]| > 4 then |columns[c - 1]| else 4)
  {
    var grid := SheetGrid(columns, rows);
    var cells := Column(grid, |columns|, c);
    var longest := if |columns[c - 1]| > 4 then |columns[c - 1]| else 4;
    assert cells[0] == Reload(Text(columns[c - 1]));
    assert cells[1] == Reload(rows[0][c - 1]) == Empty;
    forall x | x in cells && Str(x).Some? ensures |Str(x).value| <= longest {
      var i :| 0 <= i < |cells| && cells[i] == x;
      if i > 0 {
        assert grid[i] == ReloadRow(rows[i - 1]);
      }
    }
    if longest == 4 {
      assert Measures(cells[1], longest);
    } else {
      assert Measures(cells[0], longest);
    }
    ColumnWidth(grid, |columns|, c, longest);
  }

  /**
   * The `No` column of a numbered table with n rows gets width
   * min(max(2, len(str(n))) + 2, 50): the header "No" or the last number is the longest.
   */
  lemma NumberColumnWidth(columns: seq<string>, rows: seq<seq<Cell>>)
    requires Aligned(columns, rows) && |columns| >= 1 && columns[0] == "No"
    requires forall i :: 0 <= i < |rows| ==> rows[i][0] == Int(i + 1)
    ensures var digits := |Decimal.Digits(|rows|)|;
      FittedWidths(SheetGrid(columns, rows), |columns|)[1] == Width(if digits > 2 then digits else 2)
  {
    var n := |rows|;
    var grid := SheetGrid(columns, rows);
    var cells := Column(grid, |columns|, 1);
    var digits := |Decimal.Digits(n)|;
    var longest := if digits > 2 then digits else 2;
    assert cells[0] == Text("No");
    forall x | x in cells && Str(x).Some? ensures |Str(x).value| <= longest {
      var i :| 0 <= i < |cells| && cells[i] == x;
      if i > 0 {
        assert grid[i] == ReloadRow(rows[i - 1]);
        assert x == Int(i);
        Decimal.DigitsMonotone(i, n);
      }
    }
    if longest == 2 {
      assert Measures(cells[0], longest);
    } else {
      assert grid[n] == ReloadRow(rows[n - 1]);
      assert Measures(cells[n], longest);
    }
    ColumnWidth(grid, |columns|, 1, longest);
  }

  /** A rectangle of cells, 1-based and inclusive, as in "A1:C4". */
  datatype CellRange = CellRange(minRow: nat, minCol: nat, maxRow: nat, maxCol: nat)

  predicate InRange(range: CellRange, row: nat, col: nat) {
    range.minRow <= row <= range.maxRow && range.minCol <= col <= range.maxCol
  }

  /**
   * The table reference: from A1 to the cell at row len(df) + 1 (the header is
   * row 1) and column len(df.columns).
   */
  function TableRangeFor(rowCount: nat, columnCount: nat): (range: CellRange)
    ensures forall row: nat, col: nat :: InRange(range, row, col) <==>
      1 <= row <= rowCount + 1 && 1 <= col <= columnCount
  {
    CellRange(1, 1, rowCount + 1, columnCount)
  }

  /** The table range covers exactly the reopened sheet: the header row plus every data row, and every column. */
  lemma TableCoversSheet(columns: seq<string>, rows: seq<seq<Cell>>)
    requires Aligned(columns, rows)
    ensures forall row: nat, col: nat ::
      InRange(TableRangeFor(|rows|, |columns|), row, col) <==>
      1 <= row <= |SheetGrid(columns, rows)| && 1 <= col <= |columns|
  {
  }

  /** Table names may not contain '-': every '-' of the identifier becomes '_'. */
  function TableName(id: string): (name: string)
    ensures |name| == |id|
    ensures '-' !in name
    ensures forall i :: 0 <= i < |id| ==> name[i] == if id[i] == '-' then '_' else id[i]
  {
    if id == [] then []
    else [if id[0] == '-' then '_' else id[0]] + TableName(id[1..])
  }

  /** A table registered on the worksheet (its style is not modelled). */
  datatype TableDef = TableDef(displayName: string, ref: CellRange)

  /**
   * Table(displayName=TableName(id), ref=range): the spreadsheet library refuses a
   * display name containing a space (it raises ValueError), and no other name.
   */
  function NewTable(id: string, range: CellRange): (r: Option<TableDef>)
    ensures r.Some? <==> ' ' !in id
    ensures r.Some? ==> r.value.ref == range && '-' !in r.value.displayName && ' ' !in r.value.displayName
  {
    var name := TableName(id);
    if ' ' in name then None else Some(TableDef(name, range))
  }

  /** The reopened worksheet: its cells, the column width entries and the tables. */
  class Worksheet {
    var grid: seq<seq<Cell>>
    var ncols: nat
    var widths: map<nat, nat>
    var tables: seq<TableDef>

    ghost predicate Valid()
      reads this
    {
      Rectangular(grid, ncols)
    }

    /** The sheet to_excel writes from the table and load_workbook reads back. */
    constructor FromFrame(frame: DataFrame)
      requires frame.Valid()
      ensures Valid()
      ensures grid == SheetGrid(frame.columns, frame.rows) && ncols == |frame.columns|
      ensures widths == map[] && tables == []
    {
      grid := SheetGrid(frame.columns, frame.rows);
      ncols := |frame.columns|;
      widths := map[];
      tables := [];
    }

    /**
     * The auto-fit pass: every column gets its fitted width; entries for other
     * keys stay as they were.
     */
    method AutoFit()
      requires Valid()
      modifies this`widths
      ensures widths == old(widths) + FittedWidths(grid, ncols)
    {
      var c := 1;
      while c <= ncols
        invariant 1 <= c <= ncols + 1
        invariant forall k :: k in widths <==> k in old(widths) || 1 <= k < c
        invariant forall k :: k in widths ==>
          widths[k] == if 1 <= k < c then Width(MaxLen(Column(grid, ncols, k))) else old(widths)[k]
      {
        var maxLength := LongestText(Column(grid, ncols, c));
        widths := widths[c := Width(maxLength)];
        c := c + 1;
      }
    }

    /** ws.add_table */
    method AddTable(table: TableDef)
      modifies this`tables
      ensures tables == old(tables) + [table]
    {
      tables := tables + [table];
    }
  }
}
