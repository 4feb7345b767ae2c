/**
 * The converter as one run: load and check the input, number the rows, name the
 * output file, write the sheet, fit the column widths and register the table.
 * Every failure before the formatting pass ends the run with exit status 1.
 */
module Convert {
  import opened Wrappers
  import opened Loader
  import opened Tabulator
  import opened Formatter
  import opened Output

  /** What writing the workbook with to_excel produced. */
  datatype WriteOutcome =
    | Written
    | PermissionDenied           // the file is open elsewhere
    | WriteFailed(message: string)

  /**
   * pd.DataFrame(data) refuses a parsed document that is a scalar (a number, a
   * string or a boolean); only an array or an object can become a table.
   */
  predicate TableShaped(data: Json)
    ensures TableShaped(data) ==> !data.JNumber? && !data.JString? && !data.JBool? && !data.JNull?
  {
    data.JArray? || data.JObject?
  }

  /**
   * The formatting stage on the written file: reopen it, fit the column widths
   * and register the named table over the whole range. Null when the table name
   * is refused.
   */
  method FormatSheet(id: string, frame: DataFrame) returns (sheet: Worksheet?)
    requires frame.Valid()
    ensures sheet == null <==> ' ' in id
    ensures sheet != null ==>
      && fresh(sheet) && sheet.Valid()
      && sheet.grid == SheetGrid(frame.columns, frame.rows) && sheet.ncols == |frame.columns|
      && sheet.widths == FittedWidths(sheet.grid, sheet.ncols)
      && sheet.tables == [TableDef(TableName(id), TableRangeFor(|frame.rows|, |frame.columns|))]
  {
    sheet := new Worksheet.FromFrame(frame);
    sheet.AutoFit();
    var table := NewTable(id, TableRangeFor(|frame.rows|, |frame.columns|));
    if table.None? {
      return null;
    }
    sheet.AddTable(table.value);
  }

  /**
   * `frame` is the table pd.DataFrame built from the loaded records, and `built`
   * says whether pandas accepted a table-shaped document at all (it also raises
   * for shapes such as an object of scalars). `now` is the clock reading at
   * export time. On success (status 0) the returned worksheet is the formatted
   * workbook that is saved at `path`.
   */
  method Run(id: string, found: bool, read: ReadOutcome, built: bool, frame: DataFrame, now: DateTime,
             write: WriteOutcome)
    returns (exitStatus: int, path: string, sheet: Worksheet?)
    requires frame.Valid() && ValidDateTime(now)
    modifies frame
    ensures exitStatus == 0 || exitStatus == 1
    ensures exitStatus == 0 <==>
      && Load(id, found, read).Ok?
      && TableShaped(Load(id, found, read).value) && built
      && "No" !in old(frame.columns)
      && write.Written?
      && ' ' !in id
    ensures (Load(id, found, read).Err? || !built || !TableShaped(Load(id, found, read).value)) ==>
      unchanged(frame) && sheet == null
    ensures "No" in old(frame.columns) ==> unchanged(frame)
    ensures exitStatus == 1 ==> sheet == null
    ensures exitStatus == 0 ==>
      && path == OutputPath(id, now)
      && frame.Valid()
      && frame.columns == ["No"] + old(frame.columns)
      && |frame.rows| == |old(frame.rows)|
      && (forall i :: 0 <= i < |frame.rows| ==> frame.rows[i] == [Int(i + 1)] + old(frame.rows)[i])
      && sheet != null && fresh(sheet) && sheet.Valid()
      && sheet.grid == SheetGrid(frame.columns, frame.rows) && sheet.ncols == |frame.columns|
      && sheet.widths == FittedWidths(sheet.grid, sheet.ncols)
      && sheet.tables == [TableDef(TableName(id), TableRangeFor(|frame.rows|, |frame.columns|))]
  {
    sheet := null;
    path := "";
    var loaded := Load(id, found, read);
    if loaded.Err? {
      return 1, path, sheet;
    }
    if !TableShaped(loaded.value) || !built {
      // pd.DataFrame raises; uncaught, the exception ends the run with status 1
      return 1, path, sheet;
    }
    var inserted := frame.InsertRowNumbers();
    if !inserted {
      // pandas raises ValueError for a duplicate column; uncaught, it ends the run with status 1
      return 1, path, sheet;
    }
    path := OutputPath(id, now);
    if !write.Written? {
      return 1, path, sheet;
    }
    sheet := FormatSheet(id, frame);
    if sheet == null {
      // Table() raises ValueError for a name with a space; uncaught, it ends the
      // run with status 1 and the formatted workbook is never saved
      return 1, path, sheet;
    }
    exitStatus := 0;
  }
}
