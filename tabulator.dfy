/**
 * The table the converter builds from the parsed records, and the insertion of
 * the leading `No` column that numbers the rows 1..n in place.
 */
module Tabulator {

  /** One cell value of the table, as it later reaches the worksheet. */
  datatype Cell =
    | Empty                // a missing field: an empty worksheet cell, read back as None
    | Int(i: int)
    | Bool(b: bool)
    | Text(s: string)
    | Unprintable          // a value whose str() raises

  /** Every row has one cell per column. */
  ghost predicate Aligned(columns: seq<string>, rows: seq<seq<Cell>>) {
    forall i :: 0 <= i < |rows| ==> |rows[i]| == |columns|
  }

  /** The aligned table: column names in order and the rows in input order. */
  class DataFrame {
    var columns: seq<string>
    var rows: seq<seq<Cell>>

    ghost predicate Valid()
      reads this
    {
      Aligned(columns, rows)
    }

    constructor (columns: seq<string>, rows: seq<seq<Cell>>)
      requires Aligned(columns, rows)
      ensures Valid() && this.columns == columns && this.rows == rows
    {
      this.columns := columns;
      this.rows := rows;
    }

    /**
     * df.insert(0, 'No', range(1, len(df) + 1)): the column `No` becomes the first
     * column and row i (counting from 0) gets the number i + 1 in front of its
     * cells. Inserting a column name that is already present is refused and
     * leaves the table as it was.
     */
    method InsertRowNumbers() returns (inserted: bool)
      requires Valid()
      modifies this
      ensures Valid()
      ensures inserted <==> "No" !in old(columns)
      ensures inserted ==> columns == ["No"] + old(columns)
      ensures |rows| == |old(rows)|
      ensures inserted ==> forall i :: 0 <= i < |rows| ==> rows[i] == [Int(i + 1)] + old(rows)[i]
      ensures !inserted ==> unchanged(this)
    {
      if "No" in columns {
        return false;
      }
      var i := 0;
      while i < |rows|
        invariant 0 <= i <= |rows| == |old(rows)|
        invariant forall k :: 0 <= k < i ==> rows[k] == [Int(k + 1)] + old(rows)[k]
        invariant forall k :: i <= k < |rows| ==> rows[k] == old(rows)[k]
        invariant columns == old(columns)
      {
        rows := rows[i := [Int(i + 1)] + rows[i]];
        i := i + 1;
      }
      columns := ["No"] + columns;
      inserted := true;
    }
  }
}
