# JSON array to Excel converter — Dafny model

The converter reads `<identifier>.json`, a JSON array of flat records. It turns
the records into a table and puts a `No` column in front that numbers the rows
from 1. It writes the table to `./excel/<identifier>_<YYYY-MM-DD_HH-MM-SS>.xlsx`
and then reopens the workbook to format it. Formatting sets each column's width
from the longest `str()` of its cells, plus 2 and capped at 50, and registers a
named table over the whole data range. Every failure before formatting ends the
run with exit status 1.

This project models the decision logic inside that pipeline:

- `loader.dfy` (module `Loader`): the three input checks, in order. They are
  file exists, parses as JSON, and parsed value is truthy in Python's sense.
- `tabulator.dfy` (module `Tabulator`): the aligned table as a `DataFrame`
  class. The `No` column is inserted in place.
- `formatter.dfy` (module `Formatter`): the auto-fit width pass as a loop over a
  `Worksheet` class that updates its width map. Also the table range and the
  table name.
- `output.dfy` (module `Output`): the timestamped output path, and how to read
  its timestamp back.
- `decimal.dfy` (module `Decimal`): `str()` of an integer and zero-padded
  fields.
- `convert.dfy` (module `Convert`): the whole run with its exit status.
- `wrappers.dfy` (module `Wrappers`): `Option` and `Result`.

Cells are a small value type: empty, integer, boolean, text, or a value whose
`str()` raises. The workbook does not store a missing field or an empty string,
so after reopening such a cell is `None`, and `str(None)` is `"None"`. Such a
cell is therefore measured as length 4, not 0. A column whose values are all
missing or empty, in a table with at least one row, gets width
`min(max(len(name), 4) + 2, 50)`. That is 6 for a
header of at most 4 characters, and never 2. The model follows the code here.

## Model

| member | source | states |
|---|---|---|
| Loader.Truthy | convert_array_to_excel.py:39 | parsed data is rejected exactly when it is `null`, `false`, `0`, `""`, `[]` or `{}` |
| Loader.JsonPathInjective | convert_array_to_excel.py:23 | the input file is the identifier followed by `.json`, so different identifiers read different files |
| Loader.Load | convert_array_to_excel.py:23-41 | missing file gives FileNotFound, a decode error gives InvalidJson, another read failure gives UnreadableFile, falsy data gives NoData; these are checked in that order; the result is Ok exactly when the file exists, parses and is truthy, and then it is the parsed value itself |
| Tabulator.DataFrame.constructor | convert_array_to_excel.py:44 | the table is built from column names and rows that are already aligned, one cell per column |
| Tabulator.DataFrame.InsertRowNumbers | convert_array_to_excel.py:47 | when `No` is not yet a column: `No` becomes column 0, row i gets `i + 1` in front of its unchanged cells, the row count stays the same and the other columns keep their order; when it is already a column the insertion is refused and nothing changes |
| Convert.TableShaped | convert_array_to_excel.py:44 | pandas refuses a number, string or boolean document, so such a document never becomes a table (a `null` document is already rejected as falsy before this point) |
| Decimal.IntToStringSpellsValue | convert_array_to_excel.py:73 | `str()` of an int is an optional minus sign followed by the decimal digits of its absolute value, with no leading zero unless the value is 0 |
| Decimal.DigitsLength | convert_array_to_excel.py:73 | a number whose spelling has k digits lies below 10^k, and at or above 10^(k-1) when k > 1 |
| Decimal.DigitsMonotone | convert_array_to_excel.py:73 | a larger number never has a shorter `str()` |
| Decimal.FixedDigits | convert_array_to_excel.py:50 | a zero-padded field has exactly the requested width and only digits |
| Decimal.FixedDigitsRoundTrip | convert_array_to_excel.py:50 | reading a zero-padded field back gives the number it came from |
| Formatter.Str | convert_array_to_excel.py:73 | `str()` fails only for an unprintable value; empty gives `"None"`, text gives itself, booleans give `"True"`/`"False"`, an int gives its decimal spelling |
| Formatter.MaxLen | convert_array_to_excel.py:68-76 | the running maximum is at least the `str()` length of every cell that converts |
| Formatter.MaxLenIsLongest | convert_array_to_excel.py:67-77 | the running maximum is the longest `str()` length in the column, or 0 when no cell converts: no cell is longer, and some cell reaches it |
| Formatter.MaxLenPermutation | convert_array_to_excel.py:71-77 | the measured maximum does not depend on the order of the cells |
| Formatter.SkippedCellKeepsMax | convert_array_to_excel.py:72-76 | a cell whose `str()` raises leaves the running maximum unchanged |
| Formatter.EmptyCellCountsFour | convert_array_to_excel.py:73 | a column holding an empty cell measures at least 4 |
| Formatter.Width | convert_array_to_excel.py:79 | a width lies between 2 and 50, is at most the length plus 2, and is either the length plus 2 or the cap 50 |
| Formatter.LongestText | convert_array_to_excel.py:71-77 | the inner scan over one column returns the longest `str()` length among its cells |
| Formatter.FittedWidths | convert_array_to_excel.py:67-80 | there is exactly one width entry for each column 1..n, and every entry lies between 2 and 50 |
| Formatter.ColumnWidth | convert_array_to_excel.py:67-79 | a column's width is `min(L + 2, 50)`, where L is the longest `str()` length among its cells, header included |
| Formatter.WidthIsLocal | convert_array_to_excel.py:67-80 | a column's width depends only on the cells of that column, in any order |
| Formatter.EmptyColumnWidth | convert_array_to_excel.py:73-79 | a column of only `None` cells, header included (an empty column name), gets width 6 |
| Formatter.Reload | convert_array_to_excel.py:54-63 | after writing and reopening, no cell holds the empty string: it comes back as `None`; every other cell comes back as written |
| Formatter.ReloadedCellMeasuresPositive | convert_array_to_excel.py:63-73 | every cell of the reopened sheet that converts measures at least 1 |
| Formatter.SheetWidthsAtLeastThree | convert_array_to_excel.py:63-80 | every column of the reopened sheet gets width at least 3, because its header always converts |
| Formatter.MissingFieldColumnWidth | convert_array_to_excel.py:54-80 | in a table with at least one row, a column whose values are all missing or `""` gets width `min(max(len(name), 4) + 2, 50)` |
| Formatter.NumberColumnWidth | convert_array_to_excel.py:47-80 | the `No` column of n numbered rows (n may be 0) gets width `min(max(2, len(str(n))) + 2, 50)` |
| Formatter.TableRangeFor | convert_array_to_excel.py:84-86 | the table range holds exactly rows 1 to len(df) + 1 and columns 1 to len(df.columns) |
| Formatter.TableCoversSheet | convert_array_to_excel.py:84-86 | the table range covers exactly the reopened sheet: the header row plus every data row, and every column |
| Formatter.TableName | convert_array_to_excel.py:89 | the table name has no `-`, has the identifier's length, has `_` where the identifier has `-`, and matches it everywhere else |
| Formatter.NewTable | convert_array_to_excel.py:89-90 | the table is created exactly when the identifier has no space (the library refuses a name with a space); its name then has neither `-` nor space, and its reference is the given range |
| Formatter.Worksheet.FromFrame | convert_array_to_excel.py:54-64 | the reopened sheet is the header row followed by the table rows, each cell as it reads back (`""` becomes `None`); it has no width entries and no tables |
| Formatter.Worksheet.AutoFit | convert_array_to_excel.py:67-80 | the width map afterwards is the old map with every column's fitted width written in; other entries are unchanged |
| Formatter.Worksheet.AddTable | convert_array_to_excel.py:103 | the table is appended to the sheet's tables |
| Output.FormatTimestamp | convert_array_to_excel.py:50 | the timestamp has 19 characters, with `-`, `-`, `_`, `-`, `-` at the separator positions |
| Output.TimestampRoundTrip | convert_array_to_excel.py:50 | the timestamp keeps every field of the clock reading: reading it back gives the same date and time |
| Output.OutputPath | convert_array_to_excel.py:51 | the path is `./excel/`, then the identifier, `_`, the timestamp and `.xlsx` |
| Output.OutputPathsDistinct | convert_array_to_excel.py:50-51 | two runs on the same identifier at different seconds write to different files |
| Convert.FormatSheet | convert_array_to_excel.py:63-103 | the reopened sheet gets every column's fitted width and one table over the full range, named from the identifier; the stage fails exactly when the identifier contains a space |
| Convert.Run | convert_array_to_excel.py:23-106 | the exit status is 0 exactly when loading succeeds, pandas builds a table from the data, `No` is not already a column, the write succeeds and the identifier has no space; otherwise it is 1; when loading or table building fails, or `No` is already a column, the table is untouched; on success the rows are numbered 1..n, the sheet is the reopened numbered table, every column has its fitted width, and one table named from the identifier covers the full range |

## Left out

- File-existence checks, reading the file and JSON parsing are I/O. They enter the model only as the parameters `found` and `read` of `Loader.Load`.
- `pd.DataFrame(data)` aligns heterogeneous records by the union of their keys and fills missing fields. That is pandas behaviour, and it is not modelled. The aligned table is an input of `Convert.Run`, and a missing field is the `Empty` cell.
- Convert.Run: whether `pd.DataFrame(data)` accepts an array or object document is a parameter (`built`). Only the refusal of scalar documents is modelled; which arrays and objects pandas rejects is pandas behaviour.
- Formatter.Str: an int is measured by its full decimal spelling. The workbook stores numbers through a double in `%.16g` form, so an int above 2^53 may read back changed, and one that reaches 10^16 once rounded reads back as a float (9999999999999999 as `1e+16`). That changed length is not modelled.
- Formatter.Reload: only the empty string is modelled as changing on write and reopen. Other conversions made by the spreadsheet writer are not modelled.
- JSON numbers are reals. `NaN` and `Infinity`, which Python's parser also accepts, are not modelled. Floating-point cells are not modelled either, and neither are nested arrays or objects inside a record.
- Writing the .xlsx file, reopening it and saving it are library I/O. A write can fail with a permission error or another error; both become an abstract `WriteOutcome` and lead to exit status 1. Reopen and save are taken to succeed. Their failures are fatal and uncaught in the program.
- Column letters and cell coordinates (`column_letter`, `.coordinate`) come from the spreadsheet library. Width keys and the table range use 1-based column numbers instead.
- Reading the wall clock is outside the model: the clock reading is a parameter. Days are only checked to lie in 1..31, not against the length of the month.
- Output.FormatTimestamp: zero-pads a year below 1000 to four digits. The C library's `strftime` on some platforms prints such a year without padding.
- The table style descriptor (`TableStyleMedium9` with row stripes) and the console messages are constant cosmetics. They are not modelled.
- Excel's other rules for table names (no leading digit, allowed characters, length) are not checked by the program or by the spreadsheet library, so they are not modelled. The one rule the library does check, no spaces, is modelled by `Formatter.NewTable`.
