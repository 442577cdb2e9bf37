# ExcelSQLImporter core, modelled in Dafny

ExcelSQLImporter reads the first sheet of a spreadsheet into an in-memory
`DataTable` and writes SQL Server DDL for it. This project models the part
that decides what the table looks like:

- **Header typing.** For each header cell in row 0, the cells in the same
  column of sheet rows 1 and 2 each cast a vote (none, Boolean, String,
  Double, DateTime). The two votes are then reconciled into one column type.
- **Column naming.** A column is named by the header cell's string value,
  or `Column_<colIndex>` when NPOI cannot give one. The name is then run
  through a collision scan that appends `_<colIndex>` for each existing
  column bearing the current name.
- **Data rows.** Each cell of a later present row is classified into a
  stored value, a value with an empty string form becomes null, and the
  value is written at the cell's column index when that index is a column.
  A cell of a further type (an error cell) cannot be classified: the
  program asks NPOI for its string value, which throws and ends the import.
- **`CreateTableSQL`.** This produces the `DROP TABLE IF EXISTS` / `CREATE
  TABLE` script: a SQL type per .NET type, an NVARCHAR width taken from
  MaxLength or scanned over the stored values, IDENTITY and NOT NULL
  options, and the trailing comma replaced by the closing parenthesis.

Files and modules:

- `options.dfy`: `Options` (Option, Result).
- `decimal.dfy`: `Decimal`, the rendering of integers as text, with a
  parse function to read it back.
- `sheet.dfy`: `Sheet`, the NPOI view: cells, cached formula results,
  rows as (column index, cell) entries, `GetRow`, `GetCell`,
  `StringCellValue`.
- `inference.dfy`: `Inference`, sample votes and reconciliation.
- `cells.dfy`: `Cells`, data cell values.
- `naming.dfy`: `Naming`, header names and the collision scan.
- `table.dfy`: `Tables`. The class `Table` is the DataTable; its `Load`
  method is the sheet loop. Beside it are the specification functions
  `SheetColumns` and `DataRows` that `Load` is proved against.
- `ddl.dfy`: `Ddl`, `CreateTableSql` and the script it is proved to
  produce.

Behaviour worth noting:

- A sheet row is skipped only when `GetRow` returns null. A present row
  made only of blank cells still becomes a data row.
- A blank header cell has the string value "". For the first such column,
  `HeaderName` and `DedupName` give the name the program passes to
  `new DataColumn`, which is "". The DataTable then gives empty names a
  name of its own, so from the second such column on the program's scan and
  the model's differ (see the `Tables.Table.AddColumn` line under "## Left out").
- Only sheet rows 1 and 2 are sampled for header types.
- No schema name is written, and table and column names are not escaped.
- NVARCHAR widths count UTF-16 code units, as .NET's `Length` does
  (`Utf16Length`). A character outside the Basic Multilingual Plane counts
  twice.
- The width scan starts at table row 1, so the first data row never
  counts (`ScanWidthSkipsFirstRow`, `WidthExamples`).
- The collision scan only compares against the name built so far, so it
  can produce a name an earlier column already has
  (`DedupCanRepeatAName`).
- When neither sample votes, the program calls `Type.GetType(null)`, which
  throws. The model makes that an explicit error, `NoColumnType(colIndex)`,
  that ends the load.
- An error cell anywhere in a data row, whatever its column index, makes
  the `default` branch of the cell switch throw. The model makes that the
  error `ErrorCell(rowIndex, col)` for the first such cell of the first such
  row (`FirstBadRow`), which ends the load.

## Model

| member | source | states |
|---|---|---|
| Sheet.GetRow | ExcelSQLImporter/Program.cs:197-205 | (definition) the stored row inside the sheet, null past the last row |
| Sheet.GetCell | ExcelSQLImporter/Program.cs:233-237 | a cell found at a column is an entry of the row with that column index |
| Sheet.GetCellExact | ExcelSQLImporter/Program.cs:233-237 | in a well-formed row, GetCell returns x exactly when the row has the entry (col, x) |
| Sheet.GetCellAbsent | ExcelSQLImporter/Program.cs:233-237 | GetCell is null exactly when no entry of the row has that column index |
| Sheet.StringCellValue | ExcelSQLImporter/Program.cs:297 | StringCellValue fails exactly for boolean, numeric and error cells and formulas without a cached string; a string cell gives its text, a blank cell "", and a formula with a cached string that string |
| Sheet.CellAt | ExcelSQLImporter/Program.cs:233-237 | (definition) `row?.GetCell(col)`: null for an absent row, otherwise GetCell |
| Inference.SampleVote | ExcelSQLImporter/Program.cs:240-283 | a vote is always Boolean/String/Double/DateTime; there is no vote exactly for an absent or blank sample or a formula with a blank or error result; a Boolean vote comes exactly from a boolean cell, a boolean result, or a non-date numeric TRUE()/FALSE() formula; a DateTime vote comes exactly from a date-formatted numeric value; a String vote exactly from a string cell, a string result or a further cell type; a Double vote exactly from a non-date numeric value that is not a TRUE()/FALSE() formula |
| Inference.IsBooleanLiteralFormula | ExcelSQLImporter/Program.cs:271-272 | (definition) the formula text is TRUE() or FALSE() |
| Inference.HeaderType | ExcelSQLImporter/Program.cs:228-293 | (definition) the reconciliation of the votes of the cells at the header cell's column in rows 1 and 2 |
| Inference.SampleVotes | ExcelSQLImporter/Program.cs:228-239 | cellType2[0] is the vote of the cell below in sheet row 1, cellType2[1] the vote of the one in row 2 |
| Inference.Reconcile | ExcelSQLImporter/Program.cs:286-293 | equal votes give that vote; one missing vote gives the other; two different votes give String |
| Inference.ReconcileSymmetric | ExcelSQLImporter/Program.cs:286-293 | the result does not depend on which sample row gave which vote |
| Inference.ReconcileTyped | ExcelSQLImporter/Program.cs:286-293 | a type exists exactly when at least one sample voted, and it is a vote type |
| Inference.TrueFormulaVotesBoolean | ExcelSQLImporter/Program.cs:264-276 | a non-date numeric TRUE() formula votes Boolean; another numeric formula votes Double |
| Inference.MixedScoreColumnIsString | ExcelSQLImporter/Program.cs:240-293 | number/text samples reconcile to String, two booleans to Boolean, dates to DateTime, even with one sample missing |
| Cells.Display | ExcelSQLImporter/Program.cs:454 | (definition) `ToString()` of a stored value: "" for null, True/False for booleans, the text of a string, number or date |
| Cells.Utf16Length | ExcelSQLImporter/Program.cs:454 | .NET `Length`: at least one and at most two code units per character |
| Cells.Utf16LengthBmp | ExcelSQLImporter/Program.cs:454 | a text of Basic Multilingual Plane characters has one code unit per character |
| Cells.Utf16LengthPair | ExcelSQLImporter/Program.cs:454 | a character outside the Basic Multilingual Plane has length 2 |
| Cells.RawValue | ExcelSQLImporter/Program.cs:313-335 | (definition) the cell-type switch of a data cell, none for a further cell type whose string value NPOI cannot give; its per-kind results are CellValueByKind |
| Cells.NumericValue | ExcelSQLImporter/Program.cs:319-320 | (definition) the date when the cell is date-formatted, otherwise the number |
| Cells.Normalize | ExcelSQLImporter/Program.cs:336-340 | a value with an empty string form becomes null; any other value is unchanged |
| Cells.CellValue | ExcelSQLImporter/Program.cs:313-340 | classification fails exactly for a further cell type; a stored value is never non-null with an empty string form; it is null exactly when the classified value renders empty; otherwise it is the classified value |
| Cells.CellValueByKind | ExcelSQLImporter/Program.cs:313-335 | blank gives null, a boolean its value, a string its text (null when empty), a date-formatted number its date, any other number its number, a formula with a blank or error result gives null, and a further cell type cannot be classified |
| Cells.FormulaFollowsCachedResult | ExcelSQLImporter/Program.cs:322-333 | a formula is stored like a plain cell of its cached result's kind |
| Cells.TrueFormulaDataIsNumber | ExcelSQLImporter/Program.cs:328-331 | in a data row a numeric TRUE() formula is stored as its number, unlike in the header |
| Decimal.NatToString | ExcelSQLImporter/Program.cs:298 | a rendering is a non-empty digit string that starts with 0 only for zero |
| Decimal.IntToString | ExcelSQLImporter/Program.cs:509 | (definition) the digits for a non-negative number, "-" and the digits of the magnitude for a negative one; see ParseIntToString |
| Decimal.ParseInt | ExcelSQLImporter/Program.cs:509 | (definition) the value of a decimal text with an optional leading "-" |
| Decimal.ParseIntToString | ExcelSQLImporter/Program.cs:509 | a signed rendering is a decimal integer text that reads back as the number |
| Decimal.ParseNatToString | ExcelSQLImporter/Program.cs:468 | reading a rendering back gives the number |
| Decimal.NatToStringInjective | ExcelSQLImporter/Program.cs:303 | distinct column indexes give distinct suffix digits |
| Decimal.NatToStringNotWord | ExcelSQLImporter/Program.cs:466-473 | a rendered width is never the word MAX |
| Naming.SuffixInjective | ExcelSQLImporter/Program.cs:303 | different column positions give different `_colIndex` suffixes |
| Naming.Suffix | ExcelSQLImporter/Program.cs:303 | (definition) `_` followed by the digits of colIndex |
| Naming.Repeat | ExcelSQLImporter/Program.cs:303 | m copies of s have length m times that of s |
| Naming.RepeatFront | ExcelSQLImporter/Program.cs:303 | a positive number of copies of a suffix starts with one copy |
| Naming.SuffixRunsDifferOrdered | ExcelSQLImporter/Program.cs:303 | runs of suffixes for different positions differ (the case where the first position has no more digits) |
| Naming.SuffixRunsDiffer | ExcelSQLImporter/Program.cs:303 | one or more suffixes for one position never spell one or more suffixes for another |
| Naming.HeaderName | ExcelSQLImporter/Program.cs:295-298 | (definition) the header cell's string value when NPOI has one, otherwise Column_ followed by the column position |
| Naming.DedupName | ExcelSQLImporter/Program.cs:300-304 | the collision scan over the existing names in order; it only ever extends the name (its shape is DedupShape) |
| Naming.DedupKeepsFreshName | ExcelSQLImporter/Program.cs:300-304 | a name no existing column bears is kept unchanged |
| Naming.DedupShape | ExcelSQLImporter/Program.cs:300-304 | the result is the name followed by m copies of _colIndex, with m positive exactly when the name is already taken |
| Naming.DedupAvoidsExisting | ExcelSQLImporter/Program.cs:300-304 | when no existing column has a suffixed form of the name, the result collides with no existing column |
| Naming.RenamedNamesDiffer | ExcelSQLImporter/Program.cs:300-304 | the same taken name, scanned at two different positions, ends as two different names |
| Naming.DedupDiffersFromLast | ExcelSQLImporter/Program.cs:300-304 | the result never equals the name of the column scanned last |
| Naming.DedupCanRepeatAName | ExcelSQLImporter/Program.cs:300-304 | headers X_2, X, X give the third column the already-used name X_2 |
| Naming.RepeatedIdHeader | ExcelSQLImporter/Program.cs:296-304 | a second ID header at position 1 becomes ID_1 |
| Naming.UntextedHeaderName | ExcelSQLImporter/Program.cs:295-298 | a numeric or error header cell at position 2 is named Column_2; an empty string cell gives the empty name, before the DataTable names it |
| Tables.DefaultColumn | ExcelSQLImporter/Program.cs:307 | (definition) `new DataColumn(name, type)`: MaxLength -1, no auto-increment, nulls allowed |
| Tables.Names | ExcelSQLImporter/Program.cs:301-303 | (definition) the names of the columns, in order |
| Tables.NullRow | ExcelSQLImporter/Program.cs:213 | (definition) `table.NewRow()`: one null slot per column |
| Tables.Widen | ExcelSQLImporter/Program.cs:308 | (definition) every existing row gains a null slot for the added column |
| Tables.WellShaped | ExcelSQLImporter/Program.cs:213 | (definition) every row has one slot per column |
| Tables.SlotValue | ExcelSQLImporter/Program.cs:341-345 | (definition) slot j holds the value of the row's cell at column j, null when there is none |
| Tables.RowSlots | ExcelSQLImporter/Program.cs:341-345 | (definition) the row of slot values, one per column; see RowSlotsExact |
| Tables.RowSlotsExact | ExcelSQLImporter/Program.cs:342-345 | in a well-formed row, slot j holds the value of the cell at column j when that cell can be classified, and null when the row has no cell there |
| Tables.FirstErrorCell | ExcelSQLImporter/Program.cs:219-334 | (definition) the column index of the first cell of the row, in row order, of a further cell type |
| Tables.FirstErrorCellIsFirst | ExcelSQLImporter/Program.cs:219-334 | null exactly when every cell of the row can be classified; otherwise the column index of a further-type cell before which every cell can be classified |
| Tables.FirstErrorCellPrefix | ExcelSQLImporter/Program.cs:219-334 | a further-type cell found in a prefix of the row stays the first one for the whole row |
| Tables.FirstBadRow | ExcelSQLImporter/Program.cs:194-334 | (definition) the ErrorCell error of the first present sheet row from row 1 on whose cells cannot all be classified |
| Tables.FirstBadRowIsFirst | ExcelSQLImporter/Program.cs:194-334 | null exactly when every present sheet row from row 1 on can be classified; otherwise an ErrorCell naming a present row from row 1 on, its first further-type cell's column, with every present row before it classifiable |
| Tables.FirstBadRowPrefix | ExcelSQLImporter/Program.cs:194-334 | once the rows before some row abort the load, later rows do not change the error |
| Tables.HeaderTypes | ExcelSQLImporter/Program.cs:219-293 | (definition) the type, possibly missing, of each header cell; see HeaderTypesAt |
| Tables.HeaderTypesAt | ExcelSQLImporter/Program.cs:228-293 | header cell k is typed by its samples in rows 1 and 2, and only ever with a vote type |
| Tables.HeaderColumn | ExcelSQLImporter/Program.cs:295-308 | (definition) the column a typed header cell adds: its deduplicated header name and its type with default properties; none without a type |
| Tables.HeaderColumns | ExcelSQLImporter/Program.cs:219-309 | a successful scan adds one column per header cell after those already present |
| Tables.HeaderColumnsFailure | ExcelSQLImporter/Program.cs:286-308 | the scan fails exactly when some header cell has no type, and the error names the position of the first such cell |
| Tables.HeaderColumnsAt | ExcelSQLImporter/Program.cs:216-308 | column k has header cell k's type and default properties; its name is that cell's header name after the collision scan over the columns before it, with k as colIndex |
| Tables.RenamedHeaderColumnsDiffer | ExcelSQLImporter/Program.cs:295-308 | two header cells at different positions offering the same taken name become columns with different names |
| Tables.SheetColumns | ExcelSQLImporter/Program.cs:194-309 | (definition) no columns when row 0 is absent, otherwise the header scan of row 0 typed from rows 1 and 2 |
| Tables.SheetColumnsReadsThreeRows | ExcelSQLImporter/Program.cs:201-206 | sheets that agree on rows 0, 1 and 2 get the same columns |
| Tables.DataRows | ExcelSQLImporter/Program.cs:194-214 | the data rows built up to a sheet row all have one slot per column, and there are no more of them than sheet rows |
| Tables.DataRowsPrefix | ExcelSQLImporter/Program.cs:349-353 | rows are only ever appended: the rows built earlier are a prefix of those built later |
| Tables.DataRowsOrder | ExcelSQLImporter/Program.cs:349-353 | a present sheet row k >= 1 becomes the data row right after those built from the rows before it |
| Tables.NextAfterPrefix | ExcelSQLImporter/Program.cs:352 | an element appended after a prefix sits at the prefix's length |
| Tables.DataRowsOrigin | ExcelSQLImporter/Program.cs:208-214 | every data row is the row built from some present sheet row other than row 0 |
| Tables.DataRowsSkipAbsent | ExcelSQLImporter/Program.cs:208 | an absent sheet row adds no data row |
| Tables.DataRowsIgnoreHeader | ExcelSQLImporter/Program.cs:211-214 | sheet row 0 never affects the data rows |
| Tables.Table.constructor | ExcelSQLImporter/Program.cs:190-192 | a new table has the sheet's name, no columns and no rows |
| Tables.Table.AddColumn | ExcelSQLImporter/Program.cs:308 | the column is appended, every row gains a null slot, and the row shape invariant is kept |
| Tables.Table.AddRow | ExcelSQLImporter/Program.cs:352 | the row is appended; the columns are unchanged |
| Tables.Table.UniqueName | ExcelSQLImporter/Program.cs:300-304 | the loop computes the collision scan over the current column names, and keeps a fresh name unchanged |
| Tables.Table.BuildRow | ExcelSQLImporter/Program.cs:213-345 | the loop over the row's cells stops at the first cell that cannot be classified and returns its column index, whatever that index; otherwise it yields the slot-per-column row RowSlots, the last cell written at an index winning |
| Tables.Table.HeaderCellType | ExcelSQLImporter/Program.cs:228-293 | the sample loop and resolution step give HeaderType |
| Tables.Table.AddHeaderColumns | ExcelSQLImporter/Program.cs:216-309 | the header loop succeeds exactly when the header scan does, leaves exactly its columns, and otherwise returns its error; no rows are added |
| Tables.Table.Load | ExcelSQLImporter/Program.cs:188-356 | the sheet loop succeeds exactly when the header scan does and no data row holds a cell that cannot be classified; it holds the scanned columns whenever the scan succeeds, and exactly the data rows built from sheet rows 1 onwards on success; a failing scan returns its error, otherwise the error is that of the first bad data row |
| Ddl.ScanWidth | ExcelSQLImporter/Program.cs:452-459 | (definition) the running maximum of the UTF-16 lengths over rows 1..k-1; see ScanWidthIsMax |
| Ddl.ColumnWidth | ExcelSQLImporter/Program.cs:450-464 | (definition) MaxLength, or when it is -1 the scanned width over all rows |
| Ddl.WidthText | ExcelSQLImporter/Program.cs:466-473 | (definition) the digits of the width when strictly between 0 and 4000, otherwise MAX; see WidthTextCases |
| Ddl.SqlType | ExcelSQLImporter/Program.cs:417-506 | (definition) the SQL type for each .NET type; see SqlTypeNvarchar |
| Ddl.ColumnOptions | ExcelSQLImporter/Program.cs:508-511 | (definition) IDENTITY(seed,step) when auto-incrementing, then NOT NULL when nulls are not allowed |
| Ddl.ScanWidthIsMax | ExcelSQLImporter/Program.cs:452-459 | the scanned width bounds the UTF-16 length of every value in rows 1..k-1 and is reached by one of them, or is 0 |
| Ddl.ScanWidthSkipsFirstRow | ExcelSQLImporter/Program.cs:452 | table row 0 never affects the scanned width |
| Ddl.WidthTextCases | ExcelSQLImporter/Program.cs:466-473 | the width text is MAX exactly when the width is not strictly between 0 and 4000; otherwise it reads back as the width |
| Ddl.SqlTypeNvarchar | ExcelSQLImporter/Program.cs:417-506 | String, Boolean and unlisted types, and only those, become NVARCHAR(width); the others get a short fixed type |
| Ddl.IsNvarcharType | ExcelSQLImporter/Program.cs:445-506 | (definition) String, Boolean, or a type the if-chain does not name |
| Ddl.SmallTableIsMax | ExcelSQLImporter/Program.cs:450-473 | with at most one stored row, an unsized NVARCHAR column is NVARCHAR(MAX) |
| Ddl.ColumnDefinition | ExcelSQLImporter/Program.cs:414-512 | a column line is non-empty and ends with a comma |
| Ddl.DefaultColumnHasNoOptions | ExcelSQLImporter/Program.cs:508-512 | a column as the header creates it gets neither IDENTITY nor NOT NULL |
| Ddl.StatementPrefix | ExcelSQLImporter/Program.cs:406-407 | the two statement heads end with the opening parenthesis |
| Ddl.ColumnLines | ExcelSQLImporter/Program.cs:412-513 | one non-empty line per column |
| Ddl.ColumnLineAt | ExcelSQLImporter/Program.cs:412-513 | (definition) line i is the definition of column i with its width, the ColumnLines comprehension at i |
| Ddl.Appended | ExcelSQLImporter/Program.cs:412-513 | the text after k lines is at least as long as the head |
| Ddl.AppendedPrefix | ExcelSQLImporter/Program.cs:412-513 | the text only grows: the text after j lines is a prefix of the text after k >= j lines |
| Ddl.Script | ExcelSQLImporter/Program.cs:412-514 | (definition) the head with every column line appended, then closed |
| Ddl.Close | ExcelSQLImporter/Program.cs:514 | (definition) the text without its last character, then the closing parenthesis |
| Ddl.CreateTableText | ExcelSQLImporter/Program.cs:403-515 | (definition) the closed script of the statement heads and the column lines; its layout is ScriptOpensWithHead, ScriptLinePlacement, ScriptLastLine over the non-empty ColumnLines |
| Ddl.ScriptOpensWithHead | ExcelSQLImporter/Program.cs:405-407 | a script with a line opens with its statement heads |
| Ddl.ScriptLinePlacement | ExcelSQLImporter/Program.cs:412-514 | every line but the last appears whole where the lines before it end |
| Ddl.ScriptLastLine | ExcelSQLImporter/Program.cs:512-514 | the last line loses its trailing comma and the script ends in the closing parenthesis |
| Ddl.NoColumnsText | ExcelSQLImporter/Program.cs:514 | with no columns the character removed is the opening parenthesis of CREATE TABLE |
| Ddl.WidthExamples | ExcelSQLImporter/Program.cs:447-474 | values ab, abcd, null give width 4; with abcd in table row 0 the width is 2 |
| Ddl.MeasureWidth | ExcelSQLImporter/Program.cs:447-464 | computes the column's width: MaxLength, or when it is -1 the scanned maximum over rows 1 onwards |
| Ddl.ScanRows | ExcelSQLImporter/Program.cs:452-459 | the row loop returns the width scanned over rows 1 onwards, which by ScanWidthIsMax is the widest UTF-16 length or 0 |
| Ddl.TypeText | ExcelSQLImporter/Program.cs:415-506 | the type branch emits the SQL type of the column's .NET type and width |
| Ddl.OptionsText | ExcelSQLImporter/Program.cs:508-511 | the IDENTITY(seed,step) and NOT NULL options of the column |
| Ddl.DefineColumn | ExcelSQLImporter/Program.cs:414-512 | the loop body emits the column's definition line with its width |
| Ddl.OpenStatements | ExcelSQLImporter/Program.cs:405-407 | the script starts with the two statement heads |
| Ddl.AppendColumnLine | ExcelSQLImporter/Program.cs:414-512 | one pass of the column loop appends line i |
| Ddl.AppendColumnLines | ExcelSQLImporter/Program.cs:412-513 | the column loop appends the lines of all columns in column order |
| Ddl.CreateTableSql | ExcelSQLImporter/Program.cs:403-515 | the result is CreateTableText: the heads, every column line, the last comma replaced by the closing parenthesis |

## Left out

- Configuration: app settings, the connection string, FTP download, file
  existence checks, opening the workbook (XLS/XLSX), sheet selection,
  logging and console output. These are I/O; the model starts from the
  sheet's rows.
- Running the SQL (`ExecuteNonQuery`) and `SqlBulkCopy`. These are I/O
  against a database; only the DDL text is modelled.
- `HSSFDateUtil.IsCellDateFormatted` is taken as a field of the cell
  (`dateFormatted`), because it depends on workbook styles.
- The culture-dependent `ToString` of doubles and dates is a pair of given
  texts in `Payload`.
- The exception NPOI throws on an error cell in a data row, which nothing
  catches, is modelled as the error `ErrorCell`, not as an exception; the
  state the table is left in when it is raised is not promised.
- Tables.Table.AddColumn: the DataTable's own naming of columns added
  with an empty name (`Column1`, `Column2`, ...) is not modelled, because
  it is internal to the DataTable: the model keeps the name "", so the
  collision scan then compares later names against "" where the program
  compares them against the generated name; for two blank headers the
  program passes "" twice while the model gives "" and "_1".
- The `try`/`catch` around `CellFormula` in header typing is not modelled;
  a formula's text is always available.
- The DataTable's own conversion of a stored value to the column's type
  is not modelled; stored values keep their classified form.
- The DataTable rejects a duplicate column name with an exception; the
  model keeps the name the scan produced and does not fail.
- `AcceptChanges` is left out because it changes no content.
- `Type.GetType(null)` throwing is modelled as the error `NoColumnType`,
  not as an exception.
- Int32 wrap-around of `colIndex` and of widths is not modelled, because
  the counts never come near 2^31.
