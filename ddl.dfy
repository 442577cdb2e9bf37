/**
 * CreateTableSQL: the DROP TABLE IF EXISTS and CREATE TABLE statements for
 * a materialised table, with NVARCHAR widths sized from the stored values.
 */
module Ddl {
  import opened Decimal
  import opened Inference
  import opened Cells
  import opened Tables

  /** Widths from this value up are emitted as NVARCHAR(MAX). */
  const MaxFixedWidth: int := 4000

  /** The widest string form, in UTF-16 code units, in column `col` over the rows at indices 1..k-1 (0 if there are none). */
  function ScanWidth(rows: seq<seq<Value>>, col: nat, k: nat): nat
    requires k <= |rows| || k <= 1
    requires forall p :: 0 <= p < |rows| ==> col < |rows[p]|
  {
    if k <= 1 then 0
    else
      var before := ScanWidth(rows, col, k - 1);
      var rowLength := Utf16Length(Display(rows[k - 1][col]));
      if rowLength > before then rowLength else before
  }

  /** The width a column gets: its MaxLength, or, when that is -1, the scanned width over all rows. */
  function ColumnWidth(c: Column, rows: seq<seq<Value>>, col: nat): int
    requires forall p :: 0 <= p < |rows| ==> col < |rows[p]|
  {
    if c.maxLength == -1 then ScanWidth(rows, col, |rows|) else c.maxLength
  }

  /** The NVARCHAR width text: the number when strictly between 0 and 4000, otherwise MAX. */
  function WidthText(w: int): string
  {
    if 0 < w < MaxFixedWidth then IntToString(w) else "MAX"
  }

  /** The SQL type text appended for a column of .NET type `t` and width `w`. */
  function SqlType(t: ClrType, w: int): string
  {
    match t
    case Int32 => " INT"
    case Int64 => " BIGINT"
    case Int16 => " SMALLINT"
    case Byte => " TINYINT"
    case Decimal => " DECIMAL"
    case Double => " FLOAT"
    case DateTime => " DATETIME"
    case _ => " NVARCHAR(" + WidthText(w) + ")"
  }

  /** The IDENTITY and NOT NULL options of a column. */
  function ColumnOptions(c: Column): string
  {
    (if c.autoIncrement
     then " IDENTITY(" + IntToString(c.autoIncrementSeed) + "," + IntToString(c.autoIncrementStep) + ")"
     else "")
    + (if !c.allowDBNull then " NOT NULL" else "")
  }

  /** One column line, ending in a comma. */
  function ColumnDefinition(c: Column, w: int): (line: string)
    ensures |line| >= 1 && line[|line| - 1] == ','
  {
    "\n [" + c.name + "]" + SqlType(c.dataType, w) + ColumnOptions(c) + ","
  }

  /** The two statement heads: the unconditional drop and the opening of the create. */
  function StatementPrefix(tableName: string): (p: string)
    ensures |p| >= 1 && p[|p| - 1] == '('
  {
    "\n DROP TABLE IF EXISTS [" + tableName + "];" + "\n CREATE TABLE [" + tableName + "] ("
  }

  /** The line of each column, in column order. */
  function ColumnLines(columns: seq<Column>, rows: seq<seq<Value>>): (lines: seq<string>)
    requires WellShaped(columns, rows)
    ensures |lines| == |columns|
    ensures forall i :: 0 <= i < |columns| ==> |lines[i]| >= 1
  {
    seq(|columns|, i requires 0 <= i < |columns| => ColumnDefinition(columns[i], ColumnWidth(columns[i], rows, i)))
  }

  /** Line i is column i's definition with its width. */
  lemma ColumnLineAt(columns: seq<Column>, rows: seq<seq<Value>>, i: nat)
    requires WellShaped(columns, rows) && i < |columns|
    ensures ColumnLines(columns, rows)[i] == ColumnDefinition(columns[i], ColumnWidth(columns[i], rows, i))
  {
  }

  /** `head` followed by the first k lines. */
  function Appended(head: string, lines: seq<string>, k: nat): (r: string)
    requires k <= |lines|
    ensures |r| >= |head|
  {
    if k == 0 then head else Appended(head, lines, k - 1) + lines[k - 1]
  }

  /** `head` and all the lines, with the last character replaced by the closing parenthesis. */
  function Script(head: string, lines: seq<string>): string
    requires |head| >= 1
  {
    Close(Appended(head, lines, |lines|))
  }

  /** `sqlsc.Substring(0, sqlsc.Length - 1) + "\n)"`. */
  function Close(sqlsc: string): string
    requires |sqlsc| >= 1
  {
    sqlsc[..|sqlsc| - 1] + "\n)"
  }

  /** The whole script: drop, create, the column lines; its last character removed, then the closing parenthesis. */
  function CreateTableText(tableName: string, columns: seq<Column>, rows: seq<seq<Value>>): string
    requires WellShaped(columns, rows)
  {
    Script(StatementPrefix(tableName), ColumnLines(columns, rows))
  }

  /** The scanned width is the largest string length in the column over rows 1..k-1, and 0 when there are none. */
  lemma {:induction false} ScanWidthIsMax(rows: seq<seq<Value>>, col: nat, k: nat)
    requires k <= |rows| && forall p :: 0 <= p < |rows| ==> col < |rows[p]|
    ensures forall p :: 1 <= p < k ==> Utf16Length(Display(rows[p][col])) <= ScanWidth(rows, col, k)
    ensures ScanWidth(rows, col, k) == 0 ||
            exists p :: 1 <= p < k && Utf16Length(Display(rows[p][col])) == ScanWidth(rows, col, k)
  {
    if k > 1 {
      ScanWidthIsMax(rows, col, k - 1);
    }
  }

  /** Table row 0 never takes part in the width scan. */
  lemma {:induction false} ScanWidthSkipsFirstRow(rows: seq<seq<Value>>, col: nat, k: nat, first: seq<Value>)
    requires 0 < |rows| && k <= |rows| && col < |first|
    requires forall p :: 0 <= p < |rows| ==> col < |rows[p]|
    ensures ScanWidth(rows[0 := first], col, k) == ScanWidth(rows, col, k)
  {
    if k > 1 {
      ScanWidthSkipsFirstRow(rows, col, k - 1, first);
      assert rows[0 := first][k - 1] == rows[k - 1];
    }
  }

  /** The width text is MAX exactly when the width is not strictly between 0 and 4000; otherwise it is the width's digits. */
  lemma WidthTextCases(w: int)
    ensures WidthText(w) == "MAX" <==> !(0 < w < MaxFixedWidth)
    ensures 0 < w < MaxFixedWidth ==> AllDigits(WidthText(w)) && ParseNat(WidthText(w)) == w
  {
    if 0 < w < MaxFixedWidth {
      NatToStringNotWord(w);
      ParseNatToString(w);
    }
  }

  /** The types written as NVARCHAR: String, Boolean and every type the mapping does not name. */
  predicate IsNvarcharType(t: ClrType)
  {
    t == String || t == Boolean || t == OtherClrType
  }

  /** A column is written as NVARCHAR exactly when its type is one of those; the others have fixed SQL types. */
  lemma SqlTypeNvarchar(t: ClrType, w: int)
    ensures IsNvarcharType(t) <==> SqlType(t, w) == " NVARCHAR(" + WidthText(w) + ")"
    ensures !IsNvarcharType(t) ==> |SqlType(t, w)| <= 9
  {
    assert |" NVARCHAR(" + WidthText(w) + ")"| >= 12;
  }

  /** An empty or single-row table gives every unsized NVARCHAR column the width MAX. */
  lemma SmallTableIsMax(c: Column, rows: seq<seq<Value>>, col: nat)
    requires |rows| <= 1 && c.maxLength == -1 && IsNvarcharType(c.dataType)
    requires forall p :: 0 <= p < |rows| ==> col < |rows[p]|
    ensures SqlType(c.dataType, ColumnWidth(c, rows, col)) == " NVARCHAR(MAX)"
  {
  }

  /** A column as the header row creates it has no IDENTITY and no NOT NULL option. */
  lemma DefaultColumnHasNoOptions(name: string, t: ClrType, w: int)
    ensures ColumnDefinition(DefaultColumn(name, t), w) == "\n [" + name + "]" + SqlType(t, w) + ","
  {
  }

  /** The text after j lines is a prefix of the text after any later line. */
  lemma {:induction false} AppendedPrefix(head: string, lines: seq<string>, j: nat, k: nat)
    requires j <= k <= |lines|
    ensures Appended(head, lines, j) <= Appended(head, lines, k)
  {
    if j < k {
      AppendedPrefix(head, lines, j, k - 1);
    }
  }

  /** A script with at least one line opens with its head. */
  lemma ScriptOpensWithHead(head: string, lines: seq<string>)
    requires |head| >= 1 && |lines| >= 1 && |lines[0]| >= 1
    ensures head <= Script(head, lines)
  {
    AppendedPrefix(head, lines, 1, |lines|);
    KeptPrefix(head, Appended(head, lines, 1), Appended(head, lines, |lines|), "\n)");
  }

  /** Every line but the last sits, whole, where the lines before it end. */
  lemma ScriptLinePlacement(head: string, lines: seq<string>, i: nat)
    requires |head| >= 1 && i + 1 < |lines| && |lines[i + 1]| >= 1
    ensures var text := Script(head, lines);
      var start := |Appended(head, lines, i)|;
      start + |lines[i]| <= |text| && text[start..start + |lines[i]|] == lines[i]
  {
    AppendedPrefix(head, lines, i + 2, |lines|);
    KeptInfix(Appended(head, lines, i), lines[i], Appended(head, lines, i + 2), Appended(head, lines, |lines|), "\n)");
  }

  /** The last line loses its final character and is followed by the closing parenthesis. */
  lemma ScriptLastLine(head: string, lines: seq<string>)
    requires |head| >= 1 && |lines| >= 1 && |lines[|lines| - 1]| >= 1
    ensures var text := Script(head, lines);
      var start := |Appended(head, lines, |lines| - 1)|;
      var line := lines[|lines| - 1];
      start <= |text| && text[start..] == line[..|line| - 1] + "\n)"
  {
    var before := Appended(head, lines, |lines| - 1);
    var line := lines[|lines| - 1];
    var full := before + line;
    assert full[..|full| - 1][|before|..] == line[..|line| - 1];
  }

  /** Dropping the last character of `full` keeps a prefix `head` of a strictly longer prefix `after` of it. */
  lemma KeptPrefix(head: string, after: string, full: string, closing: string)
    requires head <= after <= full && |head| < |after|
    ensures head <= full[..|full| - 1] + closing
  {
    assert (full[..|full| - 1] + closing)[..|head|] == full[..|head|];
  }

  /** Dropping the last character of `full` keeps a line `line` that is followed by more text. */
  lemma KeptInfix(before: string, line: string, later: string, full: string, closing: string)
    requires before + line < later <= full
    ensures var text := full[..|full| - 1] + closing;
      |before| + |line| <= |text| && text[|before|..|before| + |line|] == line
  {
    var after := before + line;
    assert (full[..|full| - 1] + closing)[|before|..|after|] == later[|before|..|after|];
    assert later[|before|..|after|] == after[|before|..];
  }

  /** With no columns the removed character is the opening parenthesis of CREATE TABLE. */
  lemma NoColumnsText(tableName: string, rows: seq<seq<Value>>)
    requires WellShaped([], rows)
    ensures CreateTableText(tableName, [], rows) ==
      "\n DROP TABLE IF EXISTS [" + tableName + "];" + "\n CREATE TABLE [" + tableName + "] " + "\n)"
  {
    var p := StatementPrefix(tableName);
    assert p == ("\n DROP TABLE IF EXISTS [" + tableName + "];" + "\n CREATE TABLE [" + tableName + "] ") + "(";
  }

  /**
   * Stored values "ab", "abcd", null in rows 0, 1, 2 give width 4; with
   * "abcd" in row 0 instead, the scan never sees it and the width is 2.
   */
  lemma WidthExamples()
    ensures ColumnWidth(DefaultColumn("c", String), [[VText("ab")], [VText("abcd")], [Null]], 0) == 4
    ensures ColumnWidth(DefaultColumn("c", String), [[VText("abcd")], [VText("ab")], [Null]], 0) == 2
    ensures SqlType(String, 4) == " NVARCHAR(4)"
  {
    Utf16LengthBmp("ab");
    Utf16LengthBmp("abcd");
    var rows := [[VText("ab")], [VText("abcd")], [Null]];
    assert ScanWidth(rows, 0, 2) == 4;
    assert ScanWidth(rows, 0, 3) == 4;
    var swapped := [[VText("abcd")], [VText("ab")], [Null]];
    assert ScanWidth(swapped, 0, 2) == 2;
    assert ScanWidth(swapped, 0, 3) == 2;
    assert NatToString(4) == "4";
  }

  /** The width scan of one string-typed column: its MaxLength, or the widest value in rows 1 onwards. */
  method MeasureWidth(column: Column, rows: seq<seq<Value>>, i: nat) returns (maxRowLength: int)
    requires forall p :: 0 <= p < |rows| ==> i < |rows[p]|
    ensures maxRowLength == ColumnWidth(column, rows, i)
  {
    if column.maxLength == -1 {
      maxRowLength := ScanRows(rows, i);
    } else {
      maxRowLength := column.maxLength;
    }
  }

  /** The row loop of the width scan: the widest stored value of column `i` from table row 1 on. */
  method ScanRows(rows: seq<seq<Value>>, i: nat) returns (maxRowLength: int)
    requires forall p :: 0 <= p < |rows| ==> i < |rows[p]|
    ensures maxRowLength == ScanWidth(rows, i, |rows|)
  {
    maxRowLength := 0;
    var rowIndex := 1;
    while rowIndex < |rows|
      invariant 1 <= rowIndex && (rowIndex <= |rows| || rowIndex == 1)
      invariant maxRowLength == ScanWidth(rows, i, rowIndex)
    {
      var rowLength := Utf16Length(Display(rows[rowIndex][i]));
      if rowLength > maxRowLength {
        maxRowLength := rowLength;
      }
      rowIndex := rowIndex + 1;
    }
  }

  /** The type text of one column, measuring the width only for NVARCHAR columns. */
  method TypeText(column: Column, rows: seq<seq<Value>>, i: nat) returns (typeText: string)
    requires forall p :: 0 <= p < |rows| ==> i < |rows[p]|
    ensures typeText == SqlType(column.dataType, ColumnWidth(column, rows, i))
  {
    var columnType := column.dataType;
    if columnType == Int32 {
      typeText := " INT";
    } else if columnType == Int64 {
      typeText := " BIGINT";
    } else if columnType == Int16 {
      typeText := " SMALLINT";
    } else if columnType == Byte {
      typeText := " TINYINT";
    } else if columnType == Decimal {
      typeText := " DECIMAL";
    } else if columnType == Double {
      typeText := " FLOAT";
    } else if columnType == DateTime {
      typeText := " DATETIME";
    } else {
      // String and every other type (CreateTableSQL has two identical branches here)
      var maxRowLength := MeasureWidth(column, rows, i);
      var maxRowLengthString := if maxRowLength > 0 && maxRowLength < 4000 then IntToString(maxRowLength) else "MAX";
      typeText := " NVARCHAR(" + maxRowLengthString + ")";
    }
  }

  /** The line for column `i` of the table. */
  method DefineColumn(column: Column, rows: seq<seq<Value>>, i: nat) returns (line: string)
    requires forall p :: 0 <= p < |rows| ==> i < |rows[p]|
    ensures line == ColumnDefinition(column, ColumnWidth(column, rows, i))
  {
    var typeText := TypeText(column, rows, i);
    var options := OptionsText(column);
    line := "\n [" + column.name + "]" + typeText + options + ",";
  }

  /** The IDENTITY and NOT NULL options appended after the type. */
  method OptionsText(column: Column) returns (options: string)
    ensures options == ColumnOptions(column)
  {
    options := "";
    if column.autoIncrement {
      options := options + " IDENTITY(" + IntToString(column.autoIncrementSeed) + "," + IntToString(column.autoIncrementStep) + ")";
    }
    if !column.allowDBNull {
      options := options + " NOT NULL";
    }
  }

  /** The drop statement and the opening of the create statement. */
  method OpenStatements(tableName: string) returns (sqlsc: string)
    ensures sqlsc == StatementPrefix(tableName)
  {
    sqlsc := "\n DROP TABLE IF EXISTS [" + tableName + "];";
    sqlsc := sqlsc + "\n CREATE TABLE [" + tableName + "] (";
  }

  /** The column loop: `head` followed by the line of every column, in column order. */
  method AppendColumnLines(head: string, columns: seq<Column>, rows: seq<seq<Value>>) returns (sqlsc: string)
    requires WellShaped(columns, rows)
    ensures sqlsc == Appended(head, ColumnLines(columns, rows), |columns|)
  {
    sqlsc := head;
    ghost var lines := ColumnLines(columns, rows);
    for i := 0 to |columns|
      invariant sqlsc == Appended(head, lines, i)
    {
      sqlsc := AppendColumnLine(sqlsc, columns, rows, i);
    }
  }

  /** One pass of the column loop: the line of column `i` appended to the text so far. */
  method AppendColumnLine(sqlsc: string, columns: seq<Column>, rows: seq<seq<Value>>, i: nat) returns (extended: string)
    requires WellShaped(columns, rows) && i < |columns|
    ensures extended == sqlsc + ColumnLines(columns, rows)[i]
  {
    var line := DefineColumn(columns[i], rows, i);
    ColumnLineAt(columns, rows, i);
    extended := sqlsc + line;
  }

  /** `CreateTableSQL(tableName, table)`. */
  method CreateTableSql(tableName: string, table: Table) returns (sqlsc: string)
    requires table.Valid()
    ensures sqlsc == CreateTableText(tableName, table.columns, table.rows)
  {
    var columns := table.columns;
    var rows := table.rows;
    assert WellShaped(columns, rows);
    var head := OpenStatements(tableName);
    sqlsc := AppendColumnLines(head, columns, rows);
    sqlsc := sqlsc[..|sqlsc| - 1] + "\n)";
  }
}
