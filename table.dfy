/**
 * The in-memory table the sheet loop builds (a DataTable): the header row
 * defines the columns, every later present row becomes a row with one slot
 * per column.
 */
module Tables {
  import opened Options
  import opened Sheet
  import opened Inference
  import opened Cells
  import opened Naming

  /** A DataColumn: the properties the DDL generator reads. */
  datatype Column = Column(
    name: string,
    dataType: ClrType,
    maxLength: int,
    autoIncrement: bool,
    autoIncrementSeed: int,
    autoIncrementStep: int,
    allowDBNull: bool)

  /** A column as `new DataColumn(name, type)` creates it. */
  function DefaultColumn(name: string, t: ClrType): (c: Column)
    ensures c.name == name && c.dataType == t
    ensures c.maxLength == -1 && !c.autoIncrement && c.allowDBNull
  {
    Column(name, t, -1, false, 0, 1, true)
  }

  /**
   * Why a load stops: a header column for which neither sample voted, or a
   * cell of a data row that cannot be classified (`rowIndex` is its sheet
   * row, `col` its column index).
   */
  datatype ImportError =
    | NoColumnType(colIndex: nat)
    | ErrorCell(rowIndex: nat, col: nat)

  function Names(columns: seq<Column>): (names: seq<string>)
    ensures |names| == |columns|
    ensures forall k :: 0 <= k < |columns| ==> names[k] == columns[k].name
  {
    seq(|columns|, k requires 0 <= k < |columns| => columns[k].name)
  }

  /** Every row has a slot for every column. */
  predicate WellShaped(columns: seq<Column>, rows: seq<seq<Value>>)
  {
    forall p :: 0 <= p < |rows| ==> |rows[p]| == |columns|
  }

  /** A row of `n` nulls (`table.NewRow()`). */
  function NullRow(n: nat): (r: seq<Value>)
    ensures |r| == n && forall j :: 0 <= j < n ==> r[j] == Null
  {
    seq(n, j => Null)
  }

  /** Every row widened by a null slot, as adding a column does. */
  function Widen(rows: seq<seq<Value>>): (r: seq<seq<Value>>)
    ensures |r| == |rows|
    ensures forall k :: 0 <= k < |rows| ==> r[k] == rows[k] + [Null]
  {
    seq(|rows|, k requires 0 <= k < |rows| => rows[k] + [Null])
  }

  /**
   * What slot `j` of a data row holds: the value of the row's cell at
   * column j, or null. (A cell that cannot be classified is given null
   * here, but a row holding one is never built: see FirstErrorCell.)
   */
  function SlotValue(cells: SheetRow, j: nat): Value
  {
    match GetCell(cells, j)
    case None => Null
    case Some(c) =>
      match CellValue(c)
      case None => Null
      case Some(v) => v
  }

  /** The column index of the first cell, in row order, that cannot be classified. */
  function FirstErrorCell(cells: SheetRow): Option<nat>
  {
    if cells == [] then None
    else
      match FirstErrorCell(cells[..|cells| - 1])
      case Some(col) => Some(col)
      case None =>
        if cells[|cells| - 1].cell.Other? then Some(cells[|cells| - 1].col) else None
  }

  /**
   * FirstErrorCell is null exactly when every cell can be classified, and
   * otherwise names the column of the first cell that cannot.
   */
  lemma {:induction false} FirstErrorCellIsFirst(cells: SheetRow)
    ensures FirstErrorCell(cells).None? <==> forall k :: 0 <= k < |cells| ==> CellValue(cells[k].cell).Some?
    ensures FirstErrorCell(cells).Some? ==>
      exists k :: 0 <= k < |cells| && cells[k].col == FirstErrorCell(cells).value && cells[k].cell.Other? &&
        forall j :: 0 <= j < k ==> !cells[j].cell.Other?
  {
    if cells != [] {
      var n := |cells| - 1;
      FirstErrorCellIsFirst(cells[..n]);
      assert forall k :: 0 <= k < n ==> cells[..n][k] == cells[k];
      if FirstErrorCell(cells[..n]).Some? {
        var k :| 0 <= k < n && cells[..n][k].col == FirstErrorCell(cells[..n]).value && cells[..n][k].cell.Other? &&
          forall j :: 0 <= j < k ==> !cells[..n][j].cell.Other?;
        assert cells[k] == cells[..n][k];
      }
    }
  }

  /** Once a prefix of the row holds a cell that cannot be classified, that cell stays the first. */
  lemma {:induction false} FirstErrorCellPrefix(cells: SheetRow, k: nat)
    requires k <= |cells| && FirstErrorCell(cells[..k]).Some?
    ensures FirstErrorCell(cells) == FirstErrorCell(cells[..k])
    decreases |cells|
  {
    if k < |cells| {
      var n := |cells| - 1;
      assert cells[..n][..k] == cells[..k];
      FirstErrorCellPrefix(cells[..n], k);
    } else {
      assert cells[..k] == cells;
    }
  }

  /** The data row built from a sheet row for a table of `n` columns. */
  function RowSlots(cells: SheetRow, n: nat): (r: seq<Value>)
    ensures |r| == n
    ensures forall j :: 0 <= j < n ==> r[j] == SlotValue(cells, j)
  {
    seq(n, j requires 0 <= j < n => SlotValue(cells, j))
  }

  /** The type each header cell gets from its two samples, in header order. */
  function HeaderTypes(cells: SheetRow, row1: Option<SheetRow>, row2: Option<SheetRow>): (types: seq<Option<ClrType>>)
    ensures |types| == |cells|
  {
    seq(|cells|, k requires 0 <= k < |cells| => HeaderType(row1, row2, cells[k].col))
  }

  /** Header cell k is typed by the samples below it in rows 1 and 2, and only ever with a vote type. */
  lemma HeaderTypesAt(cells: SheetRow, row1: Option<SheetRow>, row2: Option<SheetRow>, k: nat)
    requires k < |cells|
    ensures HeaderTypes(cells, row1, row2)[k] == HeaderType(row1, row2, cells[k].col)
    ensures HeaderTypes(cells, row1, row2)[k].Some? ==> IsVoteType(HeaderTypes(cells, row1, row2)[k].value)
  {
    ReconcileTyped(SampleVote(CellAt(row1, cells[k].col)), SampleVote(CellAt(row2, cells[k].col)));
  }

  /** The column a header cell with type `t` adds after the columns `done`, or `None` when it has no type. */
  function HeaderColumn(cell: Entry, t: Option<ClrType>, done: seq<Column>): Option<Column>
  {
    var colIndex := |done|;
    match t
    case None => None
    case Some(t) => Some(DefaultColumn(DedupName(Names(done), HeaderName(cell.cell, colIndex), colIndex), t))
  }

  /**
   * The columns the header cells `cells`, typed by `types`, add to the
   * columns `done` already present, or the error for the first header cell
   * without a type.
   */
  function HeaderColumns(cells: SheetRow, types: seq<Option<ClrType>>, done: seq<Column>)
    : (r: Result<seq<Column>, ImportError>)
    requires |types| == |cells|
    decreases |cells|
    // one column per header cell, after the columns already present
    ensures r.Success? ==> |r.value| == |done| + |cells| && r.value[..|done|] == done
  {
    if cells == [] then Success(done)
    else
      match HeaderColumn(cells[0], types[0], done)
      case None => Failure(NoColumnType(|done|))
      case Some(c) =>
        var r := HeaderColumns(cells[1..], types[1..], done + [c]);
        if r.Success? then
          assert r.value[..|done| + 1][..|done|] == r.value[..|done|];
          r
        else r
  }

  /**
   * The scan fails exactly when some header cell has no type, and then
   * names the position of the first such cell.
   */
  lemma {:induction false} HeaderColumnsFailure(cells: SheetRow, types: seq<Option<ClrType>>, done: seq<Column>)
    requires |types| == |cells|
    ensures HeaderColumns(cells, types, done).Failure? <==> exists k :: 0 <= k < |types| && types[k].None?
    ensures var r := HeaderColumns(cells, types, done);
      r.Failure? ==>
        r.error.NoColumnType? &&
        var e := r.error.colIndex - |done|;
        0 <= e < |types| && types[e].None? && forall j :: 0 <= j < e ==> types[j].Some?
    decreases |cells|
  {
    if cells != [] && types[0].Some? {
      var c0 := HeaderColumn(cells[0], types[0], done).value;
      HeaderColumnsFailure(cells[1..], types[1..], done + [c0]);
      assert forall k :: 1 <= k < |types| ==> types[1..][k - 1] == types[k];
    }
  }

  /**
   * Each header cell, in order, gives the column at its position: of its
   * type, with default properties, and named by its header text after the
   * collision scan over the columns before it, with its position as
   * `colIndex`.
   */
  lemma {:induction false} HeaderColumnsAt(cells: SheetRow, types: seq<Option<ClrType>>, done: seq<Column>, k: nat)
    requires |types| == |cells| && k < |cells| && HeaderColumns(cells, types, done).Success?
    ensures var cols := HeaderColumns(cells, types, done).value;
      var c := cols[|done| + k];
      var colIndex := |done| + k;
      && types[k] == Some(c.dataType)
      && c == DefaultColumn(DedupName(Names(cols[..colIndex]), HeaderName(cells[k].cell, colIndex), colIndex), c.dataType)
    decreases |cells|
  {
    var cols := HeaderColumns(cells, types, done).value;
    var c0 := HeaderColumn(cells[0], types[0], done).value;
    var rest := HeaderColumns(cells[1..], types[1..], done + [c0]);
    assert rest.value[..|done| + 1][|done|] == c0;
    if k == 0 {
      assert cols[..|done| + 0] == done;
    } else {
      HeaderColumnsAt(cells[1..], types[1..], done + [c0], k - 1);
      assert cells[1..][k - 1] == cells[k] && types[1..][k - 1] == types[k];
      assert |done + [c0]| + (k - 1) == |done| + k;
    }
  }

  /**
   * Two header cells at different positions that offer the same name, and
   * both find it taken, end up as columns with different names.
   */
  lemma RenamedHeaderColumnsDiffer(cells: SheetRow, types: seq<Option<ClrType>>, k1: nat, k2: nat, name: string)
    requires |types| == |cells| && k1 < k2 < |cells| && HeaderColumns(cells, types, []).Success?
    requires HeaderName(cells[k1].cell, k1) == name && HeaderName(cells[k2].cell, k2) == name
    requires var cols := HeaderColumns(cells, types, []).value;
      name in Names(cols[..k1]) && name in Names(cols[..k2])
    ensures var cols := HeaderColumns(cells, types, []).value;
      cols[k1].name != cols[k2].name
  {
    var cols := HeaderColumns(cells, types, []).value;
    HeaderColumnsAt(cells, types, [], k1);
    HeaderColumnsAt(cells, types, [], k2);
    RenamedNamesDiffer(Names(cols[..k1]), Names(cols[..k2]), name, k1, k2);
  }

  /** The columns of a sheet: from its header row 0, sampling rows 1 and 2; none when row 0 is absent. */
  function SheetColumns(sheet: Sheet): Result<seq<Column>, ImportError>
  {
    match GetRow(sheet, 0)
    case None => Success([])
    case Some(cells) => HeaderColumns(cells, HeaderTypes(cells, GetRow(sheet, 1), GetRow(sheet, 2)), [])
  }

  /**
   * Header columns come from sheet rows 0, 1 and 2 only: sheets that agree
   * on those rows get the same columns, whatever their later rows hold.
   */
  lemma SheetColumnsReadsThreeRows(sheet: Sheet, other: Sheet)
    requires forall i :: 0 <= i < 3 ==> GetRow(sheet, i) == GetRow(other, i)
    ensures SheetColumns(sheet) == SheetColumns(other)
  {
    assert GetRow(sheet, 0) == GetRow(other, 0);
    assert GetRow(sheet, 1) == GetRow(other, 1);
    assert GetRow(sheet, 2) == GetRow(other, 2);
  }

  /**
   * The error for the first present sheet row among 1..k-1 holding a cell
   * that cannot be classified, or null when every such row can be built.
   */
  function FirstBadRow(sheet: Sheet, k: nat): Option<ImportError>
    requires k <= |sheet|
  {
    if k <= 1 then None
    else
      match FirstBadRow(sheet, k - 1)
      case Some(e) => Some(e)
      case None =>
        match sheet[k - 1]
        case None => None
        case Some(cells) =>
          match FirstErrorCell(cells)
          case None => None
          case Some(col) => Some(ErrorCell(k - 1, col))
  }

  /**
   * The load of rows 1..k-1 aborts exactly when some present row holds a
   * cell that cannot be classified, and then on the first such row, at
   * its first such cell.
   */
  lemma {:induction false} FirstBadRowIsFirst(sheet: Sheet, k: nat)
    requires k <= |sheet|
    ensures FirstBadRow(sheet, k).None? <==>
      forall i :: 1 <= i < k && sheet[i].Some? ==> FirstErrorCell(sheet[i].value).None?
    ensures var e := FirstBadRow(sheet, k);
      e.Some? ==>
        && e.value.ErrorCell? && 1 <= e.value.rowIndex < k && sheet[e.value.rowIndex].Some?
        && FirstErrorCell(sheet[e.value.rowIndex].value) == Some(e.value.col)
        && forall i :: 1 <= i < e.value.rowIndex && sheet[i].Some? ==> FirstErrorCell(sheet[i].value).None?
  {
    if k > 1 {
      FirstBadRowIsFirst(sheet, k - 1);
    }
  }

  /** Once the rows before k abort the load, later rows do not change the error. */
  lemma {:induction false} FirstBadRowPrefix(sheet: Sheet, j: nat, k: nat)
    requires j <= k <= |sheet| && FirstBadRow(sheet, j).Some?
    ensures FirstBadRow(sheet, k) == FirstBadRow(sheet, j)
  {
    if j < k {
      FirstBadRowPrefix(sheet, j, k - 1);
    }
  }

  /** The data rows built from the sheet rows 1..k-1 that are present. */
  function DataRows(sheet: Sheet, k: nat, n: nat): (r: seq<seq<Value>>)
    requires k <= |sheet|
    ensures forall p :: 0 <= p < |r| ==> |r[p]| == n
    ensures |r| <= k
  {
    if k <= 1 then []
    else
      DataRows(sheet, k - 1, n) +
      match sheet[k - 1]
      case None => []
      case Some(cells) => [RowSlots(cells, n)]
  }

  /** In a well-formed row, each slot holds the value of the cell stored at that column, and null when there is none. */
  lemma RowSlotsExact(cells: SheetRow, n: nat, j: nat)
    requires WellFormedRow(cells) && j < n
    ensures forall k :: 0 <= k < |cells| && cells[k].col == j && !cells[k].cell.Other? ==>
      CellValue(cells[k].cell) == Some(RowSlots(cells, n)[j])
    ensures (forall k :: 0 <= k < |cells| ==> cells[k].col != j) ==> RowSlots(cells, n)[j] == Null
  {
    forall k | 0 <= k < |cells| && cells[k].col == j && !cells[k].cell.Other?
      ensures CellValue(cells[k].cell) == Some(RowSlots(cells, n)[j])
    {
      GetCellExact(cells, j, cells[k].cell);
    }
    GetCellAbsent(cells, j);
  }

  /** The rows built up to sheet row k are a prefix of those built up to any later row. */
  lemma {:induction false} DataRowsPrefix(sheet: Sheet, j: nat, k: nat, n: nat)
    requires j <= k <= |sheet|
    ensures DataRows(sheet, j, n) <= DataRows(sheet, k, n)
  {
    if j < k {
      DataRowsPrefix(sheet, j, k - 1, n);
    }
  }

  /** A present sheet row k >= 1 lands right after the rows built before it: rows keep sheet order. */
  lemma DataRowsOrder(sheet: Sheet, k: nat, n: nat)
    requires 1 <= k < |sheet| && sheet[k].Some?
    ensures |DataRows(sheet, k, n)| < |DataRows(sheet, |sheet|, n)|
    ensures DataRows(sheet, |sheet|, n)[|DataRows(sheet, k, n)|] == RowSlots(sheet[k].value, n)
  {
    var row := RowSlots(sheet[k].value, n);
    assert DataRows(sheet, k + 1, n) == DataRows(sheet, k, n) + [row];
    DataRowsPrefix(sheet, k + 1, |sheet|, n);
    NextAfterPrefix(DataRows(sheet, k, n), row, DataRows(sheet, |sheet|, n));
  }

  /** An element that follows a prefix sits at the prefix's length. */
  lemma NextAfterPrefix<T>(before: seq<T>, x: T, all: seq<T>)
    requires before + [x] <= all
    ensures |before| < |all| && all[|before|] == x
  {
    assert (before + [x])[|before|] == x;
  }

  /** Every data row comes from a present sheet row other than row 0. */
  lemma {:induction false} DataRowsOrigin(sheet: Sheet, k: nat, n: nat, p: nat)
    requires k <= |sheet| && p < |DataRows(sheet, k, n)|
    ensures exists i :: 1 <= i < k && sheet[i].Some? && DataRows(sheet, k, n)[p] == RowSlots(sheet[i].value, n)
  {
    var prefix := DataRows(sheet, k - 1, n);
    if p < |prefix| {
      DataRowsOrigin(sheet, k - 1, n, p);
      var i :| 1 <= i < k - 1 && sheet[i].Some? && prefix[p] == RowSlots(sheet[i].value, n);
      assert DataRows(sheet, k, n)[p] == prefix[p];
    } else {
      assert DataRows(sheet, k, n)[p] == RowSlots(sheet[k - 1].value, n);
    }
  }

  /** An absent sheet row adds no data row. */
  lemma DataRowsSkipAbsent(sheet: Sheet, k: nat, n: nat)
    requires 1 <= k < |sheet| && sheet[k].None?
    ensures DataRows(sheet, k + 1, n) == DataRows(sheet, k, n)
  {
  }

  /** The header row never contributes a data row: the rows do not depend on sheet row 0. */
  lemma {:induction false} DataRowsIgnoreHeader(sheet: Sheet, header: Option<SheetRow>, k: nat, n: nat)
    requires 0 < |sheet| && k <= |sheet|
    ensures DataRows(sheet[0 := header], k, n) == DataRows(sheet, k, n)
  {
    if k > 1 {
      DataRowsIgnoreHeader(sheet, header, k - 1, n);
      assert sheet[0 := header][k - 1] == sheet[k - 1];
    }
  }

  /** The DataTable under construction. */
  class Table {
    var name: string
    var columns: seq<Column>
    var rows: seq<seq<Value>>

    /** Every row has one slot per column. */
    ghost predicate Valid()
      reads this
    {
      WellShaped(columns, rows)
    }

    /** `new DataTable(sheetName)`. */
    constructor (sheetName: string)
      ensures Valid()
      ensures name == sheetName && columns == [] && rows == []
    {
      name := sheetName;
      columns := [];
      rows := [];
    }

    /** `table.Columns.Add(column)`: existing rows get a null slot for it. */
    method AddColumn(c: Column)
      requires Valid()
      modifies this
      ensures Valid()
      ensures columns == old(columns) + [c]
      ensures rows == Widen(old(rows))
      ensures name == old(name)
    {
      columns := columns + [c];
      rows := Widen(rows);
    }

    /** `table.Rows.Add(row)`. */
    method AddRow(r: seq<Value>)
      requires Valid() && |r| == |columns|
      modifies this
      ensures Valid()
      ensures rows == old(rows) + [r]
      ensures columns == old(columns) && name == old(name)
    {
      rows := rows + [r];
    }

    /**
     * The collision scan over the existing columns, in order: each column
     * named like the current name appends `_<colIndex>`.
     */
    method UniqueName(candidate: string, colIndex: nat) returns (colName: string)
      ensures colName == DedupName(Names(columns), candidate, colIndex)
      ensures candidate !in Names(columns) ==> colName == candidate
    {
      var names := Names(columns);
      colName := candidate;
      var k := 0;
      while k < |columns|
        invariant 0 <= k <= |columns|
        invariant colName == DedupName(names[..k], candidate, colIndex)
      {
        assert names[..k + 1][..k] == names[..k];
        if columns[k].name == colName {
          colName := colName + Suffix(colIndex);
        }
        k := k + 1;
      }
      assert names[..|columns|] == names;
      if candidate !in names {
        DedupKeepsFreshName(names, candidate, colIndex);
      }
    }

    /**
     * A data row: a fresh row of nulls, then every cell of the sheet row
     * stored at its own column index, provided that index is a column of
     * the table. Stops at the first cell that cannot be classified, whatever
     * its column index, and returns that index.
     */
    method BuildRow(cells: SheetRow) returns (tableRow: seq<Value>, errorCol: Option<nat>)
      ensures errorCol == FirstErrorCell(cells)
      ensures errorCol.None? ==> tableRow == RowSlots(cells, |columns|)
    {
      tableRow := NullRow(|columns|);
      var k := 0;
      while k < |cells|
        invariant 0 <= k <= |cells|
        invariant |tableRow| == |columns|
        invariant FirstErrorCell(cells[..k]).None?
        invariant forall j :: 0 <= j < |columns| ==> tableRow[j] == SlotValue(cells[..k], j)
      {
        assert cells[..k + 1][..k] == cells[..k];
        var cell := cells[k];
        var cellValue := CellValue(cell.cell);
        if cellValue.None? {
          errorCol := Some(cell.col);
          FirstErrorCellPrefix(cells, k + 1);
          return;
        }
        if cell.col <= |columns| - 1 {
          tableRow := tableRow[cell.col := cellValue.value];
        }
        k := k + 1;
      }
      assert cells[..|cells|] == cells;
      errorCol := None;
    }

    /** The header row: one column per header cell, typed by the samples in sheet rows 1 and 2. */
    method AddHeaderColumns(cells: SheetRow, row1: Option<SheetRow>, row2: Option<SheetRow>)
      returns (err: Option<ImportError>)
      requires Valid() && columns == [] && rows == []
      modifies this
      ensures Valid() && rows == [] && name == old(name)
      ensures err.None? <==> HeaderColumns(cells, HeaderTypes(cells, row1, row2), []).Success?
      ensures err.None? ==> HeaderColumns(cells, HeaderTypes(cells, row1, row2), []) == Success(columns)
      ensures err.Some? ==> HeaderColumns(cells, HeaderTypes(cells, row1, row2), []) == Failure(err.value)
    {
      ghost var types := HeaderTypes(cells, row1, row2);
      var colIndex := 0;
      var k := 0;
      while k < |cells|
        invariant 0 <= k <= |cells|
        invariant colIndex == |columns| == k
        invariant Valid() && rows == [] && name == old(name)
        invariant HeaderColumns(cells, types, []) == HeaderColumns(cells[k..], types[k..], columns)
      {
        assert cells[k..][1..] == cells[k + 1..] && types[k..][1..] == types[k + 1..];
        var cell := cells[k];
        ghost var expected := HeaderColumn(cell, types[k], columns);
        var cellType := HeaderCellType(row1, row2, cell.col);
        assert types[k] == cellType;
        var colName := UniqueName(HeaderName(cell.cell, colIndex), colIndex);
        if cellType.None? {
          err := Some(NoColumnType(colIndex));
          return;
        }
        assert expected == Some(DefaultColumn(colName, cellType.value));
        AddColumn(DefaultColumn(colName, cellType.value));
        colIndex := colIndex + 1;
        k := k + 1;
      }
      err := None;
    }

    /** The sample loop and the resolution step for the header cell at column `col`. */
    static method HeaderCellType(row1: Option<SheetRow>, row2: Option<SheetRow>, col: nat)
      returns (cellType: Option<ClrType>)
      ensures cellType == HeaderType(row1, row2, col)
    {
      var cellType2 := SampleVotes(row1, row2, col);
      cellType := Reconcile(cellType2[0], cellType2[1]);
    }

    /**
     * The sheet loop: row 0 defines the columns, each later present row is
     * appended as a data row, absent rows are skipped. Stops with an error
     * when a header column gets no type or a data row holds a cell that
     * cannot be classified.
     */
    method Load(sheet: Sheet) returns (err: Option<ImportError>)
      modifies this
      ensures Valid() && name == old(name)
      ensures err.None? <==> SheetColumns(sheet).Success? && FirstBadRow(sheet, |sheet|).None?
      ensures SheetColumns(sheet).Failure? ==> err == Some(SheetColumns(sheet).error)
      ensures SheetColumns(sheet).Success? ==> SheetColumns(sheet) == Success(columns) && err == FirstBadRow(sheet, |sheet|)
      ensures err.None? ==> rows == DataRows(sheet, |sheet|, |columns|)
    {
      rows := [];
      columns := [];
      var rowIndex := 0;
      while rowIndex < |sheet|
        invariant 0 <= rowIndex <= |sheet|
        invariant Valid() && name == old(name)
        invariant rowIndex == 0 ==> columns == [] && rows == []
        invariant rowIndex > 0 ==> SheetColumns(sheet) == Success(columns)
        invariant FirstBadRow(sheet, rowIndex).None?
        invariant rows == DataRows(sheet, rowIndex, |columns|)
      {
        var row := GetRow(sheet, rowIndex);
        if row.Some? {
          if rowIndex == 0 {
            var row2 := GetRow(sheet, rowIndex + 1);
            var row3 := GetRow(sheet, rowIndex + 2);
            err := AddHeaderColumns(row.value, row2, row3);
            if err.Some? {
              return;
            }
          } else {
            var tableRow, errorCol := BuildRow(row.value);
            if errorCol.Some? {
              err := Some(ErrorCell(rowIndex, errorCol.value));
              FirstBadRowPrefix(sheet, rowIndex + 1, |sheet|);
              return;
            }
            AddRow(tableRow);
          }
        }
        rowIndex := rowIndex + 1;
      }
      err := None;
    }
  }
}
