/**
 * The spreadsheet as the importer sees it through NPOI: cells with a cell
 * type, rows holding (column index, cell) entries, and a sheet of rows of
 * which some are absent.
 */
module Sheet {
  import opened Options

  /**
   * A numeric payload (a double, or the date it denotes when the cell has a
   * date format). Only its two culture-dependent renderings matter to the
   * core: Double.ToString() and DateTime.ToString().
   */
  datatype Payload = Payload(numberText: string, dateText: string)

  /** The cached result of a formula cell (CachedFormulaResultType). */
  datatype Cached =
    | CachedBlank
    | CachedBool(b: bool)
    | CachedString(s: string)
    | CachedNumeric(payload: Payload)
    | CachedError

  /**
   * A raw cell. `dateFormatted` is what HSSFDateUtil.IsCellDateFormatted
   * answers for the cell. `Other` stands for every further cell type
   * (an error cell, for one): NPOI has no string value for it.
   */
  datatype Cell =
    | Blank
    | Bool(b: bool)
    | Str(s: string)
    | Numeric(dateFormatted: bool, payload: Payload)
    | Formula(text: string, cached: Cached, dateFormatted: bool)
    | Other

  /** One physical cell of a row: `cell.ColumnIndex` and the cell. */
  datatype Entry = Entry(col: nat, cell: Cell)

  /** `row.Cells`: the physical cells of a row, in the order NPOI yields them. */
  type SheetRow = seq<Entry>

  /** The rows 0..LastRowNum; `None` is a row for which GetRow returns null. */
  type Sheet = seq<Option<SheetRow>>

  /** NPOI keeps one cell per column, in increasing column order. */
  predicate WellFormedRow(cells: SheetRow)
  {
    forall i, j :: 0 <= i < j < |cells| ==> cells[i].col < cells[j].col
  }

  /** `sheet.GetRow(rowIndex)`: null past the last row. */
  function GetRow(sheet: Sheet, rowIndex: nat): (r: Option<SheetRow>)
    ensures rowIndex >= |sheet| ==> r == None
    ensures rowIndex < |sheet| ==> r == sheet[rowIndex]
  {
    if rowIndex < |sheet| then sheet[rowIndex] else None
  }

  /**
   * `row.GetCell(col)`: the cell stored at column `col`, or null. Defined
   * as the last entry with that index, which is also what a sequence of
   * slot writes in row order leaves behind.
   */
  function GetCell(cells: SheetRow, col: nat): (r: Option<Cell>)
    ensures r.Some? ==> exists k :: 0 <= k < |cells| && cells[k] == Entry(col, r.value)
  {
    if cells == [] then None
    else if cells[|cells| - 1].col == col then
      assert cells[|cells| - 1] == Entry(col, cells[|cells| - 1].cell);
      Some(cells[|cells| - 1].cell)
    else
      var r := GetCell(cells[..|cells| - 1], col);
      if r.Some? then
        var k :| 0 <= k < |cells| - 1 && cells[..|cells| - 1][k] == Entry(col, r.value);
        assert cells[k] == Entry(col, r.value);
        r
      else r
  }

  /** `row?.GetCell(col)` on a row that may itself be absent. */
  function CellAt(row: Option<SheetRow>, col: nat): Option<Cell>
  {
    match row
    case None => None
    case Some(cells) => GetCell(cells, col)
  }

  /** In a well-formed row, GetCell finds exactly the entry stored at that column. */
  lemma {:induction false} GetCellExact(cells: SheetRow, col: nat, x: Cell)
    requires WellFormedRow(cells)
    ensures GetCell(cells, col) == Some(x) <==> exists k :: 0 <= k < |cells| && cells[k] == Entry(col, x)
  {
    if exists k :: 0 <= k < |cells| && cells[k] == Entry(col, x) {
      var k :| 0 <= k < |cells| && cells[k] == Entry(col, x);
      var n := |cells| - 1;
      if k < n {
        assert cells[n].col != col;
        assert cells[..n][k] == Entry(col, x);
        GetCellExact(cells[..n], col, x);
      }
    }
  }

  /** GetCell is null exactly when no entry of the row has that column index. */
  lemma {:induction false} GetCellAbsent(cells: SheetRow, col: nat)
    ensures GetCell(cells, col) == None <==> forall k :: 0 <= k < |cells| ==> cells[k].col != col
  {
    if cells != [] {
      var n := |cells| - 1;
      GetCellAbsent(cells[..n], col);
      assert forall k :: 0 <= k < n ==> cells[..n][k] == cells[k];
    }
  }

  /**
   * `cell.StringCellValue`: the text NPOI gives for a string, blank or
   * string-cached formula cell; `None` where NPOI throws (a boolean,
   * numeric or error cell, a formula whose cached result is not a string).
   */
  function StringCellValue(c: Cell): (r: Option<string>)
    ensures r.None? <==> (c.Bool? || c.Numeric? || c.Other? || (c.Formula? && !c.cached.CachedString?))
    ensures c.Str? ==> r == Some(c.s)
    ensures c.Blank? ==> r == Some("")
    ensures c.Formula? && c.cached.CachedString? ==> r == Some(c.cached.s)
  {
    match c
    case Blank => Some("")
    case Bool(_) => None
    case Str(s) => Some(s)
    case Numeric(_, _) => None
    case Formula(_, cached, _) => if cached.CachedString? then Some(cached.s) else None
    case Other => None
  }
}
