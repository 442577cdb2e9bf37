/**
 * Classification of a data cell (any row after the header) into the value
 * stored in the table, and the rule that a value with an empty string form
 * is stored as a database null.
 */
module Cells {
  import opened Options
  import opened Sheet

  /** A value stored in a table slot; `Null` is DBNull (or a null reference). */
  datatype Value =
    | Null
    | VBool(b: bool)
    | VText(s: string)
    | VNumber(payload: Payload)
    | VDate(payload: Payload)

  /** `value.ToString()`: DBNull renders as "", a bool as "True" or "False". */
  function Display(v: Value): string
  {
    match v
    case Null => ""
    case VBool(b) => if b then "True" else "False"
    case VText(s) => s
    case VNumber(p) => p.numberText
    case VDate(p) => p.dateText
  }

  /**
   * `s.Length` in .NET: the number of UTF-16 code units, two for a
   * character outside the Basic Multilingual Plane.
   */
  function Utf16Length(s: string): (n: nat)
    ensures |s| <= n <= 2 * |s|
  {
    if s == [] then 0
    else Utf16Length(s[..|s| - 1]) + (if s[|s| - 1] as int >= 0x1_0000 then 2 else 1)
  }

  /** A text made only of Basic Multilingual Plane characters has one code unit per character. */
  lemma {:induction false} Utf16LengthBmp(s: string)
    requires forall k :: 0 <= k < |s| ==> (s[k] as int) < 0x1_0000
    ensures Utf16Length(s) == |s|
  {
    if s != [] {
      Utf16LengthBmp(s[..|s| - 1]);
    }
  }

  /** A character outside the Basic Multilingual Plane is a surrogate pair: length 2. */
  lemma Utf16LengthPair()
    ensures Utf16Length("\U{1F600}") == 2
    ensures Utf16Length("ab") == 2
  {
    assert "\U{1F600}"[..0] == [];
    assert "ab"[..1] == "a" && "a"[..0] == [];
  }

  /** The value of a numeric (or numeric-cached) cell. */
  function NumericValue(dateFormatted: bool, p: Payload): Value
  {
    if dateFormatted then VDate(p) else VNumber(p)
  }

  /**
   * The cell-type switch of a data cell, before the empty-string rule;
   * `None` for a cell of another type, on which the `default` branch asks
   * NPOI for a string value it does not have.
   */
  function RawValue(c: Cell): Option<Value>
  {
    match c
    case Blank => Some(Null)
    case Bool(b) => Some(VBool(b))
    case Str(s) => Some(VText(s))
    case Numeric(dateFormatted, p) => Some(NumericValue(dateFormatted, p))
    case Formula(_, cached, dateFormatted) =>
      (match cached
       case CachedBlank => Some(Null)
       case CachedString(s) => Some(VText(s))
       case CachedBool(b) => Some(VBool(b))
       case CachedNumeric(p) => Some(NumericValue(dateFormatted, p))
       case CachedError => Some(Null))
    case Other => None
  }

  /** A value whose string form is empty is stored as null. */
  function Normalize(v: Value): (r: Value)
    ensures |Display(r)| == 0 ==> r == Null
    ensures r == Null || r == v
    ensures |Display(v)| > 0 ==> r == v
  {
    if |Display(v)| == 0 then Null else v
  }

  /** The value stored for a data cell, or `None` where classifying it fails. */
  function CellValue(c: Cell): (v: Option<Value>)
    // only a cell of another type cannot be classified
    ensures v.None? <==> c.Other?
    // never an empty, non-null value
    ensures v.Some? && v.value != Null ==> |Display(v.value)| > 0
    ensures v.Some? ==> (v.value == Null <==> |Display(RawValue(c).value)| == 0)
    ensures v.Some? && v.value != Null ==> v == RawValue(c)
  {
    match RawValue(c)
    case None => None
    case Some(raw) => Some(Normalize(raw))
  }

  /** The per-kind outcome of classifying a data cell. */
  lemma CellValueByKind(c: Cell)
    ensures c.Blank? ==> CellValue(c) == Some(Null)
    ensures c.Bool? ==> CellValue(c) == Some(VBool(c.b))
    ensures c.Str? ==> CellValue(c) == Some(if c.s == "" then Null else VText(c.s))
    ensures c.Numeric? && c.dateFormatted && c.payload.dateText != "" ==> CellValue(c) == Some(VDate(c.payload))
    ensures c.Numeric? && !c.dateFormatted && c.payload.numberText != "" ==> CellValue(c) == Some(VNumber(c.payload))
    ensures c.Formula? && (c.cached.CachedBlank? || c.cached.CachedError?) ==> CellValue(c) == Some(Null)
    ensures c.Other? ==> CellValue(c) == None
  {
  }

  /**
   * A formula is classified by its cached result exactly as a plain cell of
   * that kind: there is no TRUE()/FALSE() override for data cells.
   */
  lemma FormulaFollowsCachedResult(text: string, cached: Cached, dateFormatted: bool)
    ensures CellValue(Formula(text, cached, dateFormatted)) ==
      match cached
      case CachedBlank => CellValue(Blank)
      case CachedBool(b) => CellValue(Bool(b))
      case CachedString(s) => CellValue(Str(s))
      case CachedNumeric(p) => CellValue(Numeric(dateFormatted, p))
      case CachedError => Some(Null)
  {
  }

  /** A numeric TRUE() formula in a data row is stored as its number, not as a boolean. */
  lemma TrueFormulaDataIsNumber(p: Payload)
    requires p.numberText != ""
    ensures CellValue(Formula("TRUE()", CachedNumeric(p), false)) == Some(VNumber(p))
  {
  }
}
