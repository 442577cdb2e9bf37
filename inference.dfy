/**
 * Header type inference: each header cell's column type is voted on by the
 * cells in the same column of sheet rows 1 and 2, and the two votes are
 * reconciled into one type.
 */
module Inference {
  import opened Options
  import opened Sheet

  /**
   * The .NET types a DataTable column can carry that the DDL generator
   * distinguishes; `OtherClrType` is any further type. Header inference
   * only ever yields the first four.
   */
  datatype ClrType =
    | Boolean | String | Double | DateTime
    | Int32 | Int64 | Int16 | Byte | Decimal
    | OtherClrType

  /** The types a sample can vote for. */
  predicate IsVoteType(t: ClrType)
  {
    t == Boolean || t == String || t == Double || t == DateTime
  }

  /** A formula whose text is a boolean literal call. */
  predicate IsBooleanLiteralFormula(text: string)
  {
    text == "TRUE()" || text == "FALSE()"
  }

  /**
   * The vote of one sample cell (`cellType2[i]`): `None` is no vote.
   */
  function SampleVote(sample: Option<Cell>): (v: Option<ClrType>)
    ensures v.Some? ==> IsVoteType(v.value)
    // No vote exactly for an absent or blank cell, or a formula whose cached result is blank or an error.
    ensures v.None? <==>
      match sample
      case None => true
      case Some(c) => c.Blank? || (c.Formula? && (c.cached.CachedBlank? || c.cached.CachedError?))
    // A Boolean vote comes from a boolean cell, a boolean cached result, or a non-date numeric TRUE()/FALSE() formula.
    ensures v == Some(Boolean) <==>
      match sample
      case None => false
      case Some(c) =>
        c.Bool? ||
        (c.Formula? && (c.cached.CachedBool? ||
                        (c.cached.CachedNumeric? && !c.dateFormatted && IsBooleanLiteralFormula(c.text))))
    // A DateTime vote comes only from a date-formatted numeric value.
    ensures v == Some(DateTime) <==>
      match sample
      case None => false
      case Some(c) => (c.Numeric? || (c.Formula? && c.cached.CachedNumeric?)) && c.dateFormatted
    // A String vote comes from a string cell, a string cached result, or any further cell type.
    ensures v == Some(String) <==>
      match sample
      case None => false
      case Some(c) => c.Str? || c.Other? || (c.Formula? && c.cached.CachedString?)
    // A Double vote comes from a numeric value without date format, unless it is a TRUE()/FALSE() formula.
    ensures v == Some(Double) <==>
      match sample
      case None => false
      case Some(c) =>
        (c.Numeric? && !c.dateFormatted) ||
        (c.Formula? && c.cached.CachedNumeric? && !c.dateFormatted && !IsBooleanLiteralFormula(c.text))
  {
    match sample
    case None => None
    case Some(c) =>
      match c
      case Blank => None
      case Bool(_) => Some(Boolean)
      case Str(_) => Some(String)
      case Numeric(dateFormatted, _) => if dateFormatted then Some(DateTime) else Some(Double)
      case Formula(text, cached, dateFormatted) =>
        (match cached
        case CachedBool(_) => Some(Boolean)
        case CachedString(_) => Some(String)
        case CachedNumeric(_) =>
          if dateFormatted then Some(DateTime)
          else if text == "TRUE()" then Some(Boolean)
          else if text == "FALSE()" then Some(Boolean)
          else Some(Double)
        case CachedBlank => None
        case CachedError => None)
      case Other => Some(String)
  }

  /**
   * The column type from the two votes (`cellType` after the resolution
   * step). `None` when neither sample voted: the program then has no type name.
   */
  function Reconcile(v0: Option<ClrType>, v1: Option<ClrType>): (t: Option<ClrType>)
    ensures v0 == v1 ==> t == v0
    ensures v0.None? && v1.Some? ==> t == v1
    ensures v0.Some? && v1.None? ==> t == v0
    ensures v0.Some? && v1.Some? && v0 != v1 ==> t == Some(String)
  {
    if v0 == v1 then v0
    else
      var afterFirst := if v0.None? then v1 else None;
      var afterSecond := if v1.None? then v0 else afterFirst;
      if afterSecond.None? then Some(String) else afterSecond
  }

  /** The type of a header column at sheet column `col`, sampled from sheet rows 1 and 2. */
  function HeaderType(row1: Option<SheetRow>, row2: Option<SheetRow>, col: nat): Option<ClrType>
  {
    Reconcile(SampleVote(CellAt(row1, col)), SampleVote(CellAt(row2, col)))
  }

  /**
   * The two-iteration sample loop: `cellType2[i]` is the vote of the cell at
   * column `col` of sheet row 1 (for i = 0) or sheet row 2 (for i = 1).
   */
  method SampleVotes(row1: Option<SheetRow>, row2: Option<SheetRow>, col: nat)
    returns (cellType2: seq<Option<ClrType>>)
    ensures |cellType2| == 2
    ensures cellType2[0] == SampleVote(CellAt(row1, col))
    ensures cellType2[1] == SampleVote(CellAt(row2, col))
  {
    cellType2 := [None, None];
    for i := 0 to 2
      invariant |cellType2| == 2
      invariant i > 0 ==> cellType2[0] == SampleVote(CellAt(row1, col))
      invariant i > 1 ==> cellType2[1] == SampleVote(CellAt(row2, col))
    {
      var sample := if i == 0 then CellAt(row1, col) else CellAt(row2, col);
      cellType2 := cellType2[i := SampleVote(sample)];
    }
  }

  /** Reconciliation does not depend on which sample row voted which way. */
  lemma ReconcileSymmetric(v0: Option<ClrType>, v1: Option<ClrType>)
    ensures Reconcile(v0, v1) == Reconcile(v1, v0)
  {
  }

  /** A column has a type exactly when at least one sample voted, and then it is a vote type. */
  lemma ReconcileTyped(v0: Option<ClrType>, v1: Option<ClrType>)
    requires v0.Some? ==> IsVoteType(v0.value)
    requires v1.Some? ==> IsVoteType(v1.value)
    ensures Reconcile(v0, v1).Some? <==> (v0.Some? || v1.Some?)
    ensures Reconcile(v0, v1).Some? ==> IsVoteType(Reconcile(v0, v1).value)
  {
  }

  /** A numeric TRUE() formula votes Boolean in the header, whatever its cached number. */
  lemma TrueFormulaVotesBoolean(p: Payload)
    ensures SampleVote(Some(Formula("TRUE()", CachedNumeric(p), false))) == Some(Boolean)
    ensures SampleVote(Some(Formula("SUM(A1)", CachedNumeric(p), false))) == Some(Double)
  {
  }

  /** Header scenario: Alice/Bob rows give Score a String type, Active Boolean, Joined DateTime. */
  lemma MixedScoreColumnIsString(p: Payload, q: Payload, r: Payload)
    ensures Reconcile(SampleVote(Some(Numeric(false, p))), SampleVote(Some(Str("N/A")))) == Some(String)
    ensures Reconcile(SampleVote(Some(Bool(true))), SampleVote(Some(Bool(false)))) == Some(Boolean)
    ensures Reconcile(SampleVote(Some(Numeric(true, q))), SampleVote(Some(Numeric(true, r)))) == Some(DateTime)
    ensures Reconcile(SampleVote(Some(Numeric(true, q))), SampleVote(None)) == Some(DateTime)
  {
  }
}
