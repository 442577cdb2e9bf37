/**
 * Column naming: the header cell's text (or `Column_<colIndex>` when the
 * cell has no text), then one `_<colIndex>` suffix for every existing
 * column, scanned in order, whose name equals the name built so far.
 */
module Naming {
  import opened Options
  import opened Decimal
  import opened Sheet

  /** The suffix `_<colIndex>` appended on a collision. */
  function Suffix(colIndex: nat): string
  {
    "_" + NatToString(colIndex)
  }

  /** Different column positions give different suffixes. */
  lemma SuffixInjective(i: nat, j: nat)
    requires Suffix(i) == Suffix(j)
    ensures i == j
  {
    assert Suffix(i)[1..] == NatToString(i);
    assert Suffix(j)[1..] == NatToString(j);
    NatToStringInjective(i, j);
  }

  /** `s` repeated `m` times. */
  function Repeat(s: string, m: nat): (r: string)
    ensures |r| == m * |s|
  {
    if m == 0 then "" else Repeat(s, m - 1) + s
  }

  /** A positive number of copies of `s` starts with one copy. */
  lemma {:induction false} RepeatFront(s: string, m: nat)
    requires m >= 1
    ensures Repeat(s, m) == s + Repeat(s, m - 1)
  {
    if m > 1 {
      RepeatFront(s, m - 1);
    }
  }

  /**
   * Suffix runs for different positions differ, case where the first
   * position has no more digits than the second: either the digits differ,
   * or the shorter run has '_' where the longer one has a digit.
   */
  lemma SuffixRunsDifferOrdered(i: nat, j: nat, m: nat, n: nat)
    requires i != j && m >= 1 && n >= 1 && |NatToString(i)| <= |NatToString(j)|
    ensures Repeat(Suffix(i), m) != Repeat(Suffix(j), n)
  {
    var a, b := NatToString(i), NatToString(j);
    var si, sj := Suffix(i), Suffix(j);
    var restA, restB := Repeat(si, m - 1), Repeat(sj, n - 1);
    RepeatFront(si, m);
    RepeatFront(sj, n);
    var t, u := Repeat(si, m), Repeat(sj, n);
    if t == u {
      if |a| == |b| {
        assert t[..|si|] == si && u[..|sj|] == sj;
        SuffixInjective(i, j);
      } else {
        assert t == "_" + a + restA && u == "_" + b + restB;
        assert u[1 + |a|] == b[|a|] && IsDigit(b[|a|]);
        RepeatFront(si, m - 1);
      }
    }
  }

  /** Suffix runs appended at different positions never coincide. */
  lemma SuffixRunsDiffer(i: nat, j: nat, m: nat, n: nat)
    requires i != j && m >= 1 && n >= 1
    ensures Repeat(Suffix(i), m) != Repeat(Suffix(j), n)
  {
    if |NatToString(i)| <= |NatToString(j)| {
      SuffixRunsDifferOrdered(i, j, m, n);
    } else {
      SuffixRunsDifferOrdered(j, i, n, m);
    }
  }

  /** The name a header cell offers before the collision scan. */
  function HeaderName(cell: Cell, colIndex: nat): (name: string)
    ensures StringCellValue(cell).Some? ==> name == StringCellValue(cell).value
    ensures StringCellValue(cell).None? ==> name == "Column_" + NatToString(colIndex)
  {
    match StringCellValue(cell)
    case Some(s) => s
    case None => "Column_" + NatToString(colIndex)
  }

  /**
   * The name after scanning the `existing` column names in order, each
   * match against the current name appending `Suffix(colIndex)`.
   */
  function DedupName(existing: seq<string>, name: string, colIndex: nat): (r: string)
    // the name is only ever extended
    ensures name <= r
  {
    if existing == [] then name
    else
      var current := DedupName(existing[..|existing| - 1], name, colIndex);
      if existing[|existing| - 1] == current then current + Suffix(colIndex) else current
  }

  /** A name that matches no existing column is kept as it is. */
  lemma {:induction false} DedupKeepsFreshName(existing: seq<string>, name: string, colIndex: nat)
    requires name !in existing
    ensures DedupName(existing, name, colIndex) == name
  {
    if existing != [] {
      var n := |existing| - 1;
      assert existing[n] in existing;
      assert forall k :: 0 <= k < n ==> existing[..n][k] == existing[k];
      DedupKeepsFreshName(existing[..n], name, colIndex);
    }
  }

  /**
   * The result is the name followed by some number `m` of suffixes, and
   * `m` is positive exactly when the name itself is among the existing ones.
   */
  lemma {:induction false} DedupShape(existing: seq<string>, name: string, colIndex: nat)
    ensures exists m: nat :: DedupName(existing, name, colIndex) == name + Repeat(Suffix(colIndex), m) &&
                             (m >= 1 <==> name in existing)
  {
    var sfx := Suffix(colIndex);
    if existing == [] {
      assert DedupName(existing, name, colIndex) == name + Repeat(sfx, 0);
    } else {
      var n := |existing| - 1;
      var prefix := existing[..n];
      InLastOrBefore(existing, name);
      DedupShape(prefix, name, colIndex);
      var m: nat :| DedupName(prefix, name, colIndex) == name + Repeat(sfx, m) && (m >= 1 <==> name in prefix);
      var current := DedupName(prefix, name, colIndex);
      if existing[n] == current {
        RepeatStep(name, sfx, m);
        assert DedupName(existing, name, colIndex) == name + Repeat(sfx, m + 1);
      } else {
        if m == 0 {
          assert current == name;
        }
        assert DedupName(existing, name, colIndex) == name + Repeat(sfx, m);
      }
    }
  }

  /** One more copy of `s` after `name + Repeat(s, m)`. */
  lemma RepeatStep(name: string, s: string, m: nat)
    ensures (name + Repeat(s, m)) + s == name + Repeat(s, m + 1)
  {
    assert Repeat(s, m + 1) == Repeat(s, m) + s;
  }

  /** A value is in a non-empty sequence when it is its last element or in the part before. */
  lemma InLastOrBefore(xs: seq<string>, x: string)
    requires |xs| >= 1
    ensures x in xs <==> x in xs[..|xs| - 1] || x == xs[|xs| - 1]
  {
    assert xs == xs[..|xs| - 1] + [xs[|xs| - 1]];
  }

  /**
   * When no existing column already bears a suffixed form of the name,
   * the chosen name collides with none of them.
   */
  lemma DedupAvoidsExisting(existing: seq<string>, name: string, colIndex: nat)
    requires forall m: nat :: m >= 1 ==> name + Repeat(Suffix(colIndex), m) !in existing
    ensures DedupName(existing, name, colIndex) !in existing
  {
    DedupShape(existing, name, colIndex);
    var m: nat :| DedupName(existing, name, colIndex) == name + Repeat(Suffix(colIndex), m) &&
                  (m >= 1 <==> name in existing);
    if m == 0 {
      assert name + Repeat(Suffix(colIndex), 0) == name;
    }
  }

  /**
   * Two header cells offering the same, already taken, name at different
   * positions never end with the same name: the suffixes record the position.
   */
  lemma RenamedNamesDiffer(existingI: seq<string>, existingJ: seq<string>, name: string, i: nat, j: nat)
    requires name in existingI && name in existingJ && i != j
    ensures DedupName(existingI, name, i) != DedupName(existingJ, name, j)
  {
    DedupShape(existingI, name, i);
    DedupShape(existingJ, name, j);
    var m: nat :| DedupName(existingI, name, i) == name + Repeat(Suffix(i), m) && (m >= 1 <==> name in existingI);
    var n: nat :| DedupName(existingJ, name, j) == name + Repeat(Suffix(j), n) && (n >= 1 <==> name in existingJ);
    SuffixRunsDiffer(i, j, m, n);
    var x, y := name + Repeat(Suffix(i), m), name + Repeat(Suffix(j), n);
    assert x[|name|..] == Repeat(Suffix(i), m) && y[|name|..] == Repeat(Suffix(j), n);
  }

  /** The chosen name never equals the name of the column scanned last. */
  lemma DedupDiffersFromLast(existing: seq<string>, name: string, colIndex: nat)
    requires existing != []
    ensures DedupName(existing, name, colIndex) != existing[|existing| - 1]
  {
  }

  /**
   * The scan only guards against the names seen so far: headers `X_2`, `X`,
   * `X` give the third column the name `X_2` again.
   */
  lemma DedupCanRepeatAName()
    ensures DedupName(["X_2", "X"], "X", 2) == "X_2"
    ensures "X_2" in ["X_2", "X"]
  {
    assert NatToString(2) == "2";
    assert DedupName(["X_2"], "X", 2) == "X";
  }

  /** Two header cells both named `ID`: the second, at header position 1, becomes `ID_1`. */
  lemma RepeatedIdHeader()
    ensures DedupName(["ID"], HeaderName(Str("ID"), 1), 1) == "ID_1"
  {
    assert NatToString(1) == "1";
  }

  /**
   * A header cell without a string value (a numeric or an error cell) at
   * position 2 is named `Column_2`; an empty string cell gives the empty name.
   */
  lemma UntextedHeaderName(p: Payload)
    ensures HeaderName(Numeric(false, p), 2) == "Column_2"
    ensures HeaderName(Str(""), 2) == ""
    ensures HeaderName(Other, 2) == "Column_2"
  {
    assert NatToString(2) == "2";
  }
}
