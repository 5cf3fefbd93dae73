/** `find_data_structure` and the layout the balance-sheet loader settles
    on: which row holds the period labels and where the line items start. */
module Locator {
  import opened Strings
  import opened Grid

  /** The non-missing cells of a row, each as lower-cased `str(cell)`. */
  function RowWords(row: seq<Cell>): (r: seq<string>)
    ensures |r| <= |row|
  {
    if row == [] then []
    else (if row[0].Empty? then [] else [Lower(CellText(row[0]))]) + RowWords(row[1..])
  }

  /** The text a row is searched in: its non-missing cells joined by spaces. */
  function RowText(row: seq<Cell>): string {
    Join(' ', RowWords(row))
  }

  /** The five period patterns, in the order they are tried. */
  datatype YearPattern = YearWord | FourDigits | SixDigits | FiscalYear | YearRange

  const YearPatterns: seq<YearPattern> := [YearWord, FourDigits, SixDigits, FiscalYear, YearRange]

  /** `re.search(pattern, s, re.IGNORECASE)` on an already lower-cased `s`
      for `year`, `\d{4}`, `\d{6}`, `fy.*\d{4}` and `\d{4}-\d{2}`. */
  predicate YearMatch(p: YearPattern, s: string) {
    match p
    case YearWord => Occurs(s, "year")
    case FourDigits => exists i :: 0 <= i <= |s| && DigitsAt(s, i, 4)
    case SixDigits => exists i :: 0 <= i <= |s| && DigitsAt(s, i, 6)
    case FiscalYear => exists i, j :: 0 <= i && i + 2 <= j <= |s| && OccursAt(s, i, "fy")
                         && NoNewline(s, i + 2, j) && DigitsAt(s, j, 4)
    case YearRange => exists i :: 0 <= i && i + 7 <= |s| && DigitsAt(s, i, 4)
                         && s[i + 4] == '-' && DigitsAt(s, i + 5, 2)
  }

  /** The seven balance-sheet keyword patterns, in order: `balance.*sheet`,
      `assets`, `liabilities`, `equity`, `current.*assets`, `total.*assets`,
      `shareholders.*funds`. */
  datatype SheetPattern = BalanceSheet | Assets | Liabilities | Equity
                        | CurrentAssets | TotalAssets | ShareholdersFunds

  const SheetPatterns: seq<SheetPattern> :=
    [BalanceSheet, Assets, Liabilities, Equity, CurrentAssets, TotalAssets, ShareholdersFunds]

  predicate SheetMatch(p: SheetPattern, s: string) {
    match p
    case BalanceSheet => GapMatch(s, "balance", "sheet")
    case Assets => Occurs(s, "assets")
    case Liabilities => Occurs(s, "liabilities")
    case Equity => Occurs(s, "equity")
    case CurrentAssets => GapMatch(s, "current", "assets")
    case TotalAssets => GapMatch(s, "total", "assets")
    case ShareholdersFunds => GapMatch(s, "shareholders", "funds")
  }

  predicate IsYearRow(row: seq<Cell>) {
    exists k :: 0 <= k < |YearPatterns| && YearMatch(YearPatterns[k], RowText(row))
  }

  predicate IsSheetRow(row: seq<Cell>) {
    exists k :: 0 <= k < |SheetPatterns| && SheetMatch(SheetPatterns[k], RowText(row))
  }

  /** The five patterns together say no more than "contains `year` or four
      digits in a row": the other three each contain a four-digit run. */
  lemma YearRowByDigits(row: seq<Cell>)
    ensures IsYearRow(row) <==>
      var s := RowText(row);
      Occurs(s, "year") || exists i :: 0 <= i <= |s| && DigitsAt(s, i, 4)
  {
    var s := RowText(row);
    if IsYearRow(row) {
      var k :| 0 <= k < |YearPatterns| && YearMatch(YearPatterns[k], s);
      if YearPatterns[k] == SixDigits {
        var i :| 0 <= i <= |s| && DigitsAt(s, i, 6);
        assert DigitsAt(s, i, 4);
      } else if YearPatterns[k] == FiscalYear {
        var i, j :| 0 <= i && i + 2 <= j <= |s| && OccursAt(s, i, "fy")
          && NoNewline(s, i + 2, j) && DigitsAt(s, j, 4);
        assert j <= |s|;
      } else if YearPatterns[k] == YearRange {
        var i :| 0 <= i && i + 7 <= |s| && DigitsAt(s, i, 4) && s[i + 4] == '-' && DigitsAt(s, i + 5, 2);
        assert i <= |s|;
      }
    } else {
      assert !YearMatch(YearPatterns[0], s) && !YearMatch(YearPatterns[1], s);
    }
  }

  /** Every joined part occurs in the joined text. */
  lemma {:induction false} JoinContains(sep: char, parts: seq<string>, k: nat)
    requires k < |parts|
    ensures exists i :: 0 <= i <= |Join(sep, parts)| && OccursAt(Join(sep, parts), i, parts[k])
  {
    var s := Join(sep, parts);
    if |parts| == 1 {
      assert OccursAt(s, 0, parts[k]);
    } else if k == 0 {
      assert s[..|parts[0]|] == parts[0];
      assert OccursAt(s, 0, parts[k]);
    } else {
      JoinContains(sep, parts[1..], k - 1);
      var rest := Join(sep, parts[1..]);
      var i :| 0 <= i <= |rest| && OccursAt(rest, i, parts[1..][k - 1]);
      var off := |parts[0]| + 1;
      assert s == parts[0] + [sep] + rest;
      assert s[off + i..off + i + |parts[k]|] == rest[i..i + |parts[k]|];
      assert OccursAt(s, off + i, parts[k]);
    }
  }

  /** Every non-missing cell's lower-cased text is one of the row's words. */
  lemma {:induction false} RowWordsContain(row: seq<Cell>, k: nat)
    requires k < |row| && !row[k].Empty?
    ensures exists w :: 0 <= w < |RowWords(row)| && RowWords(row)[w] == Lower(CellText(row[k]))
  {
    var head: seq<string> := if row[0].Empty? then [] else [Lower(CellText(row[0]))];
    assert RowWords(row) == head + RowWords(row[1..]);
    if k == 0 {
      assert RowWords(row)[0] == Lower(CellText(row[k]));
    } else {
      RowWordsContain(row[1..], k - 1);
      var w :| 0 <= w < |RowWords(row[1..])| && RowWords(row[1..])[w] == Lower(CellText(row[1..][k - 1]));
      assert RowWords(row)[|head| + w] == RowWords(row[1..])[w];
    }
  }

  /** Digits inside an occurrence of `t` are digits of `s`. */
  lemma DigitsInside(s: string, i: nat, t: string, d: nat, n: nat)
    requires OccursAt(s, i, t) && DigitsAt(t, d, n)
    ensures DigitsAt(s, i + d, n)
  {
    forall m | i + d <= m < i + d + n ensures IsDigit(s[m]) {
      assert s[m] == s[i..i + |t|][m - i] == t[m - i];
    }
  }

  /** Lower-casing leaves digits alone. */
  lemma LowerKeepsDigits(t: string, d: nat, n: nat)
    requires DigitsAt(t, d, n)
    ensures DigitsAt(Lower(t), d, n)
  {
  }

  /** A single cell holding four digits in a row (a year such as `2011`,
      a code such as `201103`) makes its row the period row. */
  lemma CellMarksYearRow(row: seq<Cell>, k: nat, d: nat)
    requires k < |row| && !row[k].Empty?
    requires DigitsAt(CellText(row[k]), d, 4)
    ensures IsYearRow(row)
  {
    var lt := Lower(CellText(row[k]));
    LowerKeepsDigits(CellText(row[k]), d, 4);
    RowWordsContain(row, k);
    var w :| 0 <= w < |RowWords(row)| && RowWords(row)[w] == lt;
    JoinContains(' ', RowWords(row), w);
    var s := RowText(row);
    var i :| 0 <= i <= |s| && OccursAt(s, i, lt);
    DigitsInside(s, i, lt, d, 4);
    FourDigitsMarkYearRow(row, i + d);
  }

  /** Four digits anywhere in the row text match the `\d{4}` pattern. */
  lemma FourDigitsMarkYearRow(row: seq<Cell>, j: nat)
    requires DigitsAt(RowText(row), j, 4)
    ensures IsYearRow(row)
  {
    var s := RowText(row);
    assert 0 <= j <= |s|;
    assert YearMatch(FourDigits, s);
    assert YearPatterns[1] == FourDigits;
  }

  /** The inner pattern loop for period rows: does any pattern match? */
  method AnyYearPattern(rowStr: string) returns (found: bool)
    ensures found <==> exists k :: 0 <= k < |YearPatterns| && YearMatch(YearPatterns[k], rowStr)
  {
    found := false;
    var k := 0;
    while k < |YearPatterns|
      invariant 0 <= k <= |YearPatterns|
      invariant forall q :: 0 <= q < k ==> !YearMatch(YearPatterns[q], rowStr)
    {
      if YearMatch(YearPatterns[k], rowStr) {
        found := true;
        break;
      }
      k := k + 1;
    }
  }

  /** The inner pattern loop for balance-sheet keywords. */
  method AnySheetPattern(rowStr: string) returns (found: bool)
    ensures found <==> exists k :: 0 <= k < |SheetPatterns| && SheetMatch(SheetPatterns[k], rowStr)
  {
    found := false;
    var k := 0;
    while k < |SheetPatterns|
      invariant 0 <= k <= |SheetPatterns|
      invariant forall q :: 0 <= q < k ==> !SheetMatch(SheetPatterns[q], rowStr)
    {
      if SheetMatch(SheetPatterns[k], rowStr) {
        found := true;
        break;
      }
      k := k + 1;
    }
  }

  /** The first loop of `find_data_structure`: the first period row. */
  method FindYearRow(g: Grid) returns (yearRow: Option<nat>)
    ensures yearRow == FirstIndex(g, IsYearRow, 0)
  {
    yearRow := None;
    var idx := 0;
    while idx < |g|
      invariant 0 <= idx <= |g|
      invariant FirstIndex(g, IsYearRow, idx) == FirstIndex(g, IsYearRow, 0)
    {
      var found := AnyYearPattern(RowText(g[idx]));
      assert found == IsYearRow(g[idx]);
      if found {
        return Some(idx);
      }
      idx := idx + 1;
    }
  }

  /** The second loop: the first row naming a balance-sheet item. */
  method FindSheetRow(g: Grid) returns (dataStart: Option<nat>)
    ensures dataStart == FirstIndex(g, IsSheetRow, 0)
  {
    dataStart := None;
    var idx := 0;
    while idx < |g|
      invariant 0 <= idx <= |g|
      invariant FirstIndex(g, IsSheetRow, idx) == FirstIndex(g, IsSheetRow, 0)
    {
      var found := AnySheetPattern(RowText(g[idx]));
      assert found == IsSheetRow(g[idx]);
      if found {
        return Some(idx);
      }
      idx := idx + 1;
    }
  }

  /** `find_data_structure`: the first row matching any period pattern;
      the row after it as data start, or else (only when there is no
      period row) the first row matching a balance-sheet keyword. */
  method FindDataStructure(g: Grid) returns (yearRow: Option<nat>, dataStart: Option<nat>)
    ensures (yearRow, dataStart) == DataStructure(g)
  {
    yearRow := FindYearRow(g);
    if yearRow.Some? {
      dataStart := Some(yearRow.value + 1);
    } else {
      dataStart := FindSheetRow(g);
    }
  }

  /** The loader's fallbacks: without a period row, row 0 holds the labels
      and row 1 starts the data, whether or not row 0 has numbers (both
      branches of the source agree); without a data start, the row after
      the labels. */
  function ResolveLayout(yearRow: Option<nat>, dataStart: Option<nat>): (nat, nat) {
    match yearRow
    case None => (0, 1)
    case Some(y) =>
      match dataStart
      case None => (y, y + 1)
      case Some(d) => (y, d)
  }

  /** What `find_data_structure` computes, as one function. */
  function DataStructure(g: Grid): (Option<nat>, Option<nat>) {
    var y := FirstIndex(g, IsYearRow, 0);
    if y.Some? then (y, Some(y.value + 1)) else (y, FirstIndex(g, IsSheetRow, 0))
  }

  /** The header row and the first data row the loader uses. */
  function Layout(g: Grid): (nat, nat) {
    var (y, d) := DataStructure(g);
    ResolveLayout(y, d)
  }

  /** The data always starts right below the header: the first period row,
      or row 0 when there is none. The balance-sheet keywords never decide
      anything, since they are searched only when no period row exists and
      the loader then replaces their answer by row 1. */
  lemma LayoutIsNextRow(g: Grid)
    ensures var (h, d) := Layout(g);
      d == h + 1
      && (FirstIndex(g, IsYearRow, 0).Some? ==> h == FirstIndex(g, IsYearRow, 0).value)
      && (FirstIndex(g, IsYearRow, 0).None? ==> h == 0)
  {
  }

  /** The header row is a row of the grid whenever the grid has rows. */
  lemma LayoutInRange(g: Grid)
    requires |g| > 0
    ensures Layout(g).0 < |g| && Layout(g).1 <= |g|
  {
  }
}
