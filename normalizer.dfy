/** `load_balance_sheet_file` after the file is read: the period row becomes
    the header, the rows below become line items, period labels are
    normalised, values are coerced to numbers and all-zero lines dropped.
    Then `rearrange_data`, which turns periods into rows. */
module Normalizer {
  import opened Strings
  import opened Grid
  import opened Periods
  import opened Reader
  import opened Locator

  /** Why the loader gives up. The source prints a message and returns
      `None` for each; the error kinds are the model's. */
  datatype LoadError =
    | ReadFailed(message: string)
    | EmptyFile
    | NoDataAfterCleanup
    | NoYearColumns
    | LengthMismatch
    | DuplicateColumns

  predicate Present(c: Cell) {
    !c.Empty?
  }

  /** The header row padded to the sheet's width. */
  function HeaderCells(header: seq<Cell>, w: nat): (r: seq<Cell>)
    ensures |r| == w && forall j :: 0 <= j < w ==> r[j] == CellAt(header, j)
  {
    seq(w, j requires 0 <= j < w => CellAt(header, j))
  }

  /** Header positions after the first whose label is not missing: the
      `dropna` subset and the period columns. */
  function LabelledColumns(header: seq<Cell>, w: nat): (r: seq<nat>)
    ensures forall k :: 0 <= k < |r| ==> 1 <= r[k] < w && !CellAt(header, r[k]).Empty?
    ensures forall k, l :: 0 <= k < l < |r| ==> r[k] < r[l]
    ensures forall j :: 1 <= j < w && !CellAt(header, j).Empty? ==> j in r
  {
    if w == 0 then [] else IndicesWhere(HeaderCells(header, w), Present, 1)
  }

  /** `str(first_col_name).lower() in ['year', 'nan']` for a label that is
      not missing: the first column is then renamed to `Item`. */
  predicate RenamesFirst(c: Cell) {
    !c.Empty? && (Lower(CellText(c)) == "year" || Lower(CellText(c)) == "nan")
  }

  /** Equality of two column labels: texts by content, numbers by value;
      a missing label equals nothing. */
  predicate SameLabel(a: Cell, b: Cell) {
    match a
    case Empty => false
    case Num(v, _) => b.Num? && b.value == v
    case Text(t) => b.Text? && b.s == t
  }

  /** Whether `rename(columns={first_col_name: 'Item'})` renames column
      `j`: the rename goes by label, so it takes every column labelled
      like the first one, not only the first. */
  predicate RenamedToItem(header: seq<Cell>, j: nat) {
    RenamesFirst(CellAt(header, 0)) && SameLabel(CellAt(header, j), CellAt(header, 0))
  }

  /** The header after the rename. */
  function RenamedHeader(header: seq<Cell>, w: nat): (r: seq<Cell>)
    ensures |r| == w
    ensures forall j :: 0 <= j < w ==> (r[j].Empty? <==> CellAt(header, j).Empty?)
    ensures forall j :: 0 <= j < w && !RenamedToItem(header, j) ==> r[j] == CellAt(header, j)
    ensures forall j :: 0 <= j < w && RenamedToItem(header, j) ==> r[j] == Text("Item")
  {
    seq(w, j requires 0 <= j < w => if RenamedToItem(header, j) then Text("Item") else CellAt(header, j))
  }

  /** `dropna(subset=[col for col in data_df.columns[1:] if pd.notna(col)])`
      selects columns by label, so column 0 is in the subset as soon as a
      later column carries the same label after the rename. */
  predicate FirstJoinsSubset(header: seq<Cell>, w: nat) {
    w >= 1 &&
    var r := RenamedHeader(header, w);
    exists j :: 1 <= j < w && SameLabel(r[0], r[j])
  }

  /** The columns `dropna` looks at: the labelled ones after the first, and
      the first one too when it shares a label with one of them. */
  function DropnaColumns(header: seq<Cell>, w: nat): (r: seq<nat>)
    ensures forall j :: j in LabelledColumns(header, w) ==> j in r
    ensures 0 in r <==> FirstJoinsSubset(header, w)
    ensures LabelledColumns(header, w) == [] ==> r == []
  {
    NoLabelNoJoin(header, w);
    (if FirstJoinsSubset(header, w) then [0] else []) + LabelledColumns(header, w)
  }

  /** Without a labelled column there is no label for column 0 to share. */
  lemma NoLabelNoJoin(header: seq<Cell>, w: nat)
    ensures LabelledColumns(header, w) == [] ==> !FirstJoinsSubset(header, w)
  {
    var labelled := LabelledColumns(header, w);
    if labelled == [] && w >= 1 {
      var h := RenamedHeader(header, w);
      forall j | 1 <= j < w ensures !SameLabel(h[0], h[j]) {
        assert j !in labelled;
      }
    }
  }

  /** `dropna(subset=…, how='all')` keeps a row with some value in the subset. */
  predicate HasLabelledValue(row: seq<Cell>, subset: seq<nat>) {
    exists k :: 0 <= k < |subset| && !CellAt(row, subset[k]).Empty?
  }

  /** The rows `dropna` keeps, in order; none exactly when no row has a
      value in the subset. */
  function Cleanup(rows: seq<seq<Cell>>, subset: seq<nat>): (r: seq<seq<Cell>>)
    ensures forall i :: 0 <= i < |r| ==> HasLabelledValue(r[i], subset)
    ensures r == [] <==> forall i :: 0 <= i < |rows| ==> !HasLabelledValue(rows[i], subset)
  {
    var p := (row: seq<Cell>) => HasLabelledValue(row, subset);
    FilterEmpty(rows, p);
    Filter(rows, p)
  }

  /** The normalised label of each period column. */
  function PeriodLabels(header: seq<Cell>, subset: seq<nat>): (r: seq<string>)
    ensures |r| == |subset|
    ensures forall k :: 0 <= k < |subset| ==> r[k] == ParseYear(CellText(CellAt(header, subset[k])))
  {
    seq(|subset|, k requires 0 <= k < |subset| => ParseYear(CellText(CellAt(header, subset[k]))))
  }

  predicate Distinct(xs: seq<string>) {
    forall i, j :: 0 <= i < j < |xs| ==> xs[i] != xs[j]
  }

  /** The `Item` label after `fillna(0)`: a missing label becomes `0`. */
  function ItemLabel(c: Cell): string {
    match c
    case Empty => "0"
    case Num(_, t) => t
    case Text(s) => s
  }

  /** One line item: its label and one coerced value per period column. */
  datatype Line = Line(item: string, values: seq<real>)

  function ToLine(row: seq<Cell>, w: nat): (l: Line)
    requires w >= 1
    ensures |l.values| == w - 1
    ensures l.item == ItemLabel(CellAt(row, 0))
    ensures forall k :: 0 <= k < w - 1 ==> l.values[k] == Coerce(CellAt(row, k + 1))
  {
    Line(ItemLabel(CellAt(row, 0)), seq(w - 1, k requires 0 <= k < w - 1 => Coerce(CellAt(row, k + 1))))
  }

  /** The zero mask keeps a line with some non-zero value. */
  predicate NonZero(l: Line) {
    exists k :: 0 <= k < |l.values| && l.values[k] != 0.0
  }

  /** The converted rows the zero mask keeps, in order. */
  function Lines(rows: seq<seq<Cell>>, w: nat): (r: seq<Line>)
    requires w >= 1
  {
    Filter(Map(rows, (row: seq<Cell>) => ToLine(row, w)), NonZero)
  }

  function FrameOf(columns: seq<string>, lines: seq<Line>): (f: Frame)
    ensures f.columns == columns && |f.index| == |lines| && |f.cells| == |lines|
    ensures forall i :: 0 <= i < |lines| ==> f.index[i] == lines[i].item && f.cells[i] == lines[i].values
  {
    Frame(Map(lines, (l: Line) => l.item), columns, Map(lines, (l: Line) => l.values))
  }

  /** The table the loader returns for header row `h` and data from row `d`. */
  function Normalize(g: Grid, h: nat, d: nat): (r: Result<Frame, LoadError>)
    requires h < |g| && d <= |g|
    ensures r == Err(NoDataAfterCleanup) <==> Cleanup(g[d..], DropnaColumns(g[h], Width(g))) == []
    ensures r == Err(LengthMismatch) ==>
      LabelledColumns(g[h], Width(g)) != [] && 1 + |LabelledColumns(g[h], Width(g))| != Width(g)
    ensures r == Err(DuplicateColumns) ==>
      !Distinct(["Item"] + PeriodLabels(RenamedHeader(g[h], Width(g)), LabelledColumns(g[h], Width(g))))
  {
    var w := Width(g);
    var subset := LabelledColumns(g[h], w);
    var cleaned := Cleanup(g[d..], DropnaColumns(g[h], w));
    if cleaned == [] then Err(NoDataAfterCleanup)
    else if subset == [] then Err(NoYearColumns)
    else if 1 + |subset| != w then Err(LengthMismatch)
    else
      var periods := PeriodLabels(RenamedHeader(g[h], w), subset);
      if !Distinct(["Item"] + periods) then Err(DuplicateColumns)
      else Ok(FrameOf(periods, Lines(cleaned, w)))
  }

  /** The loop over the period labels. */
  method ParsePeriods(header: seq<Cell>, subset: seq<nat>) returns (parsed: seq<string>)
    ensures parsed == PeriodLabels(header, subset)
  {
    parsed := [];
    ghost var labels := PeriodLabels(header, subset);
    for k := 0 to |subset|
      invariant parsed == labels[..k]
    {
      var period := ParseYear(CellText(CellAt(header, subset[k])));
      assert labels[..k + 1] == labels[..k] + [period];
      parsed := parsed + [period];
    }
    assert labels[..|subset|] == labels;
  }

  /** The loop running `to_numeric(…, errors='coerce')` and `fillna(0)`
      column by column. */
  method CoerceColumns(rows: seq<seq<Cell>>, w: nat) returns (columns: seq<seq<real>>)
    requires w >= 1
    ensures |columns| == w - 1
    ensures forall c :: 0 <= c < w - 1 ==> |columns[c]| == |rows|
    ensures forall c, i :: 0 <= c < w - 1 && 0 <= i < |rows| ==> columns[c][i] == Coerce(CellAt(rows[i], c + 1))
  {
    columns := [];
    for k := 1 to w
      invariant |columns| == k - 1
      invariant forall c :: 0 <= c < k - 1 ==> |columns[c]| == |rows|
      invariant forall c, i :: 0 <= c < k - 1 && 0 <= i < |rows| ==> columns[c][i] == Coerce(CellAt(rows[i], c + 1))
    {
      columns := columns + [seq(|rows|, i requires 0 <= i < |rows| => Coerce(CellAt(rows[i], k)))];
    }
  }

  /** The zero mask over the coerced columns. */
  method DropZeroLines(rows: seq<seq<Cell>>, columns: seq<seq<real>>, w: nat) returns (lines: seq<Line>)
    requires w >= 1 && |columns| == w - 1
    requires forall c :: 0 <= c < w - 1 ==> |columns[c]| == |rows|
    requires forall c, i :: 0 <= c < w - 1 && 0 <= i < |rows| ==> columns[c][i] == Coerce(CellAt(rows[i], c + 1))
    ensures lines == Lines(rows, w)
  {
    ghost var toLine := (row: seq<Cell>) => ToLine(row, w);
    lines := [];
    for i := 0 to |rows|
      invariant lines == Filter(Map(rows[..i], toLine), NonZero)
    {
      var line := Line(ItemLabel(CellAt(rows[i], 0)), seq(w - 1, k requires 0 <= k < w - 1 => columns[k][i]));
      assert line == ToLine(rows[i], w);
      assert Map(rows[..i + 1], toLine) == Map(rows[..i], toLine) + [line];
      FilterSnoc(Map(rows[..i], toLine), line, NonZero);
      if exists k :: 0 <= k < w - 1 && line.values[k] != 0.0 {
        lines := lines + [line];
      }
    }
    assert rows[..|rows|] == rows;
  }

  /** The normalisation with the source's steps in order. */
  method NormalizeTable(g: Grid, h: nat, d: nat) returns (r: Result<Frame, LoadError>)
    requires h < |g| && d <= |g|
    ensures r == Normalize(g, h, d)
  {
    var w := Width(g);
    var subset := LabelledColumns(g[h], w);
    var cleaned := Cleanup(g[d..], DropnaColumns(g[h], w));
    if cleaned == [] {
      return Err(NoDataAfterCleanup);
    }
    if subset == [] {
      return Err(NoYearColumns);
    }
    var parsed := ParsePeriods(RenamedHeader(g[h], w), subset);
    if 1 + |parsed| != w {
      return Err(LengthMismatch);
    }
    if !Distinct(["Item"] + parsed) {
      return Err(DuplicateColumns);
    }
    var columns := CoerceColumns(cleaned, w);
    var lines := DropZeroLines(cleaned, columns, w);
    r := Ok(FrameOf(parsed, lines));
  }

  /** A line with a non-zero value has a value in a labelled column, so
      once every column is labelled the `dropna` step removes nothing the
      zero mask would keep. */
  lemma NonZeroHasValue(row: seq<Cell>, w: nat, subset: seq<nat>)
    requires w >= 1
    requires forall j :: 1 <= j < w ==> j in subset
    requires NonZero(ToLine(row, w))
    ensures HasLabelledValue(row, subset)
  {
    var l := ToLine(row, w);
    var k :| 0 <= k < |l.values| && l.values[k] != 0.0;
    assert Coerce(CellAt(row, k + 1)) != 0.0;
    assert 1 <= k + 1 < w;
    assert k + 1 in subset;
    var q :| 0 <= q < |subset| && subset[q] == k + 1;
  }

  /** With a full header the labelled columns are exactly `1 .. w-1`. */
  lemma FullHeader(header: seq<Cell>, w: nat)
    requires 1 + |LabelledColumns(header, w)| == w
    ensures forall k :: 0 <= k < w - 1 ==> LabelledColumns(header, w)[k] == k + 1
    ensures forall j :: 1 <= j < w ==> !CellAt(header, j).Empty?
  {
    var r := LabelledColumns(header, w);
    forall k | 0 <= k < w - 1 ensures r[k] >= k + 1 {
      StrictlyIncreasingAbove(r, k);
    }
    forall k | 0 <= k < w - 1 ensures r[k] <= k + 1 {
      StrictlyIncreasingBelow(r, k, w);
    }
    forall j | 1 <= j < w ensures !CellAt(header, j).Empty? {
      assert r[j - 1] == j;
    }
  }

  lemma {:induction false} StrictlyIncreasingAbove(r: seq<nat>, k: nat)
    requires forall i, l :: 0 <= i < l < |r| ==> r[i] < r[l]
    requires forall i :: 0 <= i < |r| ==> 1 <= r[i]
    requires k < |r|
    ensures r[k] >= k + 1
  {
    if k > 0 {
      StrictlyIncreasingAbove(r, k - 1);
    }
  }

  lemma {:induction false} StrictlyIncreasingBelow(r: seq<nat>, k: nat, w: nat)
    requires forall i, l :: 0 <= i < l < |r| ==> r[i] < r[l]
    requires forall i :: 0 <= i < |r| ==> r[i] < w
    requires |r| == w - 1 && k < |r|
    decreases |r| - k
    ensures r[k] <= k + 1
  {
    if k + 1 < |r| {
      StrictlyIncreasingBelow(r, k + 1, w);
    }
  }

  /** Once every column is labelled, `dropna` removes nothing the zero
      mask would keep. */
  lemma CleanupRedundant(rows: seq<seq<Cell>>, w: nat, subset: seq<nat>)
    requires w >= 1
    requires forall j :: 1 <= j < w ==> j in subset
    ensures Lines(Cleanup(rows, subset), w) == Lines(rows, w)
  {
    var p := (row: seq<Cell>) => HasLabelledValue(row, subset);
    var f := (row: seq<Cell>) => ToLine(row, w);
    forall row: seq<Cell> | NonZero(f(row)) ensures p(row) {
      NonZeroHasValue(row, w, subset);
    }
    FilterMapFilter(rows, p, f, NonZero);
  }

  /** What a successful `Normalize` requires of its inputs. */
  lemma NormalizeOkGuards(g: Grid, h: nat, d: nat)
    requires h < |g| && d <= |g|
    requires Normalize(g, h, d).Ok?
    ensures var w := Width(g); var subset := LabelledColumns(g[h], w);
      var periods := PeriodLabels(RenamedHeader(g[h], w), subset);
      1 + |subset| == w && subset != []
      && Distinct(["Item"] + periods)
      && Normalize(g, h, d).value == FrameOf(periods, Lines(Cleanup(g[d..], DropnaColumns(g[h], w)), w))
  {
  }

  /** A successful load: one column per header cell after the first, each
      labelled by `parse_year` of its header (`FY-Item` for a column the
      rename took), all labels distinct; one line per data row whose values
      are not all zero, in file order, and no other line. */
  lemma NormalizeOk(g: Grid, h: nat, d: nat)
    requires h < |g| && d <= |g|
    requires Normalize(g, h, d).Ok?
    ensures var f := Normalize(g, h, d).value; var w := Width(g);
      w >= 2
      && (forall j :: 1 <= j < w ==> !CellAt(g[h], j).Empty?)
      && |f.columns| == w - 1
      && (forall k :: 0 <= k < w - 1 ==>
            f.columns[k] == if RenamedToItem(g[h], k + 1) then "FY-Item" else ParseYear(CellText(CellAt(g[h], k + 1))))
      && Distinct(f.columns)
      && f == FrameOf(f.columns, Lines(g[d..], w))
  {
    var w := Width(g);
    var subset := LabelledColumns(g[h], w);
    NormalizeOkGuards(g, h, d);
    FullHeader(g[h], w);
    var periods := PeriodLabels(RenamedHeader(g[h], w), subset);
    PeriodLabelsNotItem(RenamedHeader(g[h], w), subset);
    ItemNeverDuplicated(periods);
    CleanupRedundant(g[d..], w, DropnaColumns(g[h], w));
    RenamedPeriodLabels(g[h], w);
  }

  /** With every header cell after the first present, the period labels are
      those of the header cells in order, `FY-Item` for a renamed one. */
  lemma RenamedPeriodLabels(header: seq<Cell>, w: nat)
    requires 1 + |LabelledColumns(header, w)| == w
    ensures var periods := PeriodLabels(RenamedHeader(header, w), LabelledColumns(header, w));
      |periods| == w - 1
      && forall k :: 0 <= k < w - 1 ==>
           periods[k] == if RenamedToItem(header, k + 1) then "FY-Item" else ParseYear(CellText(CellAt(header, k + 1)))
  {
    var subset := LabelledColumns(header, w);
    var periods := PeriodLabels(RenamedHeader(header, w), subset);
    FullHeader(header, w);
    forall k | 0 <= k < w - 1
      ensures periods[k] == if RenamedToItem(header, k + 1) then "FY-Item" else ParseYear(CellText(CellAt(header, k + 1)))
    {
      RenamedPeriodAt(header, w, subset, k);
    }
  }

  /** The period label of the `k`-th column of the subset, when that column
      is `k + 1`. */
  lemma RenamedPeriodAt(header: seq<Cell>, w: nat, subset: seq<nat>, k: nat)
    requires k < |subset| && subset[k] == k + 1 && k + 1 < w
    ensures PeriodLabels(RenamedHeader(header, w), subset)[k]
      == if RenamedToItem(header, k + 1) then "FY-Item" else ParseYear(CellText(CellAt(header, k + 1)))
  {
    if RenamedToItem(header, k + 1) {
      ParseYearItem();
    }
  }

  /** `parse_year('Item')`: a four-character label gets the `FY-` prefix. */
  lemma ParseYearItem()
    ensures ParseYear("Item") == "FY-Item"
  {
    ParseYearFourLetters("Item");
  }

  lemma ParseYearFourLetters(t: string)
    requires |t| == 4 && !IsSpace(t[0]) && !IsSpace(t[3])
    ensures ParseYear(t) == "FY-" + t
  {
    StripNoSpaceEnds(t);
    StrippedFour(t);
  }

  /** A period column the rename took also puts column 0 into the `dropna`
      subset, since both now carry the label `Item`. */
  lemma RenamedColumnJoinsSubset(header: seq<Cell>, w: nat, j: nat)
    requires 1 <= j < w && RenamedToItem(header, j)
    ensures FirstJoinsSubset(header, w)
    ensures 0 in DropnaColumns(header, w)
  {
    var r := RenamedHeader(header, w);
    assert RenamedToItem(header, 0);
    assert r[0] == Text("Item") && r[j] == Text("Item");
    assert SameLabel(r[0], r[j]);
  }

  /** The error cases, in the order the source meets them. */
  lemma NormalizeErrors(g: Grid, h: nat, d: nat)
    requires h < |g| && d <= |g|
    ensures var w := Width(g); var subset := LabelledColumns(g[h], w);
      var r := Normalize(g, h, d);
      (r == Err(NoDataAfterCleanup) <==> forall i :: d <= i < |g| ==> !HasLabelledValue(g[i], DropnaColumns(g[h], w)))
      && (r == Err(LengthMismatch) ==> exists j :: 1 <= j < w && CellAt(g[h], j).Empty?)
      && (r == Err(DuplicateColumns) ==> !Distinct(PeriodLabels(RenamedHeader(g[h], w), subset)))
  {
    NoDataAfterCleanupCase(g, h, d);
    LengthMismatchCase(g, h, d);
    DuplicateColumnsCase(g, h, d);
  }

  /** Cleanup leaves nothing exactly when no data row has a labelled value. */
  lemma NoDataAfterCleanupCase(g: Grid, h: nat, d: nat)
    requires h < |g| && d <= |g|
    ensures Normalize(g, h, d) == Err(NoDataAfterCleanup)
      <==> forall i :: d <= i < |g| ==> !HasLabelledValue(g[i], DropnaColumns(g[h], Width(g)))
  {
    var subset := DropnaColumns(g[h], Width(g));
    var rows := g[d..];
    assert forall i :: d <= i < |g| ==> rows[i - d] == g[i];
    assert (forall i :: 0 <= i < |rows| ==> !HasLabelledValue(rows[i], subset))
      <==> (forall i :: d <= i < |g| ==> !HasLabelledValue(g[i], subset));
  }

  /** A length mismatch means some header cell after the first is missing. */
  lemma LengthMismatchCase(g: Grid, h: nat, d: nat)
    requires h < |g| && d <= |g|
    ensures Normalize(g, h, d) == Err(LengthMismatch) ==> exists j :: 1 <= j < Width(g) && CellAt(g[h], j).Empty?
  {
    if Normalize(g, h, d) == Err(LengthMismatch) {
      SubsetShort(g[h], Width(g));
    }
  }

  /** Fewer labelled columns than `w - 1` means a missing header cell. */
  lemma SubsetShort(header: seq<Cell>, w: nat)
    requires LabelledColumns(header, w) != [] && 1 + |LabelledColumns(header, w)| != w
    ensures exists j :: 1 <= j < w && CellAt(header, j).Empty?
  {
    if forall j :: 1 <= j < w ==> !CellAt(header, j).Empty? {
      SubsetFull(header, w);
    }
  }

  /** Duplicate columns come from two period labels that agree. */
  lemma DuplicateColumnsCase(g: Grid, h: nat, d: nat)
    requires h < |g| && d <= |g|
    ensures Normalize(g, h, d) == Err(DuplicateColumns) ==>
      !Distinct(PeriodLabels(RenamedHeader(g[h], Width(g)), LabelledColumns(g[h], Width(g))))
  {
    var header := RenamedHeader(g[h], Width(g));
    var subset := LabelledColumns(g[h], Width(g));
    PeriodLabelsNotItem(header, subset);
    ItemNeverDuplicated(PeriodLabels(header, subset));
  }

  /** A full header gives a subset of `w - 1` positions. */
  lemma SubsetFull(header: seq<Cell>, w: nat)
    requires w >= 1
    requires forall j :: 1 <= j < w ==> !CellAt(header, j).Empty?
    ensures 1 + |LabelledColumns(header, w)| == w
  {
    IndicesWhereAll(HeaderCells(header, w), Present, 1);
  }

  /** `NoYearColumns` never happens: with no labelled period column the
      `dropna` subset is empty and every row is dropped first. */
  lemma NoYearColumnsUnreachable(g: Grid, h: nat, d: nat)
    requires h < |g| && d <= |g|
    ensures Normalize(g, h, d) != Err(NoYearColumns)
  {
    if LabelledColumns(g[h], Width(g)) == [] {
      var subset := DropnaColumns(g[h], Width(g));
      FilterEmpty(g[d..], (row: seq<Cell>) => HasLabelledValue(row, subset));
    }
  }

  /** The `Item` column never collides with a period label, so only
      duplicate periods can make the conversion fail. */
  lemma ItemNeverDuplicated(periods: seq<string>)
    requires forall k :: 0 <= k < |periods| ==> periods[k] != "Item"
    ensures Distinct(["Item"] + periods) <==> Distinct(periods)
  {
    var xs := ["Item"] + periods;
    if Distinct(periods) {
      forall i, j | 0 <= i < j < |xs| ensures xs[i] != xs[j] {
        if i > 0 {
          assert xs[i] == periods[i - 1] && xs[j] == periods[j - 1];
        }
      }
    }
    if Distinct(xs) {
      forall i, j | 0 <= i < j < |periods| ensures periods[i] != periods[j] {
        assert xs[i + 1] == periods[i] && xs[j + 1] == periods[j];
      }
    }
  }

  lemma PeriodLabelsNotItem(header: seq<Cell>, subset: seq<nat>)
    ensures forall k :: 0 <= k < |subset| ==> PeriodLabels(header, subset)[k] != "Item"
  {
    forall k | 0 <= k < |subset| ensures PeriodLabels(header, subset)[k] != "Item" {
      ParseYearNotFourLong(CellText(CellAt(header, subset[k])));
    }
  }

  // ------------------------------------------------------------ the loader

  /** `load_balance_sheet_file`, errors named. */
  function LoadBalanceSheet(ext: string, content: string,
                            excel: Engine -> Result<Grid, string>,
                            parse: Delimiter -> Result<Grid, string>): Result<Frame, LoadError>
  {
    match Read(ext, content, excel, parse)
    case Err(e) => Err(ReadFailed(e))
    case Ok(g) =>
      if IsEmpty(g) then Err(EmptyFile)
      else
        LayoutInRange(g);
        var (h, d) := Layout(g);
        Normalize(g, h, d)
  }

  /** The loader as the source composes it; every failure is `None`. */
  method LoadBalanceSheetFile(ext: string, content: string,
                              excel: Engine -> Result<Grid, string>,
                              parse: Delimiter -> Result<Grid, string>)
    returns (r: Option<Frame>)
    ensures r == ToOption(LoadBalanceSheet(ext, content, excel, parse))
  {
    var df := SmartFileReader(ext, content, excel, parse);
    if df.Err? {
      return None;
    }
    var g := df.value;
    if IsEmpty(g) {
      return None;
    }
    var yearRow, dataStart := FindDataStructure(g);
    var (h, d) := ResolveLayout(yearRow, dataStart);
    LayoutInRange(g);
    var t := NormalizeTable(g, h, d);
    r := ToOption(t);
  }

  /** A loaded table is empty when it has no line items (it always has the
      `Item` column). */
  function RearrangeBalanceSheet(df: Option<Frame>): (r: Option<Frame>)
    requires df.Some? ==> WellFormed(df.value)
    ensures r.None? <==> df.None? || |df.value.index| == 0
    ensures r.Some? ==> WellFormed(r.value) && Transpose(r.value) == df.value
    ensures r.Some? ==> r.value.index == df.value.columns && r.value.columns == df.value.index
  {
    match df
    case None => None
    case Some(f) =>
      if |f.index| == 0 then None
      else
        TransposeTwice(f);
        Some(Transpose(f))
  }

  /** Every converted line has one value per period column. */
  lemma LinesWidth(rows: seq<seq<Cell>>, w: nat)
    requires w >= 1
    ensures forall i :: 0 <= i < |Lines(rows, w)| ==> |Lines(rows, w)[i].values| == w - 1
  {
    var m := Map(rows, (row: seq<Cell>) => ToLine(row, w));
    forall i | 0 <= i < |Lines(rows, w)| ensures |Lines(rows, w)[i].values| == w - 1 {
      assert Lines(rows, w)[i] in m;
    }
  }

  /** A normalised table has one value per line and period. */
  lemma NormalizeWellFormed(g: Grid, h: nat, d: nat)
    requires h < |g| && d <= |g|
    requires Normalize(g, h, d).Ok?
    ensures WellFormed(Normalize(g, h, d).value)
  {
    var w := Width(g);
    NormalizeOkGuards(g, h, d);
    LinesWidth(Cleanup(g[d..], DropnaColumns(g[h], w)), w);
  }

  /** Every loaded table is well formed, so it can be rearranged. */
  lemma LoadedWellFormed(ext: string, content: string,
                         excel: Engine -> Result<Grid, string>,
                         parse: Delimiter -> Result<Grid, string>)
    requires LoadBalanceSheet(ext, content, excel, parse).Ok?
    ensures WellFormed(LoadBalanceSheet(ext, content, excel, parse).value)
  {
    var g := Read(ext, content, excel, parse).value;
    LayoutInRange(g);
    var (h, d) := Layout(g);
    NormalizeWellFormed(g, h, d);
  }
}
