/** `load_profit_loss_file` and `load_cash_flow_file`: both find a row whose
    first cell starts with `Year` and a marker row, then slice the values
    below the marker. They differ only in the marker and its offset.
    The grid is what `pd.read_excel(…, skiprows=5, header=None)` returns. */
module Statements {
  import opened Strings
  import opened Grid
  import opened Periods

  datatype StatementError =
    | ReadFailed(message: string)
    | NoYearRow
    | NoDataStart
    | LengthMismatch

  /** `df.iloc[:, 0].str.match('Year', na=False)`: a text cell starting
      with `Year` (case-sensitive); numbers and missing cells never match. */
  predicate YearMarker(row: seq<Cell>) {
    var c := CellAt(row, 0);
    c.Text? && StartsWith(c.s, "Year")
  }

  /** `df.iloc[:, 0].str.contains(marker, na=False)`: a text cell
      containing the marker. */
  predicate HasMarker(row: seq<Cell>, marker: string) {
    var c := CellAt(row, 0);
    c.Text? && Occurs(c.s, marker)
  }

  /** `df.iloc[year_row, 1:].dropna()`: the non-missing cells after the first. */
  function YearCells(row: seq<Cell>): (r: seq<Cell>)
    ensures forall k :: 0 <= k < |r| ==> !r[k].Empty?
    ensures |r| <= if |row| == 0 then 0 else |row| - 1
  {
    if |row| == 0 then [] else Filter(row[1..], (c: Cell) => !c.Empty?)
  }

  /** How many value columns `iloc[:, 1:n + 1]` yields once column 0 is the
      index: positions 1 .. n of the remaining `w - 1` columns. */
  function SliceWidth(n: nat, w: nat): (r: nat)
    ensures r <= n
    ensures w >= 2 && n <= w - 2 ==> r == n
  {
    if w < 2 then 0 else if n <= w - 2 then n else w - 2
  }

  /** `df.iloc[d:]`: the rows from `d` on, none when `d` is past the end. */
  function RowsFrom(g: Grid, d: nat): (r: Grid)
    ensures |r| == (if d <= |g| then |g| - d else 0)
    ensures forall i :: 0 <= i < |r| ==> r[i] == g[d + i]
  {
    if d <= |g| then g[d..] else []
  }

  /** The index after `set_index`: the first cell of each row, as text. */
  function RowLabels(rows: Grid): (r: seq<string>)
    ensures |r| == |rows| && forall i :: 0 <= i < |rows| ==> r[i] == CellText(CellAt(rows[i], 0))
  {
    Map(rows, (row: seq<Cell>) => CellText(CellAt(row, 0)))
  }

  /** Values from source columns 2 .. n + 1, coerced. */
  function RowValues(rows: Grid, n: nat): (r: seq<seq<real>>)
    ensures |r| == |rows|
    ensures forall i :: 0 <= i < |rows| ==> |r[i]| == n
    ensures forall i, k :: 0 <= i < |rows| && 0 <= k < n ==> r[i][k] == Coerce(CellAt(rows[i], k + 2))
  {
    seq(|rows|, i requires 0 <= i < |rows| => seq(n, k requires 0 <= k < n => Coerce(CellAt(rows[i], k + 2))))
  }

  function PeriodNames(years: seq<Cell>): (r: seq<string>)
    ensures |r| == |years| && forall k :: 0 <= k < |years| ==> r[k] == ParseYearSplit(CellText(years[k]))
  {
    Map(years, (c: Cell) => ParseYearSplit(CellText(c)))
  }

  function MarkerRow(g: Grid, marker: string): Option<nat> {
    FirstIndex(g, (row: seq<Cell>) => HasMarker(row, marker), 0)
  }

  /** The marker-driven loader: `offset` rows past the marker, values from
      source columns 2 .. n + 1 for `n` period labels. */
  function LoadMarked(g: Grid, marker: string, offset: nat): Result<Frame, StatementError> {
    match FirstIndex(g, YearMarker, 0)
    case None => Err(NoYearRow)
    case Some(y) =>
      match MarkerRow(g, marker)
      case None => Err(NoDataStart)
      case Some(m) => Assemble(g, y, m + offset)
  }

  /** The frame built from year row `y` and data start `d`, once both are found. */
  function Assemble(g: Grid, y: nat, d: nat): Result<Frame, StatementError>
    requires y < |g|
  {
    var years := YearCells(g[y]);
    if SliceWidth(|years|, Width(g)) != |years| then Err(LengthMismatch)
    else
      var rows := RowsFrom(g, d);
      Ok(Frame(RowLabels(rows), PeriodNames(years), RowValues(rows, |years|)))
  }

  /** `load_profit_loss_file`: data starts one row after `INCOME :`. */
  function LoadProfitLoss(read: Result<Grid, string>): Result<Frame, StatementError> {
    match read
    case Err(e) => Err(ReadFailed(e))
    case Ok(g) => LoadMarked(g, "INCOME :", 1)
  }

  /** `load_cash_flow_file`: data starts two rows after `Cash Flow Summary`. */
  function LoadCashFlow(read: Result<Grid, string>): Result<Frame, StatementError> {
    match read
    case Err(e) => Err(ReadFailed(e))
    case Ok(g) => LoadMarked(g, "Cash Flow Summary", 2)
  }

  /** A successful load: the first `Year` row gives the labels, the first
      marker row plus the offset gives the data, and each value comes from
      two columns to the right of its line label. */
  lemma LoadMarkedOk(g: Grid, marker: string, offset: nat)
    requires LoadMarked(g, marker, offset).Ok?
    ensures FirstIndex(g, YearMarker, 0).Some? && MarkerRow(g, marker).Some?
    ensures var y := FirstIndex(g, YearMarker, 0).value;
      YearMarker(g[y]) && (forall r :: 0 <= r < y ==> !YearMarker(g[r]))
    ensures var m := MarkerRow(g, marker).value;
      HasMarker(g[m], marker) && (forall r :: 0 <= r < m ==> !HasMarker(g[r], marker))
    ensures LoadMarked(g, marker, offset)
      == Assemble(g, FirstIndex(g, YearMarker, 0).value, MarkerRow(g, marker).value + offset)
  {
  }

  /** What an assembled frame holds: as many labels as kept year cells,
      each value two columns right of its line label. */
  lemma AssembleOk(g: Grid, y: nat, d: nat)
    requires y < |g| && Assemble(g, y, d).Ok?
    ensures var f := Assemble(g, y, d).value;
      var years := YearCells(g[y]);
      WellFormed(f)
      && f.columns == PeriodNames(years)
      && (|years| == 0 || |years| + 2 <= Width(g))
      && |f.index| == (if d <= |g| then |g| - d else 0)
      && (forall i, k :: 0 <= i < |f.index| && 0 <= k < |years| ==>
            f.cells[i][k] == Coerce(CellAt(g[d + i], k + 2)))
      && (forall i :: 0 <= i < |f.index| ==> f.index[i] == CellText(CellAt(g[d + i], 0)))
  {
    var years := YearCells(g[y]);
    var rows := RowsFrom(g, d);
    assert SliceWidth(|years|, Width(g)) == |years|;
    assert Assemble(g, y, d).value == Frame(RowLabels(rows), PeriodNames(years), RowValues(rows, |years|));
  }

  /** `load_profit_loss_file`: the values start one row below the first
      `INCOME :` row; a failed read is passed on. */
  lemma LoadProfitLossOk(read: Result<Grid, string>)
    ensures read.Err? ==> LoadProfitLoss(read) == Err(ReadFailed(read.error))
    ensures read.Ok? && LoadProfitLoss(read).Ok? ==>
      MarkerRow(read.value, "INCOME :").Some?
      && FirstIndex(read.value, YearMarker, 0).Some?
      && LoadProfitLoss(read)
        == Assemble(read.value, FirstIndex(read.value, YearMarker, 0).value, MarkerRow(read.value, "INCOME :").value + 1)
  {
    if read.Ok? && LoadProfitLoss(read).Ok? {
      LoadMarkedOk(read.value, "INCOME :", 1);
    }
  }

  /** `load_cash_flow_file`: the values start two rows below the first
      `Cash Flow Summary` row; a failed read is passed on. */
  lemma LoadCashFlowOk(read: Result<Grid, string>)
    ensures read.Err? ==> LoadCashFlow(read) == Err(ReadFailed(read.error))
    ensures read.Ok? && LoadCashFlow(read).Ok? ==>
      MarkerRow(read.value, "Cash Flow Summary").Some?
      && FirstIndex(read.value, YearMarker, 0).Some?
      && LoadCashFlow(read)
        == Assemble(read.value, FirstIndex(read.value, YearMarker, 0).value, MarkerRow(read.value, "Cash Flow Summary").value + 2)
  {
    if read.Ok? && LoadCashFlow(read).Ok? {
      LoadMarkedOk(read.value, "Cash Flow Summary", 2);
    }
  }

  /** Once both rows are found, the load is the assembly from them. */
  lemma LoadMarkedFound(g: Grid, marker: string, offset: nat)
    requires FirstIndex(g, YearMarker, 0).Some? && MarkerRow(g, marker).Some?
    ensures FirstIndex(g, YearMarker, 0).value < |g|
    ensures LoadMarked(g, marker, offset)
      == Assemble(g, FirstIndex(g, YearMarker, 0).value, MarkerRow(g, marker).value + offset)
  {
  }

  /** When every cell of the `Year` row after the first is filled, the
      `n` labels meet only `n - 1` value columns and the load fails. */
  lemma FullYearRowFails(g: Grid, marker: string, offset: nat)
    requires FirstIndex(g, YearMarker, 0).Some?
    requires var row := g[FirstIndex(g, YearMarker, 0).value];
      |row| == Width(g) && Width(g) >= 2 && forall j :: 1 <= j < |row| ==> !row[j].Empty?
    requires MarkerRow(g, marker).Some?
    ensures LoadMarked(g, marker, offset) == Err(LengthMismatch)
  {
    var row := g[FirstIndex(g, YearMarker, 0).value];
    FilterAll(row[1..], (c: Cell) => !c.Empty?);
  }

  /** A missing marker is an error, whatever else the sheet holds. */
  lemma MissingMarkers(g: Grid, marker: string, offset: nat)
    ensures (forall r :: 0 <= r < |g| ==> !YearMarker(g[r])) ==> LoadMarked(g, marker, offset) == Err(NoYearRow)
    ensures (forall r :: 0 <= r < |g| ==> !HasMarker(g[r], marker)) && FirstIndex(g, YearMarker, 0).Some?
      ==> LoadMarked(g, marker, offset) == Err(NoDataStart)
  {
  }

  /** `rearrange_data` of `utils.py` and `profit_loss.py`: a plain transpose;
      `None` stays `None`. */
  function RearrangeData(df: Option<Frame>): (r: Option<Frame>)
    requires df.Some? ==> WellFormed(df.value)
    ensures r.None? <==> df.None?
    ensures r.Some? ==> WellFormed(r.value) && r.value.index == df.value.columns && r.value.columns == df.value.index
    ensures r.Some? ==> forall p, m :: 0 <= p < |r.value.index| && 0 <= m < |r.value.columns| ==>
      r.value.cells[p][m] == df.value.cells[m][p]
    ensures r.Some? ==> Transpose(r.value) == df.value
  {
    match df
    case None => None
    case Some(f) =>
      TransposeTwice(f);
      Some(Transpose(f))
  }

  /** The loader on a local table: find the year row and the marker row,
      giving none when either is missing, then assemble the table. */
  method LoadStatement(g: Grid, marker: string, offset: nat) returns (r: Option<Frame>)
    ensures r == ToOption(LoadMarked(g, marker, offset))
  {
    var yearRow := FirstIndex(g, YearMarker, 0);
    if yearRow.None? {
      return None;
    }
    var markerRow := MarkerRow(g, marker);
    if markerRow.None? {
      return None;
    }
    LoadMarkedFound(g, marker, offset);
    r := AssembleStatement(g, FirstIndex(g, YearMarker, 0).value, MarkerRow(g, marker).value + offset);
  }

  /** The steps after both rows are found: parse the labels, check the
      slice width, take the rows from `d` on and convert their values. */
  method AssembleStatement(g: Grid, y: nat, d: nat) returns (r: Option<Frame>)
    requires y < |g|
    ensures r == ToOption(Assemble(g, y, d))
  {
    var years := YearCells(g[y]);
    var parsed := PeriodNames(years);
    var width := SliceWidth(|years|, Width(g));
    if width != |years| {
      return None;
    }
    var rows := RowsFrom(g, d);
    var index := RowLabels(rows);
    var cells := ConvertColumns(rows, width);
    r := Some(Frame(index, parsed, cells));
  }

  /** `apply(pd.to_numeric, errors='coerce').fillna(0)`, one column at a time. */
  method ConvertColumns(rows: Grid, n: nat) returns (cells: seq<seq<real>>)
    ensures cells == RowValues(rows, n)
  {
    cells := seq(|rows|, i => []);
    for k := 0 to n
      invariant |cells| == |rows|
      invariant forall i :: 0 <= i < |rows| ==> |cells[i]| == k
      invariant forall i, c :: 0 <= i < |rows| && 0 <= c < k ==> cells[i][c] == Coerce(CellAt(rows[i], c + 2))
    {
      cells := seq(|rows|, i requires 0 <= i < |rows| && i < |cells| => cells[i] + [Coerce(CellAt(rows[i], k + 2))]);
    }
    assert forall i :: 0 <= i < |rows| ==> cells[i] == RowValues(rows, n)[i];
  }
}
