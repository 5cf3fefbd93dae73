/** The decision logic of `smart_file_reader`: which parser to try, in which
    order, and which result to accept. The upload's bytes and the real
    spreadsheet and CSV parsers are not modelled: `excel(engine)` and
    `parse(delimiter)` stand for `pd.read_excel(file, engine=…, header=None)`
    and `pd.read_csv(…, delimiter=…, header=None)` on the same content, an
    `Err` carrying the message of the exception they raise. Every attempt
    reads the original content: the CSV and text branches rewind with
    `file.seek(0)`, and for spreadsheets pandas rewinds by itself. */
module Reader {
  import opened Strings
  import opened Grid

  datatype Engine = Openpyxl | Xlrd | Calamine

  /** The delimiters the readers hand to `read_csv`; `Whitespace` is the
      regular expression `\s+`. */
  datatype Delimiter = Tab | Comma | Semicolon | Pipe | Whitespace

  function Sep(d: Delimiter): char
    requires d != Whitespace
  {
    match d
    case Tab => '\t'
    case Comma => ','
    case Semicolon => ';'
    case Pipe => '|'
  }

  /** The engines tried, in order, for each spreadsheet extension. */
  function ExcelEngines(ext: string): seq<Engine> {
    if ext == ".xlsx" then [Openpyxl, Xlrd, Calamine] else [Xlrd, Openpyxl]
  }

  const CsvDelimiters: seq<Delimiter> := [Comma, Semicolon, Pipe]
  const GpDelimiters: seq<Delimiter> := [Tab, Comma, Semicolon, Pipe]

  /** A spreadsheet parse is kept when it did not raise and is not empty. */
  predicate Usable(r: Result<Grid, string>) {
    r.Ok? && !IsEmpty(r.value)
  }

  /** A CSV parse is kept when it did not raise and has several columns. */
  predicate Wide(r: Result<Grid, string>) {
    r.Ok? && Width(r.value) > 1
  }

  /** The outer `except` of the reader: an exception from `read_csv` in the
      `.gp` and text branches becomes an error message. */
  function Reraise(r: Result<Grid, string>): Result<Grid, string> {
    match r
    case Ok(g) => Ok(g)
    case Err(e) => Err("Error reading file: " + e)
  }

  // ---------------------------------------------------------------- .gp

  /** `len(line.split(d))` for a line that is not blank; blank lines are
      skipped, which counts as 0 since the vote keeps only strict gains. */
  function Columns(line: string, d: Delimiter): nat
    requires d != Whitespace
  {
    if Strip(line) == [] then 0 else |Split(line, Sep(d))|
  }

  function Larger(a: nat, b: nat): nat {
    if b > a then b else a
  }

  /** The largest of `xs`, 0 for none. */
  function Maximum(xs: seq<nat>): (m: nat)
    ensures forall i :: 0 <= i < |xs| ==> xs[i] <= m
    ensures m == 0 || exists i :: 0 <= i < |xs| && xs[i] == m
  {
    if xs == [] then 0
    else
      var init := xs[..|xs| - 1];
      assert forall i :: 0 <= i < |init| ==> xs[i] == init[i];
      Larger(Maximum(init), xs[|xs| - 1])
  }

  lemma MaximumSnoc(xs: seq<nat>, l: nat)
    requires l < |xs|
    ensures Maximum(xs[..l + 1]) == Larger(Maximum(xs[..l]), xs[l])
  {
    assert xs[..l + 1][..l] == xs[..l];
  }

  /** The column count `d` gives on each of `lines`. */
  function LineColumns(lines: seq<string>, d: Delimiter): (r: seq<nat>)
    requires d != Whitespace
    ensures |r| == |lines| && forall i :: 0 <= i < |lines| ==> r[i] == Columns(lines[i], d)
  {
    seq(|lines|, i requires 0 <= i < |lines| => Columns(lines[i], d))
  }

  /** The largest column count `d` gives on any of `lines`. */
  function MaxColumns(lines: seq<string>, d: Delimiter): nat
    requires d != Whitespace
  {
    Maximum(LineColumns(lines, d))
  }

  /** The maximum is 0 exactly when every line is blank. */
  lemma MaxColumnsZero(lines: seq<string>, d: Delimiter)
    requires d != Whitespace
    ensures MaxColumns(lines, d) == 0 <==> forall i :: 0 <= i < |lines| ==> Strip(lines[i]) == []
  {
    var cs := LineColumns(lines, d);
    if MaxColumns(lines, d) == 0 {
      forall i | 0 <= i < |lines| ensures Strip(lines[i]) == [] {
        assert cs[i] <= 0;
      }
    } else {
      var i :| 0 <= i < |cs| && cs[i] == MaxColumns(lines, d);
      assert Strip(lines[i]) != [];
    }
  }

  /** One step of the vote: a strictly larger count `c` for `d` replaces
      the best so far. */
  function Gain(best: (Delimiter, nat), d: Delimiter, c: nat): (Delimiter, nat) {
    if c > best.1 then (d, c) else best
  }

  /** Two gains for the same delimiter are one gain with the larger count. */
  lemma GainTwice(best: (Delimiter, nat), d: Delimiter, a: nat, c: nat)
    ensures Gain(Gain(best, d, a), d, c) == Gain(best, d, Larger(a, c))
  {
  }

  /** The vote over delimiters `ds` with counts `scores`, keeping the
      earlier one on ties; `(Tab, 0)` before any gain. */
  function Vote(ds: seq<Delimiter>, scores: seq<nat>): (Delimiter, nat)
    requires |ds| == |scores|
  {
    if ds == [] then (Tab, 0)
    else Gain(Vote(ds[..|ds| - 1], scores[..|ds| - 1]), ds[|ds| - 1], scores[|ds| - 1])
  }

  /** Extending the delimiter list by one folds that delimiter in. */
  lemma VoteSnoc(ds: seq<Delimiter>, scores: seq<nat>, k: nat)
    requires |ds| == |scores| && k < |ds|
    ensures Vote(ds[..k + 1], scores[..k + 1]) == Gain(Vote(ds[..k], scores[..k]), ds[k], scores[k])
  {
    assert ds[..k + 1][..k] == ds[..k];
    assert scores[..k + 1][..k] == scores[..k];
  }

  /** The vote returns the largest score, the first delimiter reaching it,
      and `Tab` when every score is 0. */
  lemma {:induction false} VoteIsBest(ds: seq<Delimiter>, scores: seq<nat>)
    requires |ds| == |scores|
    ensures var (b, m) := Vote(ds, scores);
      (forall i :: 0 <= i < |ds| ==> scores[i] <= m)
      && (m == 0 ==> b == Tab)
      && (m > 0 ==> exists i :: (0 <= i < |ds| && ds[i] == b && scores[i] == m
            && forall j :: 0 <= j < i ==> scores[j] < m))
  {
    if ds != [] {
      var n := |ds| - 1;
      VoteIsBest(ds[..n], scores[..n]);
      assert forall i :: 0 <= i < n ==> ds[i] == ds[..n][i] && scores[i] == scores[..n][i];
      var (b, m) := Vote(ds[..n], scores[..n]);
      if scores[n] <= m && m > 0 {
        var i :| 0 <= i < n && ds[..n][i] == b && scores[..n][i] == m
          && forall j :: 0 <= j < i ==> scores[..n][j] < m;
        assert ds[i] == b && scores[i] == m;
      }
    }
  }

  /** The first five lines of the content, as `content.split('\n')[:5]`. */
  function FirstLines(content: string): seq<string> {
    var all := Split(content, '\n');
    if |all| <= 5 then all else all[..5]
  }

  /** Each candidate's best count over `lines`. */
  function Scores(lines: seq<string>): (r: seq<nat>)
    ensures |r| == |GpDelimiters|
    ensures forall k :: 0 <= k < |GpDelimiters| ==> r[k] == MaxColumns(lines, GpDelimiters[k])
  {
    seq(|GpDelimiters|, k requires 0 <= k < |GpDelimiters| => MaxColumns(lines, GpDelimiters[k]))
  }

  function GpDelimiter(lines: seq<string>): Delimiter {
    Vote(GpDelimiters, Scores(lines)).0
  }

  /** `Priority` is the position in the `.gp` candidate list. */
  lemma PriorityIsPosition(k: nat)
    requires k < |GpDelimiters|
    ensures Priority(GpDelimiters[k]) == k
  {
  }

  /** The `.gp` delimiter: among tab, comma, semicolon and pipe, the
      earliest one whose count on some line of `lines` is largest. */
  lemma GpDelimiterIsBest(lines: seq<string>)
    ensures var sc := Scores(lines); var w := Priority(GpDelimiter(lines));
      w < |GpDelimiters| && GpDelimiters[w] == GpDelimiter(lines)
      && (forall k :: 0 <= k < |GpDelimiters| ==> sc[k] <= sc[w])
      && (forall k :: 0 <= k < w ==> sc[k] < sc[w])
  {
    var sc := Scores(lines);
    VoteIsBest(GpDelimiters, sc);
    var (b, m) := Vote(GpDelimiters, sc);
    var w: nat := 0;
    if m > 0 {
      w :| 0 <= w < |GpDelimiters| && GpDelimiters[w] == b && sc[w] == m
        && forall j :: 0 <= j < w ==> sc[j] < m;
    }
    PriorityIsPosition(w);
  }

  /** When every line is blank no delimiter gains, and tab stays. */
  lemma GpDelimiterBlank(lines: seq<string>)
    requires forall i :: 0 <= i < |lines| ==> Strip(lines[i]) == []
    ensures GpDelimiter(lines) == Tab
  {
    var sc := Scores(lines);
    MaxColumnsZero(lines, Tab);
    MaxColumnsZero(lines, Comma);
    MaxColumnsZero(lines, Semicolon);
    MaxColumnsZero(lines, Pipe);
    assert forall k :: 0 <= k < |GpDelimiters| ==> sc[k] == 0;
    VoteIsBest(GpDelimiters, sc);
  }

  /** The `.gp` vote as the source runs it: delimiters outer, lines inner,
      a strictly larger column count replacing the best so far. */
  method VoteDelimiter(lines: seq<string>) returns (best: Delimiter)
    ensures best == GpDelimiter(lines)
  {
    ghost var sc := Scores(lines);
    best := Tab;
    var maxColumns := 0;
    var k := 0;
    while k < |GpDelimiters|
      invariant 0 <= k <= |GpDelimiters|
      invariant (best, maxColumns) == Vote(GpDelimiters[..k], sc[..k])
    {
      best, maxColumns := ScanLines(lines, GpDelimiters[k], best, maxColumns);
      VoteSnoc(GpDelimiters, sc, k);
      k := k + 1;
    }
    assert GpDelimiters[..k] == GpDelimiters && sc[..k] == sc;
  }

  /** The inner loop for one delimiter `d`: every non-blank line whose
      column count beats the best so far makes `d` the best. */
  method ScanLines(lines: seq<string>, d: Delimiter, best0: Delimiter, max0: nat)
    returns (best: Delimiter, maxColumns: nat)
    requires d != Whitespace
    ensures (best, maxColumns) == Gain((best0, max0), d, MaxColumns(lines, d))
  {
    ghost var cs := LineColumns(lines, d);
    best, maxColumns := best0, max0;
    var l := 0;
    while l < |lines|
      invariant 0 <= l <= |lines|
      invariant (best, maxColumns) == Gain((best0, max0), d, Maximum(cs[..l]))
    {
      MaximumSnoc(cs, l);
      GainTwice((best0, max0), d, Maximum(cs[..l]), cs[l]);
      if Strip(lines[l]) != [] {
        var columns := |Split(lines[l], Sep(d))|;
        if columns > maxColumns {
          maxColumns := columns;
          best := d;
        }
      }
      l := l + 1;
    }
    assert cs[..l] == cs;
  }

  // ------------------------------------------------------ .txt and .tsv

  /** `content.split('\n')[0]`. */
  function FirstLine(content: string): string {
    Split(content, '\n')[0]
  }

  /** The first line is the content up to its first line break. */
  lemma {:induction false} FirstLineIsPrefix(content: string)
    ensures FirstLine(content) == content[..IndexOf(content, '\n')]
  {
    if content != [] && content[0] != '\n' {
      FirstLineIsPrefix(content[1..]);
    }
  }

  function TextDelimiter(ext: string, content: string): Delimiter {
    if ext == ".tsv" then Tab
    else
      var first := FirstLine(content);
      if '\t' in first then Tab
      else if ',' in first then Comma
      else if ';' in first then Semicolon
      else Whitespace
  }

  /** For `.txt`: the first of tab, comma, semicolon found on the first
      line, whitespace when none is; `.tsv` is always tab. */
  lemma TextDelimiterRule(ext: string, content: string)
    ensures ext == ".tsv" ==> TextDelimiter(ext, content) == Tab
    ensures ext != ".tsv" ==> var d := TextDelimiter(ext, content);
      var first := content[..IndexOf(content, '\n')];
      (d == Whitespace <==> '\t' !in first && ',' !in first && ';' !in first)
      && (d != Whitespace ==> (Sep(d) in first
            && forall e :: e in [Tab, Comma, Semicolon] && Sep(e) in first ==> Priority(e) >= Priority(d)))
  {
    FirstLineIsPrefix(content);
  }

  /** Priority of a text delimiter in the first-line sniffing. */
  function Priority(d: Delimiter): nat {
    match d
    case Tab => 0
    case Comma => 1
    case Semicolon => 2
    case Pipe => 3
    case Whitespace => 4
  }

  // ------------------------------------------------------------ dispatch

  /** The spreadsheet branch: the first engine giving a non-empty table. */
  function ReadExcel(ext: string, excel: Engine -> Result<Grid, string>): Result<Grid, string> {
    var engines := ExcelEngines(ext);
    match FirstIndex(engines, (e: Engine) => Usable(excel(e)), 0)
    case Some(i) => excel(engines[i])
    case None => Err("Failed to read Excel file with any engine")
  }

  /** The CSV branch: the first delimiter giving more than one column. */
  function ReadCsvWith(parse: Delimiter -> Result<Grid, string>): Result<Grid, string> {
    match FirstIndex(CsvDelimiters, (d: Delimiter) => Wide(parse(d)), 0)
    case Some(i) => parse(CsvDelimiters[i])
    case None => Err("Failed to parse CSV file")
  }

  /** What `smart_file_reader` returns, as a function of the extension, the
      content and the parsers' results. */
  function Read(ext: string, content: string,
                excel: Engine -> Result<Grid, string>,
                parse: Delimiter -> Result<Grid, string>): Result<Grid, string>
  {
    if ext == ".xls" || ext == ".xlsx" then ReadExcel(ext, excel)
    else if ext == ".csv" then ReadCsvWith(parse)
    else if ext == ".gp" then
      Reraise(parse(GpDelimiter(FirstLines(content))))
    else if ext == ".txt" || ext == ".tsv" then
      Reraise(parse(TextDelimiter(ext, content)))
    else
      Err("Unsupported file format: " + ext)
  }

  /** `smart_file_reader` with the source's loops. */
  method SmartFileReader(ext: string, content: string,
                         excel: Engine -> Result<Grid, string>,
                         parse: Delimiter -> Result<Grid, string>)
    returns (r: Result<Grid, string>)
    ensures r == Read(ext, content, excel, parse)
  {
    if ext == ".xls" || ext == ".xlsx" {
      r := TryEngines(ext, excel);
    } else if ext == ".csv" {
      r := TryCsvDelimiters(parse);
    } else if ext == ".gp" {
      var best := VoteDelimiter(FirstLines(content));
      r := Reraise(parse(best));
    } else if ext == ".txt" || ext == ".tsv" {
      r := Reraise(parse(TextDelimiter(ext, content)));
    } else {
      r := Err("Unsupported file format: " + ext);
    }
  }

  /** The engine loop: the first non-empty table, or the failure message. */
  method TryEngines(ext: string, excel: Engine -> Result<Grid, string>) returns (r: Result<Grid, string>)
    ensures r == ReadExcel(ext, excel)
  {
    var engines := ExcelEngines(ext);
    var i := 0;
    while i < |engines|
      invariant 0 <= i <= |engines|
      invariant forall k :: 0 <= k < i ==> !Usable(excel(engines[k]))
    {
      var df := excel(engines[i]);
      if df.Ok? && !IsEmpty(df.value) {
        return df;
      }
      i := i + 1;
    }
    return Err("Failed to read Excel file with any engine");
  }

  /** The delimiter loop: the first parse with several columns, or the
      failure message. */
  method TryCsvDelimiters(parse: Delimiter -> Result<Grid, string>) returns (r: Result<Grid, string>)
    ensures r == ReadCsvWith(parse)
  {
    var i := 0;
    while i < |CsvDelimiters|
      invariant 0 <= i <= |CsvDelimiters|
      invariant forall k :: 0 <= k < i ==> !Wide(parse(CsvDelimiters[k]))
    {
      var df := parse(CsvDelimiters[i]);
      if df.Ok? && Width(df.value) > 1 {
        return df;
      }
      i := i + 1;
    }
    return Err("Failed to parse CSV file");
  }

  /** An extension outside the six handled ones is an error naming it. */
  lemma ReadUnsupported(ext: string, content: string,
                        excel: Engine -> Result<Grid, string>,
                        parse: Delimiter -> Result<Grid, string>)
    requires ext !in {".xls", ".xlsx", ".csv", ".gp", ".txt", ".tsv"}
    ensures Read(ext, content, excel, parse) == Err("Unsupported file format: " + ext)
  {
  }

  /** A spreadsheet read succeeds exactly when some engine gives a
      non-empty grid, and then it is the first such engine's grid. */
  lemma ReadSpreadsheet(ext: string, content: string,
                        excel: Engine -> Result<Grid, string>,
                        parse: Delimiter -> Result<Grid, string>)
    requires ext == ".xls" || ext == ".xlsx"
    ensures var r := Read(ext, content, excel, parse);
      var es := ExcelEngines(ext);
      (r.Ok? <==> exists i :: 0 <= i < |es| && Usable(excel(es[i])))
      && (r.Ok? ==> !IsEmpty(r.value) && exists i :: (0 <= i < |es| && excel(es[i]) == r
            && forall k :: 0 <= k < i ==> !Usable(excel(es[k]))))
      && (r.Err? ==> r.error == "Failed to read Excel file with any engine")
  {
    var es := ExcelEngines(ext);
    var f := FirstIndex(es, (e: Engine) => Usable(excel(e)), 0);
    if f.None? {
      assert forall i :: 0 <= i < |es| ==> !Usable(excel(es[i]));
    }
  }

  /** A CSV read succeeds exactly when some delimiter of `, ; |` gives
      more than one column, and then it is the first such one. */
  lemma ReadCsv(content: string,
                excel: Engine -> Result<Grid, string>,
                parse: Delimiter -> Result<Grid, string>)
    ensures var r := Read(".csv", content, excel, parse);
      (r.Ok? <==> exists i :: 0 <= i < |CsvDelimiters| && Wide(parse(CsvDelimiters[i])))
      && (r.Ok? ==> Width(r.value) > 1 && exists i :: (0 <= i < |CsvDelimiters| && parse(CsvDelimiters[i]) == r
            && forall k :: 0 <= k < i ==> !Wide(parse(CsvDelimiters[k]))))
      && (r.Err? ==> r.error == "Failed to parse CSV file")
  {
    var f := FirstIndex(CsvDelimiters, (d: Delimiter) => Wide(parse(d)), 0);
    if f.None? {
      assert forall i :: 0 <= i < |CsvDelimiters| ==> !Wide(parse(CsvDelimiters[i]));
    }
  }

  /** A semicolon file: the comma parse gives one column, so the reader
      falls through to the semicolon parse. */
  lemma ReadCsvSemicolon(content: string,
                         excel: Engine -> Result<Grid, string>,
                         parse: Delimiter -> Result<Grid, string>)
    requires !Wide(parse(Comma)) && Wide(parse(Semicolon))
    ensures Read(".csv", content, excel, parse) == parse(Semicolon)
  {
    var p := (d: Delimiter) => Wide(parse(d));
    assert !p(CsvDelimiters[0]) && p(CsvDelimiters[1]);
    assert FirstIndex(CsvDelimiters, p, 0) == Some(1);
  }
}
