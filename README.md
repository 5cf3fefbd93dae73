# Financial statement analyser — verified model

This project models the core of a small financial-statement analyser in
Dafny. The analyser loads three kinds of statement: a balance sheet, a
profit-and-loss statement and a cash-flow statement. It turns each one into
a table of line items by reporting period. It then computes year-on-year
growth and a few ratios.

The model covers these parts of the analyser:

- **Period labels** (`Periods`). Two normalisers turn raw period headers
  into labels such as `Mar-2011` or `FY-2011`. One is the length-driven
  normaliser of the balance-sheet loader. The other splits the header into
  year and month; the profit-and-loss and cash-flow loaders share it.
- **File reading** (`Reader`). The model covers how the reader picks a
  spreadsheet engine, a CSV delimiter or a text delimiter. The `.gp`
  reader's delimiter vote over the first five lines is included. The
  spreadsheet and CSV parsers themselves are parameters: `excel` and
  `parse` stand for what those libraries return.
- **Layout search** (`Locator`). It finds the row that contains the
  periods, and where the data starts. The default layout is used when no
  period row is found.
- **Balance-sheet normalisation** (`Normalizer`). This covers:
  - the header and dropping empty rows;
  - parsing and renaming the period columns;
  - coercing text to numbers, with zero for missing values;
  - dropping lines that are zero in every period;
  - the error paths;
  - the transpose into years by metrics.
- **Profit-and-loss and cash-flow loaders** (`Statements`). This covers
  the `Year` marker row, the `INCOME :` and `Cash Flow Summary` anchors,
  the slice of values, and the transpose.
- **Metric detection** (`Metrics`). Columns are resolved to balance-sheet
  categories by case-insensitive substring patterns.
- **Analyses** (`Analysis`). This covers:
  - year-on-year growth (`pct_change() * 100`), with the infinities and NaN
    of floating-point division made explicit;
  - the current ratio and the debt-to-equity ratio, guarded against a zero
    denominator;
  - the unguarded operating margin;
  - the operating-to-investing cash-flow ratio;
  - the insertion-ordered dictionary that collects the results.
- **Trend selection** (`Charts`). This is the column choice behind the
  balance-sheet trend chart: up to five matching columns, otherwise the
  first three.

Shared modules:

- `Strings` holds string operations: ASCII strip and lower-case, substring
  search, split, join, decimal parsing and digit rendering.
- `Grid` holds the raw cell grid, the labelled frame with its transpose,
  and generic first-match and filter lemmas.

Loops in the source are methods with loop invariants. Each method's
`ensures` ties its result to a specification function. The properties of
those functions are proved as lemmas.

Where the source's documentation and its code differ, the model follows the
code:

- The balance-sheet normaliser's "other lengths" branch takes the *leftmost*
  run of four digits.
- The keyword fallback of the layout search has no effect on the result: a
  missing year row is always replaced by the default layout, rows 0 and 1
  (`Locator.LayoutIsNextRow`).
- The "no year columns" error of the balance-sheet loader can never be
  reached (`Normalizer.NoYearColumnsUnreachable`).
- The balance-sheet loader renames a first column labelled `year` or
  `nan` to `Item` by label. Every period column with that same label is
  renamed too and comes out as `FY-Item`. Column 0 then also joins the
  `dropna` subset (`Normalizer.NormalizeOk`,
  `Normalizer.RenamedColumnJoinsSubset`).
- The profit-and-loss data starts one row after `INCOME :`, while the
  cash-flow data starts two rows after `Cash Flow Summary`.
- The operating margin has no zero guard, so a zero `Net Sales` gives ±∞ or
  NaN (`Analysis.MarginMeaning`).
- A profit-and-loss or cash-flow sheet whose `Year` row is filled to the
  last column cannot be loaded (`Statements.FullYearRowFails`). The value
  slice skips one column more than the labels do, so the slice is one
  column short of the labels.

## Model

| member | source | states |
|---|---|---|
| Periods.ParseYear | balance_sheet.py:8-35 | definition: strip, then branch on length 6, 4, 8 or other; the `ParseYear…` lemmas below state each branch |
| Periods.ParseYearSplit | utils.py:5-15 | definition: year from the first four characters, month from the rest, the input unchanged when parsing fails; the `ParseYearSplit…` lemmas state the cases |
| Periods.ParseYearMonthCode | balance_sheet.py:17-20 | a six-digit `YYYYMM` code with year 1..9999 and month 1..12 becomes `<Mon>-YYYY` |
| Periods.ParseYearDateCode | balance_sheet.py:23-26 | an eight-character label is read as year and month only; the last two characters never matter |
| Periods.ParseYearSixFallback | balance_sheet.py:17-35 | a six-character label that is not a valid month code comes back stripped and otherwise unchanged, as the exception path returns it |
| Periods.ParseYearNotNumeric | balance_sheet.py:17-35 | `FY` followed by four digits (such as `"FY2011"`) is returned unchanged because its year part is not a number |
| Periods.ParseYearMonthOutOfRange | balance_sheet.py:17-35 | four year digits followed by a month 13..99 (such as `"201113"`) are returned unchanged because that month does not exist |
| Periods.ParseYearYearZero | balance_sheet.py:17-35 | year `0000` followed by any two-digit month is returned unchanged because year 0 does not exist |
| Periods.ParseYearFour | balance_sheet.py:21-22 | every four-character label, digits or not, gets the `FY-` prefix |
| Periods.ParseYearOtherLengths | balance_sheet.py:27-32 | for other lengths, the result is `FY-` plus the leftmost run of four digits, or the stripped text when there is no such run |
| Periods.ParseYearShape | balance_sheet.py:8-35 | every result is the stripped input, an `FY-` label, or `<Mon>-` followed by four digits |
| Periods.ParseYearNotFourLong | balance_sheet.py:239-245 | no parsed label has length 4, so none can collide with the `Item` column name |
| Periods.ParseYearSplitMonthCode | utils.py:10-13 | four year digits, then a month 1..12 written with any number of digits, becomes `<Mon>-YYYY` |
| Periods.ParseYearSplitShort | utils.py:10-15 | a label of at most four characters has no month, so it is returned unchanged |
| Periods.ParseYearSplitFallback | utils.py:10-15 | a non-numeric month, month 0 or a month above 12 returns the input unchanged |
| Periods.ParseYearSplitDateCode | profit_loss.py:6-13 | a full date `YYYYMMDD` with a real month and day is returned unchanged, because its month part `MMDD` is at least 101 (`"20110331"` reads month 331) |
| Periods.NormalisersAgreeOnMonthCodes | utils.py:5-15 | on six-digit codes the two normalisers give the same label |
| Periods.NormalisersDifferOnYears | balance_sheet.py:21-22 | on four-digit years the balance-sheet normaliser gives `FY-YYYY`, while the other leaves the year as it is |
| Reader.Read | balance_sheet.py:37-111 | definition of the reader by extension; `ReadSpreadsheet`, `ReadCsv`, `ReadUnsupported` and `SmartFileReader` are about it |
| Reader.GpDelimiter | balance_sheet.py:71-82 | definition of the `.gp` vote; `GpDelimiterIsBest` and `GpDelimiterBlank` state its meaning |
| Reader.TextDelimiter | balance_sheet.py:93-105 | definition of the text-file delimiter choice; `TextDelimiterRule` states it case by case |
| Reader.MaxColumnsZero | balance_sheet.py:76-82 | the column count stays 0 exactly when every inspected line is blank |
| Reader.VoteIsBest | balance_sheet.py:73-82 | the vote returns the highest column count, and the earliest delimiter that reaches it; tab when every count is 0 |
| Reader.GpDelimiterIsBest | balance_sheet.py:71-82 | the `.gp` delimiter has the highest count over the first five lines, and every delimiter listed before it scores lower |
| Reader.GpDelimiterBlank | balance_sheet.py:73-82 | blank content keeps the tab default |
| Reader.ScanLines | balance_sheet.py:77-82 | the loop over the first lines raises the running maximum to the widest split by one delimiter, taking that delimiter only on a strict increase |
| Reader.VoteDelimiter | balance_sheet.py:71-82 | the nested loop returns the delimiter that the voting specification chooses |
| Reader.FirstLineIsPrefix | balance_sheet.py:97 | the first line is the content up to the first newline |
| Reader.TextDelimiterRule | balance_sheet.py:93-105 | `.tsv` uses tab. Otherwise the first of tab, comma and semicolon found in the first line is used, and whitespace exactly when none of them occurs |
| Reader.TryEngines | balance_sheet.py:44-51 | the engine loop returns the first engine's non-empty table, or the failure message when no engine reads a non-empty table |
| Reader.TryCsvDelimiters | balance_sheet.py:55-63 | the delimiter loop returns the first table with more than one column, or the failure message when none has |
| Reader.SmartFileReader | balance_sheet.py:37-111 | the method returns what the reading specification gives for the extension and the parser outcomes |
| Reader.ReadUnsupported | balance_sheet.py:110-111 | any other extension fails with `Unsupported file format: <ext>` |
| Reader.ReadSpreadsheet | balance_sheet.py:40-51 | a spreadsheet read succeeds iff some engine yields a non-empty table; the result is the first such table; otherwise it fails with `Failed to read Excel file with any engine` |
| Reader.ReadCsv | balance_sheet.py:53-63 | a CSV read succeeds iff some delimiter of `, ; \|` yields more than one column; the result is the first such table; otherwise it fails with `Failed to parse CSV file` |
| Reader.ReadCsvSemicolon | balance_sheet.py:55-60 | when commas give one column and semicolons give more, the semicolon table is returned |
| Locator.IsYearRow | balance_sheet.py:118-146 | definition: some year pattern matches the row's joined lower-case text; `YearRowByDigits` and `CellMarksYearRow` are about it |
| Locator.DataStructure | balance_sheet.py:116-167 | definition of `find_data_structure`; `FindDataStructure` computes it |
| Locator.Layout | balance_sheet.py:183-213 | definition of the header row and data start used; `LayoutIsNextRow` and `LayoutInRange` state its properties |
| Locator.YearRowByDigits | balance_sheet.py:118-146 | a row is a year row iff its joined lower-case text contains `year` or four consecutive digits; the other three patterns add nothing |
| Locator.CellMarksYearRow | balance_sheet.py:140-146 | a single non-empty cell that contains four digits makes its row a year row |
| Locator.AnyYearPattern | balance_sheet.py:143-146 | the pattern loop reports a match iff one of the year patterns matches |
| Locator.AnySheetPattern | balance_sheet.py:159-162 | the pattern loop reports a match iff one of the balance-sheet patterns matches |
| Locator.FindYearRow | balance_sheet.py:140-149 | returns the first row that is a year row, or none |
| Locator.FindSheetRow | balance_sheet.py:156-165 | returns the first row that matches a balance-sheet keyword, or none |
| Locator.FindDataStructure | balance_sheet.py:116-167 | the year row, plus the next row when a year row exists and the keyword row otherwise |
| Locator.LayoutIsNextRow | balance_sheet.py:183-207 | the layout actually used always starts the data one row below the header: the year row if found, row 0 otherwise |
| Locator.LayoutInRange | balance_sheet.py:183-213 | on a non-empty grid the header row exists and the data start is at most the row count |
| Normalizer.LabelledColumns | balance_sheet.py:221 | exactly the columns after the first whose header cell is present, in increasing order |
| Normalizer.Cleanup | balance_sheet.py:221-225 | the kept rows each have a value under some column of the subset; the result is empty iff no row has one |
| Normalizer.RenamedHeader | balance_sheet.py:215-218 | the header after the rename: a column labelled like a `year`/`nan` first label becomes `Item`; every other label, and every missing one, is kept |
| Normalizer.DropnaColumns | balance_sheet.py:221 | the `dropna` subset holds every labelled column after the first, and column 0 exactly when a later column shares its label after the rename; it is empty when no column is labelled |
| Normalizer.RenamedColumnJoinsSubset | balance_sheet.py:215-221 | a period column the rename took puts column 0 into the `dropna` subset |
| Normalizer.RenamedPeriodLabels | balance_sheet.py:215-242 | with every header cell after the first present, the period labels are `parse_year` of each header cell in order, `FY-Item` where the rename took the column |
| Normalizer.ParseYearItem | balance_sheet.py:237-240 | a renamed period column is labelled `FY-Item` |
| Normalizer.Normalize | balance_sheet.py:210-258 | definition of the normalisation; the error conditions stated here are the cleanup coming out empty, a short subset and duplicate labels |
| Normalizer.PeriodLabels | balance_sheet.py:236-242 | one parsed label per labelled column of the renamed header, in column order |
| Normalizer.ParsePeriods | balance_sheet.py:236-242 | the loop builds exactly the parsed period labels |
| Normalizer.ToLine | balance_sheet.py:249-252 | a line keeps the item label and holds the coerced value of every later column, 0 where missing |
| Normalizer.CoerceColumns | balance_sheet.py:249-252 | each value column, cell by cell, is the coerced number of the raw cell |
| Normalizer.DropZeroLines | balance_sheet.py:254-256 | keeps exactly the lines that are non-zero in some period, in order |
| Normalizer.NormalizeTable | balance_sheet.py:210-258 | the method computes the normalisation specification, errors included |
| Normalizer.NormalizeOk | balance_sheet.py:210-258 | a loaded table has every header cell after the first present; its columns are the parsed labels (`FY-Item` for a renamed column), which are distinct; its lines are those of the data rows |
| Normalizer.NormalizeOkGuards | balance_sheet.py:221-246 | success means the header is full, at least one period exists, `Item` plus the periods are distinct, and the frame is built from the cleaned rows |
| Normalizer.NormalizeErrors | balance_sheet.py:221-250 | no data after cleanup iff no data row has a value in the `dropna` subset; a length mismatch implies a missing header cell; a duplicate-column error implies two equal period labels |
| Normalizer.NoYearColumnsUnreachable | balance_sheet.py:221-233 | the "no year columns" error never occurs, because cleanup on an empty subset has already emptied the table |
| Normalizer.CleanupRedundant | balance_sheet.py:221-256 | with a full header, dropping empty rows changes nothing that the zero-line filter keeps |
| Normalizer.NonZeroHasValue | balance_sheet.py:221-256 | a line that is non-zero in some period comes from a row with a labelled value |
| Normalizer.SubsetFull | balance_sheet.py:228-229 | a header present in every column after the first labels all of them |
| Normalizer.FullHeader | balance_sheet.py:228-229 | a labelled subset one shorter than the width is exactly columns 1..w-1, all present |
| Normalizer.ItemNeverDuplicated | balance_sheet.py:245-246 | when no label is `Item`, adding `Item` in front keeps the labels distinct iff they were distinct |
| Normalizer.PeriodLabelsNotItem | balance_sheet.py:239-245 | no parsed period label is `Item` |
| Normalizer.LinesWidth | balance_sheet.py:249-256 | every line has one value per period column |
| Normalizer.NormalizeWellFormed | balance_sheet.py:210-258 | a loaded table is rectangular: one label per line and one value per line and period |
| Normalizer.LoadBalanceSheetFile | balance_sheet.py:169-264 | the loader returns the loading specification's table, or none on any failure |
| Normalizer.Lines | balance_sheet.py:249-256 | definition: the converted rows the zero mask keeps; `DropZeroLines`, `CleanupRedundant` and `LinesWidth` state its properties |
| Normalizer.LoadBalanceSheet | balance_sheet.py:169-258 | definition of the whole loader: read, refuse an empty table, locate, normalise; `LoadBalanceSheetFile` and `LoadedWellFormed` are about it |
| Normalizer.LoadedWellFormed | balance_sheet.py:169-258 | every table the balance-sheet loader returns is rectangular |
| Normalizer.RearrangeBalanceSheet | balance_sheet.py:266-271 | none iff the input is none or has no lines; otherwise a well-formed transpose whose own transpose is the input, with rows and columns swapped |
| Statements.LoadMarked | profit_loss.py:15-31 | definition of the marker-driven loader; `LoadMarkedOk`, `MissingMarkers` and `LoadMarkedFound` state its cases |
| Statements.Assemble | profit_loss.py:20-28 | definition of the table built from the year row and data start; `AssembleOk` and `FullYearRowFails` are about it |
| Statements.LoadProfitLoss | profit_loss.py:15-31 | definition of `load_profit_loss_file` on the read result; `LoadProfitLossOk` states it |
| Statements.LoadCashFlow | cash_flow.py:7-23 | definition of `load_cash_flow_file` on the read result; `LoadCashFlowOk` states it |
| Statements.YearCells | profit_loss.py:20 | the period cells are the non-empty cells after the first, at most one fewer than the row |
| Statements.SliceWidth | profit_loss.py:25 | the value slice never exceeds the label count, and equals it whenever two more columns fit |
| Statements.RowLabels | profit_loss.py:24 | the index is the text of the first cell of each data row |
| Statements.RowValues | profit_loss.py:25-27 | each data row gives one coerced value per period, read from column k+2 |
| Statements.PeriodNames | profit_loss.py:21 | each period cell is parsed by the split normaliser, in order |
| Statements.LoadMarkedOk | profit_loss.py:19-22 | a successful load found a first `Year` row and a first marker row, and assembled the table from the year row and the marker row plus the offset |
| Statements.AssembleOk | profit_loss.py:23-27 | an assembled table is rectangular; its columns are the parsed periods, which need two more columns than periods; its index and cells come from the rows below the data start |
| Statements.LoadProfitLossOk | profit_loss.py:15-31 | profit-and-loss values start one row below the first `INCOME :` row; a read failure is passed on |
| Statements.LoadCashFlowOk | cash_flow.py:7-23 | cash-flow values start two rows below the first `Cash Flow Summary` row; a read failure is passed on |
| Statements.FullYearRowFails | profit_loss.py:20-26 | a `Year` row filled to the last column always ends in the length-mismatch failure |
| Statements.MissingMarkers | profit_loss.py:19-22 | without a `Year` row the load fails with no year row; with one but no marker it fails with no data start |
| Statements.AssembleStatement | profit_loss.py:20-28 | slicing, indexing and converting the rows below the marker gives the table the loading specification assembles, or none when fewer value columns exist than period labels |
| Statements.LoadMarkedFound | profit_loss.py:19-22 | once both the year row and the marker row are found, the load is the table assembled from them |
| Statements.LoadStatement | profit_loss.py:15-31 | the loading method returns the loading specification's table, or none on failure |
| Statements.ConvertColumns | profit_loss.py:27 | the column-by-column conversion loop yields the coerced value table |
| Statements.RearrangeData | utils.py:17-24 | none stays none; otherwise the frame is transposed, cell [p][m] becomes [m][p], and transposing back gives the input |
| Metrics.Resolve | balance_sheet.py:332-339 | definition: the first column matching a category's patterns; `ResolveWith`, `PatternOrderIrrelevant` and `ResolveIgnoresLaterColumns` are about it |
| Metrics.Bindings | balance_sheet.py:330-339 | every bound column is a column of the table; `BindingsAreResolutions` states what is bound |
| Metrics.ResolveWith | balance_sheet.py:332-339 | the result is the first column whose lower-case label contains a pattern, and it is none iff no column does |
| Metrics.MatchesAny | balance_sheet.py:334-337 | the pattern loop with early exit reports whether some pattern occurs in the label |
| Metrics.FirstMatch | balance_sheet.py:332-339 | the column loop returns the first matching column |
| Metrics.ResolveMetrics | balance_sheet.py:330-339 | the category loop records exactly the categories that resolve, each bound to its first matching column |
| Metrics.BindingsAreResolutions | balance_sheet.py:330-339 | a category is found iff some column matches it, and it is bound to the first such column |
| Metrics.PatternOrderIrrelevant | balance_sheet.py:332-339 | the order of a category's patterns never changes the column found |
| Metrics.ResolveIgnoresLaterColumns | balance_sheet.py:332-339 | once a category resolves, appending columns does not change its column |
| Metrics.TotalMeansTotalAssets | balance_sheet.py:303-307 | any label containing `total` matches total assets, through the pattern `ta` |
| Metrics.TotalCurrentAssetsBindsTwice | balance_sheet.py:290-339 | a first column `Total Current Assets` is taken as both current assets and total assets |
| Metrics.UnmatchedMetric | balance_sheet.py:330-339 | a category is missing when none of its patterns occurs in any label |
| Analysis.Growth | balance_sheet.py:363 | one growth value per period; `GrowthMeaning` states what each value means |
| Analysis.Ratio | balance_sheet.py:346-348 | one ratio per period; `RatioMeaning` states its meaning |
| Analysis.Margin | profit_loss.py:49-50 | one margin per period; `MarginMeaning` states its meaning |
| Analysis.GrowthMeaning | balance_sheet.py:363 | growth is NaN for the first period; it is finite iff the prior value is non-zero, and then the value equals the prior times (1 + g/100); after a zero it is +∞, -∞ or NaN by sign |
| Analysis.GrowthExample | balance_sheet.py:363 | 100 then 150 gives NaN then 50 % |
| Analysis.RatioMeaning | balance_sheet.py:346-348 | a guarded ratio is NaN iff the denominator is 0; it is finite otherwise, and then the ratio times the denominator is the numerator |
| Analysis.MarginMeaning | profit_loss.py:49-50 | the margin is the percentage of the ratio where sales are non-zero; with zero sales it is +∞, -∞ or NaN by the sign of the profit |
| Analysis.Lookup | balance_sheet.py:287 | a lookup misses iff the key is not among the dictionary's keys |
| Analysis.Put | balance_sheet.py:364 | after an assignment the key maps to the new series and every other key is unchanged |
| Analysis.PutKeys | balance_sheet.py:364 | an assignment to a new key appends it to the key order; an existing key keeps its place and the order is unchanged |
| Analysis.PutKeepsKeysUnique | balance_sheet.py:364 | assignment keeps the dictionary's keys distinct |
| Analysis.AnalyzeBalanceSheet | balance_sheet.py:281-366 | the balance-sheet analysis method computes the analysis specification |
| Analysis.SetRatio | balance_sheet.py:342-356 | a ratio is stored exactly when both of its categories were found |
| Analysis.AddMetricGrowths | balance_sheet.py:358-364 | the growth loop adds the growth of each found key item, in order |
| Analysis.MetricGrowthsKeepOthers | balance_sheet.py:358-364 | the growth loop never touches a key that is not a growth key |
| Analysis.TrackedSnoc | balance_sheet.py:359-361 | a column is tracked by a list of items iff it is tracked by all but the last, or the last item is bound to it |
| Analysis.MetricGrowthsLookup | balance_sheet.py:358-364 | the growth key of a column maps to that column's growth exactly when a key item is bound to it |
| Analysis.AnalysisRatios | balance_sheet.py:342-356 | the current ratio and debt-to-equity entries are the guarded ratios of their categories, when both are found, and absent otherwise |
| Analysis.AnalysisGrowth | balance_sheet.py:358-364 | with distinct labels, a column's growth entry is present, and holds its growth, iff total assets, total liabilities or shareholders' funds is bound to it |
| Analysis.BalanceSheetAnalysis | balance_sheet.py:281-370 | definition of `analyze_balance_sheet`; `AnalyzeBalanceSheet`, `AnalysisRatios`, `AnalysisGrowth` and `BalanceSheetAnalysisShape` are about it |
| Analysis.BalanceSheetAnalysisShape | balance_sheet.py:283-284 | no table or an empty table gives an empty result; otherwise the result's entries are those of the analysis over the resolved categories |
| Analysis.MetricGrowthsUnique | balance_sheet.py:358-366 | the resulting entries have distinct keys |
| Analysis.GrowthKeyInjective | balance_sheet.py:364 | distinct metric names give distinct growth keys |
| Analysis.FixedKeysAreNotGrowthKeys | balance_sheet.py:346-354 | the ratio and margin keys can never be overwritten by a growth key |
| Analysis.CollectGrowths | profit_loss.py:45-48 | the metric loop adds the growth of each named column that is present |
| Analysis.NamedGrowthsLookup | cash_flow.py:31-34 | a named metric's growth key holds its column's growth iff the column is present |
| Analysis.NamedGrowthsKeepOthers | cash_flow.py:31-34 | the growth loop sets no key other than growth keys |
| Analysis.TabulateLookup | balance_sheet.py:366 | building a table keeps every entry as it was |
| Analysis.ProfitLossAnalysis | profit_loss.py:39-51 | definition of `analyze_profit_loss`; `AnalyzeProfitLoss` and `ProfitLossEntries` are about it |
| Analysis.AnalyzeProfitLoss | profit_loss.py:39-51 | the profit-and-loss analysis method computes the analysis specification |
| Analysis.ProfitLossEntries | profit_loss.py:44-50 | each key metric's growth is present iff its column is; the margin is present iff both `Operating Profit` and `Net Sales` exist |
| Analysis.CashFlowAnalysis | cash_flow.py:25-37 | definition of `analyze_cash_flow`; `AnalyzeCashFlow` and `CashFlowEntries` are about it |
| Analysis.AnalyzeCashFlow | cash_flow.py:25-37 | the cash-flow analysis method computes the analysis specification |
| Analysis.CashFlowEntries | cash_flow.py:30-36 | each key metric's growth is present iff its column is; the guarded operating-to-investing ratio is present iff both columns exist |
| Charts.TrendSeries | balance_sheet.py:372-406 | definition of the trend chart's column choice; `TrendSeriesNone`, `TrendSeriesMatched` and `TrendSeriesFallback` state its cases |
| Charts.MatchesTrend | balance_sheet.py:391-394 | the pattern loop reports whether the label matches one of the six trend patterns |
| Charts.MatchingColumns | balance_sheet.py:388-394 | the column loop collects exactly the matching columns, in order |
| Charts.SelectTrendSeries | balance_sheet.py:372-406 | the selection method computes the trend selection specification |
| Charts.TrendSeriesNone | balance_sheet.py:374-406 | nothing is drawn iff there is no table or the table is empty |
| Charts.TrendSeriesMatched | balance_sheet.py:388-397 | with a matching column, at most five, all matching, increasing, with no earlier match skipped, and every match when fewer than five |
| Charts.TrendSeriesFallback | balance_sheet.py:399-402 | with no match the first three columns (or as many as exist) are drawn |
| Grid.Transpose | utils.py:17-24 | `df.T`: a well-formed frame with index and columns swapped and cell [p][m] taken from [m][p] |
| Grid.TransposeTwice | utils.py:17-24 | transposing a well-formed frame twice gives it back |
| Grid.ColumnIndex | profit_loss.py:46 | the index of the first column with that label, and none iff the label is absent |
| Grid.FirstMatchesSpec | balance_sheet.py:388-397 | taking the first n matches gives at most n increasing matching positions; none is skipped up to the last; all are taken when fewer than n |
| Strings.SplitJoin | balance_sheet.py:79 | a line split on a delimiter loses nothing: joining the pieces again with that delimiter gives back the line |
| Grid.Coerce | balance_sheet.py:250-252 | `to_numeric(errors='coerce')` then `fillna(0)`: the parsed number, or 0 where it is missing |
| Grid.CoerceText | balance_sheet.py:250-252 | coercion turns a text cell without digits into 0 and a digit string into its value |
| Strings.ParseDigits | balance_sheet.py:18-19 | decimal parsing inverts zero-padded digit rendering |

## Left out

- The command-line and web glue is not modelled: `main.py` and the
  per-statement processing helpers only call the modelled functions and
  display the results.
- Chart drawing is not modelled: `balance_sheet.py:408-441`,
  `profit_loss.py:53-70` and the plotting half of `cash_flow.py`. Only the
  choice of columns for the balance-sheet trend chart is modelled.
- The spreadsheet and CSV parsers are parameters of the model:
  - Their results are taken as given, and a raising parser is an error
    result.
  - Byte decoding, `seek`, `skiprows=5` and the dtype inference of the
    parsers are outside the model.
  - The profit-and-loss and cash-flow loaders receive the parsed grid
    directly.
- Numbers are reals, so there is no floating-point rounding; NaN and the
  infinities are values of their own. Coercion reads an optional sign,
  digits and an optional fraction. The exponent forms, `inf`, `nan` and
  surrounding whitespace that `pandas.to_numeric` also accepts are read as
  missing.
- Python's `int()` is modelled on ASCII digits only. Signs, surrounding
  blanks, underscores and non-ASCII digits are not modelled, and neither
  is how `%Y` renders years below 1000 (the four-character year text is
  kept).
- The `isinstance` branch of the balance-sheet period normaliser is not
  modelled separately: every header cell is handled through its text.
- The first-row numeric check of the balance-sheet loader is not modelled:
  both of its branches choose rows 0 and 1.
- Diagnostic printing, the traceback and the catch-all exception handlers
  are not modelled, since they only turn failures into a missing result.
  The same goes for the two fallback attempts of the balance-sheet
  `rearrange_data` (`balance_sheet.py:272-279`): on a loaded table
  `set_index('Item')` cannot fail.
- An empty first cell of a profit-and-loss or cash-flow data row is
  labelled by its text. pandas would keep a NaN label there.
- A first column that pandas holds as numbers makes `.str` raise. In the
  model only text cells can hold the `Year` marker or a section marker, so
  an all-numeric first column finds no year row and the load gives none,
  as in the source.
- Column selection is positional, so tables with two columns of the same
  label are not modelled, except for the balance-sheet rename and the
  `dropna` subset, which the model takes by label. Elsewhere pandas would
  select both columns under that label.
- RenamedHeader (Normalizer.RenamedHeader): a missing first header label
  renames nothing in the model. pandas would look the NaN key up by
  identity, which the model does not capture, so other missing header
  labels stay missing and column 0 never joins the `dropna` subset through
  them.
- Strip, lower-casing and digit tests are ASCII only. Python's `strip()`
  and `lower()` also handle Unicode spaces and letters, such as a
  non-breaking space in a header cell. The regular expression `\d` in the
  year patterns also matches non-ASCII digits.
- AnalysisGrowth (Analysis.AnalysisGrowth): stated only for frames whose
  column labels are distinct. With duplicates, the growth key of one column
  can be written for another column of the same name.
- MetricGrowthsLookup (Analysis.MetricGrowthsLookup): requires distinct
  column labels, for the same reason.
