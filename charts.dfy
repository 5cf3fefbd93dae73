/** The column-selection rule of the balance-sheet `visualize_trends`:
    which line items get plotted. The plotting itself is not modelled. */
module Charts {
  import opened Strings
  import opened Grid

  /** The six regular expressions, each of the form `.*a.*b.*` or `.*a.*`. */
  datatype TrendPattern =
    | TotalAssetsTrend
    | TotalLiabilitiesTrend
    | ShareholdersFundsTrend
    | EquityTrend
    | CurrentAssetsTrend
    | CurrentLiabilitiesTrend

  const TrendPatterns: seq<TrendPattern> :=
    [TotalAssetsTrend, TotalLiabilitiesTrend, ShareholdersFundsTrend, EquityTrend,
     CurrentAssetsTrend, CurrentLiabilitiesTrend]

  /** `re.search(pattern, s)`: `.` does not cross a line break. */
  predicate TrendMatch(p: TrendPattern, s: string) {
    match p
    case TotalAssetsTrend => GapMatch(s, "total", "assets")
    case TotalLiabilitiesTrend => GapMatch(s, "total", "liabilities")
    case ShareholdersFundsTrend => GapMatch(s, "shareholders", "funds")
    case EquityTrend => Occurs(s, "equity")
    case CurrentAssetsTrend => GapMatch(s, "current", "assets")
    case CurrentLiabilitiesTrend => GapMatch(s, "current", "liabilities")
  }

  /** Some pattern matches the lower-cased column label. */
  predicate IsTrendMetric(col: string) {
    exists k :: 0 <= k < |TrendPatterns| && TrendMatch(TrendPatterns[k], Lower(col))
  }

  const MaxSeries: nat := 5
  const FallbackSeries: nat := 3

  /** The columns `0 .. n - 1`. */
  function Prefix(n: nat): (r: seq<nat>)
    ensures |r| == n && forall k :: 0 <= k < n ==> r[k] == k
  {
    seq(n, k requires 0 <= k < n => k)
  }

  /** The plotted columns: the first five whose label matches a pattern,
      else the first three numeric columns (every column of the
      balance-sheet frame is numeric), and `None` for a missing or empty
      frame or when nothing qualifies. */
  function TrendSeries(df: Option<Frame>): Option<seq<nat>>
    requires df.Some? ==> WellFormed(df.value)
  {
    match df
    case None => None
    case Some(f) =>
      if |f.index| == 0 || |f.columns| == 0 then None
      else
        var found := FirstMatches(f.columns, IsTrendMetric, MaxSeries);
        var chosen := if found != [] then found else Prefix(Min(FallbackSeries, |f.columns|));
        if chosen == [] then None else Some(chosen)
  }

  /** The pattern loop for one column, stopping at the first match. */
  method MatchesTrend(col: string) returns (b: bool)
    ensures b == IsTrendMetric(col)
  {
    var lower := Lower(col);
    for k := 0 to |TrendPatterns|
      invariant forall j :: 0 <= j < k ==> !TrendMatch(TrendPatterns[j], lower)
    {
      if TrendMatch(TrendPatterns[k], lower) {
        return true;
      }
    }
    return false;
  }

  /** The column loop appending every matching column, in order. */
  method MatchingColumns(cols: seq<string>) returns (found: seq<nat>)
    ensures found == IndicesWhere(cols, IsTrendMetric, 0)
  {
    found := [];
    for j := 0 to |cols|
      invariant found == IndicesWhere(cols[..j], IsTrendMetric, 0)
    {
      var hit := MatchesTrend(cols[j]);
      assert cols[..j + 1] == cols[..j] + [cols[j]];
      IndicesWhereSnoc(cols[..j], cols[j], IsTrendMetric, 0);
      if hit {
        found := found + [j];
      }
    }
    assert cols[..|cols|] == cols;
  }

  method SelectTrendSeries(df: Option<Frame>) returns (r: Option<seq<nat>>)
    requires df.Some? ==> WellFormed(df.value)
    ensures r == TrendSeries(df)
  {
    if df.None? || |df.value.index| == 0 || |df.value.columns| == 0 {
      return None;
    }
    var f := df.value;
    var found := MatchingColumns(f.columns);
    var chosen := found[..Min(MaxSeries, |found|)];
    assert chosen == FirstMatches(f.columns, IsTrendMetric, MaxSeries);
    if chosen == [] {
      chosen := Prefix(Min(FallbackSeries, |f.columns|));
    }
    if chosen == [] {
      return None;
    }
    r := Some(chosen);
  }

  /** A frame with rows and columns always gets a selection: the
      "nothing to plot" exit is reached only for a missing or empty frame. */
  lemma TrendSeriesNone(df: Option<Frame>)
    requires df.Some? ==> WellFormed(df.value)
    ensures TrendSeries(df).None? <==> df.None? || |df.value.index| == 0 || |df.value.columns| == 0
  {
  }

  /** When some label matches: at most five columns, all matching, in
      column order, and no matching column before the last one chosen is
      skipped; fewer than five means every matching column was chosen. */
  lemma TrendSeriesMatched(f: Frame)
    requires WellFormed(f) && |f.index| > 0
    requires exists j :: 0 <= j < |f.columns| && IsTrendMetric(f.columns[j])
    ensures var r := TrendSeries(Some(f)).value;
      0 < |r| <= MaxSeries
      && (forall k :: 0 <= k < |r| ==> r[k] < |f.columns| && IsTrendMetric(f.columns[r[k]]))
      && (forall k, l :: 0 <= k < l < |r| ==> r[k] < r[l])
      && (forall j :: 0 <= j <= r[|r| - 1] && j < |f.columns| && IsTrendMetric(f.columns[j]) ==> j in r)
      && (|r| < MaxSeries ==> forall j :: 0 <= j < |f.columns| && IsTrendMetric(f.columns[j]) ==> j in r)
  {
    FirstMatchesSpec(f.columns, IsTrendMetric, MaxSeries);
  }

  /** When no label matches, the first three columns (or all, if fewer). */
  lemma TrendSeriesFallback(f: Frame)
    requires WellFormed(f) && |f.index| > 0 && |f.columns| > 0
    requires forall j :: 0 <= j < |f.columns| ==> !IsTrendMetric(f.columns[j])
    ensures TrendSeries(Some(f)) == Some(Prefix(Min(FallbackSeries, |f.columns|)))
  {
    FirstMatchesSpec(f.columns, IsTrendMetric, MaxSeries);
  }
}
