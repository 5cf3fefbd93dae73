/** The metric resolver of `analyze_balance_sheet`: each canonical metric
    binds to the first column, left to right, whose lower-cased label
    contains one of the metric's patterns. */
module Metrics {
  import opened Strings
  import opened Grid

  datatype Metric =
    | CurrentAssets
    | CurrentLiabilities
    | TotalAssets
    | TotalLiabilities
    | ShareholdersFunds
    | Debt

  /** The categories in the order of the `metric_patterns` dictionary. */
  const Categories: seq<Metric> :=
    [CurrentAssets, CurrentLiabilities, TotalAssets, TotalLiabilities, ShareholdersFunds, Debt]

  function Patterns(m: Metric): seq<string> {
    match m
    case CurrentAssets => ["total current assets", "current assets", "total ca", "current asset"]
    case CurrentLiabilities => ["total current liabilities", "current liabilities", "total cl", "current liability"]
    case TotalAssets => ["total assets", "total asset", "ta"]
    case TotalLiabilities => ["total liabilities", "total liability", "tl"]
    case ShareholdersFunds =>
      ["total shareholders funds", "shareholders funds", "shareholders equity", "total equity", "equity", "net worth"]
    case Debt => ["total debt", "total borrowings", "debt", "borrowings"]
  }

  /** Some pattern is a substring of the lower-cased label. */
  predicate LabelMatches(col: string, patterns: seq<string>) {
    exists k :: 0 <= k < |patterns| && Occurs(Lower(col), patterns[k])
  }

  function ResolveWith(labels: seq<string>, patterns: seq<string>): (r: Option<nat>)
    ensures r.Some? ==> (r.value < |labels| && LabelMatches(labels[r.value], patterns)
      && forall j :: 0 <= j < r.value ==> !LabelMatches(labels[j], patterns))
    ensures r.None? <==> forall j :: 0 <= j < |labels| ==> !LabelMatches(labels[j], patterns)
  {
    FirstIndex(labels, (c: string) => LabelMatches(c, patterns), 0)
  }

  /** The column a metric binds to, or `None` when no label matches. */
  function Resolve(labels: seq<string>, m: Metric): Option<nat> {
    ResolveWith(labels, Patterns(m))
  }

  /** The pattern loop: `True` at the first pattern found in the label. */
  method MatchesAny(col: string, patterns: seq<string>) returns (b: bool)
    ensures b == LabelMatches(col, patterns)
  {
    var lower := Lower(col);
    for k := 0 to |patterns|
      invariant forall j :: 0 <= j < k ==> !Occurs(lower, patterns[j])
    {
      if Occurs(lower, patterns[k]) {
        return true;
      }
    }
    return false;
  }

  /** The column loop for one category, stopping at the first match. */
  method FirstMatch(labels: seq<string>, patterns: seq<string>) returns (r: Option<nat>)
    ensures r == ResolveWith(labels, patterns)
  {
    for j := 0 to |labels|
      invariant forall i :: 0 <= i < j ==> !LabelMatches(labels[i], patterns)
    {
      var hit := MatchesAny(labels[j], patterns);
      if hit {
        return Some(j);
      }
    }
    return None;
  }

  /** `found_metrics`: each category that resolves, mapped to its column. */
  function Bindings(labels: seq<string>): (found: map<Metric, nat>)
    ensures forall m :: m in found ==> found[m] < |labels|
  {
    map m | m in Categories && Resolve(labels, m).Some? :: Resolve(labels, m).value
  }

  /** Every metric is a category, so the dictionary holds exactly the
      metrics that resolve, each at its resolved column. */
  lemma BindingsAreResolutions(labels: seq<string>, m: Metric)
    ensures m in Bindings(labels) <==> Resolve(labels, m).Some?
    ensures m in Bindings(labels) ==> Bindings(labels)[m] == Resolve(labels, m).value
  {
    assert m in Categories;
  }

  /** The category loop building `found_metrics`. */
  method ResolveMetrics(labels: seq<string>) returns (found: map<Metric, nat>)
    ensures found == Bindings(labels)
  {
    found := map[];
    for c := 0 to |Categories|
      invariant forall m :: m in found <==> m in Categories[..c] && Resolve(labels, m).Some?
      invariant forall m :: m in found ==> found[m] == Resolve(labels, m).value
    {
      var category := Categories[c];
      assert Categories[..c + 1] == Categories[..c] + [category];
      var column := FirstMatch(labels, Patterns(category));
      if column.Some? {
        found := found[category := column.value];
      }
    }
    assert Categories[..|Categories|] == Categories;
  }

  /** Only the set of patterns matters: reordering or repeating patterns
      of a category never changes the column it binds. */
  lemma PatternOrderIrrelevant(labels: seq<string>, p1: seq<string>, p2: seq<string>)
    requires forall s :: s in p1 <==> s in p2
    ensures ResolveWith(labels, p1) == ResolveWith(labels, p2)
  {
    forall l | l in labels
      ensures LabelMatches(l, p1) == LabelMatches(l, p2)
    {
      if LabelMatches(l, p1) {
        var k :| 0 <= k < |p1| && Occurs(Lower(l), p1[k]);
        assert p1[k] in p2;
        var k2 :| 0 <= k2 < |p2| && p2[k2] == p1[k];
      }
      if LabelMatches(l, p2) {
        var k :| 0 <= k < |p2| && Occurs(Lower(l), p2[k]);
        assert p2[k] in p1;
        var k1 :| 0 <= k1 < |p1| && p1[k1] == p2[k];
      }
    }
    FirstIndexAgree(labels, (c: string) => LabelMatches(c, p1), (c: string) => LabelMatches(c, p2), 0);
  }

  /** The first column wins: columns after the bound one never matter. */
  lemma ResolveIgnoresLaterColumns(labels: seq<string>, more: seq<string>, m: Metric)
    requires Resolve(labels, m).Some?
    ensures Resolve(labels + more, m) == Resolve(labels, m)
  {
    FirstIndexPrefix(labels, more, (c: string) => LabelMatches(c, Patterns(m)), 0);
  }

  /** The short pattern `ta` sits inside `total`, so every col containing
      `total` (in any case) counts as total assets. */
  lemma TotalMeansTotalAssets(col: string)
    requires Occurs(Lower(col), "total")
    ensures LabelMatches(col, Patterns(TotalAssets))
  {
    var s := Lower(col);
    var i :| 0 <= i <= |s| && OccursAt(s, i, "total");
    assert s[i..i + 5] == "total";
    assert s[i + 2] == s[i..i + 5][2] && s[i + 3] == s[i..i + 5][3];
    assert s[i + 2..i + 4] == "ta";
    assert OccursAt(s, i + 2, "ta");
    assert Patterns(TotalAssets)[2] == "ta";
  }

  /** A first column `Total Current Assets` is bound as current assets and,
      through `ta`, as total assets. */
  lemma TotalCurrentAssetsBindsTwice(more: seq<string>)
    ensures Resolve(["Total Current Assets"] + more, CurrentAssets) == Some(0)
    ensures Resolve(["Total Current Assets"] + more, TotalAssets) == Some(0)
  {
    var col := "Total Current Assets";
    var labels := [col] + more;
    assert labels[0] == col;
    assert Lower(col) == "total current assets";
    assert OccursAt(Lower(col), 0, "total current assets");
    assert Patterns(CurrentAssets)[0] == "total current assets";
    assert LabelMatches(col, Patterns(CurrentAssets));
    assert OccursAt(Lower(col), 0, "total");
    TotalMeansTotalAssets(col);
  }

  /** A col with none of the patterns leaves the metric unbound. */
  lemma UnmatchedMetric(labels: seq<string>, m: Metric)
    requires forall j, k :: 0 <= j < |labels| && 0 <= k < |Patterns(m)| ==> !Occurs(Lower(labels[j]), Patterns(m)[k])
    ensures Resolve(labels, m).None?
  {
  }
}
