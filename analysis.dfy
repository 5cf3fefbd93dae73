/** The ratio and growth engine of `analyze_balance_sheet`,
    `analyze_profit_loss` and `analyze_cash_flow`: element-wise quotients,
    percent change, and the `analysis` dictionary they fill. */
module Analysis {
  import opened Strings
  import opened Grid
  import opened Metrics

  /** A float result as pandas produces it from finite operands; rounding
      is not modelled. */
  datatype Number = Finite(value: real) | NaN | PosInf | NegInf

  /** `a / b` on two finite floats. */
  function Divide(a: real, b: real): Number {
    if b != 0.0 then Finite(a / b)
    else if a > 0.0 then PosInf
    else if a < 0.0 then NegInf
    else NaN
  }

  /** `x - 1`; NaN and the infinities absorb it. */
  function MinusOne(x: Number): Number {
    match x
    case Finite(v) => Finite(v - 1.0)
    case _ => x
  }

  /** `x * 100`; NaN and the infinities absorb it. */
  function Percent(x: Number): Number {
    match x
    case Finite(v) => Finite(v * 100.0)
    case _ => x
  }

  /** `s.pct_change() * 100`: NaN in the first period, then the change
      against the previous period in percent. */
  function Growth(xs: seq<real>): (r: seq<Number>)
    ensures |r| == |xs|
  {
    seq(|xs|, i requires 0 <= i < |xs| =>
      if i == 0 then NaN else Percent(MinusOne(Divide(xs[i], xs[i - 1]))))
  }

  /** The growth series read back: a finite rate `g` at period `i` means
      the value grew by `g` percent, and it is finite exactly where the
      previous value is nonzero. After a zero the result is an infinity of
      the sign of the new value, or NaN for another zero. */
  lemma GrowthMeaning(xs: seq<real>, i: nat)
    requires i < |xs|
    ensures i == 0 ==> Growth(xs)[i] == NaN
    ensures i > 0 ==> (Growth(xs)[i].Finite? <==> xs[i - 1] != 0.0)
    ensures i > 0 && Growth(xs)[i].Finite? ==> xs[i] == xs[i - 1] * (1.0 + Growth(xs)[i].value / 100.0)
    ensures i > 0 && xs[i - 1] == 0.0 ==>
      Growth(xs)[i] == (if xs[i] > 0.0 then PosInf else if xs[i] < 0.0 then NegInf else NaN)
  {
    if i > 0 {
      assert Growth(xs)[i] == Percent(MinusOne(Divide(xs[i], xs[i - 1])));
      if xs[i - 1] != 0.0 {
        RateRecovers(xs[i - 1], xs[i]);
      }
    }
  }

  /** The percent change from a nonzero `a` to `b` is finite and gives `b` back. */
  lemma RateRecovers(a: real, b: real)
    requires a != 0.0
    ensures Percent(MinusOne(Divide(b, a))).Finite?
    ensures b == a * (1.0 + Percent(MinusOne(Divide(b, a))).value / 100.0)
  {
    var q := b / a;
    assert Percent(MinusOne(Divide(b, a))) == Finite((q - 1.0) * 100.0);
    assert (q - 1.0) * 100.0 / 100.0 == q - 1.0;
    assert a * q == b;
  }

  /** `[100, 150]` grows by 50 percent. */
  lemma GrowthExample()
    ensures Growth([100.0, 150.0]) == [NaN, Finite(50.0)]
  {
    var r := Growth([100.0, 150.0]);
    assert r[1] == Percent(MinusOne(Divide(150.0, 100.0)));
    assert 150.0 / 100.0 == 1.5;
  }

  /** `a / b.replace(0, np.nan)`: NaN where the divisor is zero. */
  function Ratio(a: seq<real>, b: seq<real>): (r: seq<Number>)
    requires |a| == |b|
    ensures |r| == |a|
  {
    seq(|a|, i requires 0 <= i < |a| => if b[i] == 0.0 then NaN else Divide(a[i], b[i]))
  }

  /** The guarded quotient is never infinite: NaN exactly where the
      divisor is zero, otherwise the quotient `q` with `q * b == a`. */
  lemma RatioMeaning(a: seq<real>, b: seq<real>, i: nat)
    requires |a| == |b| && i < |a|
    ensures Ratio(a, b)[i] == NaN <==> b[i] == 0.0
    ensures Ratio(a, b)[i].Finite? <==> b[i] != 0.0
    ensures Ratio(a, b)[i].Finite? ==> Ratio(a, b)[i].value * b[i] == a[i]
  {
    if b[i] != 0.0 {
      assert Ratio(a, b)[i] == Finite(a[i] / b[i]);
    }
  }

  /** `a / b * 100` with no zero guard (the profit-and-loss margin). */
  function Margin(a: seq<real>, b: seq<real>): (r: seq<Number>)
    requires |a| == |b|
    ensures |r| == |a|
  {
    seq(|a|, i requires 0 <= i < |a| => Percent(Divide(a[i], b[i])))
  }

  /** Where the divisor is nonzero the margin is the guarded ratio in
      percent; where it is zero a nonzero numerator gives an infinity,
      which the guarded ratio never does. */
  lemma MarginMeaning(a: seq<real>, b: seq<real>, i: nat)
    requires |a| == |b| && i < |a|
    ensures b[i] != 0.0 ==> Margin(a, b)[i] == Percent(Ratio(a, b)[i])
    ensures b[i] == 0.0 && a[i] > 0.0 ==> Margin(a, b)[i] == PosInf
    ensures b[i] == 0.0 && a[i] < 0.0 ==> Margin(a, b)[i] == NegInf
    ensures b[i] == 0.0 && a[i] == 0.0 ==> Margin(a, b)[i] == NaN == Ratio(a, b)[i]
  {
  }

  /** One `analysis[key] = series` entry. */
  datatype Entry = Entry(key: string, values: seq<Number>)

  function Keys(es: seq<Entry>): (r: seq<string>)
    ensures |r| == |es| && forall k :: 0 <= k < |es| ==> r[k] == es[k].key
  {
    if es == [] then [] else [es[0].key] + Keys(es[1..])
  }

  predicate Unique(ks: seq<string>) {
    forall i, j :: 0 <= i < j < |ks| ==> ks[i] != ks[j]
  }

  /** `analysis[key]`, or `None` when the key was never set. */
  function Lookup(es: seq<Entry>, key: string): (r: Option<seq<Number>>)
    ensures r.None? <==> key !in Keys(es)
  {
    if es == [] then None
    else if es[0].key == key then Some(es[0].values)
    else Lookup(es[1..], key)
  }

  /** `analysis[key] = values` on a Python dictionary: an existing key
      keeps its place and takes the new value, a new key goes last. */
  function Put(es: seq<Entry>, key: string, values: seq<Number>): (r: seq<Entry>)
    ensures Lookup(r, key) == Some(values)
    ensures forall k :: k != key ==> Lookup(r, k) == Lookup(es, k)
  {
    if es == [] then [Entry(key, values)]
    else if es[0].key == key then [Entry(key, values)] + es[1..]
    else [es[0]] + Put(es[1..], key, values)
  }

  /** The keys after `Put`: unchanged when the key was there, the new key
      last otherwise. */
  lemma {:induction false} PutKeys(es: seq<Entry>, key: string, values: seq<Number>)
    ensures Keys(Put(es, key, values)) == if key in Keys(es) then Keys(es) else Keys(es) + [key]
  {
    if es != [] && es[0].key != key {
      var rest := Put(es[1..], key, values);
      PutKeys(es[1..], key, values);
      assert ([es[0]] + rest)[1..] == rest;
      assert Keys(es) == [es[0].key] + Keys(es[1..]);
    }
  }

  /** Dictionary keys stay distinct. */
  lemma PutKeepsKeysUnique(es: seq<Entry>, key: string, values: seq<Number>)
    requires Unique(Keys(es))
    ensures Unique(Keys(Put(es, key, values)))
  {
    PutKeys(es, key, values);
    var old_keys := Keys(es);
    if key !in old_keys {
      var ks := old_keys + [key];
      forall i, j | 0 <= i < j < |ks| ensures ks[i] != ks[j] {
        if j == |old_keys| {
          assert ks[i] == old_keys[i];
        } else {
          assert ks[i] == old_keys[i] && ks[j] == old_keys[j];
        }
      }
    }
  }

  /** `pd.DataFrame(analysis)`: the analysis frame indexed by the input's
      periods, or the empty frame when nothing was computed. */
  datatype Table = Table(index: seq<string>, entries: seq<Entry>)

  function Tabulate(index: seq<string>, entries: seq<Entry>): Table {
    if entries == [] then Table([], []) else Table(index, entries)
  }

  function GrowthKey(name: string): string {
    name + " YoY Growth (%)"
  }

  const CurrentRatioKey: string := "Current Ratio"
  const DebtToEquityKey: string := "Debt-to-Equity Ratio"
  const MarginKey: string := "Operating Profit Margin (%)"
  const CashRatioKey: string := "Op. CF to Inv. CF Ratio"

  lemma GrowthKeyInjective(a: string, b: string)
    requires GrowthKey(a) == GrowthKey(b)
    ensures a == b
  {
    assert |a| == |b|;
    assert a == GrowthKey(a)[..|a|];
    assert b == GrowthKey(b)[..|b|];
  }

  ghost predicate NotGrowthKey(key: string) {
    forall l :: GrowthKey(l) != key
  }

  /** No ratio key can be mistaken for a growth key. */
  lemma FixedKeysAreNotGrowthKeys()
    ensures NotGrowthKey(CurrentRatioKey) && NotGrowthKey(DebtToEquityKey)
    ensures NotGrowthKey(MarginKey) && NotGrowthKey(CashRatioKey)
  {
    forall l ensures GrowthKey(l) != CurrentRatioKey && GrowthKey(l) != DebtToEquityKey
      && GrowthKey(l) != MarginKey && GrowthKey(l) != CashRatioKey
    {
      var g := GrowthKey(l);
      assert |g| == |l| + 15;
      assert g[|g| - 1] == ')' && g[|g| - 15] == ' ';
      assert |CurrentRatioKey| == 13;
      assert DebtToEquityKey[|DebtToEquityKey| - 1] == 'o';
      assert CashRatioKey[|CashRatioKey| - 1] == 'o';
      assert |MarginKey| == 27 && MarginKey[12] == 'o';
    }
  }

  // ----- analyze_balance_sheet -----

  /** The growth items of the balance sheet, in the order they are added. */
  const KeyItems: seq<Metric> := [TotalAssets, TotalLiabilities, ShareholdersFunds]

  /** A `found_metrics` dictionary whose columns lie inside `f`. */
  predicate Bound(f: Frame, found: map<Metric, nat>) {
    forall m :: m in found ==> found[m] < |f.columns|
  }

  /** The guarded quotient of two found metrics, or `None` unless both
      were found. */
  function MetricRatio(f: Frame, found: map<Metric, nat>, num: Metric, den: Metric): Option<seq<Number>>
    requires WellFormed(f) && Bound(f, found)
  {
    if num in found && den in found then Some(Ratio(Column(f, found[num]), Column(f, found[den])))
    else None
  }

  function PutIfSome(es: seq<Entry>, key: string, v: Option<seq<Number>>): seq<Entry> {
    if v.Some? then Put(es, key, v.value) else es
  }

  /** The two ratio entries, in the order the source sets them. */
  function RatioEntries(f: Frame, found: map<Metric, nat>): seq<Entry>
    requires WellFormed(f) && Bound(f, found)
  {
    var withCurrent := PutIfSome([], CurrentRatioKey, MetricRatio(f, found, CurrentAssets, CurrentLiabilities));
    PutIfSome(withCurrent, DebtToEquityKey, MetricRatio(f, found, Debt, ShareholdersFunds))
  }

  /** The growth entries of `items`, added left to right to `es`, each
      keyed by the label of the column its item was found in. */
  function MetricGrowths(f: Frame, found: map<Metric, nat>, items: seq<Metric>, es: seq<Entry>): seq<Entry>
    requires WellFormed(f) && Bound(f, found)
    decreases |items|
  {
    if items == [] then es
    else
      var prev := MetricGrowths(f, found, items[..|items| - 1], es);
      var item := items[|items| - 1];
      if item in found then Put(prev, GrowthKey(f.columns[found[item]]), Growth(Column(f, found[item])))
      else prev
  }

  /** The analysis computed from a `found_metrics` dictionary. */
  function AnalysisWith(f: Frame, found: map<Metric, nat>): seq<Entry>
    requires WellFormed(f) && Bound(f, found)
  {
    MetricGrowths(f, found, KeyItems, RatioEntries(f, found))
  }

  /** `analyze_balance_sheet` on the rearranged frame (periods as rows,
      line items as columns). */
  function BalanceSheetAnalysis(df: Option<Frame>): Table
    requires df.Some? ==> WellFormed(df.value)
  {
    match df
    case None => Table([], [])
    case Some(f) =>
      if |f.index| == 0 || |f.columns| == 0 then Table([], [])
      else Tabulate(f.index, AnalysisWith(f, Bindings(f.columns)))
  }

  /** The source's steps: resolve the metrics, set the ratios, then loop
      over the growth items. */
  method AnalyzeBalanceSheet(df: Option<Frame>) returns (t: Table)
    requires df.Some? ==> WellFormed(df.value)
    ensures t == BalanceSheetAnalysis(df)
  {
    if df.None? || |df.value.index| == 0 || |df.value.columns| == 0 {
      return Table([], []);
    }
    var f := df.value;
    var found := ResolveMetrics(f.columns);
    var analysis := SetRatio(f, found, [], CurrentRatioKey, CurrentAssets, CurrentLiabilities);
    analysis := SetRatio(f, found, analysis, DebtToEquityKey, Debt, ShareholdersFunds);
    analysis := AddMetricGrowths(f, found, analysis);
    t := Tabulate(f.index, analysis);
  }

  /** One ratio block: set `key` when both metrics were found. */
  method SetRatio(f: Frame, found: map<Metric, nat>, es: seq<Entry>, key: string, num: Metric, den: Metric)
    returns (analysis: seq<Entry>)
    requires WellFormed(f) && Bound(f, found)
    ensures analysis == PutIfSome(es, key, MetricRatio(f, found, num, den))
  {
    analysis := es;
    if num in found && den in found {
      var a, b := found[num], found[den];
      analysis := Put(analysis, key, Ratio(Column(f, a), Column(f, b)));
    }
  }

  /** The `for item in key_items` loop. */
  method AddMetricGrowths(f: Frame, found: map<Metric, nat>, es: seq<Entry>) returns (analysis: seq<Entry>)
    requires WellFormed(f) && Bound(f, found)
    ensures analysis == MetricGrowths(f, found, KeyItems, es)
  {
    analysis := es;
    for i := 0 to |KeyItems|
      invariant analysis == MetricGrowths(f, found, KeyItems[..i], es)
    {
      var item := KeyItems[i];
      MetricGrowthsStep(f, found, KeyItems, i, es);
      if item in found {
        var col := found[item];
        analysis := Put(analysis, GrowthKey(f.columns[col]), Growth(Column(f, col)));
      }
    }
    assert KeyItems[..|KeyItems|] == KeyItems;
  }

  /** One more item of the loop adds its growth entry, if it was found. */
  lemma MetricGrowthsStep(f: Frame, found: map<Metric, nat>, items: seq<Metric>, i: nat, es: seq<Entry>)
    requires WellFormed(f) && Bound(f, found) && i < |items|
    ensures var prev := MetricGrowths(f, found, items[..i], es); var item := items[i];
      MetricGrowths(f, found, items[..i + 1], es)
        == if item in found then Put(prev, GrowthKey(f.columns[found[item]]), Growth(Column(f, found[item])))
           else prev
  {
    var next := items[..i + 1];
    assert next[..|next| - 1] == items[..i];
    assert next[|next| - 1] == items[i];
  }

  /** Growth entries never touch a key that is not a growth key. */
  lemma {:induction false} MetricGrowthsKeepOthers(f: Frame, found: map<Metric, nat>, items: seq<Metric>,
                                                   es: seq<Entry>, key: string)
    requires WellFormed(f) && Bound(f, found) && NotGrowthKey(key)
    decreases |items|
    ensures Lookup(MetricGrowths(f, found, items, es), key) == Lookup(es, key)
  {
    if items != [] {
      MetricGrowthsKeepOthers(f, found, items[..|items| - 1], es, key);
    }
  }

  /** Some item of `items` was found in column `j`. */
  predicate Tracked(found: map<Metric, nat>, items: seq<Metric>, j: nat) {
    exists k :: 0 <= k < |items| && items[k] in found && found[items[k]] == j
  }

  lemma TrackedSnoc(found: map<Metric, nat>, items: seq<Metric>, j: nat)
    requires items != []
    ensures var last := items[|items| - 1];
      Tracked(found, items, j) <==> Tracked(found, items[..|items| - 1], j) || (last in found && found[last] == j)
  {
    var init := items[..|items| - 1];
    if Tracked(found, init, j) {
      var k :| 0 <= k < |init| && init[k] in found && found[init[k]] == j;
      assert items[k] == init[k];
    }
  }

  /** With distinct labels, the growth key of column `j` holds that
      column's growth exactly when some item was found in `j`. */
  lemma {:induction false} MetricGrowthsLookup(f: Frame, found: map<Metric, nat>, items: seq<Metric>,
                                               es: seq<Entry>, j: nat)
    requires WellFormed(f) && Bound(f, found) && Unique(f.columns) && j < |f.columns|
    decreases |items|
    ensures Lookup(MetricGrowths(f, found, items, es), GrowthKey(f.columns[j]))
      == if Tracked(found, items, j) then Some(Growth(Column(f, j))) else Lookup(es, GrowthKey(f.columns[j]))
  {
    if items != [] {
      var last := items[|items| - 1];
      MetricGrowthsLookup(f, found, items[..|items| - 1], es, j);
      TrackedSnoc(found, items, j);
      if last in found && found[last] != j && GrowthKey(f.columns[found[last]]) == GrowthKey(f.columns[j]) {
        GrowthKeyInjective(f.columns[found[last]], f.columns[j]);
      }
    }
  }

  /** The ratios: each is present exactly when both of its metrics were
      found, and is then the guarded quotient of their columns. */
  lemma AnalysisRatios(f: Frame, found: map<Metric, nat>)
    requires WellFormed(f) && Bound(f, found)
    ensures Lookup(AnalysisWith(f, found), CurrentRatioKey) == MetricRatio(f, found, CurrentAssets, CurrentLiabilities)
    ensures Lookup(AnalysisWith(f, found), DebtToEquityKey) == MetricRatio(f, found, Debt, ShareholdersFunds)
  {
    FixedKeysAreNotGrowthKeys();
    MetricGrowthsKeepOthers(f, found, KeyItems, RatioEntries(f, found), CurrentRatioKey);
    MetricGrowthsKeepOthers(f, found, KeyItems, RatioEntries(f, found), DebtToEquityKey);
  }

  /** The growth series: with distinct labels, column `j`'s growth key is
      present exactly when total assets, total liabilities or
      shareholders' funds was found in `j`, and holds that column's growth. */
  lemma AnalysisGrowth(f: Frame, found: map<Metric, nat>, j: nat)
    requires WellFormed(f) && Bound(f, found) && Unique(f.columns) && j < |f.columns|
    ensures Lookup(AnalysisWith(f, found), GrowthKey(f.columns[j]))
      == if Tracked(found, KeyItems, j) then Some(Growth(Column(f, j))) else None
  {
    var key := GrowthKey(f.columns[j]);
    FixedKeysAreNotGrowthKeys();
    assert CurrentRatioKey != key && DebtToEquityKey != key;
    MetricGrowthsLookup(f, found, KeyItems, RatioEntries(f, found), j);
  }

  /** A missing or empty frame gives the empty analysis; otherwise the
      lookups of the analysis are those of the entries computed from the
      resolved metrics. */
  lemma BalanceSheetAnalysisShape(df: Option<Frame>, key: string)
    requires df.Some? ==> WellFormed(df.value)
    ensures df.None? || |df.value.index| == 0 || |df.value.columns| == 0 ==> BalanceSheetAnalysis(df) == Table([], [])
    ensures df.Some? && |df.value.index| > 0 && |df.value.columns| > 0 ==>
      Lookup(BalanceSheetAnalysis(df).entries, key) == Lookup(AnalysisWith(df.value, Bindings(df.value.columns)), key)
  {
  }

  /** Every analysis dictionary has distinct keys. */
  lemma {:induction false} MetricGrowthsUnique(f: Frame, found: map<Metric, nat>, items: seq<Metric>, es: seq<Entry>)
    requires WellFormed(f) && Bound(f, found) && Unique(Keys(es))
    decreases |items|
    ensures Unique(Keys(MetricGrowths(f, found, items, es)))
  {
    if items != [] {
      var prev := MetricGrowths(f, found, items[..|items| - 1], es);
      MetricGrowthsUnique(f, found, items[..|items| - 1], es);
      var item := items[|items| - 1];
      if item in found {
        PutKeepsKeysUnique(prev, GrowthKey(f.columns[found[item]]), Growth(Column(f, found[item])));
      }
    }
  }

  // ----- analyze_profit_loss and analyze_cash_flow -----

  const ProfitLossMetrics: seq<string> := ["Net Sales", "Operating Profit", "Reported Net Profit"]
  const CashFlowMetrics: seq<string> :=
    ["Net Cash from Operating Activities", "Net Cash Used in Investing Activities",
     "Net Cash Used in Financing Activities"]

  /** The growth entries of the exactly-named columns among `names`, added
      left to right; absent names are skipped. */
  function NamedGrowths(f: Frame, names: seq<string>): seq<Entry>
    requires WellFormed(f)
    decreases |names|
  {
    if names == [] then []
    else
      var prev := NamedGrowths(f, names[..|names| - 1]);
      var name := names[|names| - 1];
      match ColumnIndex(f, name)
      case None => prev
      case Some(j) => Put(prev, GrowthKey(name), Growth(Column(f, j)))
  }

  /** `analyze_profit_loss`: `None` stays `None`; the margin is added only
      when both of its columns exist. */
  function ProfitLossAnalysis(df: Option<Frame>): Option<Table>
    requires df.Some? ==> WellFormed(df.value)
  {
    match df
    case None => None
    case Some(f) =>
      var es := NamedGrowths(f, ProfitLossMetrics);
      match (ColumnIndex(f, "Operating Profit"), ColumnIndex(f, "Net Sales"))
      case (Some(op), Some(ns)) => Some(Tabulate(f.index, Put(es, MarginKey, Margin(Column(f, op), Column(f, ns)))))
      case _ => Some(Tabulate(f.index, es))
  }

  /** `analyze_cash_flow`: as above with the guarded operating-to-investing
      ratio. */
  function CashFlowAnalysis(df: Option<Frame>): Option<Table>
    requires df.Some? ==> WellFormed(df.value)
  {
    match df
    case None => None
    case Some(f) =>
      var es := NamedGrowths(f, CashFlowMetrics);
      match (ColumnIndex(f, CashFlowMetrics[0]), ColumnIndex(f, CashFlowMetrics[1]))
      case (Some(op), Some(inv)) => Some(Tabulate(f.index, Put(es, CashRatioKey, Ratio(Column(f, op), Column(f, inv)))))
      case _ => Some(Tabulate(f.index, es))
  }

  /** The `for metric in key_metrics` loop shared by both analyses. */
  method CollectGrowths(f: Frame, names: seq<string>) returns (analysis: seq<Entry>)
    requires WellFormed(f)
    ensures analysis == NamedGrowths(f, names)
  {
    analysis := [];
    for i := 0 to |names|
      invariant analysis == NamedGrowths(f, names[..i])
    {
      var metric := names[i];
      assert names[..i + 1][..i] == names[..i];
      var j := ColumnIndex(f, metric);
      if j.Some? {
        analysis := Put(analysis, GrowthKey(metric), Growth(Column(f, j.value)));
      }
    }
    assert names[..|names|] == names;
  }

  method AnalyzeProfitLoss(df: Option<Frame>) returns (r: Option<Table>)
    requires df.Some? ==> WellFormed(df.value)
    ensures r == ProfitLossAnalysis(df)
  {
    if df.None? {
      return None;
    }
    var f := df.value;
    var analysis := CollectGrowths(f, ProfitLossMetrics);
    var op, ns := ColumnIndex(f, "Operating Profit"), ColumnIndex(f, "Net Sales");
    if op.Some? && ns.Some? {
      analysis := Put(analysis, MarginKey, Margin(Column(f, op.value), Column(f, ns.value)));
    }
    r := Some(Tabulate(f.index, analysis));
  }

  method AnalyzeCashFlow(df: Option<Frame>) returns (r: Option<Table>)
    requires df.Some? ==> WellFormed(df.value)
    ensures r == CashFlowAnalysis(df)
  {
    if df.None? {
      return None;
    }
    var f := df.value;
    var analysis := CollectGrowths(f, CashFlowMetrics);
    var op, inv := ColumnIndex(f, CashFlowMetrics[0]), ColumnIndex(f, CashFlowMetrics[1]);
    if op.Some? && inv.Some? {
      analysis := Put(analysis, CashRatioKey, Ratio(Column(f, op.value), Column(f, inv.value)));
    }
    r := Some(Tabulate(f.index, analysis));
  }

  /** A named column's growth key holds its growth when the column exists,
      and nothing when no name of the list is present under it. */
  lemma {:induction false} NamedGrowthsLookup(f: Frame, names: seq<string>, name: string)
    requires WellFormed(f)
    decreases |names|
    ensures Lookup(NamedGrowths(f, names), GrowthKey(name))
      == if name in names && ColumnIndex(f, name).Some? then Some(Growth(Column(f, ColumnIndex(f, name).value))) else None
  {
    if names != [] {
      var init := names[..|names| - 1];
      var last := names[|names| - 1];
      NamedGrowthsLookup(f, init, name);
      assert name in names <==> name in init || name == last;
      if last != name && GrowthKey(last) == GrowthKey(name) {
        GrowthKeyInjective(last, name);
      }
    }
  }

  lemma {:induction false} NamedGrowthsKeepOthers(f: Frame, names: seq<string>, key: string)
    requires WellFormed(f) && NotGrowthKey(key)
    decreases |names|
    ensures Lookup(NamedGrowths(f, names), key).None?
  {
    if names != [] {
      NamedGrowthsKeepOthers(f, names[..|names| - 1], key);
    }
  }

  /** Lookups in a tabulated analysis are lookups in its entries. */
  lemma TabulateLookup(index: seq<string>, es: seq<Entry>, key: string)
    ensures Lookup(Tabulate(index, es).entries, key) == Lookup(es, key)
  {
  }

  /** `analyze_profit_loss`: each key metric present gets its growth, an
      absent one none; the margin is present exactly when both operating
      profit and net sales are, and is their unguarded quotient in
      percent. */
  lemma ProfitLossEntries(f: Frame, name: string)
    requires WellFormed(f) && name in ProfitLossMetrics
    ensures var t := ProfitLossAnalysis(Some(f)).value;
      Lookup(t.entries, GrowthKey(name))
        == (if ColumnIndex(f, name).Some? then Some(Growth(Column(f, ColumnIndex(f, name).value))) else None)
      && Lookup(t.entries, MarginKey)
        == match (ColumnIndex(f, "Operating Profit"), ColumnIndex(f, "Net Sales"))
           case (Some(op), Some(ns)) => Some(Margin(Column(f, op), Column(f, ns)))
           case _ => None
  {
    var es := NamedGrowths(f, ProfitLossMetrics);
    NamedGrowthsLookup(f, ProfitLossMetrics, name);
    FixedKeysAreNotGrowthKeys();
    NamedGrowthsKeepOthers(f, ProfitLossMetrics, MarginKey);
    assert MarginKey != GrowthKey(name);
    TabulateLookup(f.index, es, GrowthKey(name));
    TabulateLookup(f.index, es, MarginKey);
    match (ColumnIndex(f, "Operating Profit"), ColumnIndex(f, "Net Sales"))
    case (Some(op), Some(ns)) =>
      TabulateLookup(f.index, Put(es, MarginKey, Margin(Column(f, op), Column(f, ns))), GrowthKey(name));
      TabulateLookup(f.index, Put(es, MarginKey, Margin(Column(f, op), Column(f, ns))), MarginKey);
    case _ =>
  }

  /** `analyze_cash_flow`: as for the profit-and-loss analysis, with the
      ratio guarded against a zero investing figure. */
  lemma CashFlowEntries(f: Frame, name: string)
    requires WellFormed(f) && name in CashFlowMetrics
    ensures var t := CashFlowAnalysis(Some(f)).value;
      Lookup(t.entries, GrowthKey(name))
        == (if ColumnIndex(f, name).Some? then Some(Growth(Column(f, ColumnIndex(f, name).value))) else None)
      && Lookup(t.entries, CashRatioKey)
        == match (ColumnIndex(f, CashFlowMetrics[0]), ColumnIndex(f, CashFlowMetrics[1]))
           case (Some(op), Some(inv)) => Some(Ratio(Column(f, op), Column(f, inv)))
           case _ => None
  {
    var es := NamedGrowths(f, CashFlowMetrics);
    NamedGrowthsLookup(f, CashFlowMetrics, name);
    FixedKeysAreNotGrowthKeys();
    NamedGrowthsKeepOthers(f, CashFlowMetrics, CashRatioKey);
    assert CashRatioKey != GrowthKey(name);
    TabulateLookup(f.index, es, GrowthKey(name));
    TabulateLookup(f.index, es, CashRatioKey);
    match (ColumnIndex(f, CashFlowMetrics[0]), ColumnIndex(f, CashFlowMetrics[1]))
    case (Some(op), Some(inv)) =>
      TabulateLookup(f.index, Put(es, CashRatioKey, Ratio(Column(f, op), Column(f, inv))), GrowthKey(name));
      TabulateLookup(f.index, Put(es, CashRatioKey, Ratio(Column(f, op), Column(f, inv))), CashRatioKey);
    case _ =>
  }
}
