/** The raw grid a file parses into, the labelled numeric frame the loaders
    produce, and the generic "first match" and "keep where" scans the
    locators and normalisers are built from. */
module Grid {
  import opened Strings

  /** One cell of a header-less sheet as pandas reads it. `Empty` is a
      missing value (NaN). A number carries the text `str(cell)` prints
      for it (`"201103"`, `"2011.0"`), since the readers decide that. */
  datatype Cell = Empty | Num(value: real, text: string) | Text(s: string)

  /** Rows of cells; rows may be shorter than the widest one. */
  type Grid = seq<seq<Cell>>

  datatype Result<+T, +E> = Ok(value: T) | Err(error: E)

  /** A loader's `return None` on any failure: the value on success. */
  function ToOption<T, E>(r: Result<T, E>): (o: Option<T>)
    ensures o.Some? <==> r.Ok?
    ensures r.Ok? ==> o.value == r.value
  {
    match r
    case Ok(v) => Some(v)
    case Err(_) => None
  }

  /** `df.shape[1]`: the widest row. */
  function Width(g: Grid): (w: nat)
    ensures forall i :: 0 <= i < |g| ==> |g[i]| <= w
    ensures |g| > 0 ==> exists i :: 0 <= i < |g| && |g[i]| == w
    ensures |g| == 0 ==> w == 0
  {
    if g == [] then 0
    else
      var rest := Width(g[1..]);
      assert forall i :: 1 <= i < |g| ==> g[i] == g[1..][i - 1];
      if |g[0]| >= rest then |g[0]| else rest
  }

  /** `df.empty`: no rows or no columns. */
  predicate IsEmpty(g: Grid) {
    |g| == 0 || Width(g) == 0
  }

  /** The cell at column `j` of a row, padded with `Empty` as pandas pads
      short rows. */
  function CellAt(row: seq<Cell>, j: nat): Cell {
    if j < |row| then row[j] else Empty
  }

  /** `str(cell)` for a cell that is not missing. */
  function CellText(c: Cell): string {
    match c
    case Empty => "nan"
    case Num(_, t) => t
    case Text(s) => s
  }

  /** `pd.to_numeric(cell, errors='coerce')`: `None` is NaN. */
  function ToNumeric(c: Cell): Option<real> {
    match c
    case Empty => None
    case Num(v, _) => Some(v)
    case Text(s) => ParseDecimal(s)
  }

  /** `to_numeric(..., errors='coerce')` followed by `fillna(0)`. */
  function Coerce(c: Cell): (r: real)
    ensures ToNumeric(c).Some? ==> r == ToNumeric(c).value
    ensures ToNumeric(c).None? ==> r == 0.0
  {
    match ToNumeric(c)
    case Some(v) => v
    case None => 0.0
  }

  /** A text cell holding no digit becomes 0; a digit string becomes its value. */
  lemma CoerceText(s: string)
    ensures (forall k :: 0 <= k < |s| ==> !IsDigit(s[k])) ==> Coerce(Text(s)) == 0.0
    ensures s != [] && AllDigits(s) ==> Coerce(Text(s)) == DigitsValue(s) as real
  {
    if forall k :: 0 <= k < |s| ==> !IsDigit(s[k]) {
      ParseDecimalNeedsDigit(s);
    }
    if s != [] && AllDigits(s) {
      ParseDecimalOfDigits(s);
    }
  }

  /** A labelled table of numbers: row labels (`index`), column labels and
      one row of values per row label. */
  datatype Frame = Frame(index: seq<string>, columns: seq<string>, cells: seq<seq<real>>)

  predicate WellFormed(f: Frame) {
    |f.cells| == |f.index| && forall i :: 0 <= i < |f.cells| ==> |f.cells[i]| == |f.columns|
  }

  /** `df.T`: rows become columns. */
  function Transpose(f: Frame): (t: Frame)
    requires WellFormed(f)
    ensures WellFormed(t)
    ensures t.index == f.columns && t.columns == f.index
    ensures forall p, m :: 0 <= p < |f.columns| && 0 <= m < |f.index| ==> t.cells[p][m] == f.cells[m][p]
  {
    Frame(f.columns, f.index,
      seq(|f.columns|, p requires 0 <= p < |f.columns| =>
        seq(|f.index|, m requires 0 <= m < |f.index| => f.cells[m][p])))
  }

  /** Transposing twice gives back the original frame. */
  lemma TransposeTwice(f: Frame)
    requires WellFormed(f)
    ensures Transpose(Transpose(f)) == f
  {
    var t := Transpose(Transpose(f));
    assert |t.cells| == |f.cells|;
    forall m | 0 <= m < |f.cells| ensures t.cells[m] == f.cells[m] {
      assert |t.cells[m]| == |f.cells[m]|;
    }
  }

  /** The column labelled `name`, as a series over the frame's rows
      (`df[name]`), taking the leftmost column of that name. */
  function ColumnIndex(f: Frame, name: string): (r: Option<nat>)
    ensures r.Some? ==> (r.value < |f.columns| && f.columns[r.value] == name
      && forall j :: 0 <= j < r.value ==> f.columns[j] != name)
    ensures r.None? <==> name !in f.columns
  {
    FirstIndex(f.columns, (c: string) => c == name, 0)
  }

  function Column(f: Frame, j: nat): (r: seq<real>)
    requires WellFormed(f) && j < |f.columns|
    ensures |r| == |f.index|
    ensures forall i :: 0 <= i < |f.index| ==> r[i] == f.cells[i][j]
  {
    seq(|f.index|, i requires 0 <= i < |f.index| => f.cells[i][j])
  }

  /** The first position at or after `from` whose element satisfies `p`:
      every "first row that matches" scan of the loaders. */
  function FirstIndex<T>(xs: seq<T>, p: T -> bool, from: nat): (r: Option<nat>)
    requires from <= |xs|
    decreases |xs| - from
    ensures r.Some? ==> (from <= r.value < |xs| && p(xs[r.value])
      && forall k :: from <= k < r.value ==> !p(xs[k]))
    ensures r.None? <==> forall k :: from <= k < |xs| ==> !p(xs[k])
  {
    if from == |xs| then None
    else if p(xs[from]) then Some(from)
    else FirstIndex(xs, p, from + 1)
  }

  /** Two tests that agree on every element find the same first match. */
  lemma {:induction false} FirstIndexAgree<T>(xs: seq<T>, p: T -> bool, q: T -> bool, from: nat)
    requires from <= |xs|
    requires forall k :: from <= k < |xs| ==> p(xs[k]) == q(xs[k])
    decreases |xs| - from
    ensures FirstIndex(xs, p, from) == FirstIndex(xs, q, from)
  {
    if from < |xs| {
      FirstIndexAgree(xs, p, q, from + 1);
    }
  }

  /** A match found in `xs` stays the first match once more elements follow. */
  lemma {:induction false} FirstIndexPrefix<T>(xs: seq<T>, more: seq<T>, p: T -> bool, from: nat)
    requires from <= |xs|
    requires FirstIndex(xs, p, from).Some?
    decreases |xs| - from
    ensures FirstIndex(xs + more, p, from) == FirstIndex(xs, p, from)
  {
    assert (xs + more)[from] == xs[from];
    if !p(xs[from]) {
      FirstIndexPrefix(xs, more, p, from + 1);
    }
  }

  /** The positions, in increasing order, whose elements satisfy `p`:
      a boolean-mask row selection such as `df[mask]`. */
  function IndicesWhere<T>(xs: seq<T>, p: T -> bool, from: nat): (r: seq<nat>)
    requires from <= |xs|
    decreases |xs| - from
    ensures forall k :: 0 <= k < |r| ==> from <= r[k] < |xs| && p(xs[r[k]])
    ensures forall k, l :: 0 <= k < l < |r| ==> r[k] < r[l]
    ensures forall i :: from <= i < |xs| && p(xs[i]) ==> i in r
  {
    if from == |xs| then []
    else
      var rest := IndicesWhere(xs, p, from + 1);
      if p(xs[from]) then [from] + rest else rest
  }

  /** In a strictly increasing list, every element up to the `n`-th lies
      among the first `n`. */
  lemma SortedPrefix(xs: seq<nat>, n: nat, i: nat)
    requires forall k, l :: 0 <= k < l < |xs| ==> xs[k] < xs[l]
    requires 0 < n <= |xs| && i in xs && i <= xs[n - 1]
    ensures i in xs[..n]
  {
    var p :| 0 <= p < |xs| && xs[p] == i;
    assert xs[n - 1] >= xs[p];
    assert p < n;
    assert xs[..n][p] == i;
  }

  function Min(a: nat, b: nat): nat {
    if a <= b then a else b
  }

  /** The first `n` qualifying positions, in order (`matches[:n]`). */
  function FirstMatches<T>(xs: seq<T>, p: T -> bool, n: nat): seq<nat> {
    var found := IndicesWhere(xs, p, 0);
    found[..Min(n, |found|)]
  }

  /** The first `n` qualifying positions: at most `n`, all qualifying, in
      increasing order, none skipped up to the last one taken, all of
      them when fewer than `n` are taken, and none exactly when nothing
      qualifies (for `n > 0`). */
  lemma FirstMatchesSpec<T>(xs: seq<T>, p: T -> bool, n: nat)
    ensures |FirstMatches(xs, p, n)| <= n
    ensures forall k :: 0 <= k < |FirstMatches(xs, p, n)| ==>
      FirstMatches(xs, p, n)[k] < |xs| && p(xs[FirstMatches(xs, p, n)[k]])
    ensures forall k, l :: 0 <= k < l < |FirstMatches(xs, p, n)| ==>
      FirstMatches(xs, p, n)[k] < FirstMatches(xs, p, n)[l]
    ensures |FirstMatches(xs, p, n)| > 0 ==>
      forall j :: 0 <= j <= FirstMatches(xs, p, n)[|FirstMatches(xs, p, n)| - 1] && j < |xs| && p(xs[j]) ==>
        j in FirstMatches(xs, p, n)
    ensures |FirstMatches(xs, p, n)| < n ==> forall j :: 0 <= j < |xs| && p(xs[j]) ==> j in FirstMatches(xs, p, n)
    ensures n > 0 ==> (FirstMatches(xs, p, n) == [] <==> forall j :: 0 <= j < |xs| ==> !p(xs[j]))
  {
    var found := IndicesWhere(xs, p, 0);
    PrefixSpec(xs, p, found, Min(n, |found|));
    if n > 0 && FirstMatches(xs, p, n) == [] {
      assert found == [];
    }
  }

  /** The facts about a prefix of the qualifying positions. */
  lemma PrefixSpec<T>(xs: seq<T>, p: T -> bool, found: seq<nat>, m: nat)
    requires found == IndicesWhere(xs, p, 0) && m <= |found|
    ensures forall k :: 0 <= k < m ==> found[..m][k] < |xs| && p(xs[found[..m][k]])
    ensures forall k, l :: 0 <= k < l < m ==> found[..m][k] < found[..m][l]
    ensures m > 0 ==> forall j :: 0 <= j <= found[m - 1] && j < |xs| && p(xs[j]) ==> j in found[..m]
    ensures m == |found| ==> forall j :: 0 <= j < |xs| && p(xs[j]) ==> j in found[..m]
  {
    if m > 0 {
      PrefixSkipsNone(xs, p, found, m);
    }
    if m == |found| {
      assert found[..m] == found;
    }
  }

  /** No qualifying position up to the last one taken is left out. */
  lemma PrefixSkipsNone<T>(xs: seq<T>, p: T -> bool, found: seq<nat>, m: nat)
    requires found == IndicesWhere(xs, p, 0) && 0 < m <= |found|
    ensures forall j :: 0 <= j <= found[m - 1] && j < |xs| && p(xs[j]) ==> j in found[..m]
  {
    forall j | 0 <= j <= found[m - 1] && j < |xs| && p(xs[j])
      ensures j in found[..m]
    {
      SortedPrefix(found, m, j);
    }
  }

  /** When every element qualifies, the mask keeps every position. */
  lemma {:induction false} IndicesWhereAll<T>(xs: seq<T>, p: T -> bool, from: nat)
    requires from <= |xs|
    requires forall i :: from <= i < |xs| ==> p(xs[i])
    decreases |xs| - from
    ensures |IndicesWhere(xs, p, from)| == |xs| - from
  {
    if from < |xs| {
      IndicesWhereAll(xs, p, from + 1);
    }
  }

  /** One more element adds its position at the end when it qualifies. */
  lemma {:induction false} IndicesWhereSnoc<T>(xs: seq<T>, x: T, p: T -> bool, from: nat)
    requires from <= |xs|
    decreases |xs| - from
    ensures IndicesWhere(xs + [x], p, from) == IndicesWhere(xs, p, from) + (if p(x) then [|xs|] else [])
  {
    var ys := xs + [x];
    if from == |xs| {
      assert ys[from] == x;
      assert IndicesWhere(ys, p, from + 1) == [];
    } else {
      assert ys[from] == xs[from];
      IndicesWhereSnoc(xs, x, p, from + 1);
    }
  }

  /** The elements satisfying `p`, in order: a boolean-mask row selection
      such as `df[mask]` or `dropna`. */
  function Filter<T>(xs: seq<T>, p: T -> bool): (r: seq<T>)
    ensures |r| <= |xs|
    ensures forall k :: 0 <= k < |r| ==> p(r[k]) && r[k] in xs
    ensures forall k :: 0 <= k < |xs| && p(xs[k]) ==> xs[k] in r
  {
    if xs == [] then []
    else
      var rest := Filter(xs[1..], p);
      assert forall k :: 1 <= k < |xs| ==> xs[k] == xs[1..][k - 1];
      (if p(xs[0]) then [xs[0]] else []) + rest
  }

  function Map<T, U>(xs: seq<T>, f: T -> U): (r: seq<U>)
    ensures |r| == |xs| && forall k :: 0 <= k < |xs| ==> r[k] == f(xs[k])
  {
    seq(|xs|, k requires 0 <= k < |xs| => f(xs[k]))
  }

  /** Filtering one more element at the end. */
  lemma {:induction false} FilterSnoc<T>(xs: seq<T>, x: T, p: T -> bool)
    ensures Filter(xs + [x], p) == Filter(xs, p) + (if p(x) then [x] else [])
  {
    if xs != [] {
      assert (xs + [x])[1..] == xs[1..] + [x];
      FilterSnoc(xs[1..], x, p);
    }
  }

  /** Everything kept: filtering changes nothing. */
  lemma {:induction false} FilterAll<T>(xs: seq<T>, p: T -> bool)
    requires forall k :: 0 <= k < |xs| ==> p(xs[k])
    ensures Filter(xs, p) == xs
  {
    if xs != [] {
      assert forall k :: 0 <= k < |xs[1..]| ==> xs[1..][k] == xs[k + 1];
      FilterAll(xs[1..], p);
    }
  }

  /** Nothing kept: the filter is empty exactly when no element passes. */
  lemma FilterEmpty<T>(xs: seq<T>, p: T -> bool)
    ensures Filter(xs, p) == [] <==> forall k :: 0 <= k < |xs| ==> !p(xs[k])
  {
    if Filter(xs, p) != [] {
      var r := Filter(xs, p);
      assert p(r[0]) && r[0] in xs;
    }
  }

  /** Filtering and mapping a sequence that starts with `x`. */
  lemma FilterCons<T>(x: T, ys: seq<T>, p: T -> bool)
    ensures Filter([x] + ys, p) == (if p(x) then [x] else []) + Filter(ys, p)
  {
    assert ([x] + ys)[1..] == ys;
  }

  lemma MapCons<T, U>(x: T, ys: seq<T>, f: T -> U)
    ensures Map([x] + ys, f) == [f(x)] + Map(ys, f)
  {
  }

  /** A first filter made redundant by a second, stronger one after a
      conversion `f`: `q(f(x))` implies `p(x)`. */
  lemma {:induction false} FilterMapFilter<T, U>(xs: seq<T>, p: T -> bool, f: T -> U, q: U -> bool)
    requires forall x :: q(f(x)) ==> p(x)
    ensures Filter(Map(Filter(xs, p), f), q) == Filter(Map(xs, f), q)
  {
    if xs != [] {
      var x, ys := xs[0], xs[1..];
      assert xs == [x] + ys;
      FilterMapFilter(ys, p, f, q);
      FilterCons(x, ys, p);
      MapCons(x, ys, f);
      FilterCons(f(x), Map(ys, f), q);
      if p(x) {
        MapCons(x, Filter(ys, p), f);
        FilterCons(f(x), Map(Filter(ys, p), f), q);
      } else {
        assert !q(f(x));
        assert Filter(xs, p) == Filter(ys, p);
      }
    }
  }
}
