/** String helpers shared by the whole model: ASCII character classes,
    Python's `str.strip`, `str.lower`, `str.split`, `str.join`, substring
    search, and decimal digit parsing (the parts of Python's `int()` and
    `float()` the model needs, restricted to ASCII). */
module Strings {

  datatype Option<+T> = None | Some(value: T)

  predicate IsDigit(c: char) { '0' <= c <= '9' }

  /** The ASCII characters Python's `str.isspace` accepts. */
  predicate IsSpace(c: char) {
    c == ' ' || c == '\t' || c == '\n' || c == '\r' || c == '\U{0b}' || c == '\U{0c}'
    || c == '\U{1c}' || c == '\U{1d}' || c == '\U{1e}' || c == '\U{1f}'
  }

  predicate AllDigits(s: string) {
    forall k :: 0 <= k < |s| ==> IsDigit(s[k])
  }

  function LowerChar(c: char): char {
    if 'A' <= c <= 'Z' then (c as int + 32) as char else c
  }

  /** Python's `str.lower` on ASCII letters. */
  function Lower(s: string): (r: string)
    ensures |r| == |s|
    ensures forall k :: 0 <= k < |s| ==> r[k] == LowerChar(s[k])
  {
    seq(|s|, k requires 0 <= k < |s| => LowerChar(s[k]))
  }

  /** Leading whitespace removed. */
  function StripLeft(s: string): (r: string)
    ensures |r| <= |s| && r == s[|s| - |r|..]
    ensures r == [] || !IsSpace(r[0])
    ensures forall k :: 0 <= k < |s| - |r| ==> IsSpace(s[k])
  {
    if |s| > 0 && IsSpace(s[0]) then StripLeft(s[1..]) else s
  }

  /** Trailing whitespace removed. */
  function StripRight(s: string): (r: string)
    ensures |r| <= |s| && r == s[..|r|]
    ensures r == [] || !IsSpace(r[|r| - 1])
    ensures forall k :: |r| <= k < |s| ==> IsSpace(s[k])
  {
    if |s| > 0 && IsSpace(s[|s| - 1]) then StripRight(s[..|s| - 1]) else s
  }

  /** Python's `str.strip()` (ASCII whitespace). */
  function Strip(s: string): string {
    StripRight(StripLeft(s))
  }

  /** A string whose ends are not whitespace is its own strip. */
  lemma StripNoSpaceEnds(s: string)
    requires s != [] ==> !IsSpace(s[0]) && !IsSpace(s[|s| - 1])
    ensures Strip(s) == s
  {
  }

  /** A string of digits is its own strip. */
  lemma StripDigits(s: string)
    requires AllDigits(s)
    ensures Strip(s) == s
  {
    StripNoSpaceEnds(s);
  }

  /** `p` occurs in `s` starting at position `i`. */
  predicate OccursAt(s: string, i: nat, p: string) {
    i + |p| <= |s| && s[i..i + |p|] == p
  }

  /** Python's `p in s`. */
  predicate Occurs(s: string, p: string) {
    exists i :: 0 <= i <= |s| && OccursAt(s, i, p)
  }

  predicate StartsWith(s: string, p: string) {
    OccursAt(s, 0, p)
  }

  /** `n` ASCII digits start at position `i` of `s`. */
  predicate DigitsAt(s: string, i: nat, n: nat) {
    i + n <= |s| && forall k :: i <= k < i + n ==> IsDigit(s[k])
  }

  /** No line break in `s[i..j]`: what the regular-expression `.*` may cross. */
  predicate NoNewline(s: string, i: nat, j: nat)
    requires i <= j <= |s|
  {
    forall k :: i <= k < j ==> s[k] != '\n'
  }

  /** The regular expression `a.*b` finds a match somewhere in `s`. */
  predicate GapMatch(s: string, a: string, b: string) {
    exists i, j :: 0 <= i <= j <= |s| && i + |a| <= j && OccursAt(s, i, a)
      && NoNewline(s, i + |a|, j) && OccursAt(s, j, b)
  }

  /** A match of `a.*b` contains a match of `b` alone. */
  lemma GapMatchOccurs(s: string, a: string, b: string)
    requires GapMatch(s, a, b)
    ensures Occurs(s, b)
  {
    var i, j :| 0 <= i <= j <= |s| && i + |a| <= j && OccursAt(s, i, a)
      && NoNewline(s, i + |a|, j) && OccursAt(s, j, b);
    assert OccursAt(s, j, b);
  }

  /** The leftmost position at or after `from` where `n` digits start:
      the regular expression `\d{n}` of `re.search`. */
  function FirstDigitsFrom(s: string, n: nat, from: nat): (r: Option<nat>)
    requires from <= |s|
    decreases |s| - from
    ensures r.Some? ==> (from <= r.value && DigitsAt(s, r.value, n)
      && forall i :: from <= i < r.value ==> !DigitsAt(s, i, n))
    ensures r.None? ==> forall i :: from <= i <= |s| ==> !DigitsAt(s, i, n)
  {
    if DigitsAt(s, from, n) then Some(from)
    else if from == |s| then None
    else FirstDigitsFrom(s, n, from + 1)
  }

  /** Number of occurrences of `c` in `s`. */
  function Count(s: string, c: char): nat {
    if s == [] then 0 else (if s[0] == c then 1 else 0) + Count(s[1..], c)
  }

  /** Python's `s.split(c)` for a one-character separator: never empty. */
  function Split(s: string, c: char): (r: seq<string>)
    ensures |r| >= 1
  {
    if s == [] then [[]]
    else
      var rest := Split(s[1..], c);
      if s[0] == c then [[]] + rest else [[s[0]] + rest[0]] + rest[1..]
  }

  /** Python's `sep.join(parts)` for a one-character separator. */
  function Join(sep: char, parts: seq<string>): string {
    if parts == [] then []
    else if |parts| == 1 then parts[0]
    else parts[0] + [sep] + Join(sep, parts[1..])
  }

  /** `len(s.split(c)) == s.count(c) + 1`. */
  lemma {:induction false} SplitLength(s: string, c: char)
    ensures |Split(s, c)| == Count(s, c) + 1
  {
    if s != [] {
      SplitLength(s[1..], c);
    }
  }

  /** No piece produced by `Split` contains the separator. */
  lemma {:induction false} SplitPiecesFree(s: string, c: char)
    ensures forall i :: 0 <= i < |Split(s, c)| ==> c !in Split(s, c)[i]
  {
    if s != [] {
      SplitPiecesFree(s[1..], c);
    }
  }

  /** Joining the pieces back with the separator gives the original text. */
  lemma {:induction false} SplitJoin(s: string, c: char)
    ensures Join(c, Split(s, c)) == s
  {
    if s != [] {
      var rest := Split(s[1..], c);
      SplitJoin(s[1..], c);
      if s[0] == c {
        assert Split(s, c) == [[]] + rest;
        JoinCons(c, [], rest);
      } else {
        assert Split(s, c) == [[s[0]] + rest[0]] + rest[1..];
        assert rest == [rest[0]] + rest[1..];
        JoinPrepend(c, s[0], rest[0], rest[1..]);
      }
      assert [s[0]] + s[1..] == s;
    }
  }

  /** Joining a first part before at least one more. */
  lemma JoinCons(sep: char, first: string, tail: seq<string>)
    requires tail != []
    ensures Join(sep, [first] + tail) == first + [sep] + Join(sep, tail)
  {
    assert ([first] + tail)[1..] == tail;
  }

  /** A character in front of the first part comes first in the joined text. */
  lemma JoinPrepend(sep: char, x: char, first: string, tail: seq<string>)
    ensures Join(sep, [[x] + first] + tail) == [x] + Join(sep, [first] + tail)
  {
    if tail != [] {
      JoinCons(sep, [x] + first, tail);
      JoinCons(sep, first, tail);
    }
  }

  /** Value of a string of decimal digits. */
  function DigitsValue(s: string): nat
    requires AllDigits(s)
  {
    if s == [] then 0
    else DigitsValue(s[..|s| - 1]) * 10 + (s[|s| - 1] as int - '0' as int)
  }

  /** The value of two digit strings written one after the other. */
  lemma {:induction false} DigitsValueAppend(a: string, b: string)
    requires AllDigits(a) && AllDigits(b)
    ensures AllDigits(a + b)
    ensures DigitsValue(a + b) == DigitsValue(a) * Pow10(|b|) + DigitsValue(b)
  {
    if b == [] {
      assert a + b == a;
    } else {
      var init := b[..|b| - 1];
      assert (a + b)[..|a + b| - 1] == a + init;
      assert (a + b)[|a + b| - 1] == b[|b| - 1];
      DigitsValueAppend(a, init);
      var d := b[|b| - 1] as int - '0' as int;
      assert DigitsValue(b) == DigitsValue(init) * 10 + d;
      assert Pow10(|b|) == Pow10(|init|) * 10;
      ShiftDigit(DigitsValue(a), Pow10(|init|), DigitsValue(init), d);
    }
  }

  /** Appending a digit multiplies the value so far by ten. */
  lemma ShiftDigit(x: int, p: int, y: int, d: int)
    ensures (x * p + y) * 10 + d == x * (p * 10) + (y * 10 + d)
  {
  }

  /** A value written with `n` digits is below `10^n`. */
  lemma {:induction false} DigitsBound(s: string)
    requires AllDigits(s)
    ensures DigitsValue(s) < Pow10(|s|)
  {
    if s != [] {
      DigitsBound(s[..|s| - 1]);
    }
  }

  function Pow10(n: nat): (r: nat)
    ensures r >= 1
  {
    if n == 0 then 1 else 10 * Pow10(n - 1)
  }

  /** Python's `int(s)` restricted to a non-empty run of ASCII digits;
      `None` where `int()` raises. */
  function ParseNat(s: string): (r: Option<nat>)
    ensures r.Some? <==> s != [] && AllDigits(s)
  {
    if s != [] && AllDigits(s) then Some(DigitsValue(s)) else None
  }

  /** `n` written with exactly `w` decimal digits, zero-padded. */
  function Digits(n: nat, w: nat): (r: string)
    ensures |r| == w && AllDigits(r)
  {
    if w == 0 then []
    else Digits(n / 10, w - 1) + [('0' as int + n % 10) as char]
  }

  /** Reading back a zero-padded rendering gives the number. */
  lemma {:induction false} DigitsValueOfDigits(n: nat, w: nat)
    requires n < Pow10(w)
    ensures DigitsValue(Digits(n, w)) == n
  {
    if w > 0 {
      var d := Digits(n, w);
      assert d[..w - 1] == Digits(n / 10, w - 1);
      DigitsValueOfDigits(n / 10, w - 1);
    }
  }

  /** A `w`-digit rendering parses back to the number it renders. */
  lemma ParseDigits(n: nat, w: nat)
    requires 1 <= w && n < Pow10(w)
    ensures ParseNat(Digits(n, w)) == Some(n)
  {
    DigitsValueOfDigits(n, w);
  }

  /** Position of the first `c` in `s`, or `|s|` when there is none. */
  function IndexOf(s: string, c: char): (r: nat)
    ensures r <= |s| && c !in s[..r] && (r < |s| ==> s[r] == c)
  {
    if s == [] then 0 else if s[0] == c then 0 else 1 + IndexOf(s[1..], c)
  }

  lemma {:induction false} IndexOfAbsent(s: string, c: char)
    requires c !in s
    ensures IndexOf(s, c) == |s|
  {
    if s != [] {
      assert c !in s[1..];
      IndexOfAbsent(s[1..], c);
    }
  }

  /** Python's `float(s)` (as `pd.to_numeric` reads a text cell) restricted
      to an optional sign, digits and an optional fractional part, with at
      least one digit; `None` where the parse fails. */
  function ParseDecimal(s: string): Option<real> {
    var neg := |s| > 0 && s[0] == '-';
    var body := if |s| > 0 && (s[0] == '-' || s[0] == '+') then s[1..] else s;
    var dot := IndexOf(body, '.');
    var whole := body[..dot];
    var frac := if dot < |body| then body[dot + 1..] else [];
    if |whole| + |frac| == 0 || !AllDigits(whole) || !AllDigits(frac) then None
    else
      var magnitude := DigitsValue(whole) as real + DigitsValue(frac) as real / Pow10(|frac|) as real;
      Some(if neg then -magnitude else magnitude)
  }

  /** A plain run of digits reads as its decimal value. */
  lemma ParseDecimalOfDigits(s: string)
    requires s != [] && AllDigits(s)
    ensures ParseDecimal(s) == Some(DigitsValue(s) as real)
  {
    assert s[0] != '-' && s[0] != '+' by { assert IsDigit(s[0]); }
    assert '.' !in s by {
      forall k | 0 <= k < |s| ensures s[k] != '.' { assert IsDigit(s[k]); }
    }
    IndexOfAbsent(s, '.');
    assert s[..IndexOf(s, '.')] == s;
    var empty: string := [];
    assert DigitsValue(empty) == 0 && Pow10(|empty|) == 1;
  }

  /** A zero-padded rendering of a natural number reads back as that number. */
  lemma ParseDecimalDigits(n: nat, w: nat)
    requires 1 <= w && n < Pow10(w)
    ensures ParseDecimal(Digits(n, w)) == Some(n as real)
  {
    DigitsValueOfDigits(n, w);
    ParseDecimalOfDigits(Digits(n, w));
  }

  /** A text holding no digit at all never reads as a number. */
  lemma ParseDecimalNeedsDigit(s: string)
    requires forall k :: 0 <= k < |s| ==> !IsDigit(s[k])
    ensures ParseDecimal(s) == None
  {
    var body := if |s| > 0 && (s[0] == '-' || s[0] == '+') then s[1..] else s;
    var dot := IndexOf(body, '.');
    var whole := body[..dot];
    var frac := if dot < |body| then body[dot + 1..] else [];
    if |whole| > 0 {
      assert whole[0] == body[0];
      assert !AllDigits(whole);
    } else if |frac| > 0 {
      assert frac[0] == body[dot + 1];
      assert !AllDigits(frac);
    }
  }
}
