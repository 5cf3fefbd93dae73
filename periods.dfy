/** The two period-label normalisers of the source: the length-driven one of
    the balance-sheet loader and the "first four characters are the year,
    the rest the month" one shared by the profit-and-loss and cash-flow
    loaders. Both are total: every text yields a label. */
module Periods {
  import opened Strings

  /** `%b` in the English locale. */
  const MonthAbbreviations: seq<string> :=
    ["Jan", "Feb", "Mar", "Apr", "May", "Jun", "Jul", "Aug", "Sep", "Oct", "Nov", "Dec"]

  function MonthName(m: nat): string
    requires 1 <= m <= 12
  {
    MonthAbbreviations[m - 1]
  }

  /** `datetime(int(ys), int(ms), 1).strftime('%b-%Y')`, or `None` where
      `int()` or `datetime` raises. The year is written as its four
      characters `ys`. */
  function MonthLabel(ys: string, ms: string): Option<string> {
    var y := ParseNat(ys);
    var m := ParseNat(ms);
    if y.Some? && m.Some? && 1 <= y.value <= 9999 && 1 <= m.value <= 12
    then Some(MonthName(m.value) + "-" + ys)
    else None
  }

  /** `parse_year` of the balance-sheet loader, on the text `str(col)`. */
  function ParseYear(raw: string): string {
    ParseStripped(Strip(raw))
  }

  /** `parse_year` after `.strip()`: the branches on the length. */
  function ParseStripped(t: string): string {
    if |t| == 6 then
      match MonthLabel(t[..4], t[4..]) case Some(l) => l case None => t
    else if |t| == 4 then
      "FY-" + t
    else if |t| == 8 then
      match MonthLabel(t[..4], t[4..6]) case Some(l) => l case None => t
    else
      match FirstDigitsFrom(t, 4, 0) case Some(i) => "FY-" + t[i..i + 4] case None => t
  }

  /** `parse_year` of the profit-and-loss and cash-flow loaders: no strip,
      year from the first four characters, month from all the rest. */
  function ParseYearSplit(s: string): string {
    var ys := if |s| >= 4 then s[..4] else s;
    var ms := if |s| >= 4 then s[4..] else [];
    match MonthLabel(ys, ms) case Some(l) => l case None => s
  }

  /** `YYYYMM` with a valid month: `"<Mon>-YYYY"` (`"201103"` gives `"Mar-2011"`). */
  lemma ParseYearMonthCode(y: nat, m: nat)
    requires 1 <= y <= 9999 && 1 <= m <= 12
    ensures ParseYear(Digits(y, 4) + Digits(m, 2)) == MonthName(m) + "-" + Digits(y, 4)
  {
    StripDigits(Digits(y, 4) + Digits(m, 2));
    StrippedMonthCode(y, m);
  }

  lemma StrippedMonthCode(y: nat, m: nat)
    requires 1 <= y <= 9999 && 1 <= m <= 12
    ensures ParseStripped(Digits(y, 4) + Digits(m, 2)) == MonthName(m) + "-" + Digits(y, 4)
  {
    var t := Digits(y, 4) + Digits(m, 2);
    assert t[..4] == Digits(y, 4) && t[4..] == Digits(m, 2);
    ParseDigits(y, 4);
    ParseDigits(m, 2);
  }

  /** `YYYYMMDD`: only year and month are read; the last two characters
      are ignored whatever they are. */
  lemma ParseYearDateCode(raw: string, y: nat, m: nat)
    requires |Strip(raw)| == 8
    requires ParseNat(Strip(raw)[..4]) == Some(y) && ParseNat(Strip(raw)[4..6]) == Some(m)
    requires 1 <= y && 1 <= m <= 12
    ensures ParseYear(raw) == MonthName(m) + "-" + Strip(raw)[..4]
  {
    StrippedDateCode(Strip(raw), y, m);
  }

  lemma StrippedDateCode(t: string, y: nat, m: nat)
    requires |t| == 8
    requires ParseNat(t[..4]) == Some(y) && ParseNat(t[4..6]) == Some(m)
    requires 1 <= y && 1 <= m <= 12
    ensures ParseStripped(t) == MonthName(m) + "-" + t[..4]
  {
    DigitsBound(t[..4]);
  }

  /** A six-character label that is not a valid month code (non-digits,
      year 0 or a month outside 1..12) comes back stripped but unchanged. */
  lemma ParseYearSixFallback(raw: string)
    requires |Strip(raw)| == 6
    requires MonthLabel(Strip(raw)[..4], Strip(raw)[4..]).None?
    ensures ParseYear(raw) == Strip(raw)
  {
    StrippedSixFallback(Strip(raw));
  }

  lemma StrippedSixFallback(t: string)
    requires |t| == 6 && MonthLabel(t[..4], t[4..]).None?
    ensures ParseStripped(t) == t
  {
  }

  /** Instances of the fallback: an `FY` prefix before the year, a month
      above 12 and year 0 all leave the label as it is. */
  lemma ParseYearNotNumeric(y: nat)
    requires y < 10000
    ensures ParseYear("FY" + Digits(y, 4)) == "FY" + Digits(y, 4)
  {
    var t := "FY" + Digits(y, 4);
    assert t[0] == 'F' && t[5] == Digits(y, 4)[3];
    StripNoSpaceEnds(t);
    assert t[..4][0] == 'F';
    StrippedSixFallback(t);
  }

  lemma ParseYearMonthOutOfRange(y: nat, m: nat)
    requires y < 10000 && 13 <= m < 100
    ensures ParseYear(Digits(y, 4) + Digits(m, 2)) == Digits(y, 4) + Digits(m, 2)
  {
    var t := Digits(y, 4) + Digits(m, 2);
    StripDigits(t);
    assert t[4..] == Digits(m, 2);
    ParseDigits(m, 2);
    StrippedSixFallback(t);
  }

  lemma ParseYearYearZero(m: nat)
    requires m < 100
    ensures ParseYear(Digits(0, 4) + Digits(m, 2)) == Digits(0, 4) + Digits(m, 2)
  {
    var t := Digits(0, 4) + Digits(m, 2);
    StripDigits(t);
    assert t[..4] == Digits(0, 4);
    ParseDigits(0, 4);
    StrippedSixFallback(t);
  }

  /** Any four-character label gets the `FY-` prefix, digits or not. */
  lemma ParseYearFour(raw: string)
    requires |Strip(raw)| == 4
    ensures ParseYear(raw) == "FY-" + Strip(raw)
  {
    StrippedFour(Strip(raw));
  }

  lemma StrippedFour(t: string)
    requires |t| == 4
    ensures ParseStripped(t) == "FY-" + t
  {
  }

  /** Other lengths: `FY-` and the leftmost run of four digits, or the
      stripped text when it has none. */
  lemma ParseYearOtherLengths(raw: string)
    requires |Strip(raw)| != 4 && |Strip(raw)| != 6 && |Strip(raw)| != 8
    ensures var t := Strip(raw);
      (exists i :: 0 <= i <= |t| && DigitsAt(t, i, 4)) ==>
        ParseYear(raw) == "FY-" + t[FirstDigitsFrom(t, 4, 0).value..FirstDigitsFrom(t, 4, 0).value + 4]
    ensures var t := Strip(raw);
      (forall i :: 0 <= i <= |t| ==> !DigitsAt(t, i, 4)) ==> ParseYear(raw) == t
  {
    StrippedOtherLengths(Strip(raw));
  }

  lemma StrippedOtherLengths(t: string)
    requires |t| != 4 && |t| != 6 && |t| != 8
    ensures (exists i :: 0 <= i <= |t| && DigitsAt(t, i, 4)) ==>
      ParseStripped(t) == "FY-" + t[FirstDigitsFrom(t, 4, 0).value..FirstDigitsFrom(t, 4, 0).value + 4]
    ensures (forall i :: 0 <= i <= |t| ==> !DigitsAt(t, i, 4)) ==> ParseStripped(t) == t
  {
  }

  /** Every result has one of the three shapes of a period label:
      `"<Mon>-YYYY"`, `"FY-…"`, or the stripped text itself. */
  lemma ParseYearShape(raw: string)
    ensures var r := ParseYear(raw);
      r == Strip(raw) || (|r| >= 3 && r[..3] == "FY-")
      || exists m :: 1 <= m <= 12 && |r| == 8 && r[..4] == MonthName(m) + "-" && AllDigits(r[4..])
  {
    ParseStrippedShape(Strip(raw));
  }

  lemma ParseStrippedShape(t: string)
    ensures var r := ParseStripped(t);
      r == t || (|r| >= 3 && r[..3] == "FY-")
      || exists m :: 1 <= m <= 12 && |r| == 8 && r[..4] == MonthName(m) + "-" && AllDigits(r[4..])
  {
    if |t| == 6 {
      if MonthLabel(t[..4], t[4..]).Some? {
        MonthLabelShape(t[..4], t[4..]);
      }
    } else if |t| == 8 {
      if MonthLabel(t[..4], t[4..6]).Some? {
        MonthLabelShape(t[..4], t[4..6]);
      }
    } else if |t| != 4 {
      var i := FirstDigitsFrom(t, 4, 0);
      if i.Some? {
        assert ParseStripped(t) == "FY-" + t[i.value..i.value + 4];
      }
    }
  }

  /** A month label is `<Mon>-` and the four year digits. */
  lemma MonthLabelShape(ys: string, ms: string)
    requires |ys| == 4 && MonthLabel(ys, ms).Some?
    ensures var r := MonthLabel(ys, ms).value;
      |r| == 8 && AllDigits(ys) && exists m :: 1 <= m <= 12 && r[..4] == MonthName(m) + "-" && r[4..] == ys
  {
    var m := ParseNat(ms).value;
    var r := MonthName(m) + "-" + ys;
    assert |MonthName(m)| == 3;
    assert r[..4] == MonthName(m) + "-" && r[4..] == ys;
  }

  /** No label comes out four characters long (four-character inputs gain
      `FY-`), so none can be confused with the `Item` column. */
  lemma ParseYearNotFourLong(raw: string)
    ensures |ParseYear(raw)| != 4
    ensures ParseYear(raw) != "Item"
  {
    StrippedNotFourLong(Strip(raw));
  }

  lemma StrippedNotFourLong(t: string)
    ensures |ParseStripped(t)| != 4
  {
    if |t| == 6 {
      if MonthLabel(t[..4], t[4..]).Some? {
        MonthLabelShape(t[..4], t[4..]);
      }
    } else if |t| == 8 {
      if MonthLabel(t[..4], t[4..6]).Some? {
        MonthLabelShape(t[..4], t[4..6]);
      }
    }
  }

  /** YYYYMM with a month written in any number of digits: `"<Mon>-YYYY"`. */
  lemma ParseYearSplitMonthCode(y: nat, ms: string)
    requires 1 <= y <= 9999
    requires ParseNat(ms).Some? && 1 <= ParseNat(ms).value <= 12
    ensures ParseYearSplit(Digits(y, 4) + ms) == MonthName(ParseNat(ms).value) + "-" + Digits(y, 4)
  {
    var s := Digits(y, 4) + ms;
    assert s[..4] == Digits(y, 4) && s[4..] == ms;
    ParseDigits(y, 4);
  }

  /** A label of four characters or fewer has no month part, so it comes
      back unchanged (`"2011"` stays `"2011"`). */
  lemma ParseYearSplitShort(s: string)
    requires |s| <= 4
    ensures ParseYearSplit(s) == s
  {
  }

  /** An out-of-range or non-numeric month part returns the input unchanged
      (`"20110331"` reads month 331). */
  lemma ParseYearSplitFallback(s: string)
    requires |s| >= 4
    requires ParseNat(s[4..]).None? || ParseNat(s[4..]).value == 0 || ParseNat(s[4..]).value > 12
    ensures ParseYearSplit(s) == s
  {
  }

  /** A full date `YYYYMMDD` has month part `MMDD`, at least 101, so the
      split normaliser always returns it unchanged (`"20110331"` reads
      month 331). */
  lemma ParseYearSplitDateCode(y: nat, month: nat, day: nat)
    requires y < 10000 && 1 <= month <= 12 && 1 <= day <= 31
    ensures var s := Digits(y, 4) + Digits(month, 2) + Digits(day, 2);
      ParseYearSplit(s) == s
  {
    var ms := Digits(month, 2) + Digits(day, 2);
    var s := Digits(y, 4) + Digits(month, 2) + Digits(day, 2);
    assert s == Digits(y, 4) + ms;
    assert s[4..] == ms;
    MonthDayValue(month, day);
    ParseYearSplitFallback(s);
  }

  /** A month and day written as `MMDD` read as `100 * month + day`. */
  lemma MonthDayValue(month: nat, day: nat)
    requires 1 <= month <= 12 && 1 <= day <= 31
    ensures AllDigits(Digits(month, 2) + Digits(day, 2))
    ensures DigitsValue(Digits(month, 2) + Digits(day, 2)) == month * 100 + day
  {
    DigitsValueAppend(Digits(month, 2), Digits(day, 2));
    DigitsValueOfDigits(month, 2);
    DigitsValueOfDigits(day, 2);
    assert Pow10(2) == 100;
  }

  /** On six-digit codes the two normalisers agree; on four-digit years they
      differ (`"FY-2011"` against `"2011"`). */
  lemma NormalisersAgreeOnMonthCodes(s: string)
    requires |s| == 6 && AllDigits(s)
    ensures ParseYear(s) == ParseYearSplit(s)
  {
    StripDigits(s);
  }

  lemma NormalisersDifferOnYears(s: string)
    requires |s| == 4 && AllDigits(s)
    ensures ParseYear(s) == "FY-" + s && ParseYearSplit(s) == s
  {
    StripDigits(s);
  }
}
