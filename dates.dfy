/**
 * Calendar dates as the forms see them through `Date.getFullYear()`, `getMonth()`
 * and `getDate()`, and the `yyyy-MM-dd` text that `getFormattedDate` builds for a
 * date input.
 */
module Dates {
  import opened Wrappers
  import opened JsStrings

  /** A valid JavaScript `Date` in local time: its year, 0-based month and day of month. */
  datatype CalendarDate = CalendarDate(year: int, month0: int, day: int) {
    predicate Wf() {
      0 <= month0 < 12 && 1 <= day <= 31
    }
  }

  /** A date whose `yyyy-MM-dd` text reads back as itself: a valid date with a four-digit year. */
  type ValidDate = d: CalendarDate | d.Wf() && 1000 <= d.year <= 9999 witness CalendarDate(1970, 0, 1)

  /** `String(year)`. */
  function YearText(y: int): (r: string)
    ensures forall i :: 0 <= i < |r| ==> IsDigit(r[i]) || r[i] == '-'
  {
    if y < 0 then DigitsAreDigits(-y); "-" + Digits(-y) else DigitsAreDigits(y); Digits(y)
  }

  /** `String(n).padStart(2, '0')` for a month or a day: two digits (`TwoDigitsPadded` shows it is the padded text). */
  function TwoDigits(n: nat): (r: string)
    requires n < 100
    ensures |r| == 2 && AllDigits(r)
  {
    if n < 10 then ['0', DigitChar(n)] else [DigitChar(n / 10), DigitChar(n % 10)]
  }

  /** `getFormattedDate(date)` of the add and edit forms: year, then the 1-based month and the day, each padded to two digits. */
  function FormatDate(d: CalendarDate): string
    requires d.Wf()
  {
    YearText(d.year) + "-" + TwoDigits(d.month0 + 1) + "-" + TwoDigits(d.day)
  }

  /**
   * Reading the `yyyy-MM-dd` value of a date input as a date, as `new Date(text)` and
   * the backend's cast of the submitted `date` do for the ISO date form: four year
   * digits, two month digits and two day digits, separated by dashes.
   */
  function ParseDate(s: string): (r: Option<CalendarDate>)
    ensures r.Some? ==> r.value.Wf() && 0 <= r.value.year <= 9999
  {
    var parts := Split(s, '-');
    if |parts| == 3 && |parts[0]| == 4 && |parts[1]| == 2 && |parts[2]| == 2 then
      match (ParseNat(parts[0]), ParseNat(parts[1]), ParseNat(parts[2]))
      case (Some(y), Some(m), Some(dd)) =>
        DecimalBound(parts[0]);
        if 1 <= m <= 12 && 1 <= dd <= 31 then Some(CalendarDate(y, m - 1, dd)) else None
      case _ => None
    else None
  }

  /** The two digits are `String(n)` padded on the left with '0' to length 2. */
  lemma TwoDigitsPadded(n: nat)
    requires n < 100
    ensures TwoDigits(n) == PadStart2(Digits(n))
  {
    if n < 10 {
      assert Digits(n) == [DigitChar(n)];
      assert PadStart2([DigitChar(n)]) == ['0', DigitChar(n)];
    } else {
      assert Digits(n / 10) == [DigitChar(n / 10)];
      assert Digits(n) == [DigitChar(n / 10)] + [DigitChar(n % 10)];
    }
  }

  /** Two digits read back and padded again give the same two digits. */
  lemma TwoDigitsOfText(t: string)
    requires |t| == 2 && AllDigits(t)
    ensures ParseNat(t).Some? && ParseNat(t).value < 100 && TwoDigits(ParseNat(t).value) == t
  {
    DecimalOfTwo(t);
    var n := DecimalValue(t);
    assert n / 10 == DigitValue(t[0]) && n % 10 == DigitValue(t[1]);
  }

  /** Four digits with a value from 1000 on have no leading zero, so they are `String` of that value. */
  lemma FourDigitsOfText(t: string)
    requires |t| == 4 && AllDigits(t) && DecimalValue(t) >= 1000
    ensures Digits(DecimalValue(t)) == t
  {
    assert t[0] != '0' by {
      var t3, t2 := t[..3], t[..2];
      assert t3[..2] == t2 && t3[2] == t[2];
      DecimalOfTwo(t2);
      assert DecimalValue(t3) == DecimalValue(t2) * 10 + DigitValue(t[2]);
      assert DecimalValue(t) == DecimalValue(t3) * 10 + DigitValue(t[3]);
    }
    DecimalDigits(t);
  }

  /** Two digits read back as the number they were made from. */
  lemma TwoDigitsExact(n: nat)
    requires n < 100
    ensures ParseNat(TwoDigits(n)) == Some(n)
  {
    var t := TwoDigits(n);
    assert t[..1] == [t[0]];
    assert [t[0]][..0] == [];
    assert DecimalValue([t[0]]) == DigitValue(t[0]);
  }

  /** Only digits and dashes. */
  predicate DigitsOrDashes(s: string) {
    forall i :: 0 <= i < |s| ==> IsDigit(s[i]) || s[i] == '-'
  }

  lemma ConcatDigitsOrDashes(a: string, b: string)
    requires DigitsOrDashes(a) && DigitsOrDashes(b)
    ensures DigitsOrDashes(a + b)
  {
    forall i | 0 <= i < |a + b|
      ensures IsDigit((a + b)[i]) || (a + b)[i] == '-'
    {
      if i < |a| { assert (a + b)[i] == a[i]; } else { assert (a + b)[i] == b[i - |a|]; }
    }
  }

  /** Every character of a formatted date is a digit or a dash: no '/' ever appears. */
  lemma FormatDateCharacters(d: CalendarDate)
    requires d.Wf()
    ensures DigitsOrDashes(FormatDate(d))
    ensures '/' !in FormatDate(d)
  {
    var y, m, dd := YearText(d.year), TwoDigits(d.month0 + 1), TwoDigits(d.day);
    ConcatDigitsOrDashes(y, "-");
    ConcatDigitsOrDashes(y + "-", m);
    ConcatDigitsOrDashes(y + "-" + m, "-");
    ConcatDigitsOrDashes(y + "-" + m + "-", dd);
    assert FormatDate(d) == y + "-" + m + "-" + dd;
    NoSlash(FormatDate(d));
  }

  lemma NoSlash(s: string)
    requires DigitsOrDashes(s)
    ensures '/' !in s
  {
    assert forall i :: 0 <= i < |s| ==> s[i] != '/';
  }

  /** The formatted text splits on its two dashes into the year, month and day texts. */
  lemma FormatDateSplits(d: CalendarDate)
    requires d.Wf() && d.year >= 0
    ensures Split(FormatDate(d), '-') == [Digits(d.year), TwoDigits(d.month0 + 1), TwoDigits(d.day)]
  {
    var y, m, dd := Digits(d.year), TwoDigits(d.month0 + 1), TwoDigits(d.day);
    DigitsAreDigits(d.year);
    NonDigitAbsent(y, '-');
    NonDigitAbsent(m, '-');
    NonDigitAbsent(dd, '-');
    SplitThree(y, m, dd, '-');
  }

  /** For four-digit years, the formatted text reads back as the same date. */
  lemma FormatDateRoundTrip(d: CalendarDate)
    requires d.Wf() && 1000 <= d.year <= 9999
    ensures ParseDate(FormatDate(d)) == Some(d)
  {
    var y, m, dd := Digits(d.year), TwoDigits(d.month0 + 1), TwoDigits(d.day);
    FormatDateSplits(d);
    var parts := Split(FormatDate(d), '-');
    assert parts == [y, m, dd];
    YearDigits(d.year);
    TwoDigitsExact(d.month0 + 1);
    TwoDigitsExact(d.day);
    ParseDigits(d.year);
    assert |parts| == 3 && |parts[0]| == 4 && |parts[1]| == 2 && |parts[2]| == 2;
    assert (ParseNat(parts[0]), ParseNat(parts[1]), ParseNat(parts[2]))
        == (Some(d.year), Some(d.month0 + 1), Some(d.day));
  }

  /**
   * A text the reading accepts, with a year from 1000 on, is exactly the formatted text
   * of the date it reads as: reading is the inverse of formatting.
   */
  lemma ParseDateFormats(s: string)
    ensures ParseDate(s).Some? && ParseDate(s).value.year >= 1000 ==> FormatDate(ParseDate(s).value) == s
  {
    if ParseDate(s).Some? && ParseDate(s).value.year >= 1000 {
      var d := ParseDate(s).value;
      var parts := Split(s, '-');
      assert |parts| == 3 && |parts[0]| == 4 && |parts[1]| == 2 && |parts[2]| == 2;
      assert ParseNat(parts[0]).Some? && ParseNat(parts[1]).Some? && ParseNat(parts[2]).Some?;
      assert d == CalendarDate(DecimalValue(parts[0]), DecimalValue(parts[1]) - 1, DecimalValue(parts[2]));
      FourDigitsOfText(parts[0]);
      TwoDigitsOfText(parts[1]);
      TwoDigitsOfText(parts[2]);
      assert YearText(d.year) == parts[0];
      assert TwoDigits(d.month0 + 1) == parts[1] && TwoDigits(d.day) == parts[2];
      assert FormatDate(d) == parts[0] + "-" + parts[1] + "-" + parts[2];
      JoinSplit(s, '-');
      assert Join(parts, '-') == parts[0] + "-" + parts[1] + "-" + parts[2] by {
        assert parts[1..][1..] == [parts[2]];
        assert Join(parts[1..], '-') == parts[1] + "-" + parts[2];
      }
    }
  }

  /** A year from 1000 to 9999 is written with four digits. */
  lemma YearDigits(y: nat)
    requires 1000 <= y <= 9999
    ensures |Digits(y)| == 4
  {
    assert y / 10 / 10 == y / 100 && y / 100 / 10 == y / 1000;
    assert |Digits(y / 1000)| == 1;
    assert |Digits(y / 100)| == 2;
    assert |Digits(y / 10)| == 3;
  }

  /** Different dates (with four-digit years) never format to the same text. */
  lemma FormatDateInjective(d1: CalendarDate, d2: CalendarDate)
    requires d1.Wf() && d2.Wf() && 1000 <= d1.year <= 9999 && 1000 <= d2.year <= 9999
    requires FormatDate(d1) == FormatDate(d2)
    ensures d1 == d2
  {
    FormatDateRoundTrip(d1);
    FormatDateRoundTrip(d2);
  }

  /** `toLocaleDateString('en-IN')`: day, 1-based month and year, unpadded and separated by slashes. */
  function LocaleDate(d: CalendarDate): string
    requires d.Wf()
  {
    Digits(d.day) + "/" + Digits(d.month0 + 1) + "/" + YearText(d.year)
  }

  /** The locale text of a date always holds a slash, and so never equals a `yyyy-MM-dd` value. */
  lemma LocaleDateNeverFormatted(d: CalendarDate, e: CalendarDate)
    requires d.Wf() && e.Wf()
    ensures '/' in LocaleDate(d)
    ensures LocaleDate(d) != FormatDate(e)
  {
    var l := LocaleDate(d);
    assert l[|Digits(d.day)|] == '/';
    FormatDateCharacters(e);
  }
}
