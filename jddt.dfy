/**
 * John Dale Datetime (app/assets/js/jddt.js): zero padding, ordinal suffixes,
 * the fallback timezone name and the long and short date strings. The browser's
 * calendar breakdown of a timestamp (the `Date` getters) is an input record.
 */
module Jddt {
  import opened JsText

  const Months: seq<string> := ["January", "February", "March", "April", "May", "June", "July",
                                "August", "September", "October", "November", "December"]
  const Days: seq<string> := ["Sunday", "Monday", "Tuesday", "Wednesday", "Thursday", "Friday", "Saturday"]

  /** `JDDT.pad0(n)`: a leading "0" for numbers below 10. */
  function Pad0(n: int): string
  {
    if n < 10 then "0" + IntToString(n) else IntToString(n)
  }

  /** For 0 <= n <= 99 the padded form is exactly two digits that read back as n. */
  lemma Pad0TwoDigits(n: int)
    requires 0 <= n <= 99
    ensures |Pad0(n)| == 2 && AllDigits(Pad0(n))
    ensures ParseDecimal(Pad0(n)) == n
  {
    var r := Pad0(n);
    ParseNatToString(n);
    if n < 10 {
      assert r == ['0', DigitChar(n)];
      assert r[..1] == ['0'];
    } else {
      assert NatToString(n) == NatToString(n / 10) + [DigitChar(n % 10)];
    }
  }

  /** From 10 upwards pad0 adds nothing: the string is the plain decimal number. */
  lemma Pad0NoPadding(n: int)
    requires n >= 10
    ensures Pad0(n) == NatToString(n)
  {
  }

  /** The ordinal suffix `th` picks for n. */
  function OrdinalSuffix(n: int): string
  {
    if n > 10 && n < 21 then "th"
    else if JsRem(n, 10) == 1 then "st"
    else if JsRem(n, 10) == 2 then "nd"
    else if JsRem(n, 10) == 3 then "rd"
    else "th"
  }

  /** `JDDT.th(n)`: the number followed by exactly one two-letter suffix. */
  function Th(n: int): (r: string)
    ensures |r| == |IntToString(n)| + 2 && r[..|r| - 2] == IntToString(n)
    ensures r[|r| - 2..] in {"st", "nd", "rd", "th"}
  {
    var s := IntToString(n) + OrdinalSuffix(n);
    assert s[..|s| - 2] == IntToString(n);
    s
  }

  /** 11 to 20 always take "th", including 11th, 12th and 13th. */
  lemma ThTeens(n: int)
    requires 11 <= n <= 20
    ensures Th(n)[|Th(n)| - 2..] == "th"
  {
  }

  /** Outside 11..20 the last digit decides: 1 "st", 2 "nd", 3 "rd", anything else "th". */
  lemma ThByLastDigit(n: int)
    requires n >= 0 && !(11 <= n <= 20)
    ensures var suffix := Th(n)[|Th(n)| - 2..];
      && (n % 10 == 1 <==> suffix == "st")
      && (n % 10 == 2 <==> suffix == "nd")
      && (n % 10 == 3 <==> suffix == "rd")
      && (n % 10 !in {1, 2, 3} <==> suffix == "th")
  {
    var r := Th(n);
    assert r[|r| - 2..] == OrdinalSuffix(n);
  }

  /** Examples that the rule above gives: 21st, 22nd, 23rd and 30th. */
  lemma ThExamples()
    ensures Th(21) == "21st" && Th(22) == "22nd" && Th(23) == "23rd" && Th(30) == "30th"
  {
    assert NatToString(21) == NatToString(2) + ['1'];
    assert NatToString(22) == NatToString(2) + ['2'];
    assert NatToString(23) == NatToString(2) + ['3'];
    assert NatToString(30) == NatToString(3) + ['0'];
  }

  /** `Math.abs` of the offset, in minutes. */
  function AbsOffset(offset: int): nat
  {
    if offset < 0 then -offset else offset
  }

  /**
   * The fallback `JDDT.localTimezoneName` when `Intl` gives no zone: the sign,
   * then the padded hours and minutes of the offset. The template literal spans
   * three source lines, so a newline and two spaces precede each of the two numbers.
   * `Math.floor(Math.abs(offset / 60))` is the whole-hour part of the absolute offset.
   */
  function FallbackTimezoneName(offset: int): (r: string)
  {
    (if offset < 0 then "-" else "+") + "\n  " + Pad0(AbsOffset(offset) / 60) + ":\n  " + Pad0(AbsOffset(offset) % 60)
  }

  /**
   * The fallback name is the sign ('-' exactly for a negative offset), then the
   * padded hours, a colon and the padded minutes, each number after a line break
   * and two spaces.
   */
  lemma FallbackTimezoneNameShape(offset: int)
    ensures |FallbackTimezoneName(offset)| == |Pad0(AbsOffset(offset) / 60)| + 10
    ensures FallbackTimezoneName(offset)[0] == '-' <==> offset < 0
    ensures FallbackTimezoneName(offset)[0] == '+' <==> offset >= 0
    ensures FallbackTimezoneName(offset)[1..4] == "\n  "
    ensures FallbackTimezoneName(offset)[4..4 + |Pad0(AbsOffset(offset) / 60)|] == Pad0(AbsOffset(offset) / 60)
    ensures FallbackTimezoneName(offset)[4 + |Pad0(AbsOffset(offset) / 60)|..|FallbackTimezoneName(offset)| - 2] == ":\n  "
    ensures FallbackTimezoneName(offset)[|FallbackTimezoneName(offset)| - 2..] == Pad0(AbsOffset(offset) % 60)
  {
    var sign := if offset < 0 then "-" else "+";
    var h, m := Pad0(AbsOffset(offset) / 60), Pad0(AbsOffset(offset) % 60);
    var pre, mid := sign + "\n  ", ":\n  ";
    var r := FallbackTimezoneName(offset);
    Pad0TwoDigits(AbsOffset(offset) % 60);
    assert |pre| == 4 && |mid| == 4 && |m| == 2;
    assert r == pre + h + mid + m;
    ConcatSlices(pre, h, mid, m);
    assert r[0] == pre[0] == sign[0];
    assert r[1..4] == pre[1..4] == "\n  ";
    assert |r| - 2 == |pre| + |h| + |mid|;
  }

  /** The four pieces of a concatenation are its slices at the running lengths. */
  lemma ConcatSlices(a: string, b: string, c: string, d: string)
    ensures var s := a + b + c + d;
      && s[..|a|] == a && s[|a|..|a| + |b|] == b
      && s[|a| + |b|..|a| + |b| + |c|] == c && s[|a| + |b| + |c|..] == d
  {
    var s := a + b + c + d;
    assert s == (a + b) + (c + d);
    assert s[..|a| + |b|] == a + b;
    assert s[|a| + |b|..] == c + d;
    assert (a + b)[..|a|] == a && (a + b)[|a|..] == b;
    assert (c + d)[..|c|] == c && (c + d)[|c|..] == d;
    assert s[..|a|] == s[..|a| + |b|][..|a|];
    assert s[|a|..|a| + |b|] == s[..|a| + |b|][|a|..];
    assert s[|a| + |b|..|a| + |b| + |c|] == s[|a| + |b|..][..|c|];
    assert s[|a| + |b| + |c|..] == s[|a| + |b|..][|c|..];
  }

  /** `JDDT.localTimezoneName`: the zone that `Intl` resolves, else the offset-based fallback. */
  function LocalTimezoneName(intlTimeZone: Option<string>, offset: int): (r: string)
    ensures intlTimeZone.Some? ==> r == intlTimeZone.value
    ensures intlTimeZone.None? ==> r == FallbackTimezoneName(offset)
  {
    match intlTimeZone
    case Some(zone) => zone
    case None => FallbackTimezoneName(offset)
  }

  /** What a `Date` reports through getHours, getMinutes, getDay, getDate, getMonth and getFullYear. */
  datatype DateFields = DateFields(hours: int, minutes: int, weekday: int, dayOfMonth: int, month: int, year: int)

  /** The ranges a `Date` guarantees for the two fields used as array indexes. */
  predicate Indexable(d: DateFields)
  {
    0 <= d.weekday < 7 && 0 <= d.month < 12
  }

  function DayName(d: DateFields, short: bool): string
    requires Indexable(d)
  {
    if short then Substring(Days[d.weekday], 0, 3) else Days[d.weekday]
  }

  function MonthName(d: DateFields, short: bool): string
    requires Indexable(d)
  {
    if short then Substring(Months[d.month], 0, 3) else Months[d.month]
  }

  function YearText(d: DateFields, short: bool): string
  {
    if short then "'" + Substring(IntToString(d.year), 2, 4) else IntToString(d.year)
  }

  /** The clock part: padded hours, a colon, padded minutes. */
  function ClockText(d: DateFields): string
  {
    Pad0(d.hours) + ":" + Pad0(d.minutes)
  }

  /** The calendar part: day name, ordinal day of the month, month name and year, one per source line. */
  function CalendarText(d: DateFields, short: bool): string
    requires Indexable(d)
  {
    DayName(d, short) + " \n  " + Th(d.dayOfMonth) + " \n  " + MonthName(d, short) + " \n  " + YearText(d, short)
  }

  /**
   * `stringify(date, timezoneName, short)`: clock, zone and calendar, separated
   * by the line breaks and indentation of the template literal.
   */
  function Stringify(d: DateFields, timezoneName: string, short: bool): string
    requires Indexable(d)
  {
    ClockText(d) + " " + timezoneName + ", \n  " + CalendarText(d, short)
  }

  /** Short names are the first three letters of the long names; the long form keeps them whole. */
  lemma ShortNamesAreThreeLetterPrefixes(d: DateFields)
    requires Indexable(d)
    ensures DayName(d, true) == DayName(d, false)[..3] && MonthName(d, true) == MonthName(d, false)[..3]
    ensures DayName(d, false) in Days && MonthName(d, false) in Months
  {
    assert forall i :: 0 <= i < 7 ==> |Days[i]| >= 3;
    assert forall i :: 0 <= i < 12 ==> |Months[i]| >= 3;
  }

  /** A four-digit number renders as four digits, the last two being its tens and units. */
  lemma FourDigits(n: nat)
    requires 1000 <= n <= 9999
    ensures |NatToString(n)| == 4
    ensures NatToString(n)[2..4] == [DigitChar((n / 10) % 10), DigitChar(n % 10)]
  {
    assert n / 10 / 10 == n / 100 && n / 100 / 10 == n / 1000;
    assert NatToString(n / 1000) == [DigitChar(n / 1000)];
    assert NatToString(n / 100) == NatToString(n / 1000) + [DigitChar((n / 100) % 10)];
    assert NatToString(n / 10) == NatToString(n / 100) + [DigitChar((n / 10) % 10)];
    assert NatToString(n) == NatToString(n / 10) + [DigitChar(n % 10)];
  }

  /** For a four-digit year the short year is an apostrophe and the tens and units digits. */
  lemma ShortYearLastTwoDigits(d: DateFields)
    requires 1000 <= d.year <= 9999
    ensures YearText(d, false) == NatToString(d.year)
    ensures YearText(d, true) == ['\'', DigitChar((d.year / 10) % 10), DigitChar(d.year % 10)]
  {
    FourDigits(d.year);
  }

  /** A formatted date starts with the five-character clock "hh:mm", then a space and the zone name. */
  lemma StringifyStartsWithTime(d: DateFields, timezoneName: string, short: bool)
    requires Indexable(d) && 0 <= d.hours < 24 && 0 <= d.minutes < 60
    ensures |ClockText(d)| == 5 && ClockText(d)[2] == ':'
    ensures ClockText(d) + " " + timezoneName <= Stringify(d, timezoneName, short)
  {
    Pad0TwoDigits(d.hours);
    Pad0TwoDigits(d.minutes);
    var head := ClockText(d) + " " + timezoneName;
    assert Stringify(d, timezoneName, short) == head + (", \n  " + CalendarText(d, short));
  }

  /**
   * A JDDT value: the local `Date` and the GMT `Date`, whose local fields read as
   * GMT because its timestamp was moved by the timezone offset, in minutes.
   */
  datatype Jddt = Jddt(localMs: int, gmtMs: int)

  /** The constructor: the GMT date is the local date moved by `offset` minutes. */
  function NewJddt(localMs: int, offset: int): (j: Jddt)
    ensures j.localMs == localMs && j.gmtMs - j.localMs == offset * 60000
  {
    Jddt(localMs, localMs + offset * 60000)
  }

  /** `isGMT()`: the offset is zero, so the two dates coincide. */
  function IsGmt(offset: int): bool
  {
    offset == 0
  }

  lemma IsGmtMeansSameInstant(localMs: int, offset: int)
    ensures IsGmt(offset) <==> NewJddt(localMs, offset).gmtMs == NewJddt(localMs, offset).localMs
  {
  }

  /** The browser's local calendar breakdown of a timestamp, as the `Date` getters report it. */
  type Calendar = int -> DateFields

  ghost predicate CalendarIndexable(fields: Calendar)
  {
    forall t :: Indexable(fields(t))
  }

  /** `longLocal()`: long form of the local date with the local zone name. */
  function LongLocal(j: Jddt, fields: Calendar, localTimezoneName: string): string
    requires CalendarIndexable(fields)
  {
    Stringify(fields(j.localMs), localTimezoneName, false)
  }

  /** `longGMT()`: long form of the shifted date, labelled "GMT". */
  function LongGmt(j: Jddt, fields: Calendar): string
    requires CalendarIndexable(fields)
  {
    Stringify(fields(j.gmtMs), "GMT", false)
  }

  /** `shortLocal()`. */
  function ShortLocal(j: Jddt, fields: Calendar, localTimezoneName: string): string
    requires CalendarIndexable(fields)
  {
    Stringify(fields(j.localMs), localTimezoneName, true)
  }

  /** `shortGMT()`. */
  function ShortGmt(j: Jddt, fields: Calendar): string
    requires CalendarIndexable(fields)
  {
    Stringify(fields(j.gmtMs), "GMT", true)
  }

  /** In GMT (offset 0) the local and GMT strings differ only in the zone name. */
  lemma GmtWrappersAgreeWhenOffsetZero(localMs: int, fields: Calendar, zone: string)
    requires CalendarIndexable(fields)
    ensures var j := NewJddt(localMs, 0);
      LongGmt(j, fields) == LongLocal(j, fields, "GMT") && ShortGmt(j, fields) == ShortLocal(j, fields, "GMT")
  {
  }
}
