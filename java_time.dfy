/**
 * The pieces of java.time the panels depend on: LocalDate.of with its calendar
 * check, the formatting of the patterns "H", "h", "mm" and AMPM_OF_DAY, and parsing
 * of the patterns "H:mm" and "h:mm a" in strict mode with the SMART resolver that
 * DateTimeFormatterBuilder.toFormatter() installs.
 */
module JavaTime {
  import opened Wrappers
  import opened JavaLang

  datatype LocalDate = LocalDate(year: int, month: int, day: int)

  datatype LocalTime = LocalTime(hour: int, minute: int, second: int, nano: int)

  datatype LocalDateTime = LocalDateTime(date: LocalDate, time: LocalTime)

  /** Year.MIN_VALUE and Year.MAX_VALUE. */
  const MIN_YEAR: int := -999_999_999
  const MAX_YEAR: int := 999_999_999

  /** IsoChronology.isLeapYear, the proleptic Gregorian rule. */
  predicate IsLeapYear(year: int) {
    year % 4 == 0 && (year % 100 != 0 || year % 400 == 0)
  }

  function LengthOfMonth(year: int, month: int): (n: int)
    requires 1 <= month <= 12
    ensures 28 <= n <= 31
    ensures n == 29 <==> month == 2 && IsLeapYear(year)
  {
    if month == 2 then (if IsLeapYear(year) then 29 else 28)
    else if month == 4 || month == 6 || month == 9 || month == 11 then 30
    else 31
  }

  /** The values a LocalDate can hold. */
  predicate IsCalendarDate(d: LocalDate) {
    MIN_YEAR <= d.year <= MAX_YEAR && 1 <= d.month <= 12 && 1 <= d.day <= LengthOfMonth(d.year, d.month)
  }

  /** The values a LocalTime can hold. */
  predicate IsTimeOfDay(t: LocalTime) {
    0 <= t.hour <= 23 && 0 <= t.minute <= 59 && 0 <= t.second <= 59 && 0 <= t.nano <= 999_999_999
  }

  /**
   * LocalDate.of(year, month, dayOfMonth); None stands for DateTimeException.
   * Each field is checked against its range first, and only a day after the 28th
   * is checked against the length of the month.
   */
  function DateOf(year: int, month: int, day: int): (r: Option<LocalDate>)
    ensures r.Some? <==> IsCalendarDate(LocalDate(year, month, day))
    ensures r.Some? ==> r.value == LocalDate(year, month, day)
  {
    if !(MIN_YEAR <= year <= MAX_YEAR) || !(1 <= month <= 12) || !(1 <= day <= 31) then None
    else if day > 28 && day > LengthOfMonth(year, month) then None
    else Some(LocalDate(year, month, day))
  }

  /** February 29th exists exactly in leap years. */
  lemma LeapDay(year: int)
    requires MIN_YEAR <= year <= MAX_YEAR
    ensures DateOf(year, 2, 29).Some? <==> IsLeapYear(year)
    ensures DateOf(year, 2, 30) == None
  {
  }

  /** The time the panels can show: seconds and nanoseconds are dropped. */
  function Truncated(t: LocalTime): LocalTime {
    LocalTime(t.hour, t.minute, 0, 0)
  }

  datatype AmPm = AM | PM

  /** The text of AMPM_OF_DAY in the US locale. */
  function AmPmText(a: AmPm): string {
    if a == AM then "AM" else "PM"
  }

  function AmPmOf(hour: int): AmPm {
    if hour < 12 then AM else PM
  }

  /** CLOCK_HOUR_OF_AMPM, which the pattern "h" prints: the hour of the half day, with 12 for 0. */
  function ClockHourOfAmPm(hour: int): (h: int)
    requires 0 <= hour <= 23
    ensures 1 <= h <= 12
  {
    var hourOfAmPm := if hour < 12 then hour else hour - 12;
    if hourOfAmPm == 0 then 12 else hourOfAmPm
  }

  /** The pattern "mm": exactly two digits. */
  function FormatTwoDigits(v: int): (s: string)
    requires 0 <= v <= 99
    ensures |s| == 2 && AllDigits(s) && DigitsValue(s) == v
  {
    var s := [DigitChar(v / 10), DigitChar(v % 10)];
    TwoDigitsValue(s);
    s
  }

  /** The number of ASCII digits at the start of s. */
  function LeadingDigits(s: string): (k: nat)
    ensures k <= |s| && AllDigits(s[..k])
    ensures k < |s| ==> !IsDigit(s[k])
  {
    if s == [] || !IsDigit(s[0]) then 0
    else
      var k := 1 + LeadingDigits(s[1..]);
      assert forall i :: 1 <= i < k ==> s[..k][i] == s[1..][..k - 1][i - 1];
      k
  }

  /** A run of k digits followed by the end or a non-digit is what LeadingDigits counts. */
  lemma {:induction false} LeadingDigitsUnique(s: string, k: nat)
    requires k <= |s| && AllDigits(s[..k])
    requires k < |s| ==> !IsDigit(s[k])
    ensures LeadingDigits(s) == k
  {
    if k > 0 {
      assert IsDigit(s[..k][0]);
      var t := s[1..];
      assert t[..k - 1] == s[..k][1..];
      if k - 1 < |t| {
        assert t[k - 1] == s[k];
      }
      LeadingDigitsUnique(t, k - 1);
    }
  }

  /** The widest number appendValue(field) reads. */
  const MAX_WIDTH: nat := 19

  /**
   * appendValue(field) parsed strictly: as many digits as there are, at least one
   * and at most 19, and the text after them. A leading '-' is read as a sign in
   * strict mode, but it always fails later (-0 is refused, and every field read
   * here has a range starting at 0 or 1), so it is refused here at once.
   */
  function ParseNumber(s: string): (r: Option<(nat, string)>)
    ensures r.None? <==> s == [] || !IsDigit(s[0])
    ensures r.Some? ==> var n := |s| - |r.value.1|;
      1 <= n <= MAX_WIDTH && r.value.1 == s[n..] && AllDigits(s[..n]) && r.value.0 == DigitsValue(s[..n]) &&
      (n < MAX_WIDTH && r.value.1 != [] ==> !IsDigit(r.value.1[0]))
  {
    var k := LeadingDigits(s);
    var n := if k < MAX_WIDTH then k else MAX_WIDTH;
    if n == 0 then None
    else
      AllDigitsPrefix(s[..k], n);
      assert s[..k][..n] == s[..n];
      Some((DigitsValue(s[..n]), s[n..]))
  }

  /**
   * The SMART resolution of HOUR_OF_DAY and MINUTE_OF_HOUR: the minute must be in
   * 0..59, the hour in 0..23, except that 24:00 is read as the midnight ending the
   * day (LocalTime then keeps 00:00).
   */
  function ResolveHourOfDay(hour: int, minute: int): (r: Option<LocalTime>)
    ensures r.Some? ==> IsTimeOfDay(r.value) && r.value == Truncated(r.value)
    ensures r.Some? <==> 0 <= minute <= 59 && (0 <= hour <= 23 || (hour == 24 && minute == 0))
    ensures r.Some? ==> r.value.hour == hour % 24 && r.value.minute == minute
  {
    if !(0 <= minute <= 59) then None
    else if hour == 24 && minute == 0 then Some(LocalTime(0, 0, 0, 0))
    else if 0 <= hour <= 23 then Some(LocalTime(hour, minute, 0, 0))
    else None
  }

  /**
   * The SMART resolution of CLOCK_HOUR_OF_AMPM, MINUTE_OF_HOUR and AMPM_OF_DAY:
   * the clock hour must be in 0..12 (strict resolution would refuse 0, SMART lets
   * it through unchecked) and becomes 0 for 12; PM adds 12.
   */
  function ResolveClockHour(clockHour: int, minute: int, ampm: AmPm): (r: Option<LocalTime>)
    ensures r.Some? ==> IsTimeOfDay(r.value) && r.value == Truncated(r.value)
    ensures r.Some? <==> 0 <= clockHour <= 12 && 0 <= minute <= 59
    ensures r.Some? ==> r.value.hour == clockHour % 12 + (if ampm == PM then 12 else 0) && r.value.minute == minute
    ensures r.Some? ==> AmPmOf(r.value.hour) == ampm
  {
    if !(0 <= clockHour <= 12) || !(0 <= minute <= 59) then None
    else
      var hourOfAmPm := if clockHour == 12 then 0 else clockHour;
      Some(LocalTime((if ampm == PM then 12 else 0) + hourOfAmPm, minute, 0, 0))
  }

  /** Resolving the clock hour inverts printing it: the half day and the clock hour come back. */
  lemma ClockHourResolved(clockHour: int, minute: int, ampm: AmPm)
    requires 1 <= clockHour <= 12 && 0 <= minute <= 59
    ensures var t := ResolveClockHour(clockHour, minute, ampm).value;
      AmPmOf(t.hour) == ampm && ClockHourOfAmPm(t.hour) == clockHour && t.minute == minute
  {
  }

  /** LocalTime.parse(s, pattern "H:mm"); None stands for DateTimeParseException. */
  function ParseHourMinute(s: string): (r: Option<LocalTime>)
    ensures r.Some? ==> IsTimeOfDay(r.value) && r.value == Truncated(r.value)
  {
    match ParseNumber(s)
    case None => None
    case Some((hour, rest)) => ParseMinuteAfter(hour, rest)
  }

  /** What "H:mm" expects once the hour is read: ':', two digits, and the end of the text. */
  function ParseMinuteAfter(hour: nat, rest: string): (r: Option<LocalTime>)
  {
    if |rest| == 3 && rest[0] == ':' && IsDigit(rest[1]) && IsDigit(rest[2])
    then ResolveHourOfDay(hour, 10 * DigitValue(rest[1]) + DigitValue(rest[2]))
    else None
  }

  /** LocalTime.parse(s, pattern "h:mm " followed by the AMPM_OF_DAY text). */
  function ParseClockHourMinute(s: string): (r: Option<LocalTime>)
    ensures r.Some? ==> IsTimeOfDay(r.value) && r.value == Truncated(r.value)
  {
    match ParseNumber(s)
    case None => None
    case Some((clockHour, rest)) => ParseMinuteAmPmAfter(clockHour, rest)
  }

  /** What "h:mm a" expects once the clock hour is read: ':', two digits, ' ', "AM" or "PM", and the end. */
  function ParseMinuteAmPmAfter(clockHour: nat, rest: string): (r: Option<LocalTime>)
  {
    if |rest| == 6 && rest[0] == ':' && IsDigit(rest[1]) && IsDigit(rest[2]) && rest[3] == ' '
       && (rest[4] == 'A' || rest[4] == 'P') && rest[5] == 'M'
    then ResolveClockHour(clockHour, 10 * DigitValue(rest[1]) + DigitValue(rest[2]), if rest[4] == 'A' then AM else PM)
    else None
  }

  /** Where the digits of h + tail end when tail starts with something other than a digit. */
  lemma ParseNumberBefore(h: string, tail: string)
    requires tail != [] && !IsDigit(tail[0])
    ensures var r := ParseNumber(h + tail);
      (1 <= |h| <= MAX_WIDTH && AllDigits(h) ==> r == Some((DigitsValue(h), tail))) &&
      (!(1 <= |h| <= MAX_WIDTH && AllDigits(h)) && r.Some? ==>
         |r.value.1| > |tail| && r.value.1[|r.value.1| - |tail|..] == tail)
  {
    if 1 <= |h| <= MAX_WIDTH && AllDigits(h) {
      ParseNumberDigitsBefore(h, tail);
    } else if h == [] {
      assert h + tail == tail;
    } else if AllDigits(h) {
      ParseNumberWideBefore(h, tail);
    } else {
      ParseNumberNonDigitBefore(h, tail);
    }
  }

  /** A run of 1 to 19 digits before the tail is read whole. */
  lemma ParseNumberDigitsBefore(h: string, tail: string)
    requires tail != [] && !IsDigit(tail[0])
    requires 1 <= |h| <= MAX_WIDTH && AllDigits(h)
    ensures ParseNumber(h + tail) == Some((DigitsValue(h), tail))
  {
    var s := h + tail;
    assert s[|h|] == tail[0];
    assert s[..|h|] == h;
    LeadingDigitsUnique(s, |h|);
    assert s[|h|..] == tail;
  }

  /** More than 19 digits before the tail: only 19 are read, and the rest of the run stays before the tail. */
  lemma ParseNumberWideBefore(h: string, tail: string)
    requires tail != [] && !IsDigit(tail[0])
    requires |h| > MAX_WIDTH && AllDigits(h)
    ensures var r := ParseNumber(h + tail);
      r.Some? && |r.value.1| > |tail| && r.value.1[|r.value.1| - |tail|..] == tail
  {
    var s := h + tail;
    assert s[|h|] == tail[0];
    assert s[..|h|] == h;
    LeadingDigitsUnique(s, |h|);
    assert s[MAX_WIDTH..] == h[MAX_WIDTH..] + tail;
  }

  /** A non-digit inside h stops the number before the tail. */
  lemma ParseNumberNonDigitBefore(h: string, tail: string)
    requires !AllDigits(h)
    ensures var r := ParseNumber(h + tail);
      r.Some? ==> |r.value.1| > |tail| && r.value.1[|r.value.1| - |tail|..] == tail
  {
    var s := h + tail;
    var i :| 0 <= i < |h| && !IsDigit(h[i]);
    var r := ParseNumber(s);
    if r.Some? {
      var n := |s| - |r.value.1|;
      assert s[i] == h[i];
      assert n <= i;
      assert s[n..] == h[n..] + tail;
    }
  }

  /** Two digits read as "mm" reads them. */
  lemma TwoDigitsValue(m: string)
    requires |m| == 2 && AllDigits(m)
    ensures DigitsValue(m) == 10 * DigitValue(m[0]) + DigitValue(m[1])
  {
    var p := m[..1];
    assert p[..0] == [];
    assert DigitsValue(p) == DigitValue(m[0]);
  }

  /** A ':' inside the two places where "mm" needs digits makes the rest fail. */
  lemma MinuteAfterMisplaced(hour: nat, rest: string, tail: string)
    requires |rest| > |tail| && rest[|rest| - |tail|..] == tail && tail != [] && tail[0] == ':'
    ensures ParseMinuteAfter(hour, rest) == None
  {
    if |rest| == 3 {
      assert rest[|rest| - |tail|] == ':';
    }
  }

  lemma MinuteAmPmAfterMisplaced(clockHour: nat, rest: string, tail: string)
    requires |rest| > |tail| && rest[|rest| - |tail|..] == tail && |tail| >= 4 && tail[0] == ':'
    ensures ParseMinuteAmPmAfter(clockHour, rest) == None
  {
    if |rest| == 6 {
      assert rest[|rest| - |tail|] == ':';
    }
  }

  lemma MinuteAfterComposed(hour: nat, m: string)
    ensures ParseMinuteAfter(hour, ":" + m) ==
      if |m| == 2 && AllDigits(m) then ResolveHourOfDay(hour, DigitsValue(m)) else None
  {
    if |m| == 2 && AllDigits(m) {
      TwoDigitsValue(m);
    }
  }

  lemma MinuteAmPmAfterDigits(clockHour: nat, m: string, a: AmPm)
    requires |m| == 2 && AllDigits(m)
    ensures ParseMinuteAmPmAfter(clockHour, ":" + m + " " + AmPmText(a))
            == ResolveClockHour(clockHour, DigitsValue(m), a)
  {
    TwoDigitsValue(m);
    var text := AmPmText(a);
    assert ":" + m + " " + text == [':', m[0], m[1], ' ', text[0], text[1]];
    assert (if text[0] == 'A' then AM else PM) == a;
  }

  lemma MinuteAmPmAfterNotDigits(clockHour: nat, m: string, a: AmPm)
    requires !(|m| == 2 && AllDigits(m))
    ensures ParseMinuteAmPmAfter(clockHour, ":" + m + " " + AmPmText(a)) == None
  {
    var rest := ":" + m + " " + AmPmText(a);
    if |m| == 2 {
      assert rest[1] == m[0] && rest[2] == m[1];
    }
  }

  lemma MinuteAmPmAfterComposed(clockHour: nat, m: string, a: AmPm)
    ensures ParseMinuteAmPmAfter(clockHour, ":" + m + " " + AmPmText(a)) ==
      if |m| == 2 && AllDigits(m) then ResolveClockHour(clockHour, DigitsValue(m), a) else None
  {
    if |m| == 2 && AllDigits(m) {
      MinuteAmPmAfterDigits(clockHour, m, a);
    } else {
      MinuteAmPmAfterNotDigits(clockHour, m, a);
    }
  }

  /**
   * The string the panel composes in 24-hour mode parses exactly when the hour text
   * is 1 to 19 digits and the minute text is two digits; the value is then the
   * resolution of those two numbers.
   */
  lemma HourMinuteComposed(h: string, m: string)
    ensures ParseHourMinute(h + ":" + m) ==
      if 1 <= |h| <= MAX_WIDTH && AllDigits(h) && |m| == 2 && AllDigits(m)
      then ResolveHourOfDay(DigitsValue(h), DigitsValue(m))
      else None
  {
    var tail := ":" + m;
    assert h + ":" + m == h + tail;
    ParseNumberBefore(h, tail);
    var r := ParseNumber(h + tail);
    if 1 <= |h| <= MAX_WIDTH && AllDigits(h) {
      MinuteAfterComposed(DigitsValue(h), m);
    } else if r.Some? {
      MinuteAfterMisplaced(r.value.0, r.value.1, tail);
    }
  }

  /** The same for the string the panel composes in 12-hour mode. */
  lemma ClockHourMinuteComposed(h: string, m: string, a: AmPm)
    ensures ParseClockHourMinute(h + ":" + m + " " + AmPmText(a)) ==
      if 1 <= |h| <= MAX_WIDTH && AllDigits(h) && |m| == 2 && AllDigits(m)
      then ResolveClockHour(DigitsValue(h), DigitsValue(m), a)
      else None
  {
    var tail := ":" + m + " " + AmPmText(a);
    assert h + ":" + m + " " + AmPmText(a) == h + tail;
    ClockHourBefore(h, tail);
    if 1 <= |h| <= MAX_WIDTH && AllDigits(h) {
      MinuteAmPmAfterComposed(DigitsValue(h), m, a);
    }
  }

  /** The clock hour h followed by a tail that starts with ':' and holds at least four characters. */
  lemma ClockHourBefore(h: string, tail: string)
    requires |tail| >= 4 && tail[0] == ':'
    ensures ParseClockHourMinute(h + tail) ==
      if 1 <= |h| <= MAX_WIDTH && AllDigits(h) then ParseMinuteAmPmAfter(DigitsValue(h), tail) else None
  {
    ParseNumberBefore(h, tail);
    var r := ParseNumber(h + tail);
    if !(1 <= |h| <= MAX_WIDTH && AllDigits(h)) && r.Some? {
      MinuteAmPmAfterMisplaced(r.value.0, r.value.1, tail);
    }
  }

  /** Formatting with "H" and "mm" and parsing with "H:mm" gives back the time up to minutes. */
  lemma HourMinuteRoundTrip(t: LocalTime)
    requires IsTimeOfDay(t)
    ensures ParseHourMinute(FormatInt(t.hour) + ":" + FormatTwoDigits(t.minute)) == Some(Truncated(t))
  {
    NatDigitsShort(t.hour);
    NatDigitsValue(t.hour);
    HourMinuteComposed(FormatInt(t.hour), FormatTwoDigits(t.minute));
  }

  /** Formatting with "h", "mm" and AMPM_OF_DAY and parsing with "h:mm a" gives back the time up to minutes. */
  lemma ClockHourMinuteRoundTrip(t: LocalTime)
    requires IsTimeOfDay(t)
    ensures ParseClockHourMinute(FormatInt(ClockHourOfAmPm(t.hour)) + ":" + FormatTwoDigits(t.minute) + " " + AmPmText(AmPmOf(t.hour)))
            == Some(Truncated(t))
  {
    var ch := ClockHourOfAmPm(t.hour);
    NatDigitsShort(ch);
    NatDigitsValue(ch);
    ClockHourMinuteComposed(FormatInt(ch), FormatTwoDigits(t.minute), AmPmOf(t.hour));
  }
}
