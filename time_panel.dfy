/**
 * TimePanel: an hour and a minute text field with their verifiers and, in 12-hour
 * mode, an AM/PM selector; read back by formatting the texts into "H:mm" or
 * "h:mm a" and parsing the result.
 */
module TimePanels {
  import opened Wrappers
  import opened JavaLang
  import opened JavaTime
  import opened Panel

  datatype TimeField = Hour | Minute

  const TWELVE_HOUR_KEY: string := "12hour"

  /** Hours start at 1 in both modes and end at 12 or 23 depending on the mode. */
  function HourVerifier(is12hourMode: bool): Verifier {
    Verifier(1, Some(if is12hourMode then 12 else 23))
  }

  /** Minutes start at 1, whatever the mode. */
  const MINUTE_VERIFIER: Verifier := Verifier(1, Some(59))

  function TimeVerifiers(is12hourMode: bool): map<TimeField, Verifier> {
    map[Hour := HourVerifier(is12hourMode), Minute := MINUTE_VERIFIER]
  }

  /** The two verifiers on the text of an int. */
  lemma TimeVerifiersOnInts(is12hourMode: bool, n: int)
    ensures Verify(HourVerifier(is12hourMode), FormatInt(n)) <==> 1 <= n <= (if is12hourMode then 12 else 23)
    ensures Verify(MINUTE_VERIFIER, FormatInt(n)) <==> 1 <= n <= 59
  {
    VerifyFormatted(HourVerifier(is12hourMode), n);
    VerifyFormatted(MINUTE_VERIFIER, n);
  }

  /** Zero is refused as an hour in both modes and as a minute, also when written "00". */
  lemma ZeroRejected(is12hourMode: bool)
    ensures !Verify(HourVerifier(is12hourMode), "0") && !Verify(MINUTE_VERIFIER, "0") && !Verify(MINUTE_VERIFIER, "00")
    ensures !Verify(HourVerifier(false), "24") && Verify(HourVerifier(false), "13") && !Verify(HourVerifier(true), "13")
  {
    TimeVerifiersOnInts(is12hourMode, 0);
    assert FormatInt(0) == "0";
    assert DigitsValue("00") == 0 by {
      assert "00"[..1] == "0";
    }
    TimeVerifiersOnInts(false, 24);
    assert FormatInt(24) == "24";
    TimeVerifiersOnInts(false, 13);
    TimeVerifiersOnInts(true, 13);
    assert FormatInt(13) == "13";
  }

  /** The hour text the constructor writes: pattern "h" in 12-hour mode, "H" otherwise. */
  function HourText(hour: int, is12hourMode: bool): (s: string)
    requires 0 <= hour <= 23
    ensures 1 <= |s| <= 2 && AllDigits(s)
    ensures DigitsValue(s) == if is12hourMode then ClockHourOfAmPm(hour) else hour
  {
    NatDigitsShort(hour);
    NatDigitsShort(ClockHourOfAmPm(hour));
    if is12hourMode then FormatInt(ClockHourOfAmPm(hour)) else FormatInt(hour)
  }

  /** The minute text the constructor writes: pattern "mm". */
  function MinuteText(minute: int): (s: string)
    requires 0 <= minute <= 59
    ensures |s| == 2 && AllDigits(s) && DigitsValue(s) == minute
  {
    FormatTwoDigits(minute)
  }

  /** The half day the constructor selects in 12-hour mode; otherwise the box keeps its first item, AM. */
  function InitialAmPm(hour: int, is12hourMode: bool): (a: AmPm)
    ensures is12hourMode ==> (a == PM <==> 12 <= hour)
    ensures !is12hourMode ==> a == AM
  {
    if is12hourMode then AmPmOf(hour) else AM
  }

  /** 13:30 on a 12-hour clock shows "1", "30" and PM. */
  lemma HalfPastOnePm()
    ensures HourText(13, true) == "1" && MinuteText(30) == "30" && InitialAmPm(13, true) == PM
    ensures HourText(13, false) == "13"
  {
    assert FormatInt(1) == "1";
    assert FormatInt(13) == "13";
  }

  /** The exceptions getLocalTime can throw. */
  datatype TimeError =
    | InvalidTimeValues(hour: string, minute: string) // the set of invalid fields is not empty
    | DateTimeParse                                   // LocalTime.parse refuses the composed text

  /**
   * The texts the composed string parses from: an hour of 1 to 19 digits, a minute
   * of exactly two digits, and values the resolver accepts for the mode.
   */
  function ReadableTime(is12hourMode: bool, hour: string, minute: string): (b: bool)
    ensures b <==> (1 <= |hour| <= MAX_WIDTH && AllDigits(hour) && |minute| == 2 && AllDigits(minute) &&
      if is12hourMode then ResolveClockHour(DigitsValue(hour), DigitsValue(minute), AM).Some?
      else ResolveHourOfDay(DigitsValue(hour), DigitsValue(minute)).Some?)
  {
    1 <= |hour| <= MAX_WIDTH && AllDigits(hour) && |minute| == 2 && AllDigits(minute) &&
    DigitsValue(minute) <= 59 &&
    if is12hourMode then DigitsValue(hour) <= 12
    else DigitsValue(hour) <= 23 || (DigitsValue(hour) == 24 && DigitsValue(minute) == 0)
  }

  /**
   * getLocalTime on the set of invalid fields, the mode, the two texts and the
   * selected half day: the set alone decides the first gate; then "%s:%s %s" or
   * "%s:%s" is parsed with "h:mm a" or "H:mm".
   */
  function TimeFromFields(invalid: set<TimeField>, is12hourMode: bool, hour: string, minute: string, ampm: AmPm): (r: Result<LocalTime, TimeError>)
    ensures invalid != {} ==> r == Failure(InvalidTimeValues(hour, minute))
    ensures invalid == {} ==> (r.Success? <==> ReadableTime(is12hourMode, hour, minute))
    ensures invalid == {} && r.Failure? ==> r.error == DateTimeParse
    ensures r.Success? ==> IsTimeOfDay(r.value) && r.value == Truncated(r.value)
    ensures invalid == {} && r.Success? ==>
      r.value.minute == DigitsValue(minute) &&
      r.value.hour == if is12hourMode then DigitsValue(hour) % 12 + (if ampm == PM then 12 else 0) else DigitsValue(hour) % 24
  {
    if invalid != {} then Failure(InvalidTimeValues(hour, minute))
    else
      ClockHourMinuteComposed(hour, minute, ampm);
      HourMinuteComposed(hour, minute);
      var parsed :=
        if is12hourMode then ParseClockHourMinute(hour + ":" + minute + " " + AmPmText(ampm))
        else ParseHourMinute(hour + ":" + minute);
      match parsed
      case None => Failure(DateTimeParse)
      case Some(t) => Success(t)
  }

  /** In 24-hour mode the hour and the two-digit minute read back as they are. */
  lemma TwentyFourHourReading(hour: int, minute: int, ampm: AmPm)
    requires 0 <= hour <= 23 && 0 <= minute <= 59
    ensures TimeFromFields({}, false, FormatInt(hour), FormatTwoDigits(minute), ampm) == Success(LocalTime(hour, minute, 0, 0))
  {
    NatDigitsShort(hour);
    NatDigitsValue(hour);
    HourMinuteComposed(FormatInt(hour), FormatTwoDigits(minute));
  }

  /**
   * In 12-hour mode a clock hour of 12 is read as 0, and PM adds 12: 12 AM is
   * midnight, 12 PM noon, and the clock hour and half day come back from the result.
   */
  lemma TwelveHourReading(clockHour: int, minute: int, ampm: AmPm)
    requires 1 <= clockHour <= 12 && 0 <= minute <= 59
    ensures var r := TimeFromFields({}, true, FormatInt(clockHour), FormatTwoDigits(minute), ampm);
      r.Success? &&
      r.value.hour == (if clockHour == 12 then 0 else clockHour) + (if ampm == PM then 12 else 0) &&
      r.value.minute == minute &&
      ClockHourOfAmPm(r.value.hour) == clockHour && AmPmOf(r.value.hour) == ampm
  {
    NatDigitsShort(clockHour);
    NatDigitsValue(clockHour);
    ClockHourMinuteComposed(FormatInt(clockHour), FormatTwoDigits(minute), ampm);
    ClockHourResolved(clockHour, minute, ampm);
  }

  /**
   * The SMART resolver lets a clock hour of 0 through: "0:mm AM" is past midnight
   * and "0:mm PM" past noon, although the 12-hour verifier refuses the text "0".
   */
  lemma ZeroClockHourReading(minute: int, ampm: AmPm)
    requires 0 <= minute <= 59
    ensures !Verify(HourVerifier(true), "0")
    ensures TimeFromFields({}, true, "0", MinuteText(minute), ampm) == Success(LocalTime(if ampm == PM then 12 else 0, minute, 0, 0))
  {
    ZeroRejected(true);
    assert DigitsValue("0") == 0;
    ClockHourMinuteComposed("0", MinuteText(minute), ampm);
  }

  /** The texts and half day the constructor writes read back as the time it was given, up to minutes. */
  lemma TimeRoundTrip(time: LocalTime, is12hourMode: bool)
    requires IsTimeOfDay(time)
    ensures TimeFromFields({}, is12hourMode, HourText(time.hour, is12hourMode), MinuteText(time.minute), InitialAmPm(time.hour, is12hourMode))
            == Success(Truncated(time))
  {
    if is12hourMode {
      ClockHourMinuteRoundTrip(time);
    } else {
      HourMinuteRoundTrip(time);
    }
  }

  /**
   * The minute verifier and the parse disagree in both directions: "5" passes the
   * verifier but "mm" wants two digits, and "00", which the constructor writes for
   * minute 0, parses although the verifier refuses it.
   */
  lemma MinuteTextQuirks(is12hourMode: bool, hour: string, ampm: AmPm)
    ensures Verify(MINUTE_VERIFIER, "5") && TimeFromFields({}, is12hourMode, hour, "5", ampm) == Failure(DateTimeParse)
    ensures !Verify(MINUTE_VERIFIER, MinuteText(0)) &&
      TimeFromFields({}, is12hourMode, HourText(0, is12hourMode), MinuteText(0), InitialAmPm(0, is12hourMode)) == Success(LocalTime(0, 0, 0, 0))
  {
    TimeVerifiersOnInts(is12hourMode, 5);
    assert FormatInt(5) == "5";
    ZeroRejected(is12hourMode);
    assert MinuteText(0) == "00";
    TimeRoundTrip(LocalTime(0, 0, 0, 0), is12hourMode);
  }

  const HOUR_CONSTRAINTS_KEY: string := "panel.time.field.hour.constraints"
  const MINUTE_CONSTRAINTS_KEY: string := "panel.time.field.minute.constraints"
  const AMPM_CONSTRAINTS_KEY: string := "panel.time.field.ampm.constraints"

  /**
   * The components the constructor adds: the two captions, the hour field, " : " and
   * the minute field; in 12-hour mode also a blank label and the AM/PM box.
   */
  function TimeLayout(is12hourMode: bool, m: string -> string): (r: seq<Placement<TimeField>>)
    ensures |r| == if is12hourMode then 7 else 5
    ensures is12hourMode <==> exists i :: 0 <= i < |r| && r[i].item == AmPmBox
    ensures forall i :: 0 <= i < |r| && r[i].item.Input? ==>
      r[i].constraints == m(if r[i].item.field == Hour then HOUR_CONSTRAINTS_KEY else MINUTE_CONSTRAINTS_KEY)
  {
    var r := [ Placement(Caption(Hour), m(HOUR_CONSTRAINTS_KEY) + ", span 2"),
               Placement(Caption(Minute), m(MINUTE_CONSTRAINTS_KEY) + ", span 2, wrap"),
               Placement(Input(Hour), m(HOUR_CONSTRAINTS_KEY)),
               Placement(Label(" : "), ""),
               Placement(Input(Minute), m(MINUTE_CONSTRAINTS_KEY)) ] +
             if is12hourMode then [Placement(Label(" "), ""), Placement(AmPmBox, m(AMPM_CONSTRAINTS_KEY))] else [];
    assert is12hourMode ==> r[6].item == AmPmBox;
    r
  }

  /**
   * A TimePanel: the mode read once from "12hour", the group of its two fields, the
   * half day the AM/PM box shows, the components it added and its MigLayout
   * constraints.
   */
  class TimePanel {
    const is12hourMode: bool
    const fields: FieldGroup<TimeField>
    var ampm: AmPm
    const layout: seq<Placement<TimeField>>
    const constraints: string

    ghost predicate Valid()
      reads this, fields
    {
      fields.Valid() && fields.verifiers == TimeVerifiers(is12hourMode)
    }

    /**
     * new TimePanel(time): the hour text is written with "H", then in 12-hour mode
     * written again with "h" and the half day selected; the minute text is "mm".
     * Writing a text from the program raises no key event, so nothing is verified.
     */
    constructor (time: LocalTime, m: string -> string, env: Option<string>)
      requires IsTimeOfDay(time)
      ensures Valid() && fresh(fields)
      ensures is12hourMode == ParseBoolean(m(TWELVE_HOUR_KEY))
      ensures fields.texts == map[Hour := HourText(time.hour, is12hourMode), Minute := MinuteText(time.minute)]
      ensures ampm == InitialAmPm(time.hour, is12hourMode)
      ensures fields.invalid == {} && fields.Quiet()
      ensures layout == TimeLayout(is12hourMode, m) && constraints == LayoutConstraints(env)
      ensures GetLocalTime() == Success(Truncated(time)) && IsValidTime()
    {
      var is12 := ParseBoolean(m(TWELVE_HOUR_KEY));
      var hourText := FormatInt(time.hour);
      var minuteText := FormatTwoDigits(time.minute);
      var selected := AM;
      if is12 {
        hourText := FormatInt(ClockHourOfAmPm(time.hour));
        selected := AmPmOf(time.hour);
      }
      var group := new FieldGroup(map[Hour := hourText, Minute := minuteText], TimeVerifiers(is12));
      is12hourMode := is12;
      fields := group;
      ampm := selected;
      layout := TimeLayout(is12, m);
      constraints := LayoutConstraints(env);
      new;
      TimeRoundTrip(time, is12);
    }

    /** getLocalTime. */
    function GetLocalTime(): (r: Result<LocalTime, TimeError>)
      reads this, fields
      requires Valid()
      ensures r == TimeFromFields(fields.invalid, is12hourMode, fields.texts[Hour], fields.texts[Minute], ampm)
      ensures r.Success? ==> r.value.second == 0 && r.value.nano == 0
    {
      TimeFromFields(fields.invalid, is12hourMode, fields.texts[Hour], fields.texts[Minute], ampm)
    }

    /**
     * isValidTime: getLocalTime does not throw, which is when no field is in the
     * invalid set and the composed text parses in the panel's mode.
     */
    function IsValidTime(): (b: bool)
      reads this, fields
      requires Valid()
      ensures b <==> fields.invalid == {} && ReadableTime(is12hourMode, fields.texts[Hour], fields.texts[Minute])
    {
      GetLocalTime().Success?
    }

    /** A key released on the hour or minute field whose text is now `text`. */
    method KeyReleased(f: TimeField, text: string)
      requires Valid()
      modifies fields
      ensures Valid() && ampm == old(ampm)
      ensures fields.texts == old(fields.texts)[f := text]
      ensures fields.invalid == Reverify(old(fields.invalid), f, Verify(TimeVerifiers(is12hourMode)[f], text))
      ensures fields.notifiers == old(fields.notifiers)
      ensures fields.fired == old(fields.fired) + fields.notifiers[f]
    {
      fields.KeyReleased(f, text);
    }

    /** Choosing an item of the AM/PM box runs no change notifier: none is registered on it. */
    method SelectAmPm(a: AmPm)
      requires Valid()
      modifies this`ampm
      ensures Valid() && ampm == a
    {
      ampm := a;
    }

    /** onChange: the notifier is added to the hour and minute fields, not to the AM/PM box. */
    method OnChange(n: Notifier)
      requires Valid()
      modifies fields
      ensures Valid() && ampm == old(ampm)
      ensures fields.notifiers == old(fields.notifiers)[Hour := old(fields.notifiers[Hour]) + [n]][Minute := old(fields.notifiers[Minute]) + [n]]
      ensures fields.texts == old(fields.texts) && fields.invalid == old(fields.invalid) && fields.fired == old(fields.fired)
    {
      fields.AddChangeNotifier(Hour, n);
      fields.AddChangeNotifier(Minute, n);
    }
  }
}
