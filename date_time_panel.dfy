/**
 * DateTimePanel: a DatePanel and a TimePanel side by side, built from one date-time
 * and read back as one.
 */
module DateTimePanels {
  import opened Wrappers
  import opened JavaLang
  import opened JavaTime
  import opened Panel
  import opened DatePanels
  import opened TimePanels

  /** The exception getLocalDateTime lets through: the one of whichever sub-panel threw first. */
  datatype DateTimeError = DateFailure(date: DateError) | TimeFailure(time: TimeError)

  /**
   * LocalDateTime.of(getLocalDate(), getLocalTime()): the date is read first, so
   * when both fail, the date's exception is the one that escapes.
   */
  function Combine(date: Result<LocalDate, DateError>, time: Result<LocalTime, TimeError>): (r: Result<LocalDateTime, DateTimeError>)
    ensures r.Success? <==> date.Success? && time.Success?
    ensures r.Success? ==> r.value.date == date.value && r.value.time == time.value
    ensures date.Failure? ==> r == Failure(DateFailure(date.error))
    ensures date.Success? && time.Failure? ==> r == Failure(TimeFailure(time.error))
  {
    match date
    case Failure(e) => Failure(DateFailure(e))
    case Success(d) =>
      match time
      case Failure(e) => Failure(TimeFailure(e))
      case Success(t) => Success(LocalDateTime(d, t))
  }

  const DATE_TIME_DEFAULTS: string := "gap 0 0, ins 0"
  const DATE_PANEL_CONSTRAINTS_KEY: string := "panel.date.constraints"
  const TIME_PANEL_CONSTRAINTS_KEY: string := "panel.time.constraints"

  /** DateTimePanel.getLayoutConstraints: the same joining as the sub-panels, with smaller insets. */
  function DateTimeLayoutConstraints(env: Option<string>): (r: string)
    ensures |r| >= |DATE_TIME_DEFAULTS| && r[..|DATE_TIME_DEFAULTS|] == DATE_TIME_DEFAULTS
    ensures env.None? <==> r == DATE_TIME_DEFAULTS
    ensures OverrideOf(DATE_TIME_DEFAULTS, r) == env
  {
    OverrideRecovered(DATE_TIME_DEFAULTS, env);
    JoinConstraints(DATE_TIME_DEFAULTS, env)
  }

  /** What the DateTimePanel adds: the date panel, a blank label without constraints, the time panel. */
  datatype Part = DatePart | Spacer | TimePart

  class DateTimePanel {
    const datePanel: DatePanel
    const timePanel: TimePanel
    const layout: seq<(Part, Option<string>)>
    const constraints: string

    ghost predicate Valid()
      reads this, datePanel, datePanel.fields, timePanel, timePanel.fields
    {
      datePanel.Valid() && timePanel.Valid()
    }

    constructor (datePanel: DatePanel, timePanel: TimePanel, m: string -> string, env: Option<string>)
      ensures this.datePanel == datePanel && this.timePanel == timePanel
      ensures layout == [(DatePart, Some(m(DATE_PANEL_CONSTRAINTS_KEY))), (Spacer, None), (TimePart, Some(m(TIME_PANEL_CONSTRAINTS_KEY)))]
      ensures constraints == DateTimeLayoutConstraints(env)
    {
      this.datePanel := datePanel;
      this.timePanel := timePanel;
      layout := [(DatePart, Some(m(DATE_PANEL_CONSTRAINTS_KEY))), (Spacer, None), (TimePart, Some(m(TIME_PANEL_CONSTRAINTS_KEY)))];
      constraints := DateTimeLayoutConstraints(env);
    }

    /**
     * new DateTimePanel(dateTime): the date panel gets the date part and the time
     * panel the time part; the date panel's constructor exception escapes.
     */
    static method Create(dateTime: LocalDateTime, m: string -> string, env: Option<string>) returns (r: Result<DateTimePanel, ConstructionError>)
      requires IsCalendarDate(dateTime.date) && IsTimeOfDay(dateTime.time)
      ensures r.Success? <==> DateLayout(m(ORDER_KEY), m).Success?
      ensures r.Failure? ==> r.error == DateLayout(m(ORDER_KEY), m).error
      ensures r.Success? ==> var p := r.value;
        fresh(p) && fresh(p.datePanel) && fresh(p.timePanel) && fresh(p.datePanel.fields) && fresh(p.timePanel.fields) &&
        p.datePanel.fields.Quiet() && p.timePanel.fields.Quiet() &&
        p.Valid() && p.constraints == DateTimeLayoutConstraints(env) &&
        p.datePanel.GetLocalDate() == Success(dateTime.date) &&
        p.timePanel.GetLocalTime() == Success(Truncated(dateTime.time)) &&
        p.GetLocalDateTime() == Success(LocalDateTime(dateTime.date, Truncated(dateTime.time))) &&
        p.IsValidDateTime()
      ensures r.Success? ==> var p := r.value;
        p.layout == [(DatePart, Some(m(DATE_PANEL_CONSTRAINTS_KEY))), (Spacer, None), (TimePart, Some(m(TIME_PANEL_CONSTRAINTS_KEY)))]
      ensures r.Success? ==> var d := r.value.datePanel;
        d.fields.invalid == {} &&
        d.fields.texts == map[Day := FormatInt(dateTime.date.day), Month := FormatInt(dateTime.date.month), Year := FormatInt(dateTime.date.year)] &&
        d.layout == DateLayout(m(ORDER_KEY), m).value && d.constraints == LayoutConstraints(env)
      ensures r.Success? ==> var t := r.value.timePanel;
        t.is12hourMode == ParseBoolean(m(TWELVE_HOUR_KEY)) && t.fields.invalid == {} &&
        t.fields.texts == map[Hour := HourText(dateTime.time.hour, t.is12hourMode), Minute := MinuteText(dateTime.time.minute)] &&
        t.ampm == InitialAmPm(dateTime.time.hour, t.is12hourMode) &&
        t.layout == TimeLayout(t.is12hourMode, m) && t.constraints == LayoutConstraints(env)
    {
      var date := DatePanel.Create(dateTime.date, m, env);
      if date.Failure? {
        return Failure(date.error);
      }
      var d := date.value;
      var time := new TimePanel(dateTime.time, m, env);
      var p := new DateTimePanel(d, time, m, env);
      assert d.IsValidDate() && time.IsValidTime();
      r := Success(p);
    }

    /** getLocalDateTime. */
    function GetLocalDateTime(): (r: Result<LocalDateTime, DateTimeError>)
      reads this, datePanel, datePanel.fields, timePanel, timePanel.fields
      requires Valid()
      ensures r.Success? <==> datePanel.IsValidDate() && timePanel.IsValidTime()
      ensures r.Success? ==> r.value == LocalDateTime(datePanel.GetLocalDate().value, timePanel.GetLocalTime().value)
      ensures !datePanel.IsValidDate() ==> r == Failure(DateFailure(datePanel.GetLocalDate().error))
      ensures datePanel.IsValidDate() && !timePanel.IsValidTime() ==> r == Failure(TimeFailure(timePanel.GetLocalTime().error))
    {
      Combine(datePanel.GetLocalDate(), timePanel.GetLocalTime())
    }

    /** isValidDateTime: getLocalDateTime does not throw, which is when both sub-panels are valid. */
    function IsValidDateTime(): (b: bool)
      reads this, datePanel, datePanel.fields, timePanel, timePanel.fields
      requires Valid()
      ensures b <==> datePanel.IsValidDate() && timePanel.IsValidTime()
    {
      GetLocalDateTime().Success?
    }

    /** onChange: the same notifier goes onto the date panel's fields and the time panel's fields. */
    method OnChange(n: Notifier)
      requires Valid()
      modifies datePanel.fields, timePanel.fields
      ensures Valid()
      ensures forall f :: f in datePanel.fields.notifiers <==> f in old(datePanel.fields.notifiers)
      ensures forall f :: f in datePanel.fields.notifiers ==> datePanel.fields.notifiers[f] == old(datePanel.fields.notifiers[f]) + [n]
      ensures timePanel.fields.notifiers ==
        old(timePanel.fields.notifiers)[Hour := old(timePanel.fields.notifiers[Hour]) + [n]][Minute := old(timePanel.fields.notifiers[Minute]) + [n]]
      ensures datePanel.fields.texts == old(datePanel.fields.texts) && datePanel.fields.invalid == old(datePanel.fields.invalid)
      ensures timePanel.fields.texts == old(timePanel.fields.texts) && timePanel.fields.invalid == old(timePanel.fields.invalid)
      ensures timePanel.ampm == old(timePanel.ampm)
      ensures datePanel.fields.fired == old(datePanel.fields.fired) && timePanel.fields.fired == old(timePanel.fields.fired)
    {
      datePanel.OnChange(n);
      timePanel.OnChange(n);
    }
  }

  /** When both sub-panels have invalid fields, the date's exception is reported. */
  lemma DateFailureFirst(invalidDate: set<DateField>, invalidTime: set<TimeField>, year: string, month: string, day: string,
                         is12hourMode: bool, hour: string, minute: string, ampm: AmPm)
    requires invalidDate != {} && invalidTime != {}
    ensures Combine(DateFromFields(invalidDate, year, month, day), TimeFromFields(invalidTime, is12hourMode, hour, minute, ampm))
            == Failure(DateFailure(InvalidDateValues(year, month, day)))
  {
  }

  /** The panels a date-time is split into read back as that date-time, up to minutes. */
  lemma DateTimeRoundTrip(dateTime: LocalDateTime, is12hourMode: bool)
    requires IsCalendarDate(dateTime.date) && IsTimeOfDay(dateTime.time)
    ensures Combine(
              DateFromFields({}, FormatInt(dateTime.date.year), FormatInt(dateTime.date.month), FormatInt(dateTime.date.day)),
              TimeFromFields({}, is12hourMode, HourText(dateTime.time.hour, is12hourMode), MinuteText(dateTime.time.minute),
                             InitialAmPm(dateTime.time.hour, is12hourMode)))
            == Success(LocalDateTime(dateTime.date, Truncated(dateTime.time)))
  {
    DateRoundTrip(dateTime.date);
    TimeRoundTrip(dateTime.time, is12hourMode);
  }
}
