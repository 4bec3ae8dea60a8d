# datetimepanel, modelled in Dafny

The Swing date/time widgets of `de.schipplock.gui.swing.datetimepanel` have three
panels:

- `DatePanel` holds day, month and year text fields.
- `TimePanel` holds hour and minute text fields, plus an AM/PM box in 12-hour mode.
- `DateTimePanel` holds one of each.

Each text field has a verifier built on `Integer.parseInt`. Every key release on a
field re-runs its verifier. The result adds the field to, or removes it from, the
panel's set of invalid fields. The release then runs the change notifiers registered
through `onChange`.

Reading a panel back has two gates:

1. `getLocalDate` and `getLocalTime` refuse to answer while the set is not empty.
2. Otherwise the texts go through `LocalDate.of`, or are composed into `"H:mm"` /
   `"h:mm a"` text and parsed.

The date panel lays its fields out in the order given by the `date.ui.fields`
message. The MigLayout constraints join fixed defaults with the optional
`MIGLAYOUT_CONSTRAINTS` environment value.

The model has these modules:

- `Wrappers`: `Option` and `Result`, standing for the values and the exceptions.
- `JavaLang`: `Integer.parseInt`, `String.valueOf(int)` and `Boolean.parseBoolean`, on ASCII text.
- `JavaTime`: `LocalDate.of` with its calendar check, the printing of `H`, `h`, `mm` and
  AM/PM, and strict parsing of `H:mm` and `h:mm a` with the SMART resolver.
- `Panel`: the verifiers, the invalid-field set as `Reverify`, and the class `FieldGroup`.
  `FieldGroup` holds a panel's field texts, its invalid set and its change notifiers. Its
  methods model `verifyTextField`, key release and listener registration. The module also
  has the constraint strings.
- `DatePanels`, `TimePanels` and `DateTimePanels`: one class per panel, the pure
  getters they are specified by, the field-order loop of the date panel, and the
  lemmas.

The message bundle lookup `m(key)` is a parameter `m: string -> string`. The
environment value is an `Option<string>`. The initial date or time is a parameter
instead of `now()`. The record of notifier runs is the sequence `FieldGroup.fired`.

Despite their names, the invalid-values exceptions cover only the first gate of the
getters:

- `getLocalDate` throws `InvalidDateValuesException` only for a non-empty invalid set.
  An impossible date fails in `LocalDate.of` with a `DateTimeException` (`DateError.DateTime`).
- `getLocalTime` throws `InvalidTimeValuesException` only for a non-empty set. A text that
  does not parse fails with a `DateTimeParseException` (`TimeError.DateTimeParse`).

The date panel has two more failure modes:

- An empty order string splits into one empty token, which is reported as an
  unexpected field. The field is named `""`.
- An order string of fewer than three accepted characters makes the first empty
  `poll` return null, and the constructor fails with a `NullPointerException`
  (`ConstructionError.NoSuchField`).

## Model

| member | source | states |
|---|---|---|
| `JavaLang.ParseInt` | src/main/java/de/schipplock/gui/swing/datetimepanel/DatePanel.java:46 | a parsed value is a 32-bit int; parsing succeeds only on text that starts with a digit or a sign followed by more text |
| `JavaLang.FormatInt` | src/main/java/de/schipplock/gui/swing/datetimepanel/DatePanel.java:74-84 | String.valueOf writes the digits of the value, with a '-' first for a negative value |
| `JavaLang.ParseFormatInt` | src/main/java/de/schipplock/gui/swing/datetimepanel/DatePanel.java:74-84 | parseInt reads back what String.valueOf wrote, and refuses the text of a value outside the 32-bit range |
| `JavaLang.ParseBoolean` | src/main/java/de/schipplock/gui/swing/datetimepanel/TimePanel.java:39 | the mode flag is true exactly when the message, with its capital letters made small, is "true" |
| `JavaLang.ParseBooleanExamples` | src/main/java/de/schipplock/gui/swing/datetimepanel/TimePanel.java:39 | "true", "TRUE", "True" and "tRuE" turn 12-hour mode on; "", "false", "yes", " true" and "true " leave it off |
| `JavaTime.DateOf` | src/main/java/de/schipplock/gui/swing/datetimepanel/DatePanel.java:151 | LocalDate.of succeeds exactly on a calendar date, and returns it |
| `JavaTime.LeapDay` | src/main/java/de/schipplock/gui/swing/datetimepanel/DatePanel.java:151 | February 29th exists exactly in leap years; February 30th never |
| `JavaTime.ClockHourOfAmPm` | src/main/java/de/schipplock/gui/swing/datetimepanel/TimePanel.java:101 | the hour printed with pattern "h" is in 1..12 |
| `JavaTime.FormatTwoDigits` | src/main/java/de/schipplock/gui/swing/datetimepanel/TimePanel.java:96 | pattern "mm" prints exactly two digits whose value is the minute |
| `JavaTime.ResolveHourOfDay` | src/main/java/de/schipplock/gui/swing/datetimepanel/TimePanel.java:123 | the 24-hour resolver accepts minute 0..59 with hour 0..23, or 24:00; the result has that minute, the hour modulo 24 (24:00 is 00:00) and no seconds |
| `JavaTime.ResolveClockHour` | src/main/java/de/schipplock/gui/swing/datetimepanel/TimePanel.java:120 | the SMART 12-hour resolver accepts exactly clock hours 0..12 with minutes 0..59; the result keeps the clock hour modulo 12, the half day and the minute, with no seconds |
| `JavaTime.ParseNumber` | src/main/java/de/schipplock/gui/swing/datetimepanel/TimePanel.java:120-123 | a number is read exactly when the text starts with a digit; it is the value of the 1 to 19 leading digits, and the rest follows them, starting with a non-digit unless 19 digits were read |
| `JavaTime.ParseHourMinute` | src/main/java/de/schipplock/gui/swing/datetimepanel/TimePanel.java:123 | a text parsed with "H:mm" gives a time of day with no seconds (which texts and which time: HourMinuteComposed) |
| `JavaTime.ParseClockHourMinute` | src/main/java/de/schipplock/gui/swing/datetimepanel/TimePanel.java:120 | a text parsed with "h:mm a" gives a time of day with no seconds (which texts and which time: ClockHourMinuteComposed) |
| `JavaTime.ClockHourResolved` | src/main/java/de/schipplock/gui/swing/datetimepanel/TimePanel.java:101-120 | resolving a clock hour and half day gives back that clock hour, half day and minute when printed |
| `JavaTime.HourMinuteComposed` | src/main/java/de/schipplock/gui/swing/datetimepanel/TimePanel.java:122-123 | "hour:minute" parses with "H:mm" exactly when the hour is 1 to 19 digits and the minute two digits, to the resolution of their values |
| `JavaTime.ClockHourMinuteComposed` | src/main/java/de/schipplock/gui/swing/datetimepanel/TimePanel.java:119-120 | the same for "hour:minute AM/PM" under "h:mm a" |
| `JavaTime.HourMinuteRoundTrip` | src/main/java/de/schipplock/gui/swing/datetimepanel/TimePanel.java:95-97 | a time printed with "H" and "mm" parses back with "H:mm" up to minutes |
| `JavaTime.ClockHourMinuteRoundTrip` | src/main/java/de/schipplock/gui/swing/datetimepanel/TimePanel.java:101-102 | a time printed with "h", "mm" and its half day parses back with "h:mm a" up to minutes |
| `Panel.Verify` | src/main/java/de/schipplock/gui/swing/datetimepanel/DatePanel.java:44-66 | a verifier accepts exactly a text parseInt reads as an int within its bounds; a parse failure is a rejection, not an exception |
| `Panel.VerifyFormatted` | src/main/java/de/schipplock/gui/swing/datetimepanel/DatePanel.java:44-66 | a verifier accepts the text of an int exactly when the int is a 32-bit int within the verifier's bounds |
| `Panel.VerifyRejectsNonDigit` | src/main/java/de/schipplock/gui/swing/datetimepanel/DatePanel.java:44-50 | a text with a non-digit after the optional sign is rejected, and no exception escapes |
| `Panel.Reverify` | src/main/java/de/schipplock/gui/swing/datetimepanel/Panel.java:57-67 | after verification the field is in the set exactly when the verifier said false, and no other member changes |
| `Panel.ReverifyIdempotent` | src/main/java/de/schipplock/gui/swing/datetimepanel/Panel.java:57-67 | verifying a field twice with the same outcome leaves the set as verifying it once |
| `Panel.ReverifyLastWins` | src/main/java/de/schipplock/gui/swing/datetimepanel/Panel.java:59-65 | only the last verification of a field decides its membership |
| `Panel.ReverifyCommutes` | src/main/java/de/schipplock/gui/swing/datetimepanel/Panel.java:61-64 | verifications of different fields do not interfere |
| `Panel.FieldGroup.constructor` | src/main/java/de/schipplock/gui/swing/datetimepanel/DatePanel.java:36-42 | a panel's fields start with their texts, an empty invalid set and no notifiers |
| `Panel.FieldGroup.VerifyTextField` | src/main/java/de/schipplock/gui/swing/datetimepanel/Panel.java:57-67 | returns the verifier's result on the current text and updates the set by Reverify, keeping the set in agreement with every verified field |
| `Panel.FieldGroup.KeyReleased` | src/main/java/de/schipplock/gui/swing/datetimepanel/Panel.java:34-55 | a key release re-verifies the field, then runs every notifier registered on it once, in order, whatever the verifier said |
| `Panel.FieldGroup.AddChangeNotifier` | src/main/java/de/schipplock/gui/swing/datetimepanel/Panel.java:48-55 | registering appends the notifier to the field's list and changes nothing else |
| `Panel.JoinConstraints` | src/main/java/de/schipplock/gui/swing/datetimepanel/Panel.java:74-85 | the result starts with the defaults, and equals them exactly when there is no override |
| `Panel.OverrideRecovered` | src/main/java/de/schipplock/gui/swing/datetimepanel/Panel.java:78-82 | the override can be read back from the joined string after ", " |
| `Panel.LayoutConstraints` | src/main/java/de/schipplock/gui/swing/datetimepanel/Panel.java:74-85 | "gap 0 0, ins 0 4 4 4" with no override, otherwise that, ", " and the override |
| `DatePanels.DateVerifiersOnInts` | src/main/java/de/schipplock/gui/swing/datetimepanel/DatePanel.java:44-66 | on the text of an int: day accepted iff 1..31, month iff 1..12, year iff at least 2000 (and a 32-bit int) |
| `DatePanels.DateVerifiersReject` | src/main/java/de/schipplock/gui/swing/datetimepanel/DatePanel.java:52-66 | "0" and "13" are no month, "1999" is no year while "2000" is, and "", "abc" and "1a" are no day |
| `DatePanels.DateFromFields` | src/main/java/de/schipplock/gui/swing/datetimepanel/DatePanel.java:146-152 | a non-empty set fails with the three texts whatever they hold; otherwise success exactly when the texts parse and form a calendar date, whose value is returned |
| `DatePanels.DateFromFormatted` | src/main/java/de/schipplock/gui/swing/datetimepanel/DatePanel.java:151 | with an empty set, the texts of three ints give their date, or LocalDate.of's exception if it is no calendar date |
| `DatePanels.DateRoundTrip` | src/main/java/de/schipplock/gui/swing/datetimepanel/DatePanel.java:74-84 | the texts written from a date read back as that date |
| `DatePanels.FebruaryThirtiethFails` | src/main/java/de/schipplock/gui/swing/datetimepanel/DatePanel.java:151 | February 30th passes all three verifiers and still fails in LocalDate.of |
| `DatePanels.RegistryGatesDate` | src/main/java/de/schipplock/gui/swing/datetimepanel/DatePanel.java:146-151 | only the set gates the getter: a pre-2000 date reads back though its year text fails the verifier, and any invalid field fails the getter |
| `DatePanels.Tokens` | src/main/java/de/schipplock/gui/swing/datetimepanel/DatePanel.java:95 | splitting with "" gives one token per character, and one empty token for the empty string |
| `DatePanels.KnownPrefix` | src/main/java/de/schipplock/gui/swing/datetimepanel/DatePanel.java:97-119 | the loop gets through exactly the leading tokens that name a field and stops at the first that does not |
| `DatePanels.ArrangeConstraints` | src/main/java/de/schipplock/gui/swing/datetimepanel/DatePanel.java:121-139 | every caption and text field is added with its own field's constraints message, possibly extended; every label is the separator, without constraints |
| `DatePanels.DateLayout` | src/main/java/de/schipplock/gui/swing/datetimepanel/DatePanel.java:95-139 | an accepted order string has at least three characters and gives eight components; an unexpected field names a token other than d, m and y; a missing field comes from an order of one or two characters |
| `DatePanels.DateLayoutOf` | src/main/java/de/schipplock/gui/swing/datetimepanel/DatePanel.java:92-139 | the queue-filling loop and the polls give exactly the layout, or exception, that DateLayout describes |
| `DatePanels.DateLayoutAccepted` | src/main/java/de/schipplock/gui/swing/datetimepanel/DatePanel.java:95-128 | the order string is accepted exactly when it has at least three characters, each d, m or y |
| `DatePanels.DateLayoutRejects` | src/main/java/de/schipplock/gui/swing/datetimepanel/DatePanel.java:97-117 | the exception names the first character that is not d, m or y |
| `DatePanels.ShortOrderRejected` | src/main/java/de/schipplock/gui/swing/datetimepanel/DatePanel.java:95-128 | one or two characters, each d, m or y, leave the third poll empty, and the constructor fails |
| `DatePanels.EmptyOrderRejected` | src/main/java/de/schipplock/gui/swing/datetimepanel/DatePanel.java:95-117 | the empty order string is refused, naming the empty token |
| `DatePanels.DateLayoutFollowsOrder` | src/main/java/de/schipplock/gui/swing/datetimepanel/DatePanel.java:97-139 | captions and fields are added in the order of the first three characters, with the fields' own constraints; only the third caption and third field get ", wrap", and separators stand between the fields |
| `DatePanels.DateLayoutArranged` | src/main/java/de/schipplock/gui/swing/datetimepanel/DatePanel.java:95-139 | an accepted order string starts with three field characters, and its layout is the arrangement of those three fields |
| `DatePanels.DateLayoutIgnoresRest` | src/main/java/de/schipplock/gui/swing/datetimepanel/DatePanel.java:121-139 | characters after the third are checked but do not change the layout |
| `DatePanels.DatePanel.constructor` | src/main/java/de/schipplock/gui/swing/datetimepanel/DatePanel.java:73-90 | the texts are the date's day, month and year; the set is empty; no notifier is registered and none has run; every field not in the set holds an int |
| `DatePanels.DatePanel.Create` | src/main/java/de/schipplock/gui/swing/datetimepanel/DatePanel.java:68-140 | construction succeeds exactly when the order string is accepted; the new panel has no notifiers, has run none, reads back its date and is valid |
| `DatePanels.DatePanel.GetLocalDate` | src/main/java/de/schipplock/gui/swing/datetimepanel/DatePanel.java:146-152 | the getter on the panel's state; as long as every text change ends in a key release on that field, parseInt never throws in it, and with an empty set only LocalDate.of can fail |
| `DatePanels.DatePanel.IsValidDate` | src/main/java/de/schipplock/gui/swing/datetimepanel/DatePanel.java:160-167 | valid exactly when the set is empty and the texts form a calendar date |
| `DatePanels.DatePanel.KeyReleased` | src/main/java/de/schipplock/gui/swing/datetimepanel/DatePanel.java:88-90 | a key release on a date field re-verifies it with its own verifier and runs its notifiers |
| `DatePanels.DatePanel.OnChange` | src/main/java/de/schipplock/gui/swing/datetimepanel/DatePanel.java:154-158 | the notifier is appended on all three fields and nothing else changes |
| `TimePanels.TimeVerifiersOnInts` | src/main/java/de/schipplock/gui/swing/datetimepanel/TimePanel.java:53-68 | on the text of an int: hour accepted iff 1..12 in 12-hour mode or 1..23 otherwise; minute iff 1..59 |
| `TimePanels.HourText` | src/main/java/de/schipplock/gui/swing/datetimepanel/TimePanel.java:95-101 | the hour text is one or two digits whose value is the clock hour in 12-hour mode and the hour otherwise |
| `TimePanels.MinuteText` | src/main/java/de/schipplock/gui/swing/datetimepanel/TimePanel.java:96-97 | the minute text is two digits whose value is the minute |
| `TimePanels.InitialAmPm` | src/main/java/de/schipplock/gui/swing/datetimepanel/TimePanel.java:102-103 | in 12-hour mode PM is selected exactly for hours from 12 on; otherwise the box keeps AM |
| `TimePanels.ReadableTime` | src/main/java/de/schipplock/gui/swing/datetimepanel/TimePanel.java:117-123 | the texts are readable exactly when the hour is 1 to 19 digits, the minute two digits, and the mode's resolver accepts their values |
| `TimePanels.ZeroClockHourReading` | src/main/java/de/schipplock/gui/swing/datetimepanel/TimePanel.java:119-120 | the 12-hour verifier refuses "0", yet "0:mm AM" parses as past midnight and "0:mm PM" as past noon |
| `TimePanels.ZeroRejected` | src/main/java/de/schipplock/gui/swing/datetimepanel/TimePanel.java:53-68 | "0" is no hour in either mode, "0" and "00" are no minute, 24 is no hour and 13 is one only on a 24-hour clock |
| `TimePanels.HalfPastOnePm` | src/main/java/de/schipplock/gui/swing/datetimepanel/TimePanel.java:95-104 | 13:30 shows "1", "30" and PM on a 12-hour clock, and "13" on a 24-hour clock |
| `TimePanels.TimeFromFields` | src/main/java/de/schipplock/gui/swing/datetimepanel/TimePanel.java:112-124 | a non-empty set fails with the texts; otherwise success exactly when the hour is 1 to 19 digits, the minute two digits, and the values resolve in the mode; the result has the minute's value and the hour's value modulo 24, or in 12-hour mode modulo 12 plus 12 for PM, and no seconds |
| `TimePanels.TwentyFourHourReading` | src/main/java/de/schipplock/gui/swing/datetimepanel/TimePanel.java:122-123 | in 24-hour mode the hour and two-digit minute read back unchanged |
| `TimePanels.TwelveHourReading` | src/main/java/de/schipplock/gui/swing/datetimepanel/TimePanel.java:117-120 | in 12-hour mode 12 reads as 0 and PM adds 12; the clock hour and half day come back from the result |
| `TimePanels.TimeRoundTrip` | src/main/java/de/schipplock/gui/swing/datetimepanel/TimePanel.java:95-104 | the texts and half day written from a time read back as that time up to minutes, in both modes |
| `TimePanels.MinuteTextQuirks` | src/main/java/de/schipplock/gui/swing/datetimepanel/TimePanel.java:62-68 | "5" passes the minute verifier but fails the parse; "00", written for minute 0, fails the verifier but parses |
| `TimePanels.TimeLayout` | src/main/java/de/schipplock/gui/swing/datetimepanel/TimePanel.java:88-105 | five components, or seven with the AM/PM box, which is present exactly in 12-hour mode; each field gets its own constraints |
| `TimePanels.TimePanel.constructor` | src/main/java/de/schipplock/gui/swing/datetimepanel/TimePanel.java:70-106 | the mode comes from "12hour"; the texts and half day are printed from the time; the set is empty; the panel reads back the time up to minutes |
| `TimePanels.TimePanel.GetLocalTime` | src/main/java/de/schipplock/gui/swing/datetimepanel/TimePanel.java:112-124 | the getter on the panel's state, in its fixed mode; a result has no seconds or nanoseconds |
| `TimePanels.TimePanel.IsValidTime` | src/main/java/de/schipplock/gui/swing/datetimepanel/TimePanel.java:131-138 | valid exactly when the set is empty and the composed text parses in the panel's mode |
| `TimePanels.TimePanel.KeyReleased` | src/main/java/de/schipplock/gui/swing/datetimepanel/TimePanel.java:83-84 | a key release re-verifies the field with the mode's verifier and runs its notifiers; the half day is untouched |
| `TimePanels.TimePanel.SelectAmPm` | src/main/java/de/schipplock/gui/swing/datetimepanel/TimePanel.java:126-129 | choosing AM or PM changes the selection only: no verifier or notifier runs |
| `TimePanels.TimePanel.OnChange` | src/main/java/de/schipplock/gui/swing/datetimepanel/TimePanel.java:126-129 | the notifier is appended on the hour and minute fields only, and nothing else changes |
| `DateTimePanels.Combine` | src/main/java/de/schipplock/gui/swing/datetimepanel/DateTimePanel.java:66-68 | success exactly when both parts succeed, combining them; a date failure is reported first |
| `DateTimePanels.DateFailureFirst` | src/main/java/de/schipplock/gui/swing/datetimepanel/DateTimePanel.java:67 | with both parts invalid, the date panel's exception is the one reported |
| `DateTimePanels.DateTimeRoundTrip` | src/main/java/de/schipplock/gui/swing/datetimepanel/DateTimePanel.java:41-42 | the date part and the time part of a date-time, written into the panels, read back as that date-time up to minutes |
| `DateTimePanels.DateTimeLayoutConstraints` | src/main/java/de/schipplock/gui/swing/datetimepanel/DateTimePanel.java:49-60 | "gap 0 0, ins 0" with no override, otherwise that, ", " and the override |
| `DateTimePanels.DateTimePanel.constructor` | src/main/java/de/schipplock/gui/swing/datetimepanel/DateTimePanel.java:38-46 | the panel holds the two sub-panels and adds them with their constraints around a blank label |
| `DateTimePanels.DateTimePanel.Create` | src/main/java/de/schipplock/gui/swing/datetimepanel/DateTimePanel.java:35-47 | the date panel gets the date part and the time panel the time part: the date texts, layout and constraints, and the time panel's mode, texts, half day, layout and constraints are stated; both invalid sets are empty, neither has a notifier or has run one; the panel adds the two sub-panels around a blank label; it reads back the date-time up to minutes |
| `DateTimePanels.DateTimePanel.GetLocalDateTime` | src/main/java/de/schipplock/gui/swing/datetimepanel/DateTimePanel.java:66-68 | success exactly when both sub-panels are valid, with their two values; an invalid date is reported first, and with a valid date the time's exception is reported |
| `DateTimePanels.DateTimePanel.IsValidDateTime` | src/main/java/de/schipplock/gui/swing/datetimepanel/DateTimePanel.java:75-82 | valid exactly when both sub-panels are valid |
| `DateTimePanels.DateTimePanel.OnChange` | src/main/java/de/schipplock/gui/swing/datetimepanel/DateTimePanel.java:70-73 | the same notifier is appended on every field of both sub-panels, so an edit in either part runs it; texts, sets and the record of runs are unchanged |

## Left out

- Rendering is not modelled. That covers panels, labels, the combo box's look, colours
  (`setForeground`), tooltips, alignment, sizes and the border (`PanelBorder.java`).
  Layout appears only as the sequence of add calls with their constraint strings.
- The demo (`DateTimePanelDemo.java`) is not part of this model.
- `Panel.m`, the `ResourceBundle` lookup, is the total function parameter `m`. A
  missing key, which throws `MissingResourceException`, is not modelled.
- `System.getenv` is an `Option<string>` parameter.
- `LocalDate.now()`, `LocalTime.now()` and `LocalDateTime.now()`, and the no-argument
  constructors that use them, are left out. The initial value is a parameter.
- Key events are reduced to `KeyReleased(field, text)`, and Swing's event dispatch is
  not modelled.
- A text change that no key release on the same field follows is not modelled: a drop
  onto the field, a middle-click paste, or a character typed and Tab pressed before the
  key comes up, so that the release reaches the next field. The agreement between the
  invalid set and the texts that `DatePanel.Valid` keeps, and `GetLocalDate`'s promise
  that parseInt does not throw, rest on every change being followed by such a release.
  After such a change the set is stale and `getLocalDate`'s parseInt can throw
  `NumberFormatException`. The model does not record what a notifier observes when it runs, only
  that it runs after the field is re-verified.
- `JavaLang.ParseInt`: digits are the ASCII digits only. Java's `parseInt` also accepts
  other Unicode decimal digits.
- `JavaTime.ParseNumber` refuses a leading sign at once. `appendValue` in strict mode
  reads a '-' and then fails later for every field used here, so the outcome is the same.
- Only the US-locale AM/PM texts are modelled. In another locale the printed text
  may be no item of the box. The model of the box still stores it, `getSelectedIndex`
  is then -1, the element read back is null, and the 12-hour getter fails on "h:mm null".
- Adding the same component twice, as for an order string like "ddm", is modelled as
  two add calls. Swing instead moves the component.
- Null dates and times are not modelled. The constructors require a calendar date
  and a time of day, which every Java `LocalDate` and `LocalTime` holds.
- Seconds and nanoseconds of the initial time are dropped by the panel, so the round
  trips hold up to minutes.
- There is no threading.
