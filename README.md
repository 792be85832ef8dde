# pdfScheduleToGoogleCalendar, modelled in Dafny

`pdfScheduleToGoogleCalendar.py` turns a preschool schedule into Google Calendar events. It
does this in three steps, and this project models each of them:

- **The schedule parser** (`pdfParser.parse_pdf`, with the `day` and `week` records).
  - It reads the text lines of the schedule PDF with a small state machine:
    - a line containing `DD:DD - DD:DD` is the time range of a day, where `D` is a decimal
      digit of any script, as `\d` matches in a Python `str` pattern;
    - a line `-` is an empty day;
    - an empty line closes a week;
    - every other line is ignored.
  - Weeks are numbered from `firstWeekNumber` on.
  - Each day gets the weekday under a cursor into `WEEKDAYS`.
- **The pick-up/drop-off rule resolver** (`get_pickUpDropOff_info`).
  - It picks the description of an event from the first rule whose `weeks` (`all`, `even`
    or `odd`) selects the week number.
  - The attendees come from the last rule, up to and including that one, that lists any.
- **The date filter of `write_to_calendar`.**
  - Weeks numbered before today's ISO week are skipped.
  - Every other day is dated with `date.fromisocalendar(currentYear, weekNumber, weekday)`.
  - Days before today are dropped.

Modules:

- `Results` (`results.dfy`): the `Option` and `Result` wrappers.
- `Times` (`times.dfy`): `hh:mm` times as `time.fromisoformat` reads them here.
- `Lines` (`lines.dfy`): line classification and `str.split(" - ")`.
- `Schedule` (`schedule.dfy`):
  - the records `Day` and `WeekValue`, and the class `Week`;
  - the parser as a specification (`Step`, folded over the lines by `RunFrom` and `Parse`);
  - the imperative parser: the class `ScheduleBuilder` holds the loop's variables, and
    `PdfParser.ParsePdf` runs the loop.
  - `ParsePdf` is proved to return week objects that hold exactly what `Parse` computes, or
    to fail with the same exception.
- `ScheduleLemmas` (`schedule_lemmas.dfy`): what the parser guarantees about the weeks it
  returns, and when it fails.
- `PickUpDropOff` (`rules.dfy`): the rule resolver. The loop with `break` is a method, proved
  equal to a declarative definition (`Resolve`).
- `IsoCalendar` (`isoweek.dfy`): the proleptic Gregorian calendar of Python's `datetime`.
  - Dates are day numbers (`date.toordinal`).
  - It covers `date.isocalendar`, `date.fromisocalendar` and their round trip.
- `CalendarDates` (`calendar.dfy`): the date filter.
  - It is a method (`WriteToCalendar`) over the parsed `Week` objects.
  - It is proved equal to the function `RemainingSchedule`, which takes `today` as a
    parameter.
  - Soundness, completeness, failure and ordering lemmas are proved about that function.

The source loops over `enumerate(lines)` (`pdfScheduleToGoogleCalendar.py:57`). That yields
`(index, text)` pairs, and `re.search` cannot be applied to a pair. The model loops over the
line texts, which is what the body of the loop uses.

Four behaviours of the code are easy to miss:

- **The weekday cursor starts unbound, not at Monday.** It is bound when the first week opens.
  So a `-` line before the first time line raises (`DashBeforeFirstTimeLine`).
- **Input without time lines is not always an empty schedule.** It is, unless it contains a
  `-` line (`NoTimeLines`).
- **Start and end times are not compared.** A day whose end precedes its start is accepted,
  because the code never compares them.
- **A time range written in non-ASCII digits makes the parser fail.** `\d` also matches digits such as the
  Arabic-Indic `٠٨:٠٠ - ١٦:٠٠`. Such a line is a time line, and `time.fromisoformat`, which
  reads only ASCII digits, then raises (`ArabicIndicTimeLineFails`).

Two consequences of the code follow from the proofs:

- **Every week starts on a Monday** (`ParseShape`). The cursor is reset to Monday whenever a
  week opens, so a `-` line cannot mark an empty Monday. It can only mark a day between two
  time lines.
- **New Year's Day skips the new year** (`NewYearsDaySkipsTheNewYear`).
  - The year used for dating is `today.year`, but the week limit is `today`'s ISO week.
  - On 2021-01-01 (ISO week 53 of 2020), every week numbered up to 52 is skipped.

## Model

| member | source | states |
|---|---|---|
| Times.ParseTime | pdfScheduleToGoogleCalendar.py:74-75 | a time is read only from `hh:mm` text: five characters with `:` in the middle, hour below 24 and minute below 60 |
| Times.ParseFormat | pdfScheduleToGoogleCalendar.py:74-75 | every valid time of day is read back from its `hh:mm` text |
| Times.FormatParse | pdfScheduleToGoogleCalendar.py:74-75 | every text that is accepted is the `hh:mm` text of the time read, so no other text is accepted |
| Lines.Classify | pdfScheduleToGoogleCalendar.py:59-84 | a line is a time line exactly when it contains `DD:DD - DD:DD`, with `D` any Unicode decimal digit; it is an empty-day marker exactly when it is `-`; it is a boundary exactly when it is empty; the time-line test comes first |
| Lines.Split | pdfScheduleToGoogleCalendar.py:69 | `str.split(" - ")`: the pieces rejoined with `" - "` give back the line; there is at least one piece; no piece contains `" - "`, and no piece but the last starts a `" - "` that runs into the following text, so each cut is at the leftmost separator and the pieces are unique |
| Lines.InDigitRunIff | pdfScheduleToGoogleCalendar.py:59 | walking the table of digit runs finds a code point exactly when some run holds it |
| Lines.DecimalDigitIff | pdfScheduleToGoogleCalendar.py:59 | a character matches `\d` exactly when it is one of the ten consecutive digits starting at a zero of the Unicode 15.0 category Nd |
| Lines.TimeLineSplits | pdfScheduleToGoogleCalendar.py:69-75 | a time line splits into at least two pieces, so both `dayTimes[0]` and `dayTimes[1]` exist |
| Schedule.Index | pdfScheduleToGoogleCalendar.py:14 | `WEEKDAYS.index`: the position of the weekday in the five-entry list |
| Schedule.Week.constructor | pdfScheduleToGoogleCalendar.py:25-27 | a new week has the given number and no days |
| Schedule.Week.AddWeekDay | pdfScheduleToGoogleCalendar.py:29-31 | the day is appended at the end of the week's days |
| Schedule.MakeDay | pdfScheduleToGoogleCalendar.py:71-77 | a day is built exactly when the cursor is below 5 and both pieces are valid `hh:mm` times; its weekday is `WEEKDAYS[cursor]` |
| Schedule.MakeDayTimes | pdfScheduleToGoogleCalendar.py:69-77 | a day built from a time line starts at the time written in `dayTimes[0]` and ends at the time written in `dayTimes[1]` |
| Schedule.Parse | pdfScheduleToGoogleCalendar.py:38-94 | `parse_pdf` as a value: the loop of `Step` over all lines from the initial state, returning the weeks or the first exception; `ParsePdf` and the `ScheduleLemmas` are stated about it |
| Schedule.Step | pdfScheduleToGoogleCalendar.py:59-93 | one line keeps the state well formed: an open week implies a non-empty schedule, and the cursor is bound exactly when a week exists |
| Schedule.RunFrom | pdfScheduleToGoogleCalendar.py:57-93 | the loop over any lines keeps the state well formed |
| Schedule.ScheduleBuilder.constructor | pdfScheduleToGoogleCalendar.py:49-55 | the loop starts with an empty schedule, no open week, week counter 0 and an unbound cursor |
| Schedule.ScheduleBuilder.Consume | pdfScheduleToGoogleCalendar.py:58-93 | one iteration of the loop makes exactly the transition `Step` describes, or reports the exception it raises; week objects are reused or fresh |
| Schedule.ScheduleBuilder.ConsumeTimeLine | pdfScheduleToGoogleCalendar.py:59-78 | a time line opens a week if none is open, then adds its day, as `Step` describes |
| Schedule.ScheduleBuilder.SkipDay | pdfScheduleToGoogleCalendar.py:79-83 | a `-` line advances the cursor, and fails when the cursor is still unbound |
| Schedule.ScheduleBuilder.CloseWeek | pdfScheduleToGoogleCalendar.py:84-93 | an empty line closes the open week unless that week has no day yet |
| Schedule.ScheduleBuilder.OpenWeek | pdfScheduleToGoogleCalendar.py:60-67 | a fresh week numbered `firstWeekNumber + weekCounter` is appended; the counter grows by one and the cursor is set to Monday; earlier weeks are kept |
| Schedule.ScheduleBuilder.AddTimeDay | pdfScheduleToGoogleCalendar.py:68-78 | the day is added to the last week object and the cursor advances, or the exception of `MakeDay` is reported |
| Schedule.ScheduleBuilder.AddToLastWeek | pdfScheduleToGoogleCalendar.py:71-78 | a day already built is added to the last week and the cursor advances by one, as `AppendDay` describes; the builder stays consistent with its week objects |
| Schedule.ScheduleBuilder.AppendToLastWeek | pdfScheduleToGoogleCalendar.py:71-77 | only the last week object gains the day; the other week objects are unchanged |
| Schedule.PdfParser.constructor | pdfScheduleToGoogleCalendar.py:35-37 | the parser keeps the first week number |
| Schedule.PdfParser.ParsePdf | pdfScheduleToGoogleCalendar.py:49-94 | `parse_pdf` fails exactly when `Parse` does, with the same exception; otherwise it returns distinct week objects holding exactly the weeks `Parse` computes |
| ScheduleLemmas.AddDayGood | pdfScheduleToGoogleCalendar.py:68-78 | adding a day to the open week keeps the schedule invariant `Good` |
| ScheduleLemmas.StepGood | pdfScheduleToGoogleCalendar.py:57-93 | every line keeps `Good`: weeks numbered `first+k`, each non-empty, starting on Monday with ascending weekdays, and the cursor past the last day |
| ScheduleLemmas.RunFromGood | pdfScheduleToGoogleCalendar.py:57-94 | `Good` holds after any number of lines |
| ScheduleLemmas.AtMostFiveDays | pdfScheduleToGoogleCalendar.py:14 | a week with strictly ascending weekdays has at most five days |
| ScheduleLemmas.ParseShape | pdfScheduleToGoogleCalendar.py:55-78 | the k-th returned week is numbered `firstWeekNumber + k`, starts on Monday, has strictly ascending weekdays, and holds between one and five days |
| ScheduleLemmas.BlankClosesWeek | pdfScheduleToGoogleCalendar.py:84-93 | in any reachable state with a week, an empty line only closes the open week, because no week is ever empty |
| ScheduleLemmas.StepWeeks | pdfScheduleToGoogleCalendar.py:60-67 | a week is added only by a time line while no week is open; earlier weeks are unchanged, and the last week keeps its number and its earlier days |
| ScheduleLemmas.NoiseIrrelevant | pdfScheduleToGoogleCalendar.py:57-93 | removing a line that is not a time line, `-` or empty does not change the result |
| ScheduleLemmas.StepDayCount | pdfScheduleToGoogleCalendar.py:59-93 | a time line adds exactly one day over all weeks; any other line adds none |
| ScheduleLemmas.RunFromDayCount | pdfScheduleToGoogleCalendar.py:57-93 | the days added by the loop equal the number of time lines it reads |
| ScheduleLemmas.ParseDayCount | pdfScheduleToGoogleCalendar.py:49-94 | the total number of days returned equals the number of time lines |
| ScheduleLemmas.NoTimeLines | pdfScheduleToGoogleCalendar.py:79-83 | without time lines, the result is the empty schedule, or the unbound-cursor failure when a `-` line is present |
| ScheduleLemmas.DashBeforeFirstTimeLine | pdfScheduleToGoogleCalendar.py:79-83 | a `-` line before the first time line makes the parser fail with the unbound cursor |
| ScheduleLemmas.FullWeekRejectsTimeLines | pdfScheduleToGoogleCalendar.py:73 | in an open week, time lines beyond the fifth slot fail |
| ScheduleLemmas.SixTimeLinesFail | pdfScheduleToGoogleCalendar.py:73 | six consecutive time lines always make the parser fail, whatever precedes them |
| ScheduleLemmas.InvalidTimeLineFails | pdfScheduleToGoogleCalendar.py:74-75 | a time line whose pieces are not both valid `hh:mm` times makes the parser fail, wherever it stands |
| ScheduleLemmas.InWeekSegment | pdfScheduleToGoogleCalendar.py:78-83 | inside an open week, lines without an empty line keep the week open and advance the cursor by one per time line and per `-` |
| ScheduleLemmas.StepAddsLineDay | pdfScheduleToGoogleCalendar.py:59-78 | an accepted time line appends one day to the last week (opening a week first if none is open), and that day carries the line's start and end times |
| ScheduleLemmas.TimeLineInOpenWeek | pdfScheduleToGoogleCalendar.py:69-78 | a time line in an open week adds its day on the weekday under the cursor, with the start and end times written on the line |
| ScheduleLemmas.SegmentThenTimeLine | pdfScheduleToGoogleCalendar.py:71-83 | in an open week, a run ending in a time line puts its last day at the cursor plus the slots of the run, minus one |
| ScheduleLemmas.OpenWeekStep | pdfScheduleToGoogleCalendar.py:60-77 | the first time line of a week opens it with that one day, on Monday, with the times written on the line, and leaves the cursor on Tuesday |
| ScheduleLemmas.WeekFromClosedState | pdfScheduleToGoogleCalendar.py:60-83 | a week read from a closed state ends on the weekday given by its slot count, minus one |
| ScheduleLemmas.WeekdayIsSlotCount | pdfScheduleToGoogleCalendar.py:67-83 | after any prefix, a week read up to a time line has its last day on `WEEKDAYS[slots - 1]`, where slots counts its time lines and `-` lines |
| ScheduleLemmas.ArabicIndicIsTimeLine | pdfScheduleToGoogleCalendar.py:59 | `٠٨:٠٠ - ١٦:٠٠`, written in Arabic-Indic digits, is a time line |
| ScheduleLemmas.ArabicIndicTimeLineFails | pdfScheduleToGoogleCalendar.py:59-75 | a schedule made of that line fails with the invalid start time `٠٨:٠٠`, because `time.fromisoformat` reads only ASCII digits |
| PickUpDropOff.FirstApplying | pdfScheduleToGoogleCalendar.py:284-304 | the result is the index of a rule that selects the week, with no selecting rule before it; it is none only when no rule selects the week |
| PickUpDropOff.Resolve | pdfScheduleToGoogleCalendar.py:270-305 | `get_pickUpDropOff_info` as a value: the `info` of the first selecting rule with the last attendees listed up to it, `""` with the last attendees of all rules when none selects, or the KeyError when the selected rule has no `info` |
| PickUpDropOff.GetPickUpDropOffInfo | pdfScheduleToGoogleCalendar.py:279-305 | the scan returns exactly `Resolve`: the `info` of the first selecting rule and the last attendees listed up to it, or `""` and the last attendees of all rules; a selected rule without `info` is the KeyError |
| PickUpDropOff.LastAttendeesIsLast | pdfScheduleToGoogleCalendar.py:280-283 | the attendees are those of the last rule that lists any, and empty when none does |
| PickUpDropOff.AllShadowsLaterRules | pdfScheduleToGoogleCalendar.py:287-289 | the rules after an `all` rule with `info` never affect the result |
| PickUpDropOff.FirstApplyingUnique | pdfScheduleToGoogleCalendar.py:284-304 | a selecting rule with no selecting rule before it is the first match |
| PickUpDropOff.EvenOddAlternate | pdfScheduleToGoogleCalendar.py:290-297 | an `even` rule followed by an `odd` rule gives the even rule's `info` to even weeks and the odd rule's to odd weeks |
| PickUpDropOff.FirstApplyingSkip | pdfScheduleToGoogleCalendar.py:298-304 | inserting a rule that does not select the week only shifts the index of the first match |
| PickUpDropOff.UnsupportedRuleIgnored | pdfScheduleToGoogleCalendar.py:284-304 | a rule without attendees and without a supported `weeks` value changes nothing |
| PickUpDropOff.LastAttendeesSkip | pdfScheduleToGoogleCalendar.py:282-283 | removing a rule without attendees does not change the attendees found |
| IsoCalendar.Week1Monday | pdfScheduleToGoogleCalendar.py:198-200 | the first Monday of ISO week 1 is a Monday within three days of January 1 |
| IsoCalendar.FromIsoCalendar | pdfScheduleToGoogleCalendar.py:198-200 | `date.fromisocalendar` fails exactly when the year is outside 1..9999, the week is outside 1..the weeks of that year, the weekday is outside 1..7, or the date lies after 9999-12-31; otherwise it returns the day with that ISO week date |
| IsoCalendar.WeeksBetweenMondays | pdfScheduleToGoogleCalendar.py:198-200 | the weeks of a year fill exactly the days from its week-1 Monday to the next year's |
| IsoCalendar.Week1MondayMonotone | pdfScheduleToGoogleCalendar.py:198-200 | week-1 Mondays never decrease from one year to a later one |
| IsoCalendar.OrdinalInRange | pdfScheduleToGoogleCalendar.py:183 | every valid date from 0001-01-01 to 9999-12-31 has a day number from 1 to 3652059 |
| IsoCalendar.IsoWeekDateUnique | pdfScheduleToGoogleCalendar.py:198-200 | a day has at most one ISO week date |
| IsoCalendar.IsoCalendarOf | pdfScheduleToGoogleCalendar.py:183 | `date.isocalendar`, computed from the week-1 Monday of the date's year as CPython does; `IsoCalendarOfIsWeekDate` states what it returns |
| IsoCalendar.IsoCalendarOfIsWeekDate | pdfScheduleToGoogleCalendar.py:183 | `date.isocalendar` gives a valid ISO week date of the day |
| IsoCalendar.FromIsoCalendarRoundTrip | pdfScheduleToGoogleCalendar.py:183-200 | `isocalendar` of the date that `fromisocalendar(year, week, weekday)` returns is `(year, week, weekday)` |
| IsoCalendar.IsoCalendarRoundTrip | pdfScheduleToGoogleCalendar.py:183 | for every valid date, `fromisocalendar` applied to `isocalendar` of the date gives that date back |
| CalendarDates.EmitDays | pdfScheduleToGoogleCalendar.py:197-207 | one week's days in order, each dated with `fromisocalendar`, dropping those before today and stopping at the first date refused |
| CalendarDates.EmitWeeks | pdfScheduleToGoogleCalendar.py:186-207 | the weeks in order, skipping those numbered before the current ISO week, chaining each kept week's days and stopping at the first failure |
| CalendarDates.RemainingSchedule | pdfScheduleToGoogleCalendar.py:181-207 | the filter of `write_to_calendar` for a given `today`: `EmitWeeks` with `today.year` and `today`'s ISO week |
| CalendarDates.AddWeekDays | pdfScheduleToGoogleCalendar.py:197-207 | the loop over one week's days emits exactly `EmitDays`: the dated days not before today, in order, up to the first date `fromisocalendar` refuses |
| CalendarDates.WriteToCalendar | pdfScheduleToGoogleCalendar.py:181-207 | the filter over the parsed week objects emits exactly `RemainingSchedule` for today's year and ISO week, and modifies nothing |
| CalendarDates.EmitDaysSound | pdfScheduleToGoogleCalendar.py:197-207 | every emitted day is a day of the week, dated on its ISO week date in the year, and not before today |
| CalendarDates.EmitDaysFails | pdfScheduleToGoogleCalendar.py:198-200 | one week's loop fails exactly when some day of the week has no date |
| CalendarDates.EmitDaysComplete | pdfScheduleToGoogleCalendar.py:197-207 | when nothing fails, every day of the week dated today or later is emitted |
| CalendarDates.EmitWeeksSound | pdfScheduleToGoogleCalendar.py:186-207 | every emitted day is a day of a week numbered from the current ISO week on, dated on its ISO week date, and not before today |
| CalendarDates.EmitWeeksFails | pdfScheduleToGoogleCalendar.py:186-200 | the filter fails exactly when a kept week has a day with no date, e.g. a week number beyond the year's ISO week count |
| CalendarDates.EmitWeeksComplete | pdfScheduleToGoogleCalendar.py:186-207 | when nothing fails, every day of every kept week dated today or later is emitted |
| CalendarDates.EmitDaysOrdered | pdfScheduleToGoogleCalendar.py:197-207 | the days of a week with ascending weekdays are emitted in strictly increasing date order |
| CalendarDates.EmitWeeksOrdered | pdfScheduleToGoogleCalendar.py:186-207 | for increasing week numbers, all emitted days are in strictly increasing date order |
| CalendarDates.ParsedScheduleInDateOrder | pdfScheduleToGoogleCalendar.py:181-207 | the days a parsed schedule emits are in strictly increasing date order |
| CalendarDates.AllWeeksSkipped | pdfScheduleToGoogleCalendar.py:186-193 | a schedule whose weeks all precede the current ISO week emits nothing and cannot fail |
| CalendarDates.NewYearsDaySkipsTheNewYear | pdfScheduleToGoogleCalendar.py:181-187 | on 2021-01-01 the ISO week is 53 of 2020, so a schedule whose weeks are all numbered up to 52 emits nothing |

## Left out

- PDF text extraction and UTF-8 decoding (`textract.process`): the parser takes the list of
  lines as its input.
- Logging and `pretty_print_weeks`: console output only.
- Google Calendar access: `connect` with its OAuth token file, `get_calendar_details` and
  `create_event` are network and library calls.
- `get_settings`: YAML loading. The rule list is a parameter.
- PickUpDropOff.Rule: its fields are strings and lists of strings. Other YAML values are not
  modelled. For example, `info:` with no value loads as `None`, which the program returns as
  the description; the model only distinguishes a present `info` from a missing key.
- The event-emission step of `write_to_calendar`, which looks up the rules and calls
  `create_event`. The model stops at the list of dated days the loop reaches, and so assumes
  that an event is created for every kept day. In the program the loop can stop earlier:
  - `repr(description)` (`pdfScheduleToGoogleCalendar.py:219`) raises `UnboundLocalError` on the
    first kept day whose weekday has no `pickUpDropOff` entry, unless an earlier day already
    set `description`;
  - a failing `create_event` (`pdfScheduleToGoogleCalendar.py:222`) ends the loop.

  In both cases the model lists days the program never reaches.
- `datetime.combine(...).isoformat()` and the fixed `Europe/Stockholm` time zone.
- Reading the clock: `today` is a parameter.
- The `__main__` block.
- Times.ParseTime: accepts exactly `hh:mm`. `time.fromisoformat` also accepts other ISO 8601
  time forms (such as `hh`, `hh:mm:ss` or fractions of seconds), and these are not modelled.
  They are rejected here, where the source would accept them.
- IsoCalendar.FromIsoCalendar: returns the day number of the date. The conversion back to
  year, month and day (`_ord2ymd`) is not modelled.
- The weekday cursor and the week counter are unbounded integers, as Python's are.
