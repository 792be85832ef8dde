/**
 * The date filter of `write_to_calendar`: which days of the parsed schedule become calendar
 * events, on which dates, and in which order, seen from the day `today`.
 */
module CalendarDates {
  import opened Results
  import opened Schedule
  import opened ScheduleLemmas
  import opened IsoCalendar

  /** One event the loop creates: its date as a day number, the week it comes from, and the day. */
  datatype Event = Event(ordinal: int, weekNumber: int, day: Day)

  /** The events created, in order, and the exception that ended the loop early, if any. */
  datatype Emission = Emission(events: seq<Event>, failure: Option<IsoError>)

  /** The ISO weekday of a schedule weekday: 1 for Monday up to 5 for Friday. */
  function IsoWeekday(w: Weekday): int {
    Index(w) + 1
  }

  /** The date `fromisocalendar` gives day `d` of week `weekNumber` of `year`, or its error. */
  function DateOf(year: int, weekNumber: int, d: Day): Result<int, IsoError> {
    FromIsoCalendar(year, weekNumber, IsoWeekday(d.weekday))
  }

  /**
   * The days of week `weekNumber` of calendar year `year` that are not before day `today`;
   * the first date `fromisocalendar` refuses ends the loop.
   */
  function EmitDays(year: int, weekNumber: int, days: seq<Day>, today: int): Emission {
    if days == [] then Emission([], None)
    else
      match DateOf(year, weekNumber, days[0])
      case Err(e) => Emission([], Some(e))
      case Ok(date) =>
        var rest := EmitDays(year, weekNumber, days[1..], today);
        if date < today then rest
        else Emission([Event(date, weekNumber, days[0])] + rest.events, rest.failure)
  }

  /** The events of the first emission, then those of the second unless the first failed. */
  function Chain(first: Emission, second: Emission): Emission {
    if first.failure.Some? then first
    else Emission(first.events + second.events, second.failure)
  }

  /** The weeks of the schedule, skipping those numbered before `currentWeek`. */
  function EmitWeeks(year: int, currentWeek: int, schedule: seq<WeekValue>, today: int): Emission {
    if schedule == [] then Emission([], None)
    else
      var rest := EmitWeeks(year, currentWeek, schedule[1..], today);
      if schedule[0].weekNumber < currentWeek then rest
      else Chain(EmitDays(year, schedule[0].weekNumber, schedule[0].days, today), rest)
  }

  /**
   * What `write_to_calendar` emits on `today`: the year is today's calendar year and the
   * week limit today's ISO week.
   */
  function RemainingSchedule(schedule: seq<WeekValue>, today: Date): Emission
    requires ValidDate(today)
  {
    EmitWeeks(today.year, IsoCalendarOf(today).week, schedule, Ordinal(today))
  }

  /** The days from index `j` on: the day at `j`, then those after it. */
  lemma EmitDaysStep(year: int, weekNumber: int, days: seq<Day>, today: int, j: nat)
    requires j < |days|
    ensures EmitDays(year, weekNumber, days[j..], today) ==
              match DateOf(year, weekNumber, days[j])
              case Err(e) => Emission([], Some(e))
              case Ok(date) =>
                var rest := EmitDays(year, weekNumber, days[j + 1..], today);
                if date < today then rest
                else Emission([Event(date, weekNumber, days[j])] + rest.events, rest.failure)
  {
    assert days[j..][0] == days[j] && days[j..][1..] == days[j + 1..];
  }

  /** The weeks from index `i` on: the week at `i`, then those after it. */
  lemma EmitWeeksStep(year: int, currentWeek: int, schedule: seq<WeekValue>, today: int, i: nat)
    requires i < |schedule|
    ensures EmitWeeks(year, currentWeek, schedule[i..], today) ==
              var rest := EmitWeeks(year, currentWeek, schedule[i + 1..], today);
              if schedule[i].weekNumber < currentWeek then rest
              else Chain(EmitDays(year, schedule[i].weekNumber, schedule[i].days, today), rest)
  {
    assert schedule[i..][0] == schedule[i] && schedule[i..][1..] == schedule[i + 1..];
  }

  /** Moving one created event from the pending emission to the created ones. */
  lemma ChainPrepend(events: seq<Event>, event: Event, rest: Emission)
    ensures Chain(Emission(events, None), Emission([event] + rest.events, rest.failure)) ==
            Chain(Emission(events + [event], None), rest)
  {
    assert events + ([event] + rest.events) == events + [event] + rest.events;
  }

  /** Moving the events of a whole week from the pending emission to the created ones. */
  lemma ChainAppend(events: seq<Event>, week: Emission, later: Emission)
    ensures Chain(Emission(events, None), Chain(week, later)) ==
              if week.failure.Some? then Emission(events + week.events, week.failure)
              else Chain(Emission(events + week.events, None), later)
  {
    assert events + (week.events + later.events) == events + week.events + later.events;
  }

  /** The inner loop of `write_to_calendar`: the events of the days of one week. */
  method AddWeekDays(year: int, weekNumber: int, days: seq<Day>, today: int)
    returns (events: seq<Event>, failure: Option<IsoError>)
    ensures Emission(events, failure) == EmitDays(year, weekNumber, days, today)
  {
    events := [];
    for j := 0 to |days|
      invariant Chain(Emission(events, None), EmitDays(year, weekNumber, days[j..], today)) ==
                EmitDays(year, weekNumber, days, today)
    {
      var dayObj := days[j];
      EmitDaysStep(year, weekNumber, days, today, j);
      var dateOfWeekDay := DateOf(year, weekNumber, dayObj);
      if dateOfWeekDay.Err? {
        return events, Some(dateOfWeekDay.error);
      }
      if dateOfWeekDay.value < today {
        continue;
      }
      var event := Event(dateOfWeekDay.value, weekNumber, dayObj);
      ChainPrepend(events, event, EmitDays(year, weekNumber, days[j + 1..], today));
      events := events + [event];
    }
    assert days[|days|..] == [];
    failure := None;
  }

  /**
   * The loops of `write_to_calendar` without the calls into the calendar service: the events
   * it would create, in order, over the week objects the parser built. It has no `modifies`
   * clause, so it changes neither the weeks nor their days.
   */
  method WriteToCalendar(schedule: seq<Week>, ghost values: seq<WeekValue>, today: Date)
    returns (events: seq<Event>, failure: Option<IsoError>)
    requires Tracks(schedule, values)
    requires ValidDate(today)
    ensures Emission(events, failure) == RemainingSchedule(values, today)
  {
    var currentYear := today.year;
    var currentWeek := IsoCalendarOf(today).week;
    var todayOrdinal := Ordinal(today);
    ghost var goal := RemainingSchedule(values, today);
    events := [];
    for i := 0 to |schedule|
      invariant Chain(Emission(events, None), EmitWeeks(currentYear, currentWeek, values[i..], todayOrdinal)) == goal
    {
      var weekObj := schedule[i];
      assert weekObj.Value() == values[i];
      EmitWeeksStep(currentYear, currentWeek, values, todayOrdinal, i);
      if weekObj.weekNumber < currentWeek {
        continue;
      }
      var weekEvents, weekFailure := AddWeekDays(currentYear, weekObj.weekNumber, weekObj.days, todayOrdinal);
      ChainAppend(events, Emission(weekEvents, weekFailure),
                  EmitWeeks(currentYear, currentWeek, values[i + 1..], todayOrdinal));
      events := events + weekEvents;
      if weekFailure.Some? {
        return events, weekFailure;
      }
    }
    assert values[|schedule|..] == [];
    failure := None;
  }

  // ---------------------------------------------------------------------------------------
  // Properties

  /** An event lies on the ISO week date of its day in `year`, and not before day `today`. */
  ghost predicate DatedFrom(e: Event, year: int, today: int) {
    && e.ordinal >= today
    && IsIsoWeekDate(e.ordinal, year, e.weekNumber, IsoWeekday(e.day.weekday))
  }

  /** `fromisocalendar` refuses the date of day `d` in week `weekNumber` of `year`. */
  ghost predicate DayFails(year: int, weekNumber: int, d: Day) {
    DateOf(year, weekNumber, d).Err?
  }

  /** Day `d` of week `weekNumber` has a date, and it is not before day `today`. */
  ghost predicate Upcoming(year: int, weekNumber: int, d: Day, today: int) {
    DateOf(year, weekNumber, d).Ok? && DateOf(year, weekNumber, d).value >= today
  }

  /** The events of one week are days of that week, on their ISO week dates, from `today` on. */
  lemma {:induction false} EmitDaysSound(year: int, weekNumber: int, days: seq<Day>, today: int)
    ensures forall e :: e in EmitDays(year, weekNumber, days, today).events ==>
              && DatedFrom(e, year, today)
              && e.weekNumber == weekNumber
              && exists j :: 0 <= j < |days| && e.day == days[j]
    decreases |days|
  {
    if days != [] {
      var tail := days[1..];
      EmitDaysSound(year, weekNumber, tail, today);
      var rest := EmitDays(year, weekNumber, tail, today);
      forall e | e in EmitDays(year, weekNumber, days, today).events
        ensures exists j :: 0 <= j < |days| && e.day == days[j]
      {
        if e in rest.events {
          var j :| 0 <= j < |tail| && e.day == tail[j];
          assert e.day == days[j + 1];
        } else {
          assert e.day == days[0];
        }
      }
    }
  }

  /** The days of a week end the loop exactly when one of them has no date. */
  lemma {:induction false} EmitDaysFails(year: int, weekNumber: int, days: seq<Day>, today: int)
    ensures EmitDays(year, weekNumber, days, today).failure.Some? <==>
              exists j :: 0 <= j < |days| && DayFails(year, weekNumber, days[j])
    decreases |days|
  {
    if days != [] {
      var tail := days[1..];
      EmitDaysFails(year, weekNumber, tail, today);
      if !DayFails(year, weekNumber, days[0]) {
        if EmitDays(year, weekNumber, tail, today).failure.Some? {
          var j :| 0 <= j < |tail| && DayFails(year, weekNumber, tail[j]);
          assert tail[j] == days[j + 1];
        }
        if exists j :: 0 <= j < |days| && DayFails(year, weekNumber, days[j]) {
          var j :| 0 <= j < |days| && DayFails(year, weekNumber, days[j]);
          assert tail[j - 1] == days[j];
        }
      }
    }
  }

  /** When the loop does not fail, every day of the week dated from `today` on has its event. */
  lemma {:induction false} EmitDaysComplete(year: int, weekNumber: int, days: seq<Day>, today: int)
    requires EmitDays(year, weekNumber, days, today).failure.None?
    ensures forall j :: 0 <= j < |days| && Upcoming(year, weekNumber, days[j], today) ==>
              Event(DateOf(year, weekNumber, days[j]).value, weekNumber, days[j])
                in EmitDays(year, weekNumber, days, today).events
    decreases |days|
  {
    if days != [] {
      var tail := days[1..];
      EmitDaysComplete(year, weekNumber, tail, today);
      forall j | 0 <= j < |days| && Upcoming(year, weekNumber, days[j], today)
        ensures Event(DateOf(year, weekNumber, days[j]).value, weekNumber, days[j])
                  in EmitDays(year, weekNumber, days, today).events
      {
        if j > 0 {
          assert tail[j - 1] == days[j];
        }
      }
    }
  }

  /** A kept week (numbered from `currentWeek` on) has a day that `fromisocalendar` refuses. */
  ghost predicate WeekFails(year: int, currentWeek: int, w: WeekValue) {
    w.weekNumber >= currentWeek && exists j :: 0 <= j < |w.days| && DayFails(year, w.weekNumber, w.days[j])
  }

  /** Day `d` is a day of week `weekNumber` of the schedule. */
  ghost predicate InSchedule(schedule: seq<WeekValue>, weekNumber: int, d: Day) {
    exists k :: 0 <= k < |schedule| && schedule[k].weekNumber == weekNumber && d in schedule[k].days
  }

  /** Every event is a day of a kept week of the schedule, on its ISO week date, from `today` on. */
  lemma {:induction false} EmitWeeksSound(year: int, currentWeek: int, schedule: seq<WeekValue>, today: int)
    ensures forall e :: e in EmitWeeks(year, currentWeek, schedule, today).events ==>
              && DatedFrom(e, year, today)
              && e.weekNumber >= currentWeek
              && InSchedule(schedule, e.weekNumber, e.day)
    decreases |schedule|
  {
    if schedule != [] {
      var w := schedule[0];
      var tail := schedule[1..];
      EmitWeeksSound(year, currentWeek, tail, today);
      EmitDaysSound(year, w.weekNumber, w.days, today);
      var rest := EmitWeeks(year, currentWeek, tail, today);
      forall e | e in EmitWeeks(year, currentWeek, schedule, today).events
        ensures InSchedule(schedule, e.weekNumber, e.day)
      {
        if e in rest.events {
          var k :| 0 <= k < |tail| && tail[k].weekNumber == e.weekNumber && e.day in tail[k].days;
          assert schedule[k + 1] == tail[k];
        } else {
          var j :| 0 <= j < |w.days| && e.day == w.days[j];
          assert schedule[0].weekNumber == e.weekNumber && e.day in schedule[0].days;
        }
      }
    }
  }

  /** The loop fails exactly when a kept week has a day without a date. */
  lemma {:induction false} EmitWeeksFails(year: int, currentWeek: int, schedule: seq<WeekValue>, today: int)
    ensures EmitWeeks(year, currentWeek, schedule, today).failure.Some? <==>
              exists k :: 0 <= k < |schedule| && WeekFails(year, currentWeek, schedule[k])
    decreases |schedule|
  {
    if schedule != [] {
      var w := schedule[0];
      var tail := schedule[1..];
      EmitWeeksFails(year, currentWeek, tail, today);
      EmitDaysFails(year, w.weekNumber, w.days, today);
      if EmitWeeks(year, currentWeek, schedule, today).failure.Some? && !WeekFails(year, currentWeek, w) {
        var k :| 0 <= k < |tail| && WeekFails(year, currentWeek, tail[k]);
        assert schedule[k + 1] == tail[k];
      }
      if exists k :: 0 <= k < |schedule| && WeekFails(year, currentWeek, schedule[k]) {
        var k :| 0 <= k < |schedule| && WeekFails(year, currentWeek, schedule[k]);
        if k > 0 {
          assert tail[k - 1] == schedule[k];
        }
      }
    }
  }

  /** When the loop does not fail, every day of a kept week dated from `today` on has its event. */
  lemma {:induction false} EmitWeeksComplete(year: int, currentWeek: int, schedule: seq<WeekValue>, today: int)
    requires EmitWeeks(year, currentWeek, schedule, today).failure.None?
    ensures forall k, j ::
              0 <= k < |schedule| && schedule[k].weekNumber >= currentWeek && 0 <= j < |schedule[k].days| &&
              Upcoming(year, schedule[k].weekNumber, schedule[k].days[j], today) ==>
                Event(DateOf(year, schedule[k].weekNumber, schedule[k].days[j]).value,
                      schedule[k].weekNumber, schedule[k].days[j])
                  in EmitWeeks(year, currentWeek, schedule, today).events
    decreases |schedule|
  {
    if schedule != [] {
      var w := schedule[0];
      var tail := schedule[1..];
      EmitWeeksComplete(year, currentWeek, tail, today);
      if w.weekNumber >= currentWeek {
        EmitDaysComplete(year, w.weekNumber, w.days, today);
      }
      forall k, j | 0 <= k < |schedule| && schedule[k].weekNumber >= currentWeek && 0 <= j < |schedule[k].days| &&
                    Upcoming(year, schedule[k].weekNumber, schedule[k].days[j], today)
        ensures Event(DateOf(year, schedule[k].weekNumber, schedule[k].days[j]).value,
                      schedule[k].weekNumber, schedule[k].days[j])
                  in EmitWeeks(year, currentWeek, schedule, today).events
      {
        if k > 0 {
          assert tail[k - 1] == schedule[k];
        }
      }
    }
  }

  /** Event dates strictly increase along the list. */
  ghost predicate Increasing(events: seq<Event>) {
    forall i, j :: 0 <= i < j < |events| ==> events[i].ordinal < events[j].ordinal
  }

  /** Week numbers strictly increase along the schedule. */
  ghost predicate WeeksIncreasing(schedule: seq<WeekValue>) {
    forall i, j :: 0 <= i < j < |schedule| ==> schedule[i].weekNumber < schedule[j].weekNumber
  }

  lemma IncreasingConcat(a: seq<Event>, b: seq<Event>)
    requires Increasing(a) && Increasing(b)
    requires forall x, y :: x in a && y in b ==> x.ordinal < y.ordinal
    ensures Increasing(a + b)
  {
    var c := a + b;
    forall i, j | 0 <= i < j < |c|
      ensures c[i].ordinal < c[j].ordinal
    {
      if i < |a| && j >= |a| {
        assert c[i] in a && c[j] in b;
      } else if i >= |a| {
        assert c[i] == b[i - |a|] && c[j] == b[j - |a|];
      }
    }
  }

  /** The events of a week in weekday order come in date order. */
  lemma {:induction false} EmitDaysOrdered(year: int, weekNumber: int, days: seq<Day>, today: int)
    requires Ascending(days)
    ensures Increasing(EmitDays(year, weekNumber, days, today).events)
    decreases |days|
  {
    if days != [] {
      var tail := days[1..];
      assert Ascending(tail) by {
        forall i, j | 0 <= i < j < |tail|
          ensures Index(tail[i].weekday) < Index(tail[j].weekday)
        {
          assert tail[i] == days[i + 1] && tail[j] == days[j + 1];
        }
      }
      EmitDaysOrdered(year, weekNumber, tail, today);
      EmitDaysSound(year, weekNumber, tail, today);
      var rest := EmitDays(year, weekNumber, tail, today);
      match DateOf(year, weekNumber, days[0])
      case Err(_) =>
      case Ok(date) =>
        if date >= today {
          var first := Event(date, weekNumber, days[0]);
          forall e | e in rest.events
            ensures first.ordinal < e.ordinal
          {
            var j :| 0 <= j < |tail| && e.day == tail[j];
            assert Index(days[0].weekday) < Index(days[j + 1].weekday);
          }
          IncreasingConcat([first], rest.events);
        }
    }
  }

  /** A schedule with increasing week numbers and weeks in weekday order gives events in date order. */
  lemma {:induction false} EmitWeeksOrdered(year: int, currentWeek: int, schedule: seq<WeekValue>, today: int)
    requires WeeksIncreasing(schedule)
    requires forall k :: 0 <= k < |schedule| ==> Ascending(schedule[k].days)
    ensures Increasing(EmitWeeks(year, currentWeek, schedule, today).events)
    decreases |schedule|
  {
    if schedule != [] {
      var w := schedule[0];
      var tail := schedule[1..];
      EmitWeeksOrdered(year, currentWeek, tail, today);
      if w.weekNumber >= currentWeek {
        var own := EmitDays(year, w.weekNumber, w.days, today);
        var rest := EmitWeeks(year, currentWeek, tail, today);
        EmitDaysOrdered(year, w.weekNumber, w.days, today);
        if own.failure.None? {
          EmitDaysSound(year, w.weekNumber, w.days, today);
          EmitWeeksSound(year, currentWeek, tail, today);
          forall x, y | x in own.events && y in rest.events
            ensures x.ordinal < y.ordinal
          {
            var k :| 0 <= k < |tail| && tail[k].weekNumber == y.weekNumber && y.day in tail[k].days;
            assert schedule[k + 1] == tail[k];
          }
          IncreasingConcat(own.events, rest.events);
        }
      }
    }
  }

  /** The events `write_to_calendar` creates for a parsed schedule come in date order. */
  lemma ParsedScheduleInDateOrder(firstWeekNumber: int, lines: seq<string>, today: Date)
    requires Parse(firstWeekNumber, lines).Ok? && ValidDate(today)
    ensures Increasing(RemainingSchedule(Parse(firstWeekNumber, lines).value, today).events)
  {
    var s := Parse(firstWeekNumber, lines).value;
    ParseShape(firstWeekNumber, lines);
    EmitWeeksOrdered(today.year, IsoCalendarOf(today).week, s, Ordinal(today));
  }

  /** When every week is numbered before the week limit, nothing is created and nothing fails. */
  lemma {:induction false} AllWeeksSkipped(year: int, currentWeek: int, schedule: seq<WeekValue>, today: int)
    requires forall k :: 0 <= k < |schedule| ==> schedule[k].weekNumber < currentWeek
    ensures EmitWeeks(year, currentWeek, schedule, today) == Emission([], None)
    decreases |schedule|
  {
    if schedule != [] {
      AllWeeksSkipped(year, currentWeek, schedule[1..], today);
    }
  }

  /**
   * The year and the week limit come from different calendars: on 2021-01-01, a Friday in
   * ISO week 53 of 2020, the limit is week 53 while dates are taken in 2021, so weeks 1 to 52
   * of 2021 are all skipped, although most of their days lie ahead.
   */
  lemma NewYearsDaySkipsTheNewYear(schedule: seq<WeekValue>)
    requires forall k :: 0 <= k < |schedule| ==> schedule[k].weekNumber <= 52
    ensures IsoCalendarOf(Date(2021, 1, 1)) == IsoDate(2020, 53, 5)
    ensures RemainingSchedule(schedule, Date(2021, 1, 1)) == Emission([], None)
  {
    var today := Date(2021, 1, 1);
    assert Ordinal(today) == 737791;
    assert Week1Monday(2021) == 737794;
    assert Week1Monday(2020) == 737423;
    AllWeeksSkipped(2021, 53, schedule, Ordinal(today));
  }
}
