/**
 * The schedule parser: a state machine over the text lines of the schedule PDF that rebuilds
 * a list of weeks, each holding the days with their start and end times.
 */
module Schedule {
  import opened Results
  import opened Times
  import opened Lines

  datatype Weekday = Monday | Tuesday | Wednesday | Thursday | Friday

  /** `WEEKDAYS`: the five weekdays a schedule week can hold, in order. */
  const Weekdays: seq<Weekday> := [Monday, Tuesday, Wednesday, Thursday, Friday]

  /** `WEEKDAYS.index(weekday)`: the position of a weekday in `Weekdays`. */
  function Index(w: Weekday): (i: nat)
    ensures i < |Weekdays| && Weekdays[i] == w
  {
    match w
    case Monday => 0
    case Tuesday => 1
    case Wednesday => 2
    case Thursday => 3
    case Friday => 4
  }

  /** A `day` record: never changed after it is built. */
  datatype Day = Day(weekday: Weekday, startTime: Time, endTime: Time)

  /** The value held by a `week` object: its number and its days so far. */
  datatype WeekValue = WeekValue(weekNumber: int, days: seq<Day>)

  /** A `week` object; the parser appends days to the last week of the schedule in place. */
  class Week {
    const weekNumber: int
    var days: seq<Day>

    constructor (weekNumber: int)
      ensures this.weekNumber == weekNumber && days == []
    {
      this.weekNumber := weekNumber;
      days := [];
    }

    /** `add_week_day`: appends a day at the end of the week's list of days. */
    method AddWeekDay(day: Day)
      modifies this
      ensures days == old(days) + [day]
    {
      days := days + [day];
    }

    function Value(): WeekValue
      reads this
    {
      WeekValue(weekNumber, days)
    }
  }

  /** The exceptions `parse_pdf` can raise on its input. */
  datatype ParseError =
    | WeekdayOutOfRange(weekdayNumber: nat)  // `WEEKDAYS[weekdayNumber]` raises IndexError
    | CursorUnbound                          // `weekdayNumber += 1` before any assignment raises UnboundLocalError
    | InvalidTime(text: string)              // `time.fromisoformat` raises ValueError

  /** The local variables of `parse_pdf`; `weekdayNumber` is `None` while it is still unassigned. */
  datatype ParserState = ParserState(
    firstLineWithTimesFound: bool,
    weekCounter: nat,
    weekdayNumber: Option<nat>,
    schedule: seq<WeekValue>)

  const Init := ParserState(false, 0, None, [])

  /**
   * What holds of every state the loop can reach: a week is open only once one exists,
   * and the weekday cursor is assigned exactly when the first week has been started.
   */
  predicate Wf(st: ParserState) {
    && (st.firstLineWithTimesFound ==> st.schedule != [])
    && (st.weekdayNumber.Some? <==> st.schedule != [])
  }

  function Last<T>(s: seq<T>): T
    requires s != []
  {
    s[|s| - 1]
  }

  /** Appends a new, empty week numbered `firstWeekNumber + weekCounter` and resets the cursor. */
  function StartWeek(firstWeekNumber: int, st: ParserState): ParserState {
    ParserState(true, st.weekCounter + 1, Some(0),
                st.schedule + [WeekValue(firstWeekNumber + st.weekCounter, [])])
  }

  /** Both `" - "` pieces of a time line are `hh:mm` times. */
  predicate ValidTimeLine(line: string)
    requires IsTimeLine(line)
  {
    TimeLineSplits(line);
    ParseTime(Split(line)[0]).Some? && ParseTime(Split(line)[1]).Some?
  }

  /** The day starts and ends at the two `hh:mm` times written on the time line. */
  predicate TimesOf(d: Day, line: string)
    requires IsTimeLine(line)
  {
    TimeLineSplits(line);
    && ValidTime(d.startTime) && ValidTime(d.endTime)
    && FormatTime(d.startTime) == Split(line)[0]
    && FormatTime(d.endTime) == Split(line)[1]
  }

  /**
   * The day a time line describes when the cursor stands at `weekdayNumber`: the weekday is
   * looked up first, then the start and the end piece are parsed, in that order.
   */
  function MakeDay(weekdayNumber: nat, line: string): (r: Result<Day, ParseError>)
    requires IsTimeLine(line)
    ensures r.Ok? <==> weekdayNumber < |Weekdays| && ValidTimeLine(line)
    ensures r.Ok? ==> r.value.weekday == Weekdays[weekdayNumber]
  {
    if weekdayNumber >= |Weekdays| then Err(WeekdayOutOfRange(weekdayNumber))
    else
      TimeLineSplits(line);
      var dayTimes := Split(line);
      match ParseTime(dayTimes[0])
      case None => Err(InvalidTime(dayTimes[0]))
      case Some(startTime) =>
        match ParseTime(dayTimes[1])
        case None => Err(InvalidTime(dayTimes[1]))
        case Some(endTime) => Ok(Day(Weekdays[weekdayNumber], startTime, endTime))
  }

  /** A day built from a time line starts and ends at the times written on that line. */
  lemma MakeDayTimes(weekdayNumber: nat, line: string)
    requires IsTimeLine(line) && MakeDay(weekdayNumber, line).Ok?
    ensures TimesOf(MakeDay(weekdayNumber, line).value, line)
  {
    TimeLineSplits(line);
    FormatParse(Split(line)[0]);
    FormatParse(Split(line)[1]);
  }

  /** Handles a time line once a week is open: adds a day to the last week and moves the cursor. */
  function AddDay(st: ParserState, line: string): Result<ParserState, ParseError>
    requires Wf(st) && st.firstLineWithTimesFound
    requires IsTimeLine(line)
  {
    match MakeDay(st.weekdayNumber.value, line)
    case Err(e) => Err(e)
    case Ok(day) => Ok(AppendDay(st, day))
  }

  /** The day is added to the last week and the cursor moves to the next weekday. */
  function AppendDay(st: ParserState, day: Day): ParserState
    requires Wf(st) && st.firstLineWithTimesFound
  {
    var n := |st.schedule| - 1;
    var w := st.schedule[n];
    st.(schedule := st.schedule[n := w.(days := w.days + [day])], weekdayNumber := Some(st.weekdayNumber.value + 1))
  }

  /** One iteration of the loop of `parse_pdf`, on one line. */
  function Step(firstWeekNumber: int, st: ParserState, line: string): (r: Result<ParserState, ParseError>)
    requires Wf(st)
    ensures r.Ok? ==> Wf(r.value)
  {
    match Classify(line)
    case TimeRange =>
      var current := if st.firstLineWithTimesFound then st else StartWeek(firstWeekNumber, st);
      AddDay(current, line)
    case EmptyDayMarker =>
      if st.weekdayNumber.None? then Err(CursorUnbound)
      else Ok(st.(weekdayNumber := Some(st.weekdayNumber.value + 1)))
    case Boundary =>
      if st.schedule != [] && Last(st.schedule).days == [] then
        Ok(st)  // no day yet: not the end of the week
      else if st.schedule != [] then
        Ok(st.(firstLineWithTimesFound := false))
      else
        Ok(st)
    case Noise =>
      Ok(st)
  }

  /** The loop run from state `st` over the remaining `lines`; the first exception ends it. */
  function RunFrom(firstWeekNumber: int, st: ParserState, lines: seq<string>): (r: Result<ParserState, ParseError>)
    requires Wf(st)
    ensures r.Ok? ==> Wf(r.value)
    decreases |lines|
  {
    if lines == [] then Ok(st)
    else
      match Step(firstWeekNumber, st, lines[0])
      case Err(e) => Err(e)
      case Ok(next) => RunFrom(firstWeekNumber, next, lines[1..])
  }

  /** One more iteration of the loop, seen from the index of the next line. */
  lemma RunFromNext(firstWeekNumber: int, st: ParserState, lines: seq<string>, i: nat)
    requires Wf(st) && i < |lines|
    ensures RunFrom(firstWeekNumber, st, lines[i..]) ==
              match Step(firstWeekNumber, st, lines[i])
              case Err(e) => Err(e)
              case Ok(next) => RunFrom(firstWeekNumber, next, lines[i + 1..])
  {
    assert lines[i..][0] == lines[i] && lines[i..][1..] == lines[i + 1..];
  }

  /** What `parse_pdf` returns for the extracted lines, or the exception it raises. */
  function Parse(firstWeekNumber: int, lines: seq<string>): Result<seq<WeekValue>, ParseError> {
    match RunFrom(firstWeekNumber, Init, lines)
    case Err(e) => Err(e)
    case Ok(st) => Ok(st.schedule)
  }

  /** The week objects hold, in order and without sharing, exactly the given week values. */
  ghost predicate Tracks(weeks: seq<Week>, values: seq<WeekValue>)
    reads weeks
  {
    && |weeks| == |values|
    && (forall k :: 0 <= k < |weeks| ==> weeks[k].Value() == values[k])
    && (forall k, m :: 0 <= k < m < |weeks| ==> weeks[k] != weeks[m])
  }

  /**
   * The local variables of `parse_pdf`'s loop, gathered in one object so that the body of
   * the loop, `Consume`, can be stated and proved on its own. `Contents` is the value of
   * `schedule`, week by week.
   */
  class ScheduleBuilder {
    const firstWeekNumber: int
    var schedule: seq<Week>
    var firstLineWithTimesFound: bool
    var weekCounter: nat
    var weekdayNumber: Option<nat>
    ghost var Contents: seq<WeekValue>

    ghost function State(): ParserState
      reads this
    {
      ParserState(firstLineWithTimesFound, weekCounter, weekdayNumber, Contents)
    }

    ghost predicate Valid()
      reads this, schedule
    {
      Tracks(schedule, Contents) && Wf(State())
    }

    constructor (firstWeekNumber: int)
      ensures Valid() && State() == Init && this.firstWeekNumber == firstWeekNumber && schedule == []
    {
      this.firstWeekNumber := firstWeekNumber;
      schedule := [];
      firstLineWithTimesFound := false;
      weekCounter := 0;
      weekdayNumber := None;
      Contents := [];
    }

    /** The body of the loop of `parse_pdf` for one line: one `Step`, or the exception it raises. */
    method Consume(line: string) returns (err: Option<ParseError>)
      requires Valid()
      modifies this, set w | w in schedule
      ensures forall w :: w in schedule ==> w in old(schedule) || fresh(w)
      ensures match Step(firstWeekNumber, old(State()), line)
              case Err(e) => err == Some(e)
              case Ok(next) => err.None? && Valid() && State() == next
    {
      match Classify(line) {
        case TimeRange =>
          err := ConsumeTimeLine(line);
        case EmptyDayMarker =>
          err := SkipDay();
        case Boundary =>
          CloseWeek();
          err := None;
        case Noise =>
          err := None;
      }
    }

    /** A time line: a new week is opened first when none is open, then the day is added. */
    method ConsumeTimeLine(line: string) returns (err: Option<ParseError>)
      requires Valid() && IsTimeLine(line)
      modifies this, if schedule == [] then {} else {schedule[|schedule| - 1]}
      ensures forall w :: w in schedule ==> w in old(schedule) || fresh(w)
      ensures match Step(firstWeekNumber, old(State()), line)
              case Err(e) => err == Some(e)
              case Ok(next) => err.None? && Valid() && State() == next
    {
      if !firstLineWithTimesFound {
        OpenWeek();
        err := AddTimeDay(line);
      } else {
        err := AddTimeDay(line);
      }
    }

    /** A `-` line, an empty day: only the weekday cursor moves. */
    method SkipDay() returns (err: Option<ParseError>)
      requires Valid()
      modifies this`weekdayNumber
      ensures match Step(firstWeekNumber, old(State()), "-")
              case Err(e) => err == Some(e)
              case Ok(next) => err.None? && Valid() && State() == next
    {
      if weekdayNumber.None? {
        return Some(CursorUnbound);
      }
      weekdayNumber := Some(weekdayNumber.value + 1);
      err := None;
    }

    /**
     * A blank line closes the open week, unless that week has no day yet: then it is not
     * the end of the week, and the search for times goes on.
     */
    method CloseWeek()
      requires Valid()
      modifies this`firstLineWithTimesFound
      ensures Valid() && State() == Step(firstWeekNumber, old(State()), "").value
    {
      if schedule != [] && schedule[|schedule| - 1].days == [] {
      } else if schedule != [] {
        firstLineWithTimesFound := false;
      }
    }

    /** A new week: `schedule.append(week(firstWeekNumber + weekCounter))`, and the cursor is reset. */
    method OpenWeek()
      requires Valid() && !firstLineWithTimesFound
      modifies this
      ensures Valid() && State() == StartWeek(firstWeekNumber, old(State()))
      ensures |schedule| == |old(schedule)| + 1 && schedule[..|old(schedule)|] == old(schedule)
      ensures fresh(schedule[|old(schedule)|])
    {
      firstLineWithTimesFound := true;
      var w := new Week(firstWeekNumber + weekCounter);
      schedule := schedule + [w];
      Contents := Contents + [w.Value()];
      weekCounter := weekCounter + 1;
      weekdayNumber := Some(0);
    }

    /** `schedule[-1].add_week_day(day(...))` followed by `weekdayNumber += 1`. */
    method AddTimeDay(line: string) returns (err: Option<ParseError>)
      requires Valid() && firstLineWithTimesFound && IsTimeLine(line)
      modifies this`weekdayNumber, this`Contents, schedule[|schedule| - 1]
      ensures match AddDay(old(State()), line)
              case Err(e) => err == Some(e)
              case Ok(next) => err.None? && Valid() && State() == next
    {
      var c := weekdayNumber.value;
      var day := MakeDay(c, line);
      if day.Err? {
        return Some(day.error);
      }
      AddToLastWeek(day.value);
      err := None;
    }

    /** `schedule[-1].add_week_day(day)` followed by `weekdayNumber += 1`, for a day already built. */
    method AddToLastWeek(day: Day)
      requires Valid() && firstLineWithTimesFound
      modifies this`weekdayNumber, this`Contents, schedule[|schedule| - 1]
      ensures Valid() && State() == AppendDay(old(State()), day)
    {
      AppendToLastWeek(day);
      weekdayNumber := Some(weekdayNumber.value + 1);
    }

    /** `schedule[-1].add_week_day(day)`: only the last week object changes. */
    method AppendToLastWeek(day: Day)
      requires Tracks(schedule, Contents) && schedule != []
      modifies this`Contents, schedule[|schedule| - 1]
      ensures Tracks(schedule, Contents)
      ensures Contents == old(Contents)[|schedule| - 1 := Last(old(Contents)).(days := Last(old(Contents)).days + [day])]
    {
      var n := |schedule| - 1;
      schedule[n].AddWeekDay(day);
      Contents := Contents[n := Contents[n].(days := Contents[n].days + [day])];
      forall k | 0 <= k < n
        ensures schedule[k].Value() == Contents[k]
      {
        assert schedule[k] != schedule[n];
      }
    }
  }

  /** `pdfParser`: the text extraction is done by the caller, who passes the lines in. */
  class PdfParser {
    const firstWeekNumber: int

    constructor (firstWeekNumber: int)
      ensures this.firstWeekNumber == firstWeekNumber
    {
      this.firstWeekNumber := firstWeekNumber;
    }

    /**
     * `parse_pdf`. The source iterates `enumerate(lines)`, whose items are (index, text) pairs,
     * and then searches and compares each pair as if it were the text; that cannot run as
     * written. The loop below iterates over the line texts, which is what its body means.
     */
    method ParsePdf(lines: seq<string>) returns (r: Result<seq<Week>, ParseError>)
      ensures r.Err? <==> Parse(firstWeekNumber, lines).Err?
      ensures r.Err? ==> r.error == Parse(firstWeekNumber, lines).error
      ensures r.Ok? ==> Tracks(r.value, Parse(firstWeekNumber, lines).value)
    {
      var builder := new ScheduleBuilder(firstWeekNumber);
      for i := 0 to |lines|
        invariant builder.Valid() && builder.firstWeekNumber == firstWeekNumber
        invariant fresh(builder) && forall w :: w in builder.schedule ==> fresh(w)
        invariant RunFrom(firstWeekNumber, builder.State(), lines[i..]) == RunFrom(firstWeekNumber, Init, lines)
      {
        RunFromNext(firstWeekNumber, builder.State(), lines, i);
        var err := builder.Consume(lines[i]);
        if err.Some? {
          return Err(err.value);
        }
      }
      assert lines[|lines|..] == [];
      r := Ok(builder.schedule);
    }
  }
}
