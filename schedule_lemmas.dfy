/**
 * Properties of `parse_pdf`, proved on its specification `Schedule.Parse`: the shape of every
 * schedule it returns, how many days it holds, which inputs make it fail, and how the
 * weekday of a day is determined by the lines before it.
 */
module ScheduleLemmas {
  import opened Results
  import opened Times
  import opened Lines
  import opened Schedule

  /** Weekdays strictly increase from one day of a week to the next. */
  ghost predicate Ascending(days: seq<Day>) {
    forall i, j :: 0 <= i < j < |days| ==> Index(days[i].weekday) < Index(days[j].weekday)
  }

  /** A week holds at least one day, starts on a Monday and lists its days in weekday order. */
  ghost predicate WeekShape(w: WeekValue) {
    && w.days != []
    && w.days[0].weekday == Monday
    && Ascending(w.days)
  }

  /** Weeks are numbered consecutively from `first`, and each has the shape above. */
  ghost predicate ScheduleShape(first: int, schedule: seq<WeekValue>) {
    forall k :: 0 <= k < |schedule| ==> schedule[k].weekNumber == first + k && WeekShape(schedule[k])
  }

  /** The invariant of the parser state on every line: the shape, and the cursor past the last day. */
  ghost predicate Good(first: int, st: ParserState) {
    && Wf(st)
    && st.weekCounter == |st.schedule|
    && ScheduleShape(first, st.schedule)
    && (st.schedule != [] ==>
          WeekShape(Last(st.schedule)) &&
          Index(Last(Last(st.schedule).days).weekday) < st.weekdayNumber.value)
  }

  /** `Index` undoes indexing into `Weekdays`. */
  lemma IndexOfWeekday(c: nat)
    requires c < |Weekdays|
    ensures Index(Weekdays[c]) == c
  {
  }

  lemma AscendingAppend(days: seq<Day>, d: Day)
    requires Ascending(days)
    requires days != [] ==> Index(Last(days).weekday) < Index(d.weekday)
    ensures Ascending(days + [d])
  {
    var ds := days + [d];
    forall i, j | 0 <= i < j < |ds|
      ensures Index(ds[i].weekday) < Index(ds[j].weekday)
    {
      if j == |days| && i < |days| - 1 {
        assert Index(ds[i].weekday) < Index(days[|days| - 1].weekday);
      }
    }
  }

  /** A prefix of a well-shaped schedule is well shaped. */
  lemma ShapePrefix(first: int, schedule: seq<WeekValue>, n: nat)
    requires ScheduleShape(first, schedule) && n <= |schedule|
    ensures ScheduleShape(first, schedule[..n])
  {
  }

  /** A state whose last week is well shaped and ends on the day before the cursor is `Good`. */
  lemma GoodAfterDay(first: int, st: ParserState, prefix: seq<WeekValue>, w: WeekValue, c: nat)
    requires ScheduleShape(first, prefix)
    requires w.weekNumber == first + |prefix| && WeekShape(w) && Index(Last(w.days).weekday) == c
    requires st == ParserState(true, |prefix| + 1, Some(c + 1), prefix + [w])
    ensures Good(first, st)
  {
    assert Last(st.schedule) == w;
  }

  /**
   * Adding a time line's day to the open week keeps the invariant, when the weeks before it
   * are well shaped and the open week is either still empty with the cursor on Monday, or
   * well shaped with its last day before the cursor.
   */
  lemma AddDayGood(first: int, current: ParserState, line: string)
    requires Wf(current) && current.firstLineWithTimesFound && IsTimeLine(line)
    requires current.schedule != [] && current.weekCounter == |current.schedule|
    requires ScheduleShape(first, current.schedule[..|current.schedule| - 1])
    requires Last(current.schedule).weekNumber == first + |current.schedule| - 1
    requires var w := Last(current.schedule);
      if w.days == [] then current.weekdayNumber == Some(0)
      else WeekShape(w) && Index(Last(w.days).weekday) < current.weekdayNumber.value
    requires AddDay(current, line).Ok?
    ensures Good(first, AddDay(current, line).value)
  {
    var c := current.weekdayNumber.value;
    var day := MakeDay(c, line).value;
    var n := |current.schedule| - 1;
    var w := current.schedule[n];
    var prefix := current.schedule[..n];
    var w' := w.(days := w.days + [day]);
    IndexOfWeekday(c);
    if w.days == [] {
      assert w'.days == [day];
    } else {
      AscendingAppend(w.days, day);
    }
    assert Last(w'.days) == day;
    assert current.schedule[n := w'] == prefix + [w'];
    var next := current.(schedule := prefix + [w'], weekdayNumber := Some(c + 1));
    assert AddDay(current, line) == Ok(next);
    GoodAfterDay(first, next, prefix, w', c);
  }

  /** Every line keeps the invariant `Good`. */
  lemma StepGood(first: int, st: ParserState, line: string)
    requires Good(first, st)
    requires Step(first, st, line).Ok?
    ensures Good(first, Step(first, st, line).value)
  {
    if Classify(line) == TimeRange {
      if st.firstLineWithTimesFound {
        ShapePrefix(first, st.schedule, |st.schedule| - 1);
        AddDayGood(first, st, line);
      } else {
        var current := StartWeek(first, st);
        assert current.schedule[..|st.schedule|] == st.schedule;
        AddDayGood(first, current, line);
      }
    }
  }

  /** The invariant holds after any number of lines. */
  lemma {:induction false} RunFromGood(first: int, st: ParserState, lines: seq<string>)
    requires Good(first, st)
    requires RunFrom(first, st, lines).Ok?
    ensures Good(first, RunFrom(first, st, lines).value)
    decreases |lines|
  {
    if lines != [] {
      StepGood(first, st, lines[0]);
      RunFromGood(first, Step(first, st, lines[0]).value, lines[1..]);
    }
  }

  /** In an ascending week the k-th day falls on the k-th weekday or later. */
  lemma {:induction false} IndexAtLeastPosition(days: seq<Day>, i: nat)
    requires Ascending(days) && i < |days|
    ensures Index(days[i].weekday) >= i
  {
    if i > 0 {
      IndexAtLeastPosition(days, i - 1);
    }
  }

  /** A week in weekday order holds at most five days. */
  lemma AtMostFiveDays(days: seq<Day>)
    requires Ascending(days)
    ensures |days| <= |Weekdays|
  {
    if |days| > |Weekdays| {
      IndexAtLeastPosition(days, |Weekdays|);
    }
  }

  /**
   * Every schedule `parse_pdf` returns has weeks numbered `first`, `first + 1`, ..., each of
   * one to five days, starting on a Monday and in weekday order.
   */
  lemma ParseShape(first: int, lines: seq<string>)
    requires Parse(first, lines).Ok?
    ensures ScheduleShape(first, Parse(first, lines).value)
    ensures forall k :: 0 <= k < |Parse(first, lines).value| ==>
              1 <= |Parse(first, lines).value[k].days| <= |Weekdays|
  {
    RunFromGood(first, Init, lines);
    var s := Parse(first, lines).value;
    forall k | 0 <= k < |s|
      ensures 1 <= |s[k].days| <= |Weekdays|
    {
      AtMostFiveDays(s[k].days);
    }
  }

  /**
   * A blank line after a week that holds a day always closes that week: the branch that
   * skips a blank line after an empty week is never taken on a reachable state.
   */
  lemma BlankClosesWeek(first: int, st: ParserState)
    requires Good(first, st) && st.schedule != []
    ensures Step(first, st, "") == Ok(st.(firstLineWithTimesFound := false))
  {
    assert Classify("") == Boundary;
    assert Last(st.schedule).days != [];
  }

  /**
   * A line appends a week exactly when it is a time line and no week is open, at the start
   * or after a closing blank line; the weeks before the last are never changed again, and
   * the last one can only gain days.
   */
  lemma StepWeeks(first: int, st: ParserState, line: string)
    requires Wf(st)
    requires Step(first, st, line).Ok?
    ensures var s := st.schedule;
      var s' := Step(first, st, line).value.schedule;
      && |s'| == |s| + (if Classify(line) == TimeRange && !st.firstLineWithTimesFound then 1 else 0)
      && (forall k :: 0 <= k < |s| - 1 ==> s'[k] == s[k])
      && (s != [] ==> s'[|s| - 1].weekNumber == s[|s| - 1].weekNumber && s[|s| - 1].days <= s'[|s| - 1].days)
  {
    if Classify(line) == TimeRange {
      var current := if st.firstLineWithTimesFound then st else StartWeek(first, st);
      var n := |current.schedule| - 1;
      assert current.schedule[..|st.schedule|] == st.schedule;
    }
  }

  // ---------------------------------------------------------------------------------------
  // Composition

  /** Running over `a + b` is running over `a`, then over `b` from where `a` stopped. */
  lemma {:induction false} RunFromAppend(first: int, st: ParserState, a: seq<string>, b: seq<string>)
    requires Wf(st)
    ensures RunFrom(first, st, a + b) ==
              match RunFrom(first, st, a)
              case Err(e) => Err(e)
              case Ok(mid) => RunFrom(first, mid, b)
    decreases |a|
  {
    if a == [] {
      assert a + b == b;
    } else {
      assert (a + b)[0] == a[0] && (a + b)[1..] == a[1..] + b;
      match Step(first, st, a[0])
      case Err(_) =>
      case Ok(next) => RunFromAppend(first, next, a[1..], b);
    }
  }

  /** A line that is neither a time range, `-` nor blank can be removed without effect. */
  lemma NoiseIrrelevant(first: int, pre: seq<string>, line: string, post: seq<string>)
    requires Classify(line) == Noise
    ensures Parse(first, pre + [line] + post) == Parse(first, pre + post)
  {
    assert pre + [line] + post == pre + ([line] + post);
    RunFromAppend(first, Init, pre, [line] + post);
    RunFromAppend(first, Init, pre, post);
    match RunFrom(first, Init, pre)
    case Err(_) =>
    case Ok(mid) =>
      assert ([line] + post)[0] == line && ([line] + post)[1..] == post;
  }

  // ---------------------------------------------------------------------------------------
  // Counting days

  /** The number of days in a schedule. */
  ghost function TotalDays(schedule: seq<WeekValue>): nat {
    if schedule == [] then 0
    else TotalDays(schedule[..|schedule| - 1]) + |Last(schedule).days|
  }

  /** The number of time-range lines. */
  ghost function CountTimeLines(lines: seq<string>): nat {
    if lines == [] then 0
    else (if IsTimeLine(lines[0]) then 1 else 0) + CountTimeLines(lines[1..])
  }

  /** A time line adds exactly one day; every other line adds none. */
  lemma StepDayCount(first: int, st: ParserState, line: string)
    requires Wf(st)
    requires Step(first, st, line).Ok?
    ensures TotalDays(Step(first, st, line).value.schedule) ==
              TotalDays(st.schedule) + (if IsTimeLine(line) then 1 else 0)
  {
    if Classify(line) == TimeRange {
      StepAddsLineDay(first, st, line);
      var current := if st.firstLineWithTimesFound then st else StartWeek(first, st);
      var s := current.schedule;
      var n := |s| - 1;
      if !st.firstLineWithTimesFound {
        assert s[..n] == st.schedule;
        assert |s[n].days| == 0;
      }
    }
  }

  lemma {:induction false} RunFromDayCount(first: int, st: ParserState, lines: seq<string>)
    requires Wf(st)
    requires RunFrom(first, st, lines).Ok?
    ensures TotalDays(RunFrom(first, st, lines).value.schedule) ==
              TotalDays(st.schedule) + CountTimeLines(lines)
    decreases |lines|
  {
    if lines != [] {
      StepDayCount(first, st, lines[0]);
      RunFromDayCount(first, Step(first, st, lines[0]).value, lines[1..]);
    }
  }

  /** Every time-range line of the input becomes exactly one day of the schedule. */
  lemma ParseDayCount(first: int, lines: seq<string>)
    requires Parse(first, lines).Ok?
    ensures TotalDays(Parse(first, lines).value) == CountTimeLines(lines)
  {
    RunFromDayCount(first, Init, lines);
  }

  // ---------------------------------------------------------------------------------------
  // Failures

  /**
   * Without any time line the result is an empty schedule, unless a `-` line occurs: the
   * cursor it would advance is not yet assigned.
   */
  lemma {:induction false} NoTimeLines(first: int, lines: seq<string>)
    requires forall k :: 0 <= k < |lines| ==> !IsTimeLine(lines[k])
    ensures Parse(first, lines) == if "-" in lines then Err(CursorUnbound) else Ok([])
    decreases |lines|
  {
    if lines != [] {
      if lines[0] != "-" {
        assert Step(first, Init, lines[0]) == Ok(Init);
        assert "-" in lines <==> "-" in lines[1..];
        NoTimeLines(first, lines[1..]);
      }
    }
  }

  /** A `-` line before the first time line makes the parse fail. */
  lemma {:induction false} DashBeforeFirstTimeLine(first: int, lines: seq<string>, j: nat)
    requires j < |lines| && lines[j] == "-"
    requires forall k :: 0 <= k < j ==> !IsTimeLine(lines[k])
    ensures Parse(first, lines) == Err(CursorUnbound)
    decreases j
  {
    if j > 0 && lines[0] != "-" {
      assert Step(first, Init, lines[0]) == Ok(Init);
      DashBeforeFirstTimeLine(first, lines[1..], j - 1);
    }
  }

  /** Once the cursor is past Friday, a run of time lines fails. */
  lemma {:induction false} FullWeekRejectsTimeLines(first: int, st: ParserState, ts: seq<string>)
    requires Good(first, st) && st.firstLineWithTimesFound
    requires forall k :: 0 <= k < |ts| ==> IsTimeLine(ts[k])
    requires ts != [] && st.weekdayNumber.value + |ts| > |Weekdays|
    ensures RunFrom(first, st, ts).Err?
    decreases |ts|
  {
    assert Classify(ts[0]) == TimeRange;
    match Step(first, st, ts[0])
    case Err(_) =>
    case Ok(next) =>
      StepGood(first, st, ts[0]);
      FullWeekRejectsTimeLines(first, next, ts[1..]);
  }

  /** Six time lines in a row can never be parsed: a week has only five weekdays. */
  lemma SixTimeLinesFail(first: int, pre: seq<string>, ts: seq<string>)
    requires |ts| >= 6
    requires forall k :: 0 <= k < |ts| ==> IsTimeLine(ts[k])
    ensures Parse(first, pre + ts).Err?
  {
    RunFromAppend(first, Init, pre, ts);
    match RunFrom(first, Init, pre)
    case Err(_) =>
    case Ok(st) =>
      RunFromGood(first, Init, pre);
      if st.firstLineWithTimesFound {
        FullWeekRejectsTimeLines(first, st, ts);
      } else {
        assert Classify(ts[0]) == TimeRange;
        match Step(first, st, ts[0])
        case Err(_) =>
        case Ok(next) =>
          StepGood(first, st, ts[0]);
          FullWeekRejectsTimeLines(first, next, ts[1..]);
      }
  }

  /** A time range whose pieces are not both `hh:mm` times makes the parse fail. */
  lemma InvalidTimeLineFails(first: int, pre: seq<string>, line: string, post: seq<string>)
    requires IsTimeLine(line) && !ValidTimeLine(line)
    ensures Parse(first, pre + [line] + post).Err?
  {
    assert pre + [line] + post == pre + ([line] + post);
    RunFromAppend(first, Init, pre, [line] + post);
    match RunFrom(first, Init, pre)
    case Err(_) =>
    case Ok(st) =>
      assert ([line] + post)[0] == line;
      assert Step(first, st, line).Err?;
  }

  // ---------------------------------------------------------------------------------------
  // Which weekday a day falls on

  /** The number of weekday slots a run of lines takes: one per time line and one per `-`. */
  ghost function Slots(lines: seq<string>): nat {
    if lines == [] then 0
    else (if Classify(lines[0]) in {TimeRange, EmptyDayMarker} then 1 else 0) + Slots(lines[1..])
  }

  lemma {:induction false} SlotsAppend(a: seq<string>, b: seq<string>)
    ensures Slots(a + b) == Slots(a) + Slots(b)
    decreases |a|
  {
    if a == [] {
      assert a + b == b;
    } else {
      assert (a + b)[0] == a[0] && (a + b)[1..] == a[1..] + b;
      SlotsAppend(a[1..], b);
    }
  }

  /** Inside an open week and without a blank line, every slot moves the cursor by one. */
  lemma {:induction false} InWeekSegment(first: int, st: ParserState, mid: seq<string>)
    requires Good(first, st) && st.firstLineWithTimesFound
    requires forall k :: 0 <= k < |mid| ==> mid[k] != ""
    requires RunFrom(first, st, mid).Ok?
    ensures var r := RunFrom(first, st, mid).value;
      && r.firstLineWithTimesFound
      && |r.schedule| == |st.schedule|
      && r.weekdayNumber.value == st.weekdayNumber.value + Slots(mid)
    decreases |mid|
  {
    if mid != [] {
      assert Classify(mid[0]) != Boundary;
      var next := Step(first, st, mid[0]).value;
      StepGood(first, st, mid[0]);
      InWeekSegment(first, next, mid[1..]);
    }
  }

  /** In an open week a time line adds its day on the cursor's weekday and moves the cursor on. */
  lemma TimeLineInOpenWeek(first: int, st: ParserState, t: string)
    requires Good(first, st) && st.firstLineWithTimesFound
    requires IsTimeLine(t) && Step(first, st, t).Ok?
    ensures var next := Step(first, st, t).value;
      && Good(first, next)
      && next.firstLineWithTimesFound
      && |next.schedule| == |st.schedule|
      && Last(next.schedule).days != []
      && Index(Last(Last(next.schedule).days).weekday) == st.weekdayNumber.value
      && TimesOf(Last(Last(next.schedule).days), t)
  {
    assert Classify(t) == TimeRange;
    StepGood(first, st, t);
    StepAddsLineDay(first, st, t);
  }

  /**
   * A time line that is read without error appends to the open week (opened first when none
   * is) the day `MakeDay` builds from it, which holds the line's times.
   */
  lemma StepAddsLineDay(first: int, st: ParserState, t: string)
    requires Wf(st) && IsTimeLine(t) && Step(first, st, t).Ok?
    ensures var current := if st.firstLineWithTimesFound then st else StartWeek(first, st);
      var next := Step(first, st, t).value;
      && MakeDay(current.weekdayNumber.value, t).Ok?
      && |next.schedule| == |current.schedule|
      && next.schedule[..|next.schedule| - 1] == current.schedule[..|current.schedule| - 1]
      && Last(next.schedule).days == Last(current.schedule).days + [MakeDay(current.weekdayNumber.value, t).value]
      && TimesOf(Last(Last(next.schedule).days), t)
  {
    var current := if st.firstLineWithTimesFound then st else StartWeek(first, st);
    assert Classify(t) == TimeRange;
    assert Step(first, st, t) == AddDay(current, t);
    var day := MakeDay(current.weekdayNumber.value, t).value;
    MakeDayTimes(current.weekdayNumber.value, t);
    assert Step(first, st, t).value == AppendDay(current, day);
  }

  /**
   * Inside an open week and without a blank line, the day the last line (a time line) adds
   * falls on the slot the cursor reaches there.
   */
  lemma SegmentThenTimeLine(first: int, st: ParserState, rest: seq<string>)
    requires Good(first, st) && st.firstLineWithTimesFound
    requires rest != [] && IsTimeLine(rest[|rest| - 1])
    requires forall k :: 0 <= k < |rest| ==> rest[k] != ""
    requires RunFrom(first, st, rest).Ok?
    ensures var r := RunFrom(first, st, rest).value;
      && |r.schedule| == |st.schedule|
      && Last(r.schedule).days != []
      && Index(Last(Last(r.schedule).days).weekday) + 1 == st.weekdayNumber.value + Slots(rest)
  {
    var mid := rest[..|rest| - 1];
    var t := rest[|rest| - 1];
    assert rest == mid + [t];
    RunFromAppend(first, st, mid, [t]);
    var st2 := RunFrom(first, st, mid).value;
    InWeekSegment(first, st, mid);
    RunFromGood(first, st, mid);
    assert Step(first, st2, t).Ok?;
    var st3 := Step(first, st2, t).value;
    assert RunFrom(first, st, rest) == Ok(st3);
    TimeLineInOpenWeek(first, st2, t);
    SlotsAppend(mid, [t]);
    assert Slots([t]) == 1;
  }

  /** The first time line of a week opens it with that line's day on Monday. */
  lemma OpenWeekStep(first: int, st: ParserState, t0: string)
    requires Good(first, st) && !st.firstLineWithTimesFound
    requires IsTimeLine(t0) && Step(first, st, t0).Ok?
    ensures var next := Step(first, st, t0).value;
      && Good(first, next)
      && next.firstLineWithTimesFound
      && |next.schedule| == |st.schedule| + 1
      && next.weekdayNumber == Some(1)
      && |Last(next.schedule).days| == 1
      && TimesOf(Last(next.schedule).days[0], t0)
  {
    assert Classify(t0) == TimeRange;
    StepGood(first, st, t0);
    StepAddsLineDay(first, st, t0);
  }

  /**
   * The weekday of a day is fixed by the lines of its week: it is the number of slots from
   * the week's first time line up to and including the day's own line, counted from Monday.
   * A `-` line before the first time line of a week therefore does not shift that week.
   */
  lemma WeekdayIsSlotCount(first: int, pre: seq<string>, week: seq<string>)
    requires RunFrom(first, Init, pre).Ok? && !RunFrom(first, Init, pre).value.firstLineWithTimesFound
    requires |week| >= 2 && IsTimeLine(week[0]) && IsTimeLine(week[|week| - 1])
    requires forall k :: 0 <= k < |week| ==> week[k] != ""
    requires Parse(first, pre + week).Ok?
    ensures var s := Parse(first, pre + week).value;
      && |s| == |RunFrom(first, Init, pre).value.schedule| + 1
      && Last(s).days != []
      && Index(Last(Last(s).days).weekday) + 1 == Slots(week)
  {
    var st0 := RunFrom(first, Init, pre).value;
    RunFromGood(first, Init, pre);
    RunFromAppend(first, Init, pre, week);
    WeekFromClosedState(first, st0, week);
  }

  /** A week read from a state with no open week: it is opened by its first time line. */
  lemma WeekFromClosedState(first: int, st0: ParserState, week: seq<string>)
    requires Good(first, st0) && !st0.firstLineWithTimesFound
    requires |week| >= 2 && IsTimeLine(week[0]) && IsTimeLine(week[|week| - 1])
    requires forall k :: 0 <= k < |week| ==> week[k] != ""
    requires RunFrom(first, st0, week).Ok?
    ensures var r := RunFrom(first, st0, week).value;
      && |r.schedule| == |st0.schedule| + 1
      && Last(r.schedule).days != []
      && Index(Last(Last(r.schedule).days).weekday) + 1 == Slots(week)
  {
    var st1 := Step(first, st0, week[0]).value;
    OpenWeekStep(first, st0, week[0]);
    var rest := week[1..];
    TailKeepsLast(week);
    SegmentThenTimeLine(first, st1, rest);
    assert Slots(week) == 1 + Slots(rest);
  }

  /** Dropping the first line keeps the others, the last one included. */
  lemma TailKeepsLast(week: seq<string>)
    requires |week| >= 2
    ensures week[1..][|week| - 2] == week[|week| - 1]
    ensures forall k :: 0 <= k < |week| - 1 ==> week[1..][k] == week[k + 1]
  {
  }

  /** The Arabic-Indic time line `٠٨:٠٠ - ١٦:٠٠`. */
  const ArabicIndicLine: string :=
    "\U{0660}\U{0668}:\U{0660}\U{0660} - \U{0661}\U{0666}:\U{0660}\U{0660}"

  /** `\d` matches Arabic-Indic digits, so `٠٨:٠٠ - ١٦:٠٠` is a time line. */
  lemma ArabicIndicIsTimeLine()
    ensures IsTimeLine(ArabicIndicLine)
  {
    var line := ArabicIndicLine;
    assert DecimalZeros[1] == 0x660;
    forall c | c in {line[0], line[1], line[3], line[4], line[8], line[9], line[11], line[12]}
      ensures IsDecimalDigit(c)
    {
      DecimalDigitIff(c);
    }
    assert TimeRangeAt(line, 0);
  }

  /**
   * The Arabic-Indic time line opens a week, and then `time.fromisoformat`, which reads only
   * ASCII digits, rejects its start time: `parse_pdf` raises.
   */
  lemma ArabicIndicTimeLineFails(first: int)
    ensures Parse(first, [ArabicIndicLine]) == Err(InvalidTime(ArabicIndicLine[..5]))
  {
    var line := ArabicIndicLine;
    ArabicIndicIsTimeLine();
    assert SepAt(line, 5) && FindSep(line, 0) == 5;
    var start := line[..5];
    assert Split(line)[0] == start;
    assert !IsDigit(start[0]);
    assert MakeDay(0, line) == Err(InvalidTime(start));
    assert Step(first, Init, line) == Err(InvalidTime(start));
    assert [line][0] == line;
  }
}
