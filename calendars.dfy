/**
 * Calendar aggregation: the events of one day (tasks by deadline, meetings
 * by start or end), merged and stably sorted by start, and the month view
 * that walks the Monday-first month grid.
 */
module Calendars {
  import opened Wrappers
  import opened Domain
  import opened Seqs
  import opened Sorting
  import opened Store
  import opened Gregorian
  import opened CalendarSchemas

  const MICROS_PER_DAY: int := 86_400_000_000

  // ---------------------------------------------------------------------
  // The day window

  /** `datetime.combine(day, time.min)`. */
  function DayStart(d: Date): Instant
    requires ValidDate(d)
  {
    (ToOrdinal(d) - 1) * MICROS_PER_DAY
  }

  /** `datetime.combine(day, time.max)`: 23:59:59.999999. */
  function DayEnd(d: Date): Instant
    requires ValidDate(d)
  {
    DayStart(d) + MICROS_PER_DAY - 1
  }

  /** Both ends of the window are inclusive. */
  predicate InWindow(t: Instant, d: Date)
    requires ValidDate(d)
  {
    DayStart(d) <= t <= DayEnd(d)
  }

  /** An instant is in the window of exactly the day it falls on. */
  lemma WindowIsDay(t: Instant, d: Date)
    requires ValidDate(d)
    ensures InWindow(t, d) <==> t / MICROS_PER_DAY == ToOrdinal(d) - 1
  {
    var o := ToOrdinal(d) - 1;
    var q := t / MICROS_PER_DAY;
    assert t == q * MICROS_PER_DAY + t % MICROS_PER_DAY;
  }

  /** No instant is in the windows of two different days. */
  lemma WindowsDisjoint(t: Instant, d1: Date, d2: Date)
    requires ValidDate(d1) && ValidDate(d2) && InWindow(t, d1) && InWindow(t, d2)
    ensures d1 == d2
  {
    WindowIsDay(t, d1);
    WindowIsDay(t, d2);
    OrdinalInjective(d1, d2);
  }

  lemma OrdinalInjective(d1: Date, d2: Date)
    requires ValidDate(d1) && ValidDate(d2) && ToOrdinal(d1) == ToOrdinal(d2)
    ensures d1 == d2
  {
    if d1.year != d2.year {
      if d1.year < d2.year { OrdinalYearBound(d1, d2); } else { OrdinalYearBound(d2, d1); }
    } else if d1.month != d2.month {
      if d1.month < d2.month { MonthOffsetBound(d1.year, d1.month, d2.month); }
      else { MonthOffsetBound(d1.year, d2.month, d1.month); }
    }
  }

  lemma {:induction false} MonthOffsetBound(y: int, m1: int, m2: int)
    requires 1 <= m1 < m2 <= 12
    ensures DaysBeforeMonth(y, m1) + DaysInMonth(y, m1) <= DaysBeforeMonth(y, m2)
    decreases m2 - m1
  {
    if m1 + 1 < m2 {
      MonthOffsetBound(y, m1 + 1, m2);
    }
  }

  lemma {:induction false} OrdinalYearBound(d1: Date, d2: Date)
    requires ValidDate(d1) && ValidDate(d2) && d1.year < d2.year
    ensures ToOrdinal(d1) < ToOrdinal(d2)
    decreases d2.year - d1.year
  {
    if d1.month < 12 {
      MonthOffsetBound(d1.year, d1.month, 12);
    }
    YearLength(d1.year);
    if d1.year + 1 < d2.year {
      OrdinalYearBound(Date(d1.year + 1, 1, 1), d2);
    }
  }

  /** Consecutive days' windows touch: the next day starts one microsecond after this one ends. */
  lemma WindowsAdjacent(d: Date)
    requires ValidDate(d) && d.year < MAX_YEAR
    ensures ValidDate(NextDay(d)) && DayStart(NextDay(d)) == DayEnd(d) + 1
  {
    NextDayOrdinal(d);
  }

  // ---------------------------------------------------------------------
  // Selection and projection

  /** The task query: same team, and a deadline inside the window (a NULL deadline never matches). */
  predicate TaskOnDay(t: Task, d: Date, teamId: int)
    requires ValidDate(d)
  {
    t.teamId == teamId && t.deadline.Some? && InWindow(t.deadline.value, d)
  }

  /** The meeting query: same team, not cancelled, and the start or the end inside the window. */
  predicate MeetingOnDay(m: Meeting, d: Date, teamId: int)
    requires ValidDate(d)
  {
    m.teamId == teamId && !m.isCancelled && (InWindow(m.start, d) || InWindow(m.end, d))
  }

  /** A task is placed at its deadline, with its status. */
  function TaskEventOf(t: Task): (r: CalendarEvent)
    requires t.deadline.Some?
    ensures r.start == t.deadline.value && r.end == t.deadline.value
    ensures r.eventType == TaskEvent && r.status == Some(t.status.Value())
    ensures r.id == t.id && r.teamId == t.teamId
  {
    CalendarEvent(t.id, t.title, t.description, t.deadline.value, t.deadline.value, TaskEvent, Some(t.status.Value()), t.teamId)
  }

  /** A meeting keeps its own range and has no status. */
  function MeetingEventOf(m: Meeting): (r: CalendarEvent)
    ensures r.start == m.start && r.end == m.end
    ensures r.eventType == MeetingEvent && r.status == None
    ensures r.id == m.id && r.teamId == m.teamId
  {
    CalendarEvent(m.id, m.title, m.description, m.start, m.end, MeetingEvent, None, m.teamId)
  }

  function SelectedTasks(tasks: seq<Task>, d: Date, teamId: int): seq<Task>
    requires ValidDate(d)
  {
    Filter(tasks, (t: Task) => TaskOnDay(t, d, teamId))
  }

  function SelectedMeetings(meetings: seq<Meeting>, d: Date, teamId: int): seq<Meeting>
    requires ValidDate(d)
  {
    Filter(meetings, (m: Meeting) => MeetingOnDay(m, d, teamId))
  }

  function TaskEventsOf(ts: seq<Task>): (r: seq<CalendarEvent>)
    requires forall i :: 0 <= i < |ts| ==> ts[i].deadline.Some?
    ensures |r| == |ts| && forall i :: 0 <= i < |ts| ==> r[i] == TaskEventOf(ts[i])
  {
    if ts == [] then [] else TaskEventsOf(ts[..|ts| - 1]) + [TaskEventOf(ts[|ts| - 1])]
  }

  function MeetingEventsOf(ms: seq<Meeting>): (r: seq<CalendarEvent>)
    ensures |r| == |ms| && forall i :: 0 <= i < |ms| ==> r[i] == MeetingEventOf(ms[i])
  {
    if ms == [] then [] else MeetingEventsOf(ms[..|ms| - 1]) + [MeetingEventOf(ms[|ms| - 1])]
  }

  /** The events of the selected tasks, in fetch order. */
  function TaskEvents(tasks: seq<Task>, d: Date, teamId: int): seq<CalendarEvent>
    requires ValidDate(d)
  {
    TaskEventsOf(SelectedTasks(tasks, d, teamId))
  }

  function MeetingEvents(meetings: seq<Meeting>, d: Date, teamId: int): seq<CalendarEvent>
    requires ValidDate(d)
  {
    MeetingEventsOf(SelectedMeetings(meetings, d, teamId))
  }

  function EventStart(e: CalendarEvent): int {
    e.start
  }

  /** `_get_events_for_date`: task events, then meeting events, stably sorted by start. */
  function DayEvents(tasks: seq<Task>, meetings: seq<Meeting>, d: Date, teamId: int): seq<CalendarEvent>
    requires ValidDate(d)
  {
    SortBy(TaskEvents(tasks, d, teamId) + MeetingEvents(meetings, d, teamId), EventStart)
  }

  /** Task events are exactly the projections of the tasks on that day. */
  lemma TaskEventsMembership(tasks: seq<Task>, d: Date, teamId: int, e: CalendarEvent)
    requires ValidDate(d)
    ensures e in TaskEvents(tasks, d, teamId) <==> exists t :: t in tasks && TaskOnDay(t, d, teamId) && e == TaskEventOf(t)
  {
    var sel := SelectedTasks(tasks, d, teamId);
    if e in TaskEvents(tasks, d, teamId) {
      var i :| 0 <= i < |sel| && TaskEventsOf(sel)[i] == e;
      assert sel[i] in tasks && TaskOnDay(sel[i], d, teamId);
    }
    if t :| t in tasks && TaskOnDay(t, d, teamId) && e == TaskEventOf(t) {
      var j :| 0 <= j < |tasks| && tasks[j] == t;
      var i :| 0 <= i < |sel| && sel[i] == t;
      assert TaskEventsOf(sel)[i] == e;
    }
  }

  lemma MeetingEventsMembership(meetings: seq<Meeting>, d: Date, teamId: int, e: CalendarEvent)
    requires ValidDate(d)
    ensures e in MeetingEvents(meetings, d, teamId) <==> exists m :: m in meetings && MeetingOnDay(m, d, teamId) && e == MeetingEventOf(m)
  {
    var sel := SelectedMeetings(meetings, d, teamId);
    if e in MeetingEvents(meetings, d, teamId) {
      var i :| 0 <= i < |sel| && MeetingEventsOf(sel)[i] == e;
      assert sel[i] in meetings && MeetingOnDay(sel[i], d, teamId);
    }
    if m :| m in meetings && MeetingOnDay(m, d, teamId) && e == MeetingEventOf(m) {
      var j :| 0 <= j < |meetings| && meetings[j] == m;
      var i :| 0 <= i < |sel| && sel[i] == m;
      assert MeetingEventsOf(sel)[i] == e;
    }
  }

  /**
   * The day's events are sorted by start, one per selected task plus one per
   * selected meeting, and an event is listed iff it projects a task or
   * meeting of that day.
   */
  lemma DayEventsFacts(tasks: seq<Task>, meetings: seq<Meeting>, d: Date, teamId: int, e: CalendarEvent)
    requires ValidDate(d)
    ensures var r := DayEvents(tasks, meetings, d, teamId);
      && SortedBy(r, EventStart)
      && |r| == |SelectedTasks(tasks, d, teamId)| + |SelectedMeetings(meetings, d, teamId)|
      && multiset(r) == multiset(TaskEvents(tasks, d, teamId) + MeetingEvents(meetings, d, teamId))
      && (e in r <==>
            ((exists t :: t in tasks && TaskOnDay(t, d, teamId) && e == TaskEventOf(t))
             || (exists m :: m in meetings && MeetingOnDay(m, d, teamId) && e == MeetingEventOf(m))))
  {
    var merged := TaskEvents(tasks, d, teamId) + MeetingEvents(meetings, d, teamId);
    SortByFacts(merged, EventStart);
    assert e in DayEvents(tasks, meetings, d, teamId) <==> e in multiset(merged);
    TaskEventsMembership(tasks, d, teamId, e);
    MeetingEventsMembership(meetings, d, teamId, e);
  }

  /**
   * The sort is stable: among events with the same start, the task events
   * come first (in the order the tasks were fetched), then the meeting events.
   */
  lemma TasksFirstOnTies(tasks: seq<Task>, meetings: seq<Meeting>, d: Date, teamId: int, k: int)
    requires ValidDate(d)
    ensures WithKey(DayEvents(tasks, meetings, d, teamId), EventStart, k)
         == WithKey(TaskEvents(tasks, d, teamId), EventStart, k) + WithKey(MeetingEvents(meetings, d, teamId), EventStart, k)
  {
    var ts := TaskEvents(tasks, d, teamId);
    var ms := MeetingEvents(meetings, d, teamId);
    SortByStable(ts + ms, EventStart, k);
    WithKeyConcat(ts, ms, EventStart, k);
  }

  /** A meeting running from the day before to the day after is not on the day. */
  lemma SpanningMeetingExcluded(m: Meeting, d: Date, teamId: int)
    requires ValidDate(d) && m.start < DayStart(d) && m.end > DayEnd(d)
    ensures !MeetingOnDay(m, d, teamId)
  {
  }

  /** A task without a deadline is on no day. */
  lemma NoDeadlineNoEvent(tasks: seq<Task>, t: Task, d: Date, teamId: int)
    requires ValidDate(d) && t.deadline.None?
    ensures !TaskOnDay(t, d, teamId)
  {
  }

  /** On 2024-01-01 a meeting at 10:00-11:00 is listed before a task due at 12:00. */
  lemma ExampleDay()
    ensures var day := Date(2024, 1, 1);
            var base := 738_885 * MICROS_PER_DAY;
            var hour := 3_600_000_000;
            var task := Task(5, "report", None, Some(base + 12 * hour), Open, 1, None, 1);
            var meeting := Meeting(9, "standup", None, base + 10 * hour, base + 11 * hour, false, 1, 1);
            DayEvents([task], [meeting], day, 1) == [MeetingEventOf(meeting), TaskEventOf(task)]
  {
    var day := Date(2024, 1, 1);
    KnownMonday();
    var base := 738_885 * MICROS_PER_DAY;
    var hour := 3_600_000_000;
    var task := Task(5, "report", None, Some(base + 12 * hour), Open, 1, None, 1);
    var meeting := Meeting(9, "standup", None, base + 10 * hour, base + 11 * hour, false, 1, 1);
    assert DayStart(day) == base;
    assert SelectedTasks([task], day, 1) == [task];
    assert SelectedMeetings([meeting], day, 1) == [meeting];
    assert TaskEvents([task], day, 1) == [TaskEventOf(task)];
    assert MeetingEvents([meeting], day, 1) == [MeetingEventOf(meeting)];
    var merged := [TaskEventOf(task), MeetingEventOf(meeting)];
    assert merged[1..] == [MeetingEventOf(meeting)];
    assert SortBy(merged[1..], EventStart) == [MeetingEventOf(meeting)];
    assert [MeetingEventOf(meeting)][1..] == [];
    assert Insert(TaskEventOf(task), [MeetingEventOf(meeting)], EventStart) == [MeetingEventOf(meeting), TaskEventOf(task)];
  }

  // ---------------------------------------------------------------------
  // The service

  datatype CalendarError =
    | IllegalMonth(month: int)   // calendar.IllegalMonthError from monthcalendar
    | YearOutOfRange(year: int)  // ValueError from date(year, month, day)

  function Clamp(x: int, n: nat): nat {
    if x < 0 then 0 else if x > n then n else x
  }

  /** The first loop of `_get_events_for_date`: one task event per selected task, in order. */
  method ProjectTasks(tasks: seq<Task>) returns (events: seq<CalendarEvent>)
    requires forall i :: 0 <= i < |tasks| ==> tasks[i].deadline.Some?
    ensures events == TaskEventsOf(tasks)
  {
    events := [];
    var i := 0;
    while i < |tasks|
      invariant 0 <= i <= |tasks|
      invariant events == TaskEventsOf(tasks[..i])
    {
      assert tasks[..i + 1][..i] == tasks[..i];
      events := events + [TaskEventOf(tasks[i])];
      i := i + 1;
    }
    assert tasks[..|tasks|] == tasks;
  }

  /** The second loop: one meeting event per selected meeting, in order. */
  method ProjectMeetings(meetings: seq<Meeting>) returns (events: seq<CalendarEvent>)
    ensures events == MeetingEventsOf(meetings)
  {
    events := [];
    var j := 0;
    while j < |meetings|
      invariant 0 <= j <= |meetings|
      invariant events == MeetingEventsOf(meetings[..j])
    {
      assert meetings[..j + 1][..j] == meetings[..j];
      events := events + [MeetingEventOf(meetings[j])];
      j := j + 1;
    }
    assert meetings[..|meetings|] == meetings;
  }

  class CalendarService {
    const session: Session

    constructor (session: Session)
      ensures this.session == session
    {
      this.session := session;
    }

    /** `_get_events_for_date`: run both queries, project them in two loops, then sort. */
    method EventsForDate(d: Date, teamId: int) returns (events: seq<CalendarEvent>)
      requires ValidDate(d)
      ensures events == DayEvents(session.tasks, session.meetings, d, teamId)
    {
      var taskEvents := ProjectTasks(SelectedTasks(session.tasks, d, teamId));
      var meetingEvents := ProjectMeetings(SelectedMeetings(session.meetings, d, teamId));
      events := SortBy(taskEvents + meetingEvents, EventStart);
    }

    /** `get_day_view`. */
    method GetDayView(d: Date, teamId: int) returns (view: DayView)
      requires ValidDate(d)
      ensures view.date == d && view.events == DayEvents(session.tasks, session.meetings, d, teamId)
    {
      var events := EventsForDate(d, teamId);
      view := DayView(d, events);
    }

    /** `days` holds the day views of days 1..|days| of the month, in order. */
    ghost predicate MonthPrefix(days: seq<DayView>, year: int, month: int, teamId: int)
      requires MIN_YEAR <= year <= MAX_YEAR && 1 <= month <= 12
      reads session
    {
      && |days| <= DaysInMonth(year, month)
      && forall i :: 0 <= i < |days| ==>
           days[i] == DayView(Date(year, month, i + 1), DayEvents(session.tasks, session.meetings, Date(year, month, i + 1), teamId))
    }

    /** The inner loop of `get_month_view`: a day view for each non-zero day of week `w`. */
    method WeekDays(year: int, month: int, teamId: int, w: nat, days: seq<DayView>) returns (days': seq<DayView>)
      requires MIN_YEAR <= year <= MAX_YEAR && 1 <= month <= 12
      requires w < |MonthCalendar(year, month)|
      requires |days| == Clamp(7 * w - Weekday(Date(year, month, 1)), DaysInMonth(year, month))
      requires MonthPrefix(days, year, month, teamId)
      ensures |days'| == Clamp(7 * (w + 1) - Weekday(Date(year, month, 1)), DaysInMonth(year, month))
      ensures MonthPrefix(days', year, month, teamId)
    {
      ghost var lead := Weekday(Date(year, month, 1));
      ghost var n := DaysInMonth(year, month);
      MonthCalendarCell(year, month, w, 0);
      var week := MonthCalendar(year, month)[w];
      days' := days;
      var c := 0;
      while c < |week|
        invariant 0 <= c <= |week| == 7
        invariant |days'| == Clamp(7 * w + c - lead, n)
        invariant MonthPrefix(days', year, month, teamId)
      {
        MonthCalendarCell(year, month, w, c);
        var day := week[c];
        if day != 0 {
          var date := Date(year, month, day);
          var events := EventsForDate(date, teamId);
          days' := days' + [DayView(date, events)];
        }
        c := c + 1;
      }
    }

    /**
     * `get_month_view`: one day view per day of the month, in order, each
     * holding the events `get_day_view` gives for that date.
     */
    method GetMonthView(year: int, month: int, teamId: int) returns (r: Result<MonthView, CalendarError>)
      ensures !(1 <= month <= 12) ==> r == Err(IllegalMonth(month))
      ensures 1 <= month <= 12 && !(MIN_YEAR <= year <= MAX_YEAR) ==> r == Err(YearOutOfRange(year))
      ensures 1 <= month <= 12 && MIN_YEAR <= year <= MAX_YEAR ==>
        && r.Ok? && r.value.month == month && r.value.year == year
        && |r.value.days| == DaysInMonth(year, month)
        && forall i :: 0 <= i < |r.value.days| ==>
             r.value.days[i] == DayView(Date(year, month, i + 1), DayEvents(session.tasks, session.meetings, Date(year, month, i + 1), teamId))
    {
      if !(1 <= month <= 12) {
        return Err(IllegalMonth(month));
      }
      if !(MIN_YEAR <= year <= MAX_YEAR) {
        return Err(YearOutOfRange(year));
      }
      var cal := MonthCalendar(year, month);
      var days: seq<DayView> := [];
      var w := 0;
      while w < |cal|
        invariant 0 <= w <= |cal|
        invariant |days| == Clamp(7 * w - Weekday(Date(year, month, 1)), DaysInMonth(year, month))
        invariant MonthPrefix(days, year, month, teamId)
      {
        days := WeekDays(year, month, teamId, w, days);
        w := w + 1;
      }
      MonthCalendarLength(year, month);
      return Ok(MonthView(month, year, days));
    }
  }
}
