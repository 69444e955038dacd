/** The response records of the calendar endpoints. */
module CalendarSchemas {
  import opened Wrappers
  import opened Domain
  import opened Gregorian

  /** The `event_type` strings the calendar service emits. */
  datatype EventType = TaskEvent | MeetingEvent {
    function Value(): string {
      match this
      case TaskEvent => "task"
      case MeetingEvent => "meeting"
    }
  }

  /** `CalendarEventShema`: one task or meeting placed on the calendar. */
  datatype CalendarEvent = CalendarEvent(
    id: int,
    title: string,
    description: Option<string>,
    start: Instant,
    end: Instant,
    eventType: EventType,
    status: Option<string>,
    teamId: int)

  /** `CalendarDayView`. */
  datatype DayView = DayView(date: Date, events: seq<CalendarEvent>)

  /** `CalendarMonthView`. */
  datatype MonthView = MonthView(month: int, year: int, days: seq<DayView>)
}
