/** The dashboard's maintenance calendar: its default tasks, the tasks of the selected
    day, the days marked as having tasks and the month navigation. */
module MaintenanceCalendar {
  import opened Common
  import opened Dates
  import opened MaintenanceSchedule

  datatype CalendarTask = CalendarTask(
    id: string,
    title: string,
    date: Moment,
    priority: TaskPriority,
    asset: string,
    technician: Option<string>)

  /** The tasks shown when none are passed in, dated from `now`. */
  function DefaultTasks(now: Moment): (r: seq<CalendarTask>)
    requires ValidDate(now.date)
    ensures |r| == 4
    ensures forall i :: 0 <= i < 4 ==> r[i].date.millis == now.millis
  {
    [ CalendarTask("1", "HVAC Filter Replacement", AddDaysTo(now, 2), Medium,
                   "Building A HVAC System", None),
      CalendarTask("2", "Generator Inspection", AddDaysTo(now, 1), High,
                   "Backup Generator #2", Some("John Smith")),
      CalendarTask("3", "Conveyor Belt Lubrication", now, Low,
                   "Production Line 3", Some("Maria Rodriguez")),
      CalendarTask("4", "Safety Sensor Calibration", AddDaysTo(now, 4), Medium,
                   "Packaging Machine 2", None) ]
  }

  function CalendarTaskDate(): CalendarTask -> Moment
  {
    (t: CalendarTask) => t.date
  }

  /** No tasks without a selected date; otherwise the tasks on the selected calendar day,
      in list order. */
  function TasksForSelectedDate(tasks: seq<CalendarTask>, selected: Option<Moment>): (r: seq<CalendarTask>)
    ensures selected.None? ==> r == []
    ensures selected.Some? ==> IsSubsequence(r, tasks)
    ensures selected.Some? ==> forall i :: 0 <= i < |r| ==> r[i].date.date == selected.value.date
    ensures selected.Some? ==> forall x | x in tasks && x.date.date == selected.value.date ::
                                 multiset(r)[x] == multiset(tasks)[x]
  {
    SelectDay(tasks, CalendarTaskDate(), selected)
  }

  /** With the default tasks, today shows only task "3". */
  lemma DefaultTodayView(now: Moment)
    requires ValidDate(now.date)
    ensures TasksForSelectedDate(DefaultTasks(now), Some(now)) == [DefaultTasks(now)[2]]
  {
    var r := DefaultTasks(now);
    AddDaysMonotone(now.date, 0, 1);
    AddDaysMonotone(now.date, 0, 2);
    AddDaysMonotone(now.date, 0, 4);
    assert AddDays(now.date, 0) == now.date;
    FilterSingle(r, OnDay(CalendarTaskDate(), now), 2);
  }

  /** Tomorrow shows only task "2". */
  lemma DefaultTomorrowView(now: Moment)
    requires ValidDate(now.date)
    ensures TasksForSelectedDate(DefaultTasks(now), Some(AddDaysTo(now, 1))) == [DefaultTasks(now)[1]]
  {
    var r := DefaultTasks(now);
    AddDaysMonotone(now.date, 0, 1);
    AddDaysMonotone(now.date, 1, 2);
    AddDaysMonotone(now.date, 1, 4);
    assert AddDays(now.date, 0) == now.date;
    FilterSingle(r, OnDay(CalendarTaskDate(), AddDaysTo(now, 1)), 1);
  }

  /** The marked days: each task's day at midnight, in list order. */
  function DatesWithTasks(tasks: seq<CalendarTask>): (r: seq<Moment>)
    ensures |r| == |tasks|
    ensures forall i :: 0 <= i < |tasks| ==> r[i].date == tasks[i].date.date && r[i].millis == 0
  {
    MarkedDays(tasks, CalendarTaskDate())
  }

  /** The month buttons: `setMonth` one back or one forward on the displayed month, keeping
      the day and the time of day (a day the new month lacks overflows). */
  function PreviousMonth(current: Moment): (r: Moment)
    requires ValidDate(current.date)
    ensures ValidDate(r.date) && r.millis == current.millis
    ensures current.date.day <= 28 ==>
              r.date.day == current.date.day
              && 12 * r.date.year + r.date.month == 12 * current.date.year + current.date.month - 1
  {
    Moment(ShiftMonth(current.date, false), current.millis)
  }

  function NextMonth(current: Moment): (r: Moment)
    requires ValidDate(current.date)
    ensures ValidDate(r.date) && r.millis == current.millis
    ensures current.date.day <= 28 ==>
              r.date.day == current.date.day
              && 12 * r.date.year + r.date.month == 12 * current.date.year + current.date.month + 1
  {
    Moment(ShiftMonth(current.date, true), current.millis)
  }

  /** For a day up to 28, one month forward and one back is where one started. */
  lemma MonthNavigationRoundTrip(current: Moment)
    requires ValidDate(current.date) && current.date.day <= 28
    ensures PreviousMonth(NextMonth(current)) == current
    ensures NextMonth(PreviousMonth(current)) == current
  {
    ShiftMonthRoundTrip(current.date);
  }
}
