/** The maintenance schedule: thirty generated tasks around today, the list view's status
    and type filter, the day view of the calendar and the duration label. What
    `Math.random` picks for each task is a parameter. */
module MaintenanceSchedule {
  import opened Common
  import opened Text
  import opened Dates

  datatype TaskPriority = Low | Medium | High

  datatype TaskStatus = Scheduled | InProgress | Completed | Overdue

  function StatusName(s: TaskStatus): string
  {
    match s
    case Scheduled => "scheduled"
    case InProgress => "in-progress"
    case Completed => "completed"
    case Overdue => "overdue"
  }

  datatype TaskType = Preventive | Corrective | Predictive | Inspection

  function TypeName(t: TaskType): string
  {
    match t
    case Preventive => "preventive"
    case Corrective => "corrective"
    case Predictive => "predictive"
    case Inspection => "inspection"
  }

  datatype Task = Task(
    id: string,
    title: string,
    date: Moment,
    priority: TaskPriority,
    asset: string,
    assetId: string,
    technician: Option<string>,
    status: TaskStatus,
    kind: TaskType,
    estimatedHours: int)

  // ---------------------------------------------------------------- generation

  const Priorities: seq<TaskPriority> := [Low, Medium, High]
  const Statuses: seq<TaskStatus> := [Scheduled, InProgress, Completed, Overdue]
  const Types: seq<TaskType> := [Preventive, Corrective, Predictive, Inspection]
  const Technicians: seq<string> :=
    ["John Smith", "Maria Rodriguez", "David Chen", "Sarah Johnson", "Robert Williams"]

  /** The assets tasks are drawn for, as (name, id) pairs. */
  const AssetCatalogue: seq<(string, string)> := [
    ("HVAC System #103", "AST-001"),
    ("Elevator - Main Lobby", "AST-002"),
    ("Backup Generator #2", "AST-003"),
    ("Water Pump - Cooling Tower", "AST-004"),
    ("Lighting System - Floor 3", "AST-005"),
    ("Conveyor #B-12", "AST-006"),
    ("Main Boiler", "AST-007")
  ]

  /** The positions `Math.floor(Math.random() * length)` picks in each list for one task,
      and the `Math.floor(Math.random() * 5)` its duration is built from. */
  datatype TaskDraw = TaskDraw(priority: nat, status: nat, kind: nat, technician: nat, asset: nat,
                               hours: nat)

  predicate ValidDraw(d: TaskDraw)
  {
    && d.priority < |Priorities| && d.status < |Statuses| && d.kind < |Types|
    && d.technician < |Technicians| && d.asset < |AssetCatalogue| && d.hours < 5
  }

  predicate ValidDraws(draws: seq<TaskDraw>)
  {
    |draws| == 30 && forall i :: 0 <= i < |draws| ==> ValidDraw(draws[i])
  }

  /** Task ids: "MT-2023-" and the task's one-based number, zero-padded to three digits. */
  function TaskId(n: nat): string
  {
    PaddedId("MT-2023-", n)
  }

  /** "Preventive Maintenance - Main Boiler" and the like. */
  function TaskTitle(kind: TaskType, assetName: string): string
  {
    Capitalize(TypeName(kind)) + " Maintenance - " + assetName
  }

  /** What holds of task number `n`: its id carries the number, it falls `n - 10` days
      from today at today's time, it lasts one to five hours and it names a catalogue asset
      (name and id taken together) and a technician from the roster. */
  predicate Planned(t: Task, today: Moment, n: nat)
    requires ValidDate(today.date)
  {
    && t.id == TaskId(n) && t.date == AddDaysTo(today, n - 10)
    && 1 <= t.estimatedHours <= 5
    && (t.asset, t.assetId) in AssetCatalogue
    && t.technician.Some? && t.technician.value in Technicians
  }

  /** Task number `n` (1 to 30), built from one draw. */
  function MakeTask(today: Moment, n: nat, d: TaskDraw): (t: Task)
    requires ValidDate(today.date) && ValidDraw(d)
    ensures Planned(t, today, n)
  {
    var kind := Types[d.kind];
    var (name, assetId) := AssetCatalogue[d.asset];
    Task(TaskId(n), TaskTitle(kind, name), AddDaysTo(today, n - 10), Priorities[d.priority],
         name, assetId, Some(Technicians[d.technician]), Statuses[d.status], kind, d.hours + 1)
  }

  /** The generated schedule: thirty tasks numbered 1 to 30 in order, one a day from nine
      days ago, each planned as above. */
  function GenerateTasks(today: Moment, draws: seq<TaskDraw>): (r: seq<Task>)
    requires ValidDate(today.date) && ValidDraws(draws)
    ensures |r| == 30
    ensures forall k :: 0 <= k < 30 ==> Planned(r[k], today, k + 1)
  {
    seq(30, k requires 0 <= k < 30 => MakeTask(today, k + 1, draws[k]))
  }

  /** The ids read back as 1 to 30 and are pairwise different. */
  lemma GeneratedIdsAreNumbered(today: Moment, draws: seq<TaskDraw>)
    requires ValidDate(today.date) && ValidDraws(draws)
    ensures var r := GenerateTasks(today, draws);
            && (forall k :: 0 <= k < 30 ==> ParseIntOrZero(r[k].id[8..]) == k + 1)
            && (forall k, l :: 0 <= k < l < 30 ==> r[k].id != r[l].id)
  {
    var r := GenerateTasks(today, draws);
    forall k | 0 <= k < 30
      ensures ParseIntOrZero(r[k].id[8..]) == k + 1
    {
      PaddedIdEncodes("MT-2023-", k + 1);
    }
  }

  /** Later numbers fall on strictly later days. */
  lemma GeneratedDatesIncrease(today: Moment, draws: seq<TaskDraw>, k: nat, l: nat)
    requires ValidDate(today.date) && ValidDraws(draws)
    requires k < l < 30
    ensures var r := GenerateTasks(today, draws);
            Before(r[k].date.date, r[l].date.date)
  {
    AddDaysMonotone(today.date, k - 9, l - 9);
  }

  /** The title names the task's type, capitalised, and its asset. */
  lemma TitleNamesTypeAndAsset(kind: TaskType, assetName: string)
    ensures var t := TaskTitle(kind, assetName);
            && |t| > |TypeName(kind)|
            && ToLower(t[..|TypeName(kind)|]) == TypeName(kind)
            && IsUpper(t[0]) && t[1..|TypeName(kind)|] == TypeName(kind)[1..]
            && t[|t| - |assetName|..] == assetName
  {
    var t := TaskTitle(kind, assetName);
    var c := Capitalize(TypeName(kind));
    assert t[..|TypeName(kind)|] == c;
    CapitalizeRoundTrip(TypeName(kind));
  }

  // ---------------------------------------------------------------- list filter

  predicate MatchesFilters(t: Task, statusFilter: string, typeFilter: string)
  {
    (statusFilter == "all" || StatusName(t.status) == statusFilter)
    && (typeFilter == "all" || TypeName(t.kind) == typeFilter)
  }

  function ByFilters(statusFilter: string, typeFilter: string): Task -> bool
  {
    (t: Task) => MatchesFilters(t, statusFilter, typeFilter)
  }

  function ByStatus(statusFilter: string): Task -> bool
  {
    (t: Task) => statusFilter == "all" || StatusName(t.status) == statusFilter
  }

  function ByType(typeFilter: string): Task -> bool
  {
    (t: Task) => typeFilter == "all" || TypeName(t.kind) == typeFilter
  }

  /** The list view: the tasks matching both drop-downs, in schedule order. */
  function FilterTasks(tasks: seq<Task>, statusFilter: string, typeFilter: string): (r: seq<Task>)
    ensures IsSubsequence(r, tasks)
    ensures forall x :: x in r ==> x in tasks && MatchesFilters(x, statusFilter, typeFilter)
    ensures forall x :: x in tasks && MatchesFilters(x, statusFilter, typeFilter) ==> x in r
    ensures forall x | x in tasks && MatchesFilters(x, statusFilter, typeFilter) ::
              multiset(r)[x] == multiset(tasks)[x]
  {
    Filter(tasks, ByFilters(statusFilter, typeFilter))
  }

  /** The two drop-downs filter independently: status then type is both at once. */
  lemma FilterTasksComposes(tasks: seq<Task>, statusFilter: string, typeFilter: string)
    ensures Filter(Filter(tasks, ByStatus(statusFilter)), ByType(typeFilter))
            == FilterTasks(tasks, statusFilter, typeFilter)
  {
    FilterTwo(tasks, ByStatus(statusFilter), ByType(typeFilter), ByFilters(statusFilter, typeFilter));
  }

  lemma FilterTasksShowsAllByDefault(tasks: seq<Task>)
    ensures FilterTasks(tasks, "all", "all") == tasks
  {
    FilterKeepsAll(tasks, ByFilters("all", "all"));
  }

  // ---------------------------------------------------------------- day view

  function TaskDate(): Task -> Moment
  {
    (t: Task) => t.date
  }

  /** The day view: no tasks without a selected date, otherwise the tasks on the selected
      calendar day, in schedule order. */
  function TasksForSelectedDate(tasks: seq<Task>, selected: Option<Moment>): (r: seq<Task>)
    ensures selected.None? ==> r == []
    ensures selected.Some? ==> IsSubsequence(r, tasks)
    ensures selected.Some? ==> forall i :: 0 <= i < |r| ==> r[i].date.date == selected.value.date
    ensures selected.Some? ==> forall x | x in tasks && x.date.date == selected.value.date ::
                                 multiset(r)[x] == multiset(tasks)[x]
  {
    SelectDay(tasks, TaskDate(), selected)
  }

  /** In the generated schedule, today's view holds exactly task MT-2023-010. */
  lemma TodayShowsTaskTen(today: Moment, draws: seq<TaskDraw>)
    requires ValidDate(today.date) && ValidDraws(draws)
    ensures var r := GenerateTasks(today, draws);
            TasksForSelectedDate(r, Some(today)) == [r[9]] && r[9].id == TaskId(10)
  {
    var r := GenerateTasks(today, draws);
    forall k | 0 <= k < 30 && k != 9
      ensures !OnDay(TaskDate(), today)(r[k])
    {
      AddDaysMonotone(today.date, if k < 9 then k - 9 else 0, if k < 9 then 0 else k - 9);
    }
    FilterSingle(r, OnDay(TaskDate(), today), 9);
  }

  /** The days marked on the calendar: each task's day at midnight, in schedule order. */
  function DatesWithTasks(tasks: seq<Task>): (r: seq<Moment>)
    ensures |r| == |tasks|
    ensures forall i :: 0 <= i < |tasks| ==> r[i].date == tasks[i].date.date && r[i].millis == 0
  {
    MarkedDays(tasks, TaskDate())
  }

  /** "1 hour", otherwise "N hours". */
  function HourUnit(hours: int): (u: string)
    ensures u == "hour" <==> hours == 1
    ensures u == "hours" <==> hours != 1
  {
    if hours == 1 then "hour" else "hours"
  }

  /** The estimated time shown for a task: its hours, a space and the unit. */
  function EstimatedTime(hours: nat): string
  {
    NatToDecimal(hours) + " " + HourUnit(hours)
  }

  /** The estimated time reads back, with `parseInt`, as the task's hours, and it ends in
      a plural 's' exactly when the hours are not 1. */
  lemma EstimatedTimeReadsBack(hours: nat)
    ensures ParseInt(EstimatedTime(hours)) == Some(hours)
    ensures var l := EstimatedTime(hours); l[|l| - 1] == 's' <==> hours != 1
  {
    var d := NatToDecimal(hours);
    var rest := " " + HourUnit(hours);
    assert EstimatedTime(hours) == d + rest;
    ParseIntOfDigits(d, rest);
    DecimalRoundTrip(hours);
  }
}
