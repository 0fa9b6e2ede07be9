/** The work-order list and the whole-list replacements behind its actions:
    search/filter, create, edit, delete, assign and complete (with the optional
    follow-up order). Dates are plain strings supplied by the caller: `today` stands
    for the current ISO date and `inAWeek` for the date seven days later. */
module WorkOrders {
  import opened Common
  import opened Text

  datatype Priority = Low | Medium | High | Critical
  datatype Status = Pending | InProgress | Completed

  function PriorityName(p: Priority): string
  {
    match p
    case Low => "low"
    case Medium => "medium"
    case High => "high"
    case Critical => "critical"
  }

  function StatusName(s: Status): string
  {
    match s
    case Pending => "pending"
    case InProgress => "in-progress"
    case Completed => "completed"
  }

  /** Position of a status in the lifecycle pending -> in-progress -> completed. */
  function StatusRank(s: Status): nat
  {
    match s
    case Pending => 0
    case InProgress => 1
    case Completed => 2
  }

  datatype WorkOrder = WorkOrder(
    id: string,
    title: string,
    asset: string,
    priority: Priority,
    status: Status,
    assignedTo: string,
    dueDate: string,
    description: string,
    createdAt: string,
    updatedAt: string)

  /** What the work-order form hands to the list. The list's own type also declares an
      optional `dueDate`, which the form never fills in. */
  datatype FormValues = FormValues(
    title: string,
    priority: Priority,
    assetId: string,
    description: string,
    dueDate: Option<string>)

  /** The payload of the completion dialog. */
  datatype CompletionData = CompletionData(
    completionNotes: string,
    timeSpent: real,
    partsUsed: string,
    followUpNeeded: bool)

  const Unassigned: string := "Unassigned"

  // ---------------------------------------------------------------- filter

  predicate MatchesSearch(o: WorkOrder, term: string)
  {
    || ContainsIgnoringCase(o.title, term)
    || ContainsIgnoringCase(o.id, term)
    || ContainsIgnoringCase(o.asset, term)
  }

  predicate MatchesStatus(o: WorkOrder, statusFilter: string)
  {
    statusFilter == "all" || StatusName(o.status) == statusFilter
  }

  predicate MatchesPriority(o: WorkOrder, priorityFilter: string)
  {
    priorityFilter == "all" || PriorityName(o.priority) == priorityFilter
  }

  predicate Matches(o: WorkOrder, term: string, statusFilter: string, priorityFilter: string)
  {
    MatchesSearch(o, term) && MatchesStatus(o, statusFilter) && MatchesPriority(o, priorityFilter)
  }

  /** The three criteria as the callbacks handed to `filter`. */
  function BySearch(term: string): WorkOrder -> bool { o => MatchesSearch(o, term) }
  function ByStatus(statusFilter: string): WorkOrder -> bool { o => MatchesStatus(o, statusFilter) }
  function ByPriority(priorityFilter: string): WorkOrder -> bool { o => MatchesPriority(o, priorityFilter) }
  function ByAll(term: string, statusFilter: string, priorityFilter: string): WorkOrder -> bool
  {
    o => Matches(o, term, statusFilter, priorityFilter)
  }

  /** The rows the table shows: the orders whose title, id or asset contains the search
      term ignoring case and whose status and priority match their drop-downs ("all"
      matches everything), in list order and with their multiplicity. */
  function FilterWorkOrders(orders: seq<WorkOrder>, term: string, statusFilter: string,
                            priorityFilter: string): (r: seq<WorkOrder>)
    ensures IsSubsequence(r, orders)
    ensures forall o :: o in r ==> o in orders && Matches(o, term, statusFilter, priorityFilter)
    ensures forall o :: o in orders && Matches(o, term, statusFilter, priorityFilter) ==> o in r
    ensures forall o | o in orders && Matches(o, term, statusFilter, priorityFilter) ::
              multiset(r)[o] == multiset(orders)[o]
  {
    Filter(orders, ByAll(term, statusFilter, priorityFilter))
  }

  /** With an empty search box and both drop-downs on "all" every order is shown. */
  lemma FilterShowsEverythingByDefault(orders: seq<WorkOrder>)
    ensures FilterWorkOrders(orders, "", "all", "all") == orders
  {
    forall i | 0 <= i < |orders|
      ensures ByAll("", "all", "all")(orders[i])
    {
      assert OccursAt(ToLower(orders[i].title), ToLower(""), 0);
    }
    FilterKeepsAll(orders, ByAll("", "all", "all"));
  }

  /** The three criteria may be applied one after the other, in either of these orders,
      with the same rows as the one-pass filter. */
  lemma FilterCriteriaCompose(orders: seq<WorkOrder>, term: string, statusFilter: string,
                              priorityFilter: string)
    ensures Filter(Filter(Filter(orders, BySearch(term)), ByStatus(statusFilter)),
                   ByPriority(priorityFilter))
            == FilterWorkOrders(orders, term, statusFilter, priorityFilter)
    ensures Filter(Filter(Filter(orders, ByPriority(priorityFilter)), ByStatus(statusFilter)),
                   BySearch(term))
            == FilterWorkOrders(orders, term, statusFilter, priorityFilter)
  {
    FilterThree(orders, BySearch(term), ByStatus(statusFilter), ByPriority(priorityFilter),
                ByAll(term, statusFilter, priorityFilter));
    FilterThree(orders, ByPriority(priorityFilter), ByStatus(statusFilter), BySearch(term),
                ByAll(term, statusFilter, priorityFilter));
  }

  // ---------------------------------------------------------------- delete

  /** Deleting removes every order carrying the id and keeps the others in order. */
  function DeleteWorkOrder(orders: seq<WorkOrder>, id: string): (r: seq<WorkOrder>)
    ensures IsSubsequence(r, orders)
    ensures forall o :: o in r ==> o.id != id
    ensures forall o :: o in orders && o.id != id ==> multiset(r)[o] == multiset(orders)[o]
    ensures |r| == |orders| - CountWhere(orders, (o: WorkOrder) => o.id == id)
  {
    var r := Filter(orders, (o: WorkOrder) => o.id != id);
    assert CountWhere(orders, (o: WorkOrder) => o.id != id)
           == |orders| - CountWhere(orders, (o: WorkOrder) => o.id == id) by {
      CountComplement(orders, id);
    }
    r
  }

  lemma {:induction false} CountComplement(orders: seq<WorkOrder>, id: string)
    ensures CountWhere(orders, (o: WorkOrder) => o.id != id)
            + CountWhere(orders, (o: WorkOrder) => o.id == id) == |orders|
    decreases |orders|
  {
    if |orders| > 0 {
      CountComplement(orders[1..], id);
    }
  }

  /** Deleting an id that no order carries changes nothing, and deleting twice is
      the same as deleting once. */
  lemma DeleteAbsentIsNoOp(orders: seq<WorkOrder>, id: string)
    requires forall i :: 0 <= i < |orders| ==> orders[i].id != id
    ensures DeleteWorkOrder(orders, id) == orders
    ensures DeleteWorkOrder(DeleteWorkOrder(orders, id), id) == DeleteWorkOrder(orders, id)
  {
    FilterKeepsAll(orders, (o: WorkOrder) => o.id != id);
  }

  lemma DeleteIdempotent(orders: seq<WorkOrder>, id: string)
    ensures DeleteWorkOrder(DeleteWorkOrder(orders, id), id) == DeleteWorkOrder(orders, id)
  {
    FilterIdempotent(orders, (o: WorkOrder) => o.id != id);
  }

  // ---------------------------------------------------------------- create / edit

  /** Ids are "WO-2023-" followed by a number zero-padded to three digits; the list uses
      its length plus 8 as the number. */
  function WorkOrderId(n: nat): string
  {
    PaddedId("WO-2023-", n)
  }

  /** A fresh order built from the form: pending and unassigned, its asset field the
      form's asset key, dated today unless a due date was given. */
  function NewWorkOrder(count: nat, data: FormValues, today: string): WorkOrder
  {
    WorkOrder(
      id := WorkOrderId(count + 8),
      title := data.title,
      asset := data.assetId,
      priority := data.priority,
      status := Pending,
      assignedTo := Unassigned,
      dueDate := if data.dueDate.Some? && data.dueDate.value != "" then data.dueDate.value else today,
      description := data.description,
      createdAt := today,
      updatedAt := today)
  }

  /** Creating appends one pending, unassigned order and leaves the existing ones as
      they were. */
  function CreateWorkOrder(orders: seq<WorkOrder>, data: FormValues, today: string): (r: seq<WorkOrder>)
    ensures |r| == |orders| + 1 && r[..|orders|] == orders
    ensures var o := r[|orders|];
            && o.status == Pending && o.assignedTo == Unassigned
            && o.title == data.title && o.asset == data.assetId
            && o.priority == data.priority && o.description == data.description
            && o.createdAt == today && o.updatedAt == today
            && o.id == WorkOrderId(|orders| + 8)
            && (data.dueDate == None ==> o.dueDate == today)
  {
    orders + [NewWorkOrder(|orders|, data, today)]
  }

  /** The edited copy of an order: the form's title, priority and description (and due
      date, when one is supplied) over the old record, with a fresh `updatedAt`. The
      form's asset key is spread under the name `assetId`, which is not a field of the
      order, so the order's `asset` keeps its value. */
  function Edited(o: WorkOrder, data: FormValues, today: string): WorkOrder
  {
    o.(title := data.title,
       priority := data.priority,
       description := data.description,
       dueDate := if data.dueDate.Some? then data.dueDate.value else o.dueDate,
       updatedAt := today)
  }

  /** Editing rewrites exactly the orders whose id is the selected one; each keeps its
      id, status, assignee, asset and creation date, and its due date unless the values
      carry one. */
  function EditWorkOrder(orders: seq<WorkOrder>, selectedId: string, data: FormValues,
                         today: string): (r: seq<WorkOrder>)
    ensures |r| == |orders|
    ensures forall i :: 0 <= i < |orders| && orders[i].id != selectedId ==> r[i] == orders[i]
    ensures forall i :: 0 <= i < |orders| && orders[i].id == selectedId ==>
              && r[i].id == selectedId && r[i].updatedAt == today
              && r[i].title == data.title && r[i].priority == data.priority
              && r[i].description == data.description
              && r[i].dueDate == (if data.dueDate.Some? then data.dueDate.value else orders[i].dueDate)
              && r[i].status == orders[i].status && r[i].assignedTo == orders[i].assignedTo
              && r[i].asset == orders[i].asset && r[i].createdAt == orders[i].createdAt
  {
    seq(|orders|, i requires 0 <= i < |orders| =>
      if orders[i].id == selectedId then Edited(orders[i], data, today) else orders[i])
  }

  /** The form's submit handler: an edit when the list is in edit mode with an order
      selected, a creation otherwise. */
  function SubmitWorkOrder(orders: seq<WorkOrder>, editMode: bool, selected: Option<WorkOrder>,
                           data: FormValues, today: string): (r: seq<WorkOrder>)
    ensures editMode && selected.Some? ==> |r| == |orders|
    ensures !(editMode && selected.Some?) ==> |r| == |orders| + 1 && r[..|orders|] == orders
  {
    if editMode && selected.Some? then EditWorkOrder(orders, selected.value.id, data, today)
    else CreateWorkOrder(orders, data, today)
  }

  // ---------------------------------------------------------------- assign

  /** The display name the list stores for a technician id; any unknown id falls through
      to "Robert Williams". */
  function TechnicianName(technicianId: string): string
  {
    if technicianId == "tech-001" then "John Smith"
    else if technicianId == "tech-002" then "Maria Rodriguez"
    else if technicianId == "tech-003" then "David Chen"
    else if technicianId == "tech-004" then "Sarah Johnson"
    else "Robert Williams"
  }

  /** Assignment moves a pending order to in-progress and leaves any later status alone. */
  function AssignedStatus(s: Status): (r: Status)
    ensures StatusRank(r) >= StatusRank(s)
    ensures s == Pending <==> r == InProgress && s != InProgress
    ensures s != Pending ==> r == s
  {
    if s == Pending then InProgress else s
  }

  /** Assigning sets the technician's name on every order with the id, promotes pending
      orders to in-progress, refreshes `updatedAt`, and touches nothing else. */
  function AssignWorkOrder(orders: seq<WorkOrder>, id: string, technicianId: string,
                           today: string): (r: seq<WorkOrder>)
    ensures |r| == |orders|
    ensures forall i :: 0 <= i < |orders| && orders[i].id != id ==> r[i] == orders[i]
    ensures forall i :: 0 <= i < |orders| && orders[i].id == id ==>
              && r[i].assignedTo == TechnicianName(technicianId)
              && (orders[i].status == Pending ==> r[i].status == InProgress)
              && (orders[i].status != Pending ==> r[i].status == orders[i].status)
              && r[i].updatedAt == today
              && r[i].(assignedTo := orders[i].assignedTo, status := orders[i].status,
                       updatedAt := orders[i].updatedAt) == orders[i]
  {
    seq(|orders|, i requires 0 <= i < |orders| =>
      var o := orders[i];
      if o.id == id
      then o.(assignedTo := TechnicianName(technicianId), status := AssignedStatus(o.status),
              updatedAt := today)
      else o)
  }

  // ---------------------------------------------------------------- complete

  /** The first write of the completion handler: every order with the id becomes
      completed, whatever its status was. */
  function MarkCompleted(orders: seq<WorkOrder>, id: string, today: string): (r: seq<WorkOrder>)
    ensures |r| == |orders|
    ensures forall i :: 0 <= i < |orders| && orders[i].id != id ==> r[i] == orders[i]
    ensures forall i :: 0 <= i < |orders| && orders[i].id == id ==>
              && r[i].status == Completed && r[i].updatedAt == today
              && r[i].(status := orders[i].status, updatedAt := orders[i].updatedAt) == orders[i]
  {
    seq(|orders|, i requires 0 <= i < |orders| =>
      if orders[i].id == id then orders[i].(status := Completed, updatedAt := today) else orders[i])
  }

  function HasId(id: string): WorkOrder -> bool { (o: WorkOrder) => o.id == id }

  /** The order the completion handler looks up with `find`: the first one with the id. */
  function FindWorkOrder(orders: seq<WorkOrder>, id: string): (r: Option<WorkOrder>)
    ensures r.None? <==> forall i :: 0 <= i < |orders| ==> orders[i].id != id
    ensures r.Some? ==> exists k :: 0 <= k < |orders| && orders[k] == r.value && orders[k].id == id
                                  && forall j :: 0 <= j < k ==> orders[j].id != id
  {
    FindFirst(orders, HasId(id))
  }

  function FollowUpOrder(count: nat, original: WorkOrder, id: string, notes: string,
                         today: string, inAWeek: string): WorkOrder
  {
    WorkOrder(
      id := WorkOrderId(count + 8),
      title := "Follow-up: " + original.title,
      asset := original.asset,
      priority := Medium,
      status := Pending,
      assignedTo := Unassigned,
      dueDate := inAWeek,
      description := "Follow-up maintenance required after completion of " + id + ". Notes: " + notes,
      createdAt := today,
      updatedAt := today)
  }

  /** The list after the completion handler, i.e. after its last write: the marked list,
      followed by one follow-up order when follow-up was requested and the order exists. */
  function CompleteWorkOrder(orders: seq<WorkOrder>, id: string, data: CompletionData,
                             today: string, inAWeek: string): (r: seq<WorkOrder>)
  {
    var updated := MarkCompleted(orders, id, today);
    if data.followUpNeeded then
      match FindWorkOrder(orders, id)
      case Some(original) =>
        updated + [FollowUpOrder(|orders|, original, id, data.completionNotes, today, inAWeek)]
      case None => updated
    else updated
  }

  /** Completion: every order with the id ends completed and updated today with its other
      fields kept, all others are untouched, and exactly one order is appended iff
      follow-up was asked for and the order exists. */
  lemma CompleteWorkOrderEffect(orders: seq<WorkOrder>, id: string, data: CompletionData,
                                today: string, inAWeek: string)
    ensures var r := CompleteWorkOrder(orders, id, data, today, inAWeek);
            var found := exists i :: 0 <= i < |orders| && orders[i].id == id;
            && |r| == |orders| + (if data.followUpNeeded && found then 1 else 0)
            && (forall i :: 0 <= i < |orders| && orders[i].id != id ==> r[i] == orders[i])
            && (forall i :: 0 <= i < |orders| && orders[i].id == id ==>
                  r[i].status == Completed && r[i].updatedAt == today
                  && r[i].(status := orders[i].status, updatedAt := orders[i].updatedAt) == orders[i])
            && r[..|orders|] == MarkCompleted(orders, id, today)
  {
    var r := CompleteWorkOrder(orders, id, data, today, inAWeek);
    var updated := MarkCompleted(orders, id, today);
    assert r[..|orders|] == updated;
  }

  /** The follow-up order: pending, unassigned, medium priority, on the asset of the first
      order with the completed id and titled after it, due `inAWeek`, with the next id,
      and with a description that ends with the completion notes. */
  lemma CompleteWorkOrderFollowUp(orders: seq<WorkOrder>, id: string, data: CompletionData,
                                  today: string, inAWeek: string)
    requires data.followUpNeeded && exists i :: 0 <= i < |orders| && orders[i].id == id
    ensures var r := CompleteWorkOrder(orders, id, data, today, inAWeek);
            && |r| == |orders| + 1
            && r[..|orders|] == MarkCompleted(orders, id, today)
            && var f := r[|orders|];
            && (exists k :: 0 <= k < |orders| && orders[k].id == id
                            && (forall j :: 0 <= j < k ==> orders[j].id != id)
                            && f.title == "Follow-up: " + orders[k].title
                            && f.asset == orders[k].asset)
            && f.priority == Medium && f.status == Pending && f.assignedTo == Unassigned
            && f.dueDate == inAWeek && f.createdAt == today
            && |data.completionNotes| <= |f.description|
            && f.description[|f.description| - |data.completionNotes|..] == data.completionNotes
            && f.id == WorkOrderId(|orders| + 8)
  {
    var original := FindWorkOrder(orders, id).value;
    var f := FollowUpOrder(|orders|, original, id, data.completionNotes, today, inAWeek);
    assert CompleteWorkOrder(orders, id, data, today, inAWeek)
           == MarkCompleted(orders, id, today) + [f];
    var prefix := "Follow-up maintenance required after completion of " + id + ". Notes: ";
    assert f.description == prefix + data.completionNotes;
    var k :| 0 <= k < |orders| && orders[k] == original && orders[k].id == id
             && forall j :: 0 <= j < k ==> orders[j].id != id;
    assert f.title == "Follow-up: " + orders[k].title && f.asset == orders[k].asset;
  }

  /** Assignment and completion never move an order backwards in its lifecycle, and a
      completed order stays completed under reassignment. */
  lemma LifecycleIsMonotone(orders: seq<WorkOrder>, id: string, technicianId: string,
                            data: CompletionData, today: string, inAWeek: string)
    ensures var a := AssignWorkOrder(orders, id, technicianId, today);
            forall i :: 0 <= i < |orders| ==>
              StatusRank(a[i].status) >= StatusRank(orders[i].status)
              && (orders[i].status == Completed ==> a[i].status == Completed)
    ensures var c := CompleteWorkOrder(orders, id, data, today, inAWeek);
            forall i :: 0 <= i < |orders| ==>
              StatusRank(c[i].status) >= StatusRank(orders[i].status)
  {
    CompleteWorkOrderEffect(orders, id, data, today, inAWeek);
  }

  /** Completing twice is the same as completing once (without follow-up). */
  lemma MarkCompletedIdempotent(orders: seq<WorkOrder>, id: string, today: string)
    ensures MarkCompleted(MarkCompleted(orders, id, today), id, today)
            == MarkCompleted(orders, id, today)
  {
  }

  // ---------------------------------------------------------------- seed data

  const HvacOrder: WorkOrder :=
    WorkOrder("WO-2023-001", "HVAC Repair - Building A", "HVAC System #103", High, Pending,
      "John Smith", "2023-06-15",
      "Unit is making loud noises and not cooling properly. Check refrigerant levels and fan motor.",
      "2023-06-10", "2023-06-10")

  /** The orders the page starts with. */
  const SeedOrders: seq<WorkOrder> := [
    HvacOrder,
    WorkOrder("WO-2023-002", "Conveyor Belt Maintenance", "Conveyor #B-12", Medium, InProgress,
      "Maria Rodriguez", "2023-06-18",
      "Scheduled preventive maintenance. Lubricate bearings, check tension, inspect for wear.",
      "2023-06-08", "2023-06-12"),
    WorkOrder("WO-2023-003", "Generator Inspection", "Backup Generator #2", Low, Pending,
      "David Chen", "2023-06-22",
      "Quarterly inspection. Check fuel levels, test start sequence, inspect connections.",
      "2023-06-05", "2023-06-05"),
    WorkOrder("WO-2023-004", "Boiler Pressure Check", "Main Boiler", Critical, Pending,
      "Sarah Johnson", "2023-06-14",
      "Pressure gauge showing fluctuations. Inspect valves, check for leaks, test safety systems.",
      "2023-06-13", "2023-06-13"),
    WorkOrder("WO-2023-005", "Elevator Safety Inspection", "Elevator #3", High, InProgress,
      "Robert Williams", "2023-06-16",
      "Annual safety inspection. Test emergency brakes, check cables, inspect control systems.",
      "2023-06-09", "2023-06-14"),
    WorkOrder("WO-2023-006", "Lighting Replacement", "Office Area - Floor 2", Low, Completed,
      "Emma Davis", "2023-06-12",
      "Replace fluorescent lights with LED fixtures in the main office area.",
      "2023-06-07", "2023-06-12"),
    WorkOrder("WO-2023-007", "Plumbing Leak Repair", "Restroom - Building B", Medium, Completed,
      "Michael Brown", "2023-06-11",
      "Water leak under sink in men's restroom. Replace gasket and check for pipe damage.",
      "2023-06-10", "2023-06-11")
  ]

  /** Creating from the form on the seed list gives a pending, unassigned WO-2023-015. */
  lemma SeedCreationScenario(today: string)
    ensures var r := CreateWorkOrder(SeedOrders, FormValues("Pump check", Low, "asset4", "", None), today);
            && r[7].status == Pending && r[7].assignedTo == Unassigned
            && r[7].id == "WO-2023-015" && r[7].asset == "asset4"
  {
    assert |SeedOrders| == 7;
    assert NatToDecimal(1) == "1";
    assert NatToDecimal(15) == NatToDecimal(1) + [DigitChar(5)] == "15";
    assert ZeroPad(15, 3) == "0" + "15";
    assert WorkOrderId(15) == "WO-2023-015";
  }
}
