/** The assignment dialog: the technician roster, the selection the drop-down allows,
    and the submit handler with its guard and reset. */
module AssignModal {
  import opened Common
  import opened WorkOrders

  datatype Availability = Available | Busy | Unavailable

  datatype Technician = Technician(
    id: string,
    name: string,
    department: string,
    availability: Availability,
    skills: seq<string>)

  const Roster: seq<Technician> := [
    Technician("tech-001", "John Smith", "Maintenance", Available, ["HVAC", "Electrical", "Plumbing"]),
    Technician("tech-002", "Maria Rodriguez", "Operations", Available, ["Mechanical", "Electrical"]),
    Technician("tech-003", "David Chen", "Maintenance", Busy, ["Plumbing", "General Repairs"]),
    Technician("tech-004", "Sarah Johnson", "Facilities", Available, ["HVAC", "Electrical"]),
    Technician("tech-005", "Robert Williams", "Engineering", Unavailable, ["Mechanical", "Automation"])
  ]

  /** For every technician on the roster, the list stores exactly the roster's name when
      the dialog assigns that technician's id. */
  lemma RosterNamesAgreeWithList()
    ensures forall i :: 0 <= i < |Roster| ==> TechnicianName(Roster[i].id) == Roster[i].name
  {
  }

  /** The dialog's own state: the chosen technician id ("" for none) and the notes. */
  datatype DialogState = DialogState(selectedTechnician: string, notes: string)

  const InitialState: DialogState := DialogState("", "")

  /** A drop-down entry that is enabled: a roster technician who is not unavailable. */
  predicate Selectable(technicianId: string)
  {
    exists i :: 0 <= i < |Roster| && Roster[i].id == technicianId
                && Roster[i].availability != Unavailable
  }

  /** Exactly the available and busy technicians can be picked. */
  lemma SelectableIds(technicianId: string)
    ensures Selectable(technicianId)
            <==> technicianId in ["tech-001", "tech-002", "tech-003", "tech-004"]
  {
    if technicianId in ["tech-001", "tech-002", "tech-003", "tech-004"] {
      var k :| 0 <= k < 4 && ["tech-001", "tech-002", "tech-003", "tech-004"][k] == technicianId;
      assert Roster[k].id == technicianId;
    }
  }

  /** Picking an entry in the drop-down: disabled entries and unknown ids do nothing. */
  function Choose(s: DialogState, technicianId: string): (r: DialogState)
    ensures r.notes == s.notes
    ensures r.selectedTechnician == technicianId <==> Selectable(technicianId) || s.selectedTechnician == technicianId
    ensures !Selectable(technicianId) ==> r == s
  {
    if Selectable(technicianId) then s.(selectedTechnician := technicianId) else s
  }

  function EditNotes(s: DialogState, notes: string): DialogState
  {
    s.(notes := notes)
  }

  /** The assign button is enabled exactly when a technician is chosen. */
  predicate SubmitEnabled(s: DialogState)
  {
    s.selectedTechnician != ""
  }

  /** What `onAssign` receives. */
  datatype Assignment = Assignment(workOrderId: string, technicianId: string, notes: string)

  /** The submit handler. Without a work order the dialog renders nothing and nothing can
      be submitted; without a chosen technician it returns at once. Otherwise it reports
      the order's id with the chosen id and notes, and clears both fields. */
  function Submit(workOrder: Option<WorkOrder>, s: DialogState): (r: (Option<Assignment>, DialogState))
    ensures r.0.Some? <==> workOrder.Some? && SubmitEnabled(s)
    ensures r.0.None? ==> r.1 == s
    ensures r.0.Some? ==> r.0.value.workOrderId == workOrder.value.id
                          && r.0.value.technicianId == s.selectedTechnician
                          && r.0.value.notes == s.notes
                          && r.1.selectedTechnician == "" && r.1.notes == ""
  {
    if workOrder.None? || s.selectedTechnician == "" then (None, s)
    else (Some(Assignment(workOrder.value.id, s.selectedTechnician, s.notes)), InitialState)
  }

  /** The invariant of the dialog: nothing is chosen, or an enabled entry is. */
  predicate Consistent(s: DialogState)
  {
    s.selectedTechnician == "" || Selectable(s.selectedTechnician)
  }

  /** The invariant holds initially and every user step keeps it. */
  lemma ConsistentIsInvariant(s: DialogState, technicianId: string, notes: string,
                              workOrder: Option<WorkOrder>)
    requires Consistent(s)
    ensures Consistent(InitialState)
    ensures Consistent(Choose(s, technicianId))
    ensures Consistent(EditNotes(s, notes))
    ensures Consistent(Submit(workOrder, s).1)
  {
  }

  /** In a consistent dialog a submission names an available or busy technician, so the
      list never stores the fall-through name of the unavailable one. */
  lemma SubmittedTechnicianIsSelectable(workOrder: Option<WorkOrder>, s: DialogState)
    requires Consistent(s)
    requires Submit(workOrder, s).0.Some?
    ensures var a := Submit(workOrder, s).0.value;
            Selectable(a.technicianId) && TechnicianName(a.technicianId) != "Robert Williams"
  {
    var a := Submit(workOrder, s).0.value;
    SelectableIds(a.technicianId);
  }
}
