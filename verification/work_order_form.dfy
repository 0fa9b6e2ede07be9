/** The work-order form dialog: its option lists, its default values and the checks
    its submit handler runs before handing the values to the list. */
module WorkOrderForm {
  import opened Common
  import opened Text
  import opened WorkOrders

  /** The priority drop-down, as (value, label) pairs. */
  const PriorityOptions: seq<(string, string)> :=
    [("low", "Low"), ("medium", "Medium"), ("high", "High"), ("critical", "Critical")]

  /** The asset drop-down, as (value, label) pairs. */
  const AssetOptions: seq<(string, string)> := [
    ("asset1", "HVAC System - Building A"),
    ("asset2", "Elevator - Main Lobby"),
    ("asset3", "Generator - Backup Power"),
    ("asset4", "Water Pump - Cooling Tower"),
    ("asset5", "Lighting System - Floor 3")
  ]

  /** The priority a drop-down value stands for. */
  function PriorityOf(value: string): Option<Priority>
  {
    if value == "low" then Some(Low)
    else if value == "medium" then Some(Medium)
    else if value == "high" then Some(High)
    else if value == "critical" then Some(Critical)
    else None
  }

  /** The values of a drop-down's options, in order. */
  function OptionValues(options: seq<(string, string)>): (r: seq<string>)
    ensures |r| == |options| && forall i :: 0 <= i < |r| ==> r[i] == options[i].0
  {
    seq(|options|, i requires 0 <= i < |options| => options[i].0)
  }

  /** The priority drop-down offers each priority of a work order once, under the name
      the list filters by, and nothing else. */
  lemma PriorityOptionsAreThePriorities()
    ensures OptionValues(PriorityOptions) == ["low", "medium", "high", "critical"]
    ensures forall p: Priority :: PriorityName(p) in OptionValues(PriorityOptions)
    ensures forall p: Priority :: PriorityOf(PriorityName(p)) == Some(p)
  {
    var values := OptionValues(PriorityOptions);
    assert values == ["low", "medium", "high", "critical"];
  }

  /** A drop-down value names a priority exactly when it is one of the options. */
  lemma PriorityOfOptions(v: string)
    ensures PriorityOf(v).Some? <==> v in OptionValues(PriorityOptions)
  {
    PriorityOptionsAreThePriorities();
  }

  /** The values the form starts with when it is opened to create an order. */
  const DefaultValues: FormValues := FormValues("", Medium, "", "", None)

  /** The values the form starts with: the caller's defaults when given, otherwise the
      built-in ones. */
  function InitialValues(defaults: Option<FormValues>): (v: FormValues)
    ensures defaults.None? ==> v.title == "" && v.priority == Medium && v.assetId == ""
                               && v.description == ""
    ensures defaults.Some? ==> v == defaults.value
  {
    if defaults.Some? then defaults.value else DefaultValues
  }

  /** The defaults the list passes when it opens the form to edit an order: its title,
      asset, priority and description (absent reads as ""). */
  function EditDefaults(o: WorkOrder): (v: FormValues)
    ensures v.title == o.title && v.assetId == o.asset && v.priority == o.priority
    ensures v.description == o.description && v.dueDate.None?
  {
    FormValues(o.title, o.priority, o.asset, o.description, None)
  }

  /** Saving the edit form untouched changes nothing but the update date of the orders
      with that id. */
  lemma EditWithOwnDefaults(orders: seq<WorkOrder>, o: WorkOrder, today: string)
    ensures forall i :: 0 <= i < |orders| && orders[i] == o ==>
              EditWorkOrder(orders, o.id, EditDefaults(o), today)[i] == o.(updatedAt := today)
  {
  }

  /** The submit handler's checks, first failure wins: a title that is blank once trimmed,
      then an empty asset key. Values that pass are handed on unchanged. */
  function Validate(values: FormValues): (r: FormOutcome<FormValues>)
    ensures r == FieldError("title", "Title is required") <==> AllSpace(values.title)
    ensures r == FieldError("assetId", "Asset selection is required")
            <==> !AllSpace(values.title) && values.assetId == ""
    ensures r.Submitted? <==> !AllSpace(values.title) && values.assetId != ""
    ensures r.Submitted? ==> r.values == values
  {
    if Trim(values.title) == "" then FieldError("title", "Title is required")
    else if values.assetId == "" then FieldError("assetId", "Asset selection is required")
    else Submitted(values)
  }

  /** Submitting the untouched create form reports only the title error. */
  lemma DefaultFormIsRejected()
    ensures Validate(InitialValues(None)) == FieldError("title", "Title is required")
  {
  }

  /** Pressing submit: the list is rewritten with the values only when they pass the
      checks; otherwise it stays as it is. */
  function PressSubmit(orders: seq<WorkOrder>, editMode: bool, selected: Option<WorkOrder>,
                       values: FormValues, today: string): (r: seq<WorkOrder>)
    ensures Validate(values).FieldError? ==> r == orders
    ensures Validate(values).Submitted? && !(editMode && selected.Some?) ==>
              |r| == |orders| + 1 && r[..|orders|] == orders && r[|orders|].title == values.title
  {
    match Validate(values)
    case FieldError(_, _) => orders
    case Submitted(v) => SubmitWorkOrder(orders, editMode, selected, v, today)
  }

  /** Every order the list gains through the create form has a title that is not blank
      and a non-empty asset key. */
  lemma CreatedThroughFormIsFilledIn(orders: seq<WorkOrder>, values: FormValues, today: string)
    requires |PressSubmit(orders, false, None, values, today)| > |orders|
    ensures var r := PressSubmit(orders, false, None, values, today);
            !AllSpace(r[|orders|].title) && r[|orders|].asset != ""
  {
    var r := PressSubmit(orders, false, None, values, today);
    assert Validate(values).Submitted?;
  }
}
