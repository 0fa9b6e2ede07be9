/** The asset form dialog: its type and status options, its defaults and the checks its
    submit handler runs. */
module AssetForm {
  import opened Common
  import opened Text
  import opened Assets

  /** The type drop-down of the form. */
  const TypeOptions: seq<string> := [
    "HVAC", "Elevator", "Generator", "Pump", "Lighting", "Conveyor", "Boiler",
    "Electrical", "Plumbing", "Fire System", "Security System", "IT Equipment",
    "Vehicle", "Other"
  ]

  /** The status drop-down, as (value, label) pairs. */
  const StatusOptions: seq<(string, AssetStatus)> := [
    ("operational", Operational),
    ("needs-maintenance", NeedsMaintenance),
    ("under-repair", UnderRepair),
    ("out-of-service", OutOfService)
  ]

  /** The statuses the drop-down offers, in order. */
  function OfferedStatuses(): (r: seq<AssetStatus>)
    ensures |r| == |StatusOptions| && forall i :: 0 <= i < |r| ==> r[i] == StatusOptions[i].1
  {
    seq(|StatusOptions|, i requires 0 <= i < |StatusOptions| => StatusOptions[i].1)
  }

  /** The status options are exactly the four asset statuses, each once, each under the
      name the list filters by. */
  lemma StatusOptionsAreTheStatuses()
    ensures forall s: AssetStatus :: s in OfferedStatuses()
    ensures forall i :: 0 <= i < |StatusOptions| ==> StatusOptions[i].0 == AssetStatusName(StatusOptions[i].1)
    ensures forall i, j :: 0 <= i < j < |StatusOptions| ==> StatusOptions[i].1 != StatusOptions[j].1
  {
    var offered := OfferedStatuses();
    assert offered == [Operational, NeedsMaintenance, UnderRepair, OutOfService];
    forall s: AssetStatus
      ensures s in offered
    {
      match s
      case Operational => assert offered[0] == s;
      case NeedsMaintenance => assert offered[1] == s;
      case UnderRepair => assert offered[2] == s;
      case OutOfService => assert offered[3] == s;
    }
  }

  /** The values the form starts with when it is opened to add an asset. */
  const DefaultValues: FormValues :=
    FormValues("", "", "", Operational, "", "", "", None, "", None)

  function InitialValues(defaults: Option<FormValues>): (v: FormValues)
    ensures defaults.None? ==> v.status == Operational && v.name == "" && v.assetType == ""
                               && v.location == "" && v.purchaseDate.None?
    ensures defaults.Some? ==> v == defaults.value
  {
    if defaults.Some? then defaults.value else DefaultValues
  }

  /** The submit handler's checks, first failure wins: a name that is blank once trimmed,
      then an empty type. Values that pass are handed on unchanged. */
  function Validate(values: FormValues): (r: FormOutcome<FormValues>)
    ensures r == FieldError("name", "Asset name is required") <==> AllSpace(values.name)
    ensures r == FieldError("type", "Asset type is required")
            <==> !AllSpace(values.name) && values.assetType == ""
    ensures r.Submitted? <==> !AllSpace(values.name) && values.assetType != ""
    ensures r.Submitted? ==> r.values == values
  {
    if Trim(values.name) == "" then FieldError("name", "Asset name is required")
    else if values.assetType == "" then FieldError("type", "Asset type is required")
    else Submitted(values)
  }

  /** The untouched add form reports only the name error. */
  lemma DefaultFormIsRejected()
    ensures Validate(InitialValues(None)) == FieldError("name", "Asset name is required")
  {
  }

  /** Every asset the register gains through the form has a name that is not blank and a
      type. */
  lemma CreatedThroughFormIsFilledIn(assets: seq<Asset>, values: FormValues, today: string)
    requires Validate(values).Submitted?
    ensures var r := SubmitAsset(assets, false, None, Validate(values).values, today);
            !AllSpace(r[|assets|].name) && r[|assets|].assetType != ""
  {
  }
}
