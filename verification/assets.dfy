/** The asset register: its records, the search/filter, create/edit/delete, the effect
    of scheduling maintenance, the health-score bands and the type drop-down. */
module Assets {
  import opened Common
  import opened Text
  import opened Ordering

  datatype AssetStatus = Operational | NeedsMaintenance | OutOfService | UnderRepair

  function AssetStatusName(s: AssetStatus): string
  {
    match s
    case Operational => "operational"
    case NeedsMaintenance => "needs-maintenance"
    case OutOfService => "out-of-service"
    case UnderRepair => "under-repair"
  }

  /** An asset. Dates are kept as opaque strings (the pickers hand over `Date` objects,
      which are stored as they are); an absent description reads as "". The purchase
      date is `None` where an edit stored `undefined`. */
  datatype Asset = Asset(
    id: string,
    name: string,
    assetType: string,
    location: string,
    status: AssetStatus,
    healthScore: int,
    lastMaintenance: string,
    nextMaintenance: string,
    purchaseDate: Option<string>,
    manufacturer: string,
    model: string,
    serialNumber: string,
    description: string,
    warrantyExpiration: Option<string>)

  /** What the asset form hands to the list. The date pickers may be left empty. */
  datatype FormValues = FormValues(
    name: string,
    assetType: string,
    location: string,
    status: AssetStatus,
    manufacturer: string,
    model: string,
    serialNumber: string,
    purchaseDate: Option<string>,
    description: string,
    warrantyExpiration: Option<string>)

  // ---------------------------------------------------------------- filter

  predicate MatchesSearch(a: Asset, term: string)
  {
    || ContainsIgnoringCase(a.name, term)
    || ContainsIgnoringCase(a.id, term)
    || ContainsIgnoringCase(a.location, term)
  }

  /** The type drop-down compares ignoring case. */
  predicate MatchesType(a: Asset, typeFilter: string)
  {
    typeFilter == "all" || ToLower(a.assetType) == ToLower(typeFilter)
  }

  predicate Matches(a: Asset, term: string, statusFilter: string, typeFilter: string)
  {
    && MatchesSearch(a, term)
    && (statusFilter == "all" || AssetStatusName(a.status) == statusFilter)
    && MatchesType(a, typeFilter)
  }

  function ByAll(term: string, statusFilter: string, typeFilter: string): Asset -> bool
  {
    (a: Asset) => Matches(a, term, statusFilter, typeFilter)
  }

  /** The rows the table shows, in list order and with their multiplicity. */
  function FilterAssets(assets: seq<Asset>, term: string, statusFilter: string,
                        typeFilter: string): (r: seq<Asset>)
    ensures IsSubsequence(r, assets)
    ensures forall a :: a in r ==> a in assets && Matches(a, term, statusFilter, typeFilter)
    ensures forall a :: a in assets && Matches(a, term, statusFilter, typeFilter) ==> a in r
    ensures forall a | a in assets && Matches(a, term, statusFilter, typeFilter) ::
              multiset(r)[a] == multiset(assets)[a]
  {
    Filter(assets, ByAll(term, statusFilter, typeFilter))
  }

  // ---------------------------------------------------------------- type options

  function Types(assets: seq<Asset>): (r: seq<string>)
    ensures |r| == |assets| && forall i :: 0 <= i < |r| ==> r[i] == assets[i].assetType
  {
    seq(|assets|, i requires 0 <= i < |assets| => assets[i].assetType)
  }

  /** The type drop-down: every type in the register once, in ascending order. */
  function AssetTypes(assets: seq<Asset>): (r: seq<string>)
    ensures StrictlySorted(r)
    ensures forall t :: t in r <==> exists i :: 0 <= i < |assets| && assets[i].assetType == t
  {
    var r := SortedDistinct(Types(assets));
    assert forall t :: t in Types(assets) <==> exists i :: 0 <= i < |assets| && assets[i].assetType == t by {
      forall t
        ensures t in Types(assets) ==> exists i :: 0 <= i < |assets| && assets[i].assetType == t
      {
        if t in Types(assets) {
          var i :| 0 <= i < |Types(assets)| && Types(assets)[i] == t;
          assert assets[i].assetType == t;
        }
      }
    }
    r
  }

  /** Choosing any offered type with an empty search and all statuses shows every asset
      of that type, so no option leads to an empty table. */
  lemma TypeOptionShowsItsAssets(assets: seq<Asset>, t: string)
    requires t in AssetTypes(assets)
    ensures forall a :: a in assets && a.assetType == t ==> a in FilterAssets(assets, "", "all", t)
    ensures FilterAssets(assets, "", "all", t) != []
  {
    forall a | a in assets && a.assetType == t
      ensures a in FilterAssets(assets, "", "all", t)
    {
      assert OccursAt(ToLower(a.name), ToLower(""), 0);
    }
    var i :| 0 <= i < |assets| && assets[i].assetType == t;
    assert assets[i] in assets;
  }

  // ---------------------------------------------------------------- delete

  /** Deleting removes exactly the assets with the id and keeps the rest in order. */
  function DeleteAsset(assets: seq<Asset>, id: string): (r: seq<Asset>)
    ensures IsSubsequence(r, assets)
    ensures forall a :: a in r ==> a.id != id
    ensures forall a :: a in assets && a.id != id ==> multiset(r)[a] == multiset(assets)[a]
  {
    Filter(assets, (a: Asset) => a.id != id)
  }

  lemma DeleteAbsentIsNoOp(assets: seq<Asset>, id: string)
    requires forall i :: 0 <= i < |assets| ==> assets[i].id != id
    ensures DeleteAsset(assets, id) == assets
  {
    FilterKeepsAll(assets, (a: Asset) => a.id != id);
  }

  // ---------------------------------------------------------------- create / edit

  /** Asset ids: "AST-" and the register length plus 8, zero-padded to three digits. */
  function AssetId(n: nat): string
  {
    PaddedId("AST-", n)
  }

  function NewAsset(count: nat, data: FormValues, today: string): Asset
  {
    Asset(
      id := AssetId(count + 8),
      name := data.name,
      assetType := data.assetType,
      location := data.location,
      status := data.status,
      healthScore := 100,
      lastMaintenance := "N/A",
      nextMaintenance := "Not scheduled",
      purchaseDate := Some(if data.purchaseDate.Some? then data.purchaseDate.value else today),
      manufacturer := data.manufacturer,
      model := data.model,
      serialNumber := data.serialNumber,
      description := data.description,
      warrantyExpiration := data.warrantyExpiration)
  }

  /** Creating appends one asset in perfect health, never maintained and not scheduled,
      with the form's fields and a purchase date (today when none was picked), and leaves
      the existing assets as they were. */
  function CreateAsset(assets: seq<Asset>, data: FormValues, today: string): (r: seq<Asset>)
    ensures |r| == |assets| + 1 && r[..|assets|] == assets
    ensures var a := r[|assets|];
            && a.id == AssetId(|assets| + 8)
            && a.healthScore == 100 && a.lastMaintenance == "N/A"
            && a.nextMaintenance == "Not scheduled"
            && a.name == data.name && a.assetType == data.assetType
            && a.location == data.location && a.status == data.status
            && a.serialNumber == data.serialNumber && a.manufacturer == data.manufacturer
            && a.model == data.model && a.description == data.description
            && a.warrantyExpiration == data.warrantyExpiration
            && (data.purchaseDate.Some? ==> a.purchaseDate == data.purchaseDate)
            && (data.purchaseDate.None? ==> a.purchaseDate == Some(today))
  {
    assets + [NewAsset(|assets|, data, today)]
  }

  /** The edited copy: every form field spread over the old record. The edit form always
      carries both date keys, so both dates are overwritten, with `undefined` where the
      picker was cleared; id, health and maintenance dates stay. */
  function Edited(a: Asset, data: FormValues): Asset
  {
    a.(name := data.name,
       assetType := data.assetType,
       location := data.location,
       status := data.status,
       manufacturer := data.manufacturer,
       model := data.model,
       serialNumber := data.serialNumber,
       purchaseDate := data.purchaseDate,
       description := data.description,
       warrantyExpiration := data.warrantyExpiration)
  }

  /** Editing rewrites exactly the assets with the selected id: each takes every field the
      form holds, both dates included, and keeps its id, health score and maintenance
      dates. */
  function EditAsset(assets: seq<Asset>, selectedId: string, data: FormValues): (r: seq<Asset>)
    ensures |r| == |assets|
    ensures forall i :: 0 <= i < |assets| && assets[i].id != selectedId ==> r[i] == assets[i]
    ensures forall i :: 0 <= i < |assets| && assets[i].id == selectedId ==>
              && r[i].id == selectedId && r[i].name == data.name
              && r[i].status == data.status && r[i].assetType == data.assetType
              && r[i].location == data.location && r[i].manufacturer == data.manufacturer
              && r[i].model == data.model && r[i].serialNumber == data.serialNumber
              && r[i].description == data.description
              && r[i].warrantyExpiration == data.warrantyExpiration
              && r[i].purchaseDate == data.purchaseDate
              && r[i].healthScore == assets[i].healthScore
              && r[i].lastMaintenance == assets[i].lastMaintenance
              && r[i].nextMaintenance == assets[i].nextMaintenance
  {
    seq(|assets|, i requires 0 <= i < |assets| =>
      if assets[i].id == selectedId then Edited(assets[i], data) else assets[i])
  }

  /** The form's submit handler on the list: an edit in edit mode with an asset selected,
      a creation otherwise. */
  function SubmitAsset(assets: seq<Asset>, editMode: bool, selected: Option<Asset>,
                       data: FormValues, today: string): (r: seq<Asset>)
    ensures editMode && selected.Some? ==> |r| == |assets|
    ensures !(editMode && selected.Some?) ==> |r| == |assets| + 1 && r[..|assets|] == assets
  {
    if editMode && selected.Some? then EditAsset(assets, selected.value.id, data)
    else CreateAsset(assets, data, today)
  }

  // ---------------------------------------------------------------- scheduling

  /** The status an asset has after maintenance is scheduled for it. */
  function ScheduledStatus(s: AssetStatus): (r: AssetStatus)
    ensures r != NeedsMaintenance
    ensures s != NeedsMaintenance ==> r == s
  {
    if s == NeedsMaintenance then Operational else s
  }

  /** Submitting the scheduling dialog: without a selected asset nothing happens; otherwise
      the assets with its id get the scheduled date and leave "needs-maintenance" for
      "operational", and nothing else changes. */
  function ScheduleMaintenance(assets: seq<Asset>, selected: Option<Asset>, scheduledDate: string)
    : (r: seq<Asset>)
    ensures selected.None? ==> r == assets
    ensures |r| == |assets|
    ensures selected.Some? ==>
              forall i :: 0 <= i < |assets| ==>
                if assets[i].id == selected.value.id then
                  && r[i].nextMaintenance == scheduledDate
                  && (assets[i].status == NeedsMaintenance ==> r[i].status == Operational)
                  && (assets[i].status != NeedsMaintenance ==> r[i].status == assets[i].status)
                  && r[i].(nextMaintenance := assets[i].nextMaintenance,
                           status := assets[i].status) == assets[i]
                else r[i] == assets[i]
  {
    if selected.None? then assets
    else
      seq(|assets|, i requires 0 <= i < |assets| =>
        var a := assets[i];
        if a.id == selected.value.id
        then a.(nextMaintenance := scheduledDate, status := ScheduledStatus(a.status))
        else a)
  }

  /** Scheduling the same date twice is the same as scheduling it once. */
  lemma ScheduleMaintenanceIdempotent(assets: seq<Asset>, selected: Option<Asset>, date: string)
    ensures ScheduleMaintenance(ScheduleMaintenance(assets, selected, date), selected, date)
            == ScheduleMaintenance(assets, selected, date)
  {
  }

  // ---------------------------------------------------------------- health bands

  datatype HealthBand = Excellent | Good | Fair | Poor | CriticalHealth

  /** Position of a band, from worst (0) to best (4). */
  function BandRank(b: HealthBand): nat
  {
    match b
    case CriticalHealth => 0
    case Poor => 1
    case Fair => 2
    case Good => 3
    case Excellent => 4
  }

  /** The health badge, shared by the asset table and the asset details: a score exactly
      on a cut point belongs to the higher band. */
  function HealthBadge(score: int): (b: HealthBand)
    ensures b == Excellent <==> score >= 90
    ensures b == Good <==> 75 <= score < 90
    ensures b == Fair <==> 60 <= score < 75
    ensures b == Poor <==> 40 <= score < 60
    ensures b == CriticalHealth <==> score < 40
  {
    if score >= 90 then Excellent
    else if score >= 75 then Good
    else if score >= 60 then Fair
    else if score >= 40 then Poor
    else CriticalHealth
  }

  /** The colour class of the health bar in the asset table. */
  function HealthBarColour(score: int): string
  {
    if score >= 90 then "bg-green-500"
    else if score >= 75 then "bg-green-400"
    else if score >= 60 then "bg-yellow-500"
    else if score >= 40 then "bg-orange-500"
    else "bg-red-500"
  }

  /** The bar colour that goes with each badge band. */
  function BandColour(b: HealthBand): string
  {
    match b
    case Excellent => "bg-green-500"
    case Good => "bg-green-400"
    case Fair => "bg-yellow-500"
    case Poor => "bg-orange-500"
    case CriticalHealth => "bg-red-500"
  }

  /** The bar and the badge always agree: the bar's colour is the colour of the badge's
      band, and different bands have different colours. */
  lemma BarAgreesWithBadge(score: int)
    ensures HealthBarColour(score) == BandColour(HealthBadge(score))
    ensures forall b1: HealthBand, b2: HealthBand :: BandColour(b1) == BandColour(b2) ==> b1 == b2
  {
  }

  /** A higher score never gives a worse band. */
  lemma HealthBadgeMonotone(s: int, t: int)
    requires s <= t
    ensures BandRank(HealthBadge(s)) <= BandRank(HealthBadge(t))
  {
  }
}
