/** The asset history dialog: the maintenance records with their cost totals, the
    health history derived from the asset's score, and the chart series. */
module AssetHistory {
  import opened Common
  import opened Assets

  datatype MaintenanceType = Preventive | Corrective | Inspection

  /** A maintenance record. Costs are whole dollars; durations are hours. */
  datatype MaintenanceRecord = MaintenanceRecord(
    id: string,
    date: string,
    kind: MaintenanceType,
    description: string,
    technician: string,
    cost: int,
    parts: seq<string>,
    duration: real)

  /** The records the dialog shows, newest first. */
  const Records: seq<MaintenanceRecord> := [
    MaintenanceRecord("M-001", "2023-05-15", Preventive,
      "Regular scheduled maintenance. Replaced filters and performed system check.",
      "John Smith", 350, ["Air filter", "Oil filter"], 2.5),
    MaintenanceRecord("M-002", "2023-03-10", Corrective,
      "Repaired leak in cooling system. Replaced damaged gasket.",
      "Maria Rodriguez", 520, ["Gasket", "Coolant"], 4.0),
    MaintenanceRecord("M-003", "2023-01-22", Inspection,
      "Quarterly inspection. All systems functioning within normal parameters.",
      "David Chen", 150, [], 1.5),
    MaintenanceRecord("M-004", "2022-11-05", Preventive,
      "Annual maintenance. Replaced worn components and updated firmware.",
      "Sarah Johnson", 780, ["Control board", "Sensors", "Lubricant"], 6.0),
    MaintenanceRecord("M-005", "2022-08-17", Corrective,
      "Emergency repair after power surge. Replaced damaged electronics.",
      "John Smith", 1200, ["Power supply", "Circuit breaker"], 8.0)
  ]

  // ---------------------------------------------------------------- costs

  /** `records.reduce((sum, r) => sum + r.cost, acc)`: costs added front to back. */
  function ReduceCost(acc: int, records: seq<MaintenanceRecord>): int
    decreases |records|
  {
    if |records| == 0 then acc else ReduceCost(acc + records[0].cost, records[1..])
  }

  /** The sum of the costs, as a plain recursive sum. */
  function SumCost(records: seq<MaintenanceRecord>): int
  {
    if |records| == 0 then 0 else records[0].cost + SumCost(records[1..])
  }

  /** The reduction started from `acc` is `acc` plus the sum of the costs. */
  lemma {:induction false} ReduceCostIsSum(acc: int, records: seq<MaintenanceRecord>)
    ensures ReduceCost(acc, records) == acc + SumCost(records)
    decreases |records|
  {
    if |records| > 0 {
      ReduceCostIsSum(acc + records[0].cost, records[1..]);
    }
  }

  /** The "Total Cost" figure. */
  function TotalCost(records: seq<MaintenanceRecord>): (r: int)
    ensures r == SumCost(records)
  {
    ReduceCostIsSum(0, records);
    ReduceCost(0, records)
  }

  function OfKind(t: MaintenanceType): MaintenanceRecord -> bool
  {
    (r: MaintenanceRecord) => r.kind == t
  }

  /** The total of one kind of maintenance. */
  function KindCost(records: seq<MaintenanceRecord>, t: MaintenanceType): (r: int)
    ensures r == SumCost(Filter(records, OfKind(t)))
  {
    TotalCost(Filter(records, OfKind(t)))
  }

  /** Every record is of one of the three kinds, so the three per-kind totals add up to
      the total. */
  lemma {:induction false} KindCostsPartitionTotal(records: seq<MaintenanceRecord>)
    ensures KindCost(records, Preventive) + KindCost(records, Corrective)
            + KindCost(records, Inspection) == TotalCost(records)
    decreases |records|
  {
    if |records| > 0 {
      KindCostsPartitionTotal(records[1..]);
    }
  }

  /** With non-negative costs, no kind's total exceeds the total. */
  lemma KindCostBounded(records: seq<MaintenanceRecord>, t: MaintenanceType)
    requires forall i :: 0 <= i < |records| ==> records[i].cost >= 0
    ensures 0 <= KindCost(records, t) <= TotalCost(records)
  {
    var p := KindCost(records, Preventive);
    var c := KindCost(records, Corrective);
    var n := KindCost(records, Inspection);
    KindCostsPartitionTotal(records);
    FilterNonNegative(records, Preventive);
    FilterNonNegative(records, Corrective);
    FilterNonNegative(records, Inspection);
    assert p >= 0 && c >= 0 && n >= 0;
    assert KindCost(records, t) == (match t case Preventive => p case Corrective => c case Inspection => n);
  }

  lemma FilterNonNegative(records: seq<MaintenanceRecord>, t: MaintenanceType)
    requires forall i :: 0 <= i < |records| ==> records[i].cost >= 0
    ensures KindCost(records, t) >= 0
  {
    var f := Filter(records, OfKind(t));
    assert forall i :: 0 <= i < |f| ==> f[i] in records;
    NonNegativeSum(f);
  }

  lemma {:induction false} NonNegativeSum(records: seq<MaintenanceRecord>)
    requires forall i :: 0 <= i < |records| ==> records[i].cost >= 0
    ensures SumCost(records) >= 0
    decreases |records|
  {
    if |records| > 0 {
      NonNegativeSum(records[1..]);
    }
  }

  /** `Math.max(...costs)`: the highest cost, absent for an empty history (where the
      dialog would show negative infinity). */
  function MaxCost(records: seq<MaintenanceRecord>): (r: Option<int>)
    ensures r.None? <==> |records| == 0
    ensures r.Some? ==> (forall i :: 0 <= i < |records| ==> records[i].cost <= r.value)
                        && exists i :: 0 <= i < |records| && records[i].cost == r.value
    decreases |records|
  {
    if |records| == 0 then None
    else
      match MaxCost(records[1..])
      case None => Some(records[0].cost)
      case Some(m) =>
        assert exists i :: 1 <= i < |records| && records[i].cost == m by {
          var j :| 0 <= j < |records[1..]| && records[1..][j].cost == m;
          assert records[j + 1].cost == m;
        }
        Some(if records[0].cost >= m then records[0].cost else m)
  }

  /** The dialog's figures for its mock records. */
  lemma RecordTotals()
    ensures TotalCost(Records) == 3000
    ensures KindCost(Records, Inspection) == 150
  {
    assert SumCost(Records[4..]) == 1200;
    assert SumCost(Records[3..]) == 1980;
    assert SumCost(Records[2..]) == 2130;
    assert SumCost(Records[1..]) == 2650;
    assert Filter(Records, OfKind(Inspection)) == [Records[2]] by {
      assert Filter(Records[3..], OfKind(Inspection)) == [] by {
        FilterDropsAll(Records[3..], OfKind(Inspection));
      }
    }
  }

  lemma RecordMaximum()
    ensures MaxCost(Records) == Some(1200)
  {
    var m := MaxCost(Records);
    assert Records[4].cost == 1200;
    assert forall i :: 0 <= i < 5 ==> Records[i].cost <= 1200;
  }

  // ---------------------------------------------------------------- health history

  /** How far below the current score each of the ten past readings lies, newest first. */
  const HealthOffsets: seq<int> := [0, 5, 8, 12, 25, 18, 15, 10, 5, 2]

  const HealthDates: seq<string> := [
    "2023-05-15", "2023-03-10", "2023-01-22", "2022-11-05", "2022-08-17",
    "2022-06-03", "2022-04-12", "2022-02-28", "2022-01-15", "2021-12-01"
  ]

  datatype HealthRecord = HealthRecord(date: string, score: int)

  /** The ten health readings of an asset, derived from its current score. */
  function HealthHistory(healthScore: int): (r: seq<HealthRecord>)
    ensures |r| == 10
    ensures r[0].score == healthScore
    ensures forall i :: 0 <= i < 10 ==> healthScore - 25 <= r[i].score <= healthScore
  {
    seq(10, i requires 0 <= i < 10 => HealthRecord(HealthDates[i], healthScore - HealthOffsets[i]))
  }

  /** No reading is clamped: with a current score below 25 the oldest-but-five reading
      is negative. */
  lemma HealthHistoryIsNotClamped(healthScore: int)
    ensures HealthHistory(healthScore)[4].score == healthScore - 25
    ensures healthScore < 25 ==> HealthHistory(healthScore)[4].score < 0
  {
  }

  // ---------------------------------------------------------------- charts

  datatype CostPoint = CostPoint(date: string, cost: int, kind: MaintenanceType)

  /** The chart series run oldest first: the lists mapped and reversed. */
  function HealthSeries(history: seq<HealthRecord>): (r: seq<HealthRecord>)
    ensures |r| == |history|
    ensures forall i :: 0 <= i < |r| ==> r[i] == history[|history| - 1 - i]
  {
    Reverse(history)
  }

  function CostSeries(records: seq<MaintenanceRecord>): (r: seq<CostPoint>)
    ensures |r| == |records|
    ensures forall i :: 0 <= i < |r| ==>
              var rec := records[|records| - 1 - i];
              r[i] == CostPoint(rec.date, rec.cost, rec.kind)
  {
    Reverse(seq(|records|, i requires 0 <= i < |records| =>
      CostPoint(records[i].date, records[i].cost, records[i].kind)))
  }

  /** Reading a series back to front gives the list it was drawn from. */
  lemma HealthSeriesReversible(history: seq<HealthRecord>)
    ensures Reverse(HealthSeries(history)) == history
  {
    ReverseInvolutive(history);
  }

  // ---------------------------------------------------------------- dialog

  /** What the dialog shows. */
  datatype View = View(
    records: seq<MaintenanceRecord>,
    health: seq<HealthRecord>,
    healthChart: seq<HealthRecord>,
    costChart: seq<CostPoint>,
    totalCost: int,
    maxCost: Option<int>)

  /** Without an asset the dialog renders nothing; otherwise it shows the records and the
      health history of the asset's score, with charts and figures derived from them. */
  function Render(asset: Option<Asset>): (v: Option<View>)
    ensures v.None? <==> asset.None?
    ensures v.Some? ==> |v.value.health| == 10 && v.value.health[0].score == asset.value.healthScore
                        && |v.value.healthChart| == 10
                        && v.value.healthChart[9] == v.value.health[0]
                        && v.value.totalCost == SumCost(v.value.records)
  {
    if asset.None? then None
    else
      var health := HealthHistory(asset.value.healthScore);
      Some(View(Records, health, HealthSeries(health), CostSeries(Records),
                TotalCost(Records), MaxCost(Records)))
  }
}
