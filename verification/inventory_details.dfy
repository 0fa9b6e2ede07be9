/** The inventory details dialog: the stock badge computed from the ratio of quantity to
    minimum, the stock bar's colour and the trend line. The ratio is never formed: each
    comparison `quantity / minQuantity <= num / den` is decided by cross-multiplying, with
    the division's sign and its infinities taken into account. */
module InventoryDetails {
  import opened Inventory

  /** `q / m <= num / den` for a positive `den`, with IEEE division: for `m == 0` the
      ratio is +Infinity (q > 0), -Infinity (q < 0) or NaN (q == 0, never below anything). */
  predicate RatioAtMost(q: int, m: int, num: int, den: int)
    requires den > 0
  {
    if m > 0 then q * den <= num * m
    else if m < 0 then q * den >= num * m
    else q < 0
  }

  datatype StockBadge = OutOfStockBadge | Critical | Low | Moderate | Healthy

  /** Position of a badge, from worst (0) to best (4). */
  function BadgeRank(b: StockBadge): nat
  {
    match b
    case OutOfStockBadge => 0
    case Critical => 1
    case Low => 2
    case Moderate => 3
    case Healthy => 4
  }

  /** The stock badge: "Out of Stock" for an empty bin, then Critical up to half the
      minimum, Low up to the minimum, Moderate up to twice the minimum, Healthy above. */
  function Badge(q: int, m: int): (b: StockBadge)
    ensures b == OutOfStockBadge <==> q == 0
    ensures q != 0 && m >= 0 ==>
              && (b == Critical <==> 2 * q <= m)
              && (b == Low <==> m < 2 * q && q <= m)
              && (b == Moderate <==> m < q && q <= 2 * m)
              && (b == Healthy <==> 2 * m < q)
    ensures q != 0 && m < 0 ==>
              && (b == Critical <==> 2 * q >= m)
              && (b == Low <==> 2 * q < m && q >= m)
              && (b == Moderate <==> q < m && q >= 2 * m)
              && (b == Healthy <==> q < 2 * m)
  {
    if q == 0 then OutOfStockBadge
    else if RatioAtMost(q, m, 1, 2) then Critical
    else if RatioAtMost(q, m, 1, 1) then Low
    else if RatioAtMost(q, m, 2, 1) then Moderate
    else Healthy
  }

  /** The colour each badge is drawn in. */
  function BadgeColour(b: StockBadge): string
  {
    match b
    case OutOfStockBadge => "bg-red-500"
    case Critical => "bg-red-500"
    case Low => "bg-orange-500"
    case Moderate => "bg-yellow-500"
    case Healthy => "bg-green-500"
  }

  /** The colour of the stock bar, from direct comparisons with multiples of the minimum
      (`m * 0.5` is compared as `2 * q <= m`). */
  function BarColour(q: int, m: int): string
  {
    if q == 0 then "bg-red-500"
    else if 2 * q <= m then "bg-red-500"
    else if q <= m then "bg-orange-500"
    else if q <= 2 * m then "bg-yellow-500"
    else "bg-green-500"
  }

  /** With a non-negative minimum the bar uses the badge's cut points: its colour is the
      colour of the badge. */
  lemma BarAgreesWithBadge(q: int, m: int)
    requires m >= 0
    ensures BarColour(q, m) == BadgeColour(Badge(q, m))
  {
  }

  /** For a fixed non-negative minimum, more stock never gives a worse badge. */
  lemma BadgeMonotone(q1: int, q2: int, m: int)
    requires 0 <= q1 <= q2 && m >= 0
    ensures BadgeRank(Badge(q1, m)) <= BadgeRank(Badge(q2, m))
  {
  }

  /** The trend line of the activity list. */
  function Trend(q: int, m: int): (t: string)
    ensures t == "Stock Level Healthy" <==> q > m
    ensures t == "Stock Level Low" <==> q <= m
  {
    if q > m then "Stock Level Healthy" else "Stock Level Low"
  }

  /** For stock on hand and a non-negative minimum, the trend says healthy exactly when the
      badge is Moderate or Healthy. */
  lemma TrendAgreesWithBadge(q: int, m: int)
    requires q > 0 && m >= 0
    ensures Trend(q, m) == "Stock Level Healthy" <==> Badge(q, m) in {Moderate, Healthy}
  {
  }

  /** The list's colour dot and the badge tell the same story: red exactly when out of
      stock, yellow exactly when the badge is Critical or Low. */
  lemma ListColourAgreesWithBadge(q: int, m: int)
    requires m >= 0
    ensures StockColour(q, m) == "bg-red-500" <==> Badge(q, m) == OutOfStockBadge
    ensures StockColour(q, m) == "bg-yellow-500" <==> Badge(q, m) in {Critical, Low}
    ensures StockColour(q, m) == "bg-green-500" <==> Badge(q, m) in {Moderate, Healthy}
  {
  }
}
