/** The notification centre: the generated feed (ten fixed samples and fifteen drawn at
    random, newest first), the unread count, the tab and category filter, and the
    mark-as-read and delete actions. Timestamps are milliseconds since the epoch; the
    current time and the random draws are parameters. */
module Notifications {
  import opened Common
  import opened Text
  import opened Dates

  datatype NotificationType = Alert | Update | Reminder

  datatype Category = WorkOrderCategory | AssetCategory | MaintenanceCategory | SystemCategory

  /** The value the category drop-down filters by. */
  function CategoryName(c: Category): string
  {
    match c
    case WorkOrderCategory => "work-order"
    case AssetCategory => "asset"
    case MaintenanceCategory => "maintenance"
    case SystemCategory => "system"
  }

  datatype Notification = Notification(
    id: string,
    kind: NotificationType,
    title: string,
    message: string,
    time: string,
    timestamp: int,
    isRead: bool,
    category: Option<Category>,
    relatedId: Option<string>)

  /** Notification ids: "notif-" and the one-based position of creation. */
  function NotificationId(n: nat): (id: string)
    ensures |id| > 6 && id[..6] == "notif-" && AllDigits(id[6..])
  {
    var id := "notif-" + NatToDecimal(n);
    assert id[6..] == NatToDecimal(n);
    id
  }

  lemma NotificationIdInjective(a: nat, b: nat)
    requires NotificationId(a) == NotificationId(b)
    ensures a == b
  {
    assert NotificationId(a)[6..] == NatToDecimal(a);
    assert NotificationId(b)[6..] == NatToDecimal(b);
    NatToDecimalInjective(a, b);
  }

  // ---------------------------------------------------------------- time labels

  /** `Math.round(a / b)` for non-negative `a` and positive `b`: halves round up. */
  function RoundDiv(a: nat, b: nat): (r: nat)
    requires b > 0
    ensures 2 * a < (2 * r + 1) * b && (2 * r - 1) * b <= 2 * a
  {
    (2 * a + b) / (2 * b)
  }

  /** The label of a randomly generated notification `h` whole hours old. */
  function HoursLabel(h: nat): string
  {
    if h < 24 then NatToDecimal(h) + " hours ago" else NatToDecimal(h / 24) + " days ago"
  }

  /** The label's leading number reads back as the hours below a day and as the whole
      days from a day on. */
  lemma HoursLabelReadsBack(h: nat)
    ensures ParseIntOrZero(HoursLabel(h)) == if h < 24 then h else h / 24
  {
    var n := if h < 24 then h else h / 24;
    var rest := if h < 24 then " hours ago" else " days ago";
    assert HoursLabel(h) == NatToDecimal(n) + rest;
    ParseIntOfDigits(NatToDecimal(n), rest);
    DecimalRoundTrip(n);
  }

  /** The label's last nine characters name the unit: hours below a day, days from a day on. */
  lemma HoursLabelUnit(h: nat)
    ensures var l := HoursLabel(h);
            && |l| >= 10
            && (l[|l| - 9..] == "hours ago" <==> h < 24)
            && (l[|l| - 9..] == " days ago" <==> h >= 24)
  {
    var rest := if h < 24 then " hours ago" else " days ago";
    var l := HoursLabel(h);
    assert l[|l| - 9..] == rest[|rest| - 9..];
  }

  /** The label of a sample notification whose age is `tenths` tenths of an hour:
      rounded minutes below an hour, rounded hours below a day, rounded days after. */
  function SampleLabel(tenths: nat): string
  {
    if tenths < 10 then NatToDecimal(tenths * 6) + " minutes ago"
    else if tenths < 240 then NatToDecimal(RoundDiv(tenths, 10)) + " hours ago"
    else NatToDecimal(RoundDiv(tenths, 240)) + " days ago"
  }

  /** For whole hours below a day the sample labelling and the random labelling agree. */
  lemma LabelsAgreeBelowADay(h: nat)
    requires 0 < h < 24
    ensures SampleLabel(10 * h) == HoursLabel(h)
  {
    assert RoundDiv(10 * h, 10) == h;
  }

  /** From a day on they differ: the samples round the days, the random notifications
      truncate them, so 36 hours reads "2 days ago" in one and "1 days ago" in the other. */
  lemma LabelsDifferFromADay()
    ensures SampleLabel(360) == "2 days ago"
    ensures HoursLabel(36) == "1 days ago"
  {
    assert RoundDiv(360, 240) == 2;
  }

  // ---------------------------------------------------------------- generation

  /** One of the ten fixed sample notifications; its age is in tenths of an hour. */
  datatype Sample = Sample(
    kind: NotificationType,
    title: string,
    message: string,
    tenths: nat,
    isRead: bool,
    category: Category,
    relatedId: Option<string>)

  const Samples: seq<Sample> := [
    Sample(Alert, "Critical Alert", "HVAC System in Building A requires immediate attention",
           2, false, AssetCategory, Some("AST-001")),
    Sample(Update, "Work Order Updated", "WO-2023-089 has been completed by John Smith",
           10, true, WorkOrderCategory, Some("WO-2023-089")),
    Sample(Reminder, "Scheduled Maintenance", "Preventive maintenance for Generator #4 due tomorrow",
           30, false, MaintenanceCategory, Some("MT-2023-045")),
    Sample(Alert, "Low Inventory", "Replacement filters inventory below threshold",
           50, true, SystemCategory, None),
    Sample(Update, "Asset Status Changed", "Elevator #3 status changed to 'Under Repair'",
           60, false, AssetCategory, Some("AST-002")),
    Sample(Reminder, "Work Order Due Soon", "WO-2023-092 is due in 2 days",
           80, false, WorkOrderCategory, Some("WO-2023-092")),
    Sample(Update, "New Work Order Assigned", "You have been assigned to WO-2023-095",
           100, true, WorkOrderCategory, Some("WO-2023-095")),
    Sample(Alert, "Maintenance Overdue", "Scheduled maintenance for Boiler #2 is overdue",
           120, false, MaintenanceCategory, Some("MT-2023-038")),
    Sample(Update, "System Update", "System will be down for maintenance tonight from 2-4 AM",
           240, true, SystemCategory, None),
    Sample(Reminder, "License Expiring", "Equipment license for Forklift #3 expires in 7 days",
           300, false, AssetCategory, Some("AST-015"))
  ]

  /** Integer division truncating toward zero, as `setHours` truncates a fractional hour. */
  function TruncDiv(a: int, b: nat): int
    requires b > 0
  {
    if a >= 0 then a / b else -((-a) / b)
  }

  /** How many whole hours `setHours(getHours() - tenths / 10)` moves the clock back when
      the current local hour is `nowHour`: a fractional hour is truncated toward zero. */
  function SampleShift(nowHour: nat, tenths: nat): (h: int)
    requires nowHour < 24
    ensures tenths % 10 == 0 ==> h == tenths / 10
  {
    nowHour - TruncDiv(10 * nowHour - tenths, 10)
  }

  /** The first sample, 0.2 hours old, is stamped one hour back, or not at all at midnight. */
  lemma FirstSampleShift(nowHour: nat)
    requires nowHour < 24
    ensures SampleShift(nowHour, Samples[0].tenths) == if nowHour == 0 then 0 else 1
  {
  }

  function SampleNotification(now: int, nowHour: nat, k: nat): (n: Notification)
    requires nowHour < 24 && k < |Samples|
  {
    var x := Samples[k];
    Notification(NotificationId(k + 1), x.kind, x.title, x.message, SampleLabel(x.tenths),
                 now - SampleShift(nowHour, x.tenths) * HourMillis, x.isRead, Some(x.category),
                 x.relatedId)
  }

  /** What `Math.random` decides for one of the fifteen generated notifications. */
  datatype Draw = Draw(kind: NotificationType, category: Category, hoursAgo: int, isRead: bool)

  /** The draws `Math.random` can produce: ages of 1 to 72 whole hours. */
  predicate ValidDraws(draws: seq<Draw>)
  {
    |draws| == 15 && forall i :: 0 <= i < |draws| ==> 1 <= draws[i].hoursAgo <= 72
  }

  /** The title, message and related id of a generated notification, chosen by its type
      and category; the ids it mentions are numbered from its position `i`. */
  function RandomText(i: nat, kind: NotificationType, category: Category): (string, string, Option<string>)
  {
    var asset := PaddedId("AST-", i + 20);
    var order := PaddedId("WO-2023-", i + 100);
    var task := PaddedId("MT-2023-", i + 50);
    match kind
    case Alert =>
      if category == AssetCategory then
        ("Asset Alert", "Asset " + asset + " requires attention", Some(asset))
      else if category == WorkOrderCategory then
        ("Work Order Alert", "Work Order " + order + " is high priority", Some(order))
      else ("System Alert", "System performance issue detected", None)
    case Update =>
      if category == WorkOrderCategory then
        ("Work Order Updated", "Work Order " + order + " status changed", Some(order))
      else if category == AssetCategory then
        ("Asset Updated", "Asset " + asset + " information updated", Some(asset))
      else ("Maintenance Update", "Maintenance schedule updated for next week", None)
    case Reminder =>
      if category == MaintenanceCategory then
        ("Maintenance Reminder", "Scheduled maintenance due for " + task, Some(task))
      else if category == WorkOrderCategory then
        ("Work Order Reminder", "Work Order " + order + " due soon", Some(order))
      else ("System Reminder", "Remember to complete your weekly reports", None)
  }

  /** A related id is given exactly for an asset alert or update, a work-order notification
      and a maintenance reminder, and then the message mentions it. */
  lemma RandomTextRelatedIds(i: nat, kind: NotificationType, category: Category)
    ensures var (_, message, related) := RandomText(i, kind, category);
            && (related.Some? <==>
                 || category == WorkOrderCategory
                 || (category == AssetCategory && kind != Reminder)
                 || (category == MaintenanceCategory && kind == Reminder))
            && (related.Some? ==> Contains(message, related.value))
  {
    var asset := PaddedId("AST-", i + 20);
    var order := PaddedId("WO-2023-", i + 100);
    var task := PaddedId("MT-2023-", i + 50);
    ContainsMiddle("Asset ", asset, " requires attention");
    ContainsMiddle("Asset ", asset, " information updated");
    ContainsMiddle("Work Order ", order, " is high priority");
    ContainsMiddle("Work Order ", order, " status changed");
    ContainsMiddle("Work Order ", order, " due soon");
    ContainsMiddle("Scheduled maintenance due for ", task, "");
    assert "Scheduled maintenance due for " + task + "" == "Scheduled maintenance due for " + task;
  }

  function RandomNotification(now: int, i: nat, d: Draw): (n: Notification)
    requires 1 <= d.hoursAgo <= 72
  {
    var (title, message, related) := RandomText(i, d.kind, d.category);
    Notification(NotificationId(|Samples| + i + 1), d.kind, title, message, HoursLabel(d.hoursAgo),
                 now - d.hoursAgo * HourMillis, d.isRead, Some(d.category), related)
  }

  /** The feed in creation order: the samples, then the generated notifications. */
  function Unsorted(now: int, nowHour: nat, draws: seq<Draw>): (r: seq<Notification>)
    requires nowHour < 24 && ValidDraws(draws)
    ensures |r| == 25
    ensures forall k :: 0 <= k < 25 ==> r[k].id == NotificationId(k + 1)
  {
    seq(|Samples|, k requires 0 <= k < |Samples| => SampleNotification(now, nowHour, k))
    + seq(|draws|, i requires 0 <= i < |draws| && ValidDraws(draws) => RandomNotification(now, i, draws[i]))
  }

  // ---------------------------------------------------------------- newest first

  predicate NewestFirst(s: seq<Notification>)
  {
    forall i, j :: 0 <= i < j < |s| ==> s[i].timestamp >= s[j].timestamp
  }

  /** Inserts `x` into a newest-first list ahead of every notification no newer than it. */
  function InsertNewest(x: Notification, s: seq<Notification>): (r: seq<Notification>)
    requires NewestFirst(s)
    ensures NewestFirst(r)
    ensures multiset(r) == multiset(s) + multiset{x}
    ensures |r| == |s| + 1
  {
    if |s| == 0 || s[0].timestamp <= x.timestamp then [x] + s
    else
      var t := InsertNewest(x, s[1..]);
      assert s == [s[0]] + s[1..];
      NoNewerThanHead(x, s, t);
      [s[0]] + t
  }

  lemma NoNewerThanHead(x: Notification, s: seq<Notification>, t: seq<Notification>)
    requires |s| > 0 && NewestFirst(s) && NewestFirst(t) && x.timestamp < s[0].timestamp
    requires multiset(t) == multiset(s[1..]) + multiset{x}
    ensures NewestFirst([s[0]] + t)
  {
    forall j | 0 <= j < |t|
      ensures t[j].timestamp <= s[0].timestamp
    {
      assert t[j] in multiset(t);
      if t[j] != x {
        assert t[j] in s[1..];
      }
    }
  }

  /** `sort((a, b) => b.timestamp - a.timestamp)`: the same notifications, newest first. */
  function SortNewest(s: seq<Notification>): (r: seq<Notification>)
    ensures NewestFirst(r)
    ensures multiset(r) == multiset(s)
    ensures |r| == |s|
  {
    if |s| == 0 then []
    else
      assert s == [s[0]] + s[1..];
      InsertNewest(s[0], SortNewest(s[1..]))
  }

  /** The generated feed. */
  function Generate(now: int, nowHour: nat, draws: seq<Draw>): (r: seq<Notification>)
    requires nowHour < 24 && ValidDraws(draws)
    ensures |r| == 25 && NewestFirst(r)
    ensures multiset(r) == multiset(Unsorted(now, nowHour, draws))
  {
    SortNewest(Unsorted(now, nowHour, draws))
  }

  /** The ids of a list of notifications. */
  function IdsOf(s: seq<Notification>): set<string>
  {
    set i | 0 <= i < |s| :: s[i].id
  }

  /** The ids notif-1 to notif-m. */
  function NumberedIds(m: nat): set<string>
  {
    set n: nat | 1 <= n <= m :: NotificationId(n)
  }

  /** The feed holds the ids notif-1 to notif-25, each exactly once. */
  lemma GeneratedIds(now: int, nowHour: nat, draws: seq<Draw>)
    requires nowHour < 24 && ValidDraws(draws)
    ensures var r := Generate(now, nowHour, draws);
            && IdsOf(r) == NumberedIds(25)
            && (forall i, j :: 0 <= i < j < 25 ==> r[i].id != r[j].id)
  {
    PermutedIds(Unsorted(now, nowHour, draws), Generate(now, nowHour, draws));
  }

  /** A permutation of a list numbered notif-1, notif-2, ... holds each of those ids once. */
  lemma PermutedIds(u: seq<Notification>, r: seq<Notification>)
    requires forall k :: 0 <= k < |u| ==> u[k].id == NotificationId(k + 1)
    requires multiset(r) == multiset(u)
    ensures |r| == |u|
    ensures IdsOf(r) == NumberedIds(|u|)
    ensures forall i, j :: 0 <= i < j < |r| ==> r[i].id != r[j].id
  {
    assert |r| == |multiset(r)| == |multiset(u)| == |u|;
    forall id | id in NumberedIds(|u|)
      ensures id in IdsOf(r)
    {
      var n: nat :| 1 <= n <= |u| && id == NotificationId(n);
      assert u[n - 1] in multiset(r);
      var i :| 0 <= i < |r| && r[i] == u[n - 1];
    }
    forall id | id in IdsOf(r)
      ensures id in NumberedIds(|u|)
    {
      var i :| 0 <= i < |r| && r[i].id == id;
      assert r[i] in multiset(u);
      var k :| 0 <= k < |u| && u[k] == r[i];
      assert id == NotificationId(k + 1);
    }
    NumberedIdsDistinct(u);
    forall i, j | 0 <= i < j < |r|
      ensures r[i].id != r[j].id
    {
      PermutedIdsDistinct(u, r, i, j);
    }
  }

  lemma NumberedIdsDistinct(u: seq<Notification>)
    requires forall k :: 0 <= k < |u| ==> u[k].id == NotificationId(k + 1)
    ensures forall x, y :: 0 <= x < y < |u| ==> u[x].id != u[y].id
  {
    forall x, y | 0 <= x < y < |u|
      ensures u[x].id != u[y].id
    {
      if u[x].id == u[y].id {
        NotificationIdInjective(x + 1, y + 1);
      }
    }
  }

  lemma PermutedIdsDistinct(u: seq<Notification>, r: seq<Notification>, i: nat, j: nat)
    requires forall k :: 0 <= k < |u| ==> u[k].id == NotificationId(k + 1)
    requires forall x, y :: 0 <= x < y < |u| ==> u[x].id != u[y].id
    requires multiset(r) == multiset(u)
    requires i < j < |r|
    ensures r[i].id != r[j].id
  {
    if r[i].id == r[j].id {
      assert r[i] in multiset(u) && r[j] in multiset(u);
      var a :| 0 <= a < |u| && u[a] == r[i];
      var b :| 0 <= b < |u| && u[b] == r[j];
      NotificationIdInjective(a + 1, b + 1);
      MultiplicityOfDistinctIds(u, a);
      TwoPositionsMeanTwoCopies(r, i, j);
      assert false;
    }
  }

  /** In a list whose ids are all distinct, every entry occurs once. */
  lemma MultiplicityOfDistinctIds(u: seq<Notification>, a: nat)
    requires a < |u|
    requires forall x, y :: 0 <= x < y < |u| ==> u[x].id != u[y].id
    ensures multiset(u)[u[a]] == 1
  {
    assert u == u[..a] + [u[a]] + u[a + 1..];
    assert u[a] !in u[..a] && u[a] !in u[a + 1..];
  }

  lemma TwoPositionsMeanTwoCopies(r: seq<Notification>, i: nat, j: nat)
    requires i < j < |r| && r[i] == r[j]
    ensures multiset(r)[r[i]] >= 2
  {
    assert r == r[..i] + [r[i]] + r[i + 1..j] + [r[j]] + r[j + 1..];
  }

  // ---------------------------------------------------------------- unread count

  function IsUnread(): Notification -> bool
  {
    (n: Notification) => !n.isRead
  }

  /** The badge figure: how many notifications are unread. */
  function UnreadCount(ns: seq<Notification>): (c: nat)
    ensures c <= |ns|
    ensures c == 0 <==> forall i :: 0 <= i < |ns| ==> ns[i].isRead
    ensures c == |ns| <==> forall i :: 0 <= i < |ns| ==> !ns[i].isRead
  {
    var f := Filter(ns, IsUnread());
    CountWhereZero(ns, IsUnread());
    CountWhereFull(ns, IsUnread());
    |f|
  }

  /** Every element is counted exactly when the count is the length. */
  lemma {:induction false} CountWhereFull<T>(s: seq<T>, p: T -> bool)
    ensures CountWhere(s, p) <= |s|
    ensures CountWhere(s, p) == |s| <==> forall i :: 0 <= i < |s| ==> p(s[i])
    decreases |s|
  {
    if |s| > 0 {
      CountWhereFull(s[1..], p);
      assert forall i :: 1 <= i < |s| ==> s[i] == s[1..][i - 1];
    }
  }

  // ---------------------------------------------------------------- tabs

  /** The category drop-down: "all", or the category's name. A notification without a
      category is shown only under "all". */
  predicate InCategory(n: Notification, categoryFilter: string)
  {
    categoryFilter == "all" || (n.category.Some? && CategoryName(n.category.value) == categoryFilter)
  }

  /** What a tab shows, before the category is considered; unknown tabs show nothing. */
  predicate InTab(n: Notification, tab: string)
  {
    if tab == "all" then true
    else if tab == "unread" then !n.isRead
    else if tab == "alerts" then n.kind == Alert
    else if tab == "updates" then n.kind == Update
    else if tab == "reminders" then n.kind == Reminder
    else false
  }

  function Shown(tab: string, categoryFilter: string): Notification -> bool
  {
    (n: Notification) => InTab(n, tab) && InCategory(n, categoryFilter)
  }

  /** The notifications listed under a tab and category, in feed order. */
  function FilterNotifications(ns: seq<Notification>, tab: string, categoryFilter: string): (r: seq<Notification>)
    ensures IsSubsequence(r, ns)
    ensures forall x :: x in r ==> x in ns && InTab(x, tab) && InCategory(x, categoryFilter)
    ensures forall x :: x in ns && InTab(x, tab) && InCategory(x, categoryFilter) ==> x in r
    ensures forall x | x in ns && InTab(x, tab) && InCategory(x, categoryFilter) ::
              multiset(r)[x] == multiset(ns)[x]
  {
    Filter(ns, Shown(tab, categoryFilter))
  }

  /** A tab other than the five lists nothing. */
  lemma UnknownTabShowsNothing(ns: seq<Notification>, tab: string, categoryFilter: string)
    requires tab !in {"all", "unread", "alerts", "updates", "reminders"}
    ensures FilterNotifications(ns, tab, categoryFilter) == []
  {
    FilterDropsAll(ns, Shown(tab, categoryFilter));
  }

  /** The "all" tab under "all" categories lists the whole feed. */
  lemma AllTabShowsEverything(ns: seq<Notification>)
    ensures FilterNotifications(ns, "all", "all") == ns
  {
    FilterKeepsAll(ns, Shown("all", "all"));
  }

  /** The "unread" tab under "all" categories lists as many notifications as the badge
      counts. */
  lemma UnreadTabMatchesBadge(ns: seq<Notification>)
    ensures |FilterNotifications(ns, "unread", "all")| == UnreadCount(ns)
  {
    FilterCongruent(ns, Shown("unread", "all"), IsUnread());
  }

  /** Each notification has one of the three types, so the alert, update and reminder tabs
      together list as many notifications as the "all" tab, for any category. */
  lemma {:induction false} TypeTabsPartitionAll(ns: seq<Notification>, categoryFilter: string)
    ensures CountWhere(ns, Shown("alerts", categoryFilter))
            + CountWhere(ns, Shown("updates", categoryFilter))
            + CountWhere(ns, Shown("reminders", categoryFilter))
            == CountWhere(ns, Shown("all", categoryFilter))
    decreases |ns|
  {
    if |ns| > 0 {
      TypeTabsPartitionAll(ns[1..], categoryFilter);
    }
  }

  // ---------------------------------------------------------------- read / delete

  /** Marking one notification read: only the `isRead` flag of the notifications with the
      id changes. */
  function MarkAsRead(ns: seq<Notification>, id: string): (r: seq<Notification>)
    ensures |r| == |ns|
    ensures forall i :: 0 <= i < |ns| ==> r[i].(isRead := ns[i].isRead) == ns[i]
    ensures forall i :: 0 <= i < |ns| ==> r[i].isRead == (ns[i].isRead || ns[i].id == id)
  {
    seq(|ns|, i requires 0 <= i < |ns| => if ns[i].id == id then ns[i].(isRead := true) else ns[i])
  }

  function UnreadOther(id: string): Notification -> bool
  {
    (n: Notification) => !n.isRead && n.id != id
  }

  /** After marking `id` read, the unread count is the figure the handler logs: the
      notifications that were unread and carry another id. */
  lemma {:induction false} MarkAsReadCount(ns: seq<Notification>, id: string)
    ensures UnreadCount(MarkAsRead(ns, id)) == CountWhere(ns, UnreadOther(id))
    decreases |ns|
  {
    if |ns| > 0 {
      MarkAsReadCount(ns[1..], id);
      assert MarkAsRead(ns, id)[1..] == MarkAsRead(ns[1..], id);
    }
  }

  /** Marking everything read: every notification becomes read, nothing else changes. */
  function MarkAllAsRead(ns: seq<Notification>): (r: seq<Notification>)
    ensures |r| == |ns|
    ensures forall i :: 0 <= i < |ns| ==> r[i].isRead && r[i].(isRead := ns[i].isRead) == ns[i]
  {
    seq(|ns|, i requires 0 <= i < |ns| => ns[i].(isRead := true))
  }

  /** Afterwards the badge shows 0, and doing it again changes nothing. */
  lemma MarkAllAsReadClears(ns: seq<Notification>)
    ensures UnreadCount(MarkAllAsRead(ns)) == 0
    ensures MarkAllAsRead(MarkAllAsRead(ns)) == MarkAllAsRead(ns)
  {
  }

  /** Marking everything read agrees with marking each id read. */
  lemma MarkAllAsReadMarksEachId(ns: seq<Notification>, id: string)
    ensures MarkAsRead(MarkAllAsRead(ns), id) == MarkAllAsRead(ns)
    ensures MarkAllAsRead(MarkAsRead(ns, id)) == MarkAllAsRead(ns)
  {
  }

  function HasOtherId(id: string): Notification -> bool
  {
    (n: Notification) => n.id != id
  }

  /** Deleting removes the notifications with the id and keeps the rest in order. */
  function DeleteNotification(ns: seq<Notification>, id: string): (r: seq<Notification>)
    ensures IsSubsequence(r, ns)
    ensures forall x :: x in r ==> x.id != id
    ensures forall x :: x in ns && x.id != id ==> multiset(r)[x] == multiset(ns)[x]
  {
    Filter(ns, HasOtherId(id))
  }

  lemma DeleteAbsentIsNoOp(ns: seq<Notification>, id: string)
    requires forall i :: 0 <= i < |ns| ==> ns[i].id != id
    ensures DeleteNotification(ns, id) == ns
  {
    FilterKeepsAll(ns, HasOtherId(id));
  }

  /** Deleting never raises the unread count, and deleting a read notification keeps it. */
  lemma {:induction false} DeleteUnreadCount(ns: seq<Notification>, id: string)
    ensures UnreadCount(DeleteNotification(ns, id)) == CountWhere(ns, UnreadOther(id))
    ensures UnreadCount(DeleteNotification(ns, id)) <= UnreadCount(ns)
    decreases |ns|
  {
    if |ns| > 0 {
      DeleteUnreadCount(ns[1..], id);
      if ns[0].id != id {
        assert DeleteNotification(ns, id) == [ns[0]] + DeleteNotification(ns[1..], id);
        assert ([ns[0]] + DeleteNotification(ns[1..], id))[1..] == DeleteNotification(ns[1..], id);
      }
    }
  }
}
