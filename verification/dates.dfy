/** Calendar dates as the dashboard's `Date` objects use them: a (year, month, day) in the
    proleptic Gregorian calendar plus the time of day. Months are numbered 1 to 12 here;
    the views only ever compare them or step them by one. */
module Dates {
  import opened Common

  datatype Date = Date(year: int, month: int, day: int)

  const MinuteMillis: int := 60000
  const HourMillis: int := 3600000
  const DayMillis: int := 86400000

  /** A moment: the local calendar day and the milliseconds since its midnight. */
  datatype Moment = Moment(date: Date, millis: int)

  predicate IsLeap(y: int)
  {
    y % 4 == 0 && (y % 100 != 0 || y % 400 == 0)
  }

  function DaysInMonth(y: int, m: int): (n: int)
    requires 1 <= m <= 12
    ensures 28 <= n <= 31
  {
    if m == 2 then (if IsLeap(y) then 29 else 28)
    else if m in {4, 6, 9, 11} then 30
    else 31
  }

  predicate ValidDate(d: Date)
  {
    1 <= d.month <= 12 && 1 <= d.day <= DaysInMonth(d.year, d.month)
  }

  predicate ValidMoment(t: Moment)
  {
    ValidDate(t.date) && 0 <= t.millis < DayMillis
  }

  /** Strictly earlier in the calendar. */
  predicate Before(a: Date, b: Date)
  {
    || a.year < b.year
    || (a.year == b.year && a.month < b.month)
    || (a.year == b.year && a.month == b.month && a.day < b.day)
  }

  lemma BeforeTransitive(a: Date, b: Date, c: Date)
    requires Before(a, b) && Before(b, c)
    ensures Before(a, c)
  {
  }

  // ---------------------------------------------------------------- days

  function NextDay(d: Date): (r: Date)
    requires ValidDate(d)
    ensures ValidDate(r) && Before(d, r)
  {
    if d.day < DaysInMonth(d.year, d.month) then Date(d.year, d.month, d.day + 1)
    else if d.month < 12 then Date(d.year, d.month + 1, 1)
    else Date(d.year + 1, 1, 1)
  }

  function PrevDay(d: Date): (r: Date)
    requires ValidDate(d)
    ensures ValidDate(r) && Before(r, d)
  {
    if d.day > 1 then Date(d.year, d.month, d.day - 1)
    else if d.month > 1 then Date(d.year, d.month - 1, DaysInMonth(d.year, d.month - 1))
    else Date(d.year - 1, 12, 31)
  }

  /** Stepping a day forward and back, or back and forward, returns to the same day. */
  lemma NextPrevInverse(d: Date)
    requires ValidDate(d)
    ensures PrevDay(NextDay(d)) == d
    ensures NextDay(PrevDay(d)) == d
  {
  }

  /** `setDate(getDate() + n)`: the day `n` days later (earlier for negative `n`). */
  function AddDays(d: Date, n: int): (r: Date)
    requires ValidDate(d)
    ensures ValidDate(r)
    decreases if n >= 0 then n else -n
  {
    if n == 0 then d
    else if n > 0 then NextDay(AddDays(d, n - 1))
    else PrevDay(AddDays(d, n + 1))
  }

  /** One more day is the next day, whatever the sign of `n`. */
  lemma AddDaysStep(d: Date, n: int)
    requires ValidDate(d)
    ensures AddDays(d, n + 1) == NextDay(AddDays(d, n))
  {
    if n < 0 {
      NextPrevInverse(AddDays(d, n + 1));
    }
  }

  /** Adding `a` days and then `k` more is adding `a + k`. */
  lemma {:induction false} AddDaysAdditive(d: Date, a: int, k: nat)
    requires ValidDate(d)
    ensures AddDays(AddDays(d, a), k) == AddDays(d, a + k)
    decreases k
  {
    if k > 0 {
      AddDaysAdditive(d, a, k - 1);
      AddDaysStep(d, a + k - 1);
    }
  }

  /** Adding a positive number of days moves strictly later. */
  lemma {:induction false} AddDaysLater(d: Date, k: nat)
    requires ValidDate(d) && k > 0
    ensures Before(d, AddDays(d, k))
    decreases k
  {
    if k > 1 {
      AddDaysLater(d, k - 1);
      BeforeTransitive(d, AddDays(d, k - 1), AddDays(d, k));
    }
  }

  /** Adding days is strictly increasing in the number of days, so different offsets give
      different days. */
  lemma AddDaysMonotone(d: Date, a: int, b: int)
    requires ValidDate(d) && a < b
    ensures Before(AddDays(d, a), AddDays(d, b))
    ensures AddDays(d, a) != AddDays(d, b)
  {
    AddDaysAdditive(d, a, b - a);
    AddDaysLater(AddDays(d, a), b - a);
  }

  // ---------------------------------------------------------------- months

  /** The (year, month) one month later or earlier, carrying across the year. */
  function StepMonth(year: int, month: int, forward: bool): (r: (int, int))
    requires 1 <= month <= 12
    ensures 1 <= r.1 <= 12
    ensures forward ==> 12 * r.0 + r.1 == 12 * year + month + 1
    ensures !forward ==> 12 * r.0 + r.1 == 12 * year + month - 1
  {
    if forward then (if month == 12 then (year + 1, 1) else (year, month + 1))
    else (if month == 1 then (year - 1, 12) else (year, month - 1))
  }

  /** `setMonth(getMonth() ± 1)`: the same day in the neighbouring month; a day the month
      does not have overflows into the month after it. */
  function ShiftMonth(d: Date, forward: bool): (r: Date)
    requires ValidDate(d)
    ensures ValidDate(r)
    ensures d.day <= 28 ==>
              && r.day == d.day
              && 12 * r.year + r.month == 12 * d.year + d.month + (if forward then 1 else -1)
  {
    var (y, m) := StepMonth(d.year, d.month, forward);
    var days := DaysInMonth(y, m);
    if d.day <= days then Date(y, m, d.day)
    else
      var (y2, m2) := StepMonth(y, m, true);
      Date(y2, m2, d.day - days)
  }

  /** For a day of the month up to 28, shifting forward then back, or back then forward,
      restores the date. */
  lemma ShiftMonthRoundTrip(d: Date)
    requires ValidDate(d) && d.day <= 28
    ensures ShiftMonth(ShiftMonth(d, true), false) == d
    ensures ShiftMonth(ShiftMonth(d, false), true) == d
  {
  }

  /** The overflow: one month after 31 January 2023 is 3 March 2023. */
  lemma ShiftMonthOverflows()
    ensures ShiftMonth(Date(2023, 1, 31), true) == Date(2023, 3, 3)
  {
  }

  // ---------------------------------------------------------------- day views

  /** Same year, month and day, whatever the time. */
  predicate SameDay(a: Moment, b: Moment)
  {
    a.date == b.date
  }

  /** `new Date(y, m, d)` of a moment's parts: its midnight. */
  function Midnight(t: Moment): (r: Moment)
    ensures SameDay(r, t) && r.millis == 0
  {
    Moment(t.date, 0)
  }

  /** `setDate(getDate() + n)` on a moment: the day moves, the time of day stays. */
  function AddDaysTo(t: Moment, n: int): (r: Moment)
    requires ValidDate(t.date)
    ensures ValidDate(r.date) && r.millis == t.millis
  {
    Moment(AddDays(t.date, n), t.millis)
  }

  function OnDay<T>(dateOf: T -> Moment, selected: Moment): T -> bool
  {
    (x: T) => SameDay(dateOf(x), selected)
  }

  /** The items of a day view: nothing without a selected date, otherwise the items dated
      on the selected calendar day, in list order. */
  function SelectDay<T(==)>(items: seq<T>, dateOf: T -> Moment, selected: Option<Moment>): (r: seq<T>)
    ensures selected.None? ==> r == []
    ensures selected.Some? ==> IsSubsequence(r, items)
    ensures selected.Some? ==> forall i :: 0 <= i < |r| ==> SameDay(dateOf(r[i]), selected.value)
    ensures selected.Some? ==> forall x | x in items && SameDay(dateOf(x), selected.value) ::
                                 multiset(r)[x] == multiset(items)[x]
  {
    if selected.None? then [] else Filter(items, OnDay(dateOf, selected.value))
  }

  /** The view depends only on the calendar day selected, not on its time. */
  lemma SelectDayIgnoresTime<T>(items: seq<T>, dateOf: T -> Moment, a: Moment, b: Moment)
    requires SameDay(a, b)
    ensures SelectDay(items, dateOf, Some(a)) == SelectDay(items, dateOf, Some(b))
  {
    FilterCongruent(items, OnDay(dateOf, a), OnDay(dateOf, b));
  }

  /** The days marked on the calendar: each item's date cut to midnight, in list order. */
  function MarkedDays<T>(items: seq<T>, dateOf: T -> Moment): (r: seq<Moment>)
    ensures |r| == |items|
    ensures forall i :: 0 <= i < |items| ==> SameDay(r[i], dateOf(items[i])) && r[i].millis == 0
  {
    seq(|items|, i requires 0 <= i < |items| => Midnight(dateOf(items[i])))
  }
}
