/** The time picker: two selects holding two-digit hour and minute strings, the
    `HH:MM` text it emits, and how the date-time picker reads that text back onto a date. */
module TimePicker {
  import opened Common
  import opened Text
  import opened Dates

  /** The two decimal digits of a number below 100. */
  function TwoDigits(n: nat): (r: string)
    requires n < 100
    ensures |r| == 2 && AllDigits(r)
  {
    [DigitChar(n / 10), DigitChar(n % 10)]
  }

  /** The two digits are `n.toString().padStart(2, "0")`. */
  lemma TwoDigitsIsPadded(n: nat)
    requires n < 100
    ensures TwoDigits(n) == ZeroPad(n, 2)
  {
    if n < 10 {
      assert NatToDecimal(n) == [DigitChar(n)];
      assert seq(1, _ => '0') == [DigitChar(0)];
    } else {
      assert NatToDecimal(n / 10) == [DigitChar(n / 10)];
      assert NatToDecimal(n) == [DigitChar(n / 10)] + [DigitChar(n % 10)];
    }
  }

  /** The two digits read back as the number. */
  lemma TwoDigitsReadBack(n: nat)
    requires n < 100
    ensures ParseInt(TwoDigits(n)) == Some(n)
  {
    TwoDigitsIsPadded(n);
    ParseZeroPadded(n, 2);
  }

  lemma TwoDigitsInjective(a: nat, b: nat)
    requires a < 100 && b < 100 && TwoDigits(a) == TwoDigits(b)
    ensures a == b
  {
    TwoDigitsReadBack(a);
    TwoDigitsReadBack(b);
  }

  /** The options of a select numbered 0 to count - 1. */
  function Options(count: nat): (r: seq<string>)
    requires count <= 100
    ensures |r| == count
    ensures forall i :: 0 <= i < count ==> |r[i]| == 2 && AllDigits(r[i]) && ParseInt(r[i]) == Some(i)
    ensures forall i, j :: 0 <= i < j < count ==> r[i] != r[j]
  {
    var r := seq(count, i requires 0 <= i < count => TwoDigits(i));
    forall i | 0 <= i < count
      ensures ParseInt(r[i]) == Some(i)
    {
      TwoDigitsReadBack(i);
    }
    r
  }

  /** The hour select offers "00" to "23", the minute select "00" to "59". */
  function HourOptions(): (r: seq<string>)
    ensures |r| == 24
  {
    Options(24)
  }

  function MinuteOptions(): (r: seq<string>)
    ensures |r| == 60
  {
    Options(60)
  }

  /** Every option is two digits and names its own position, so no two options coincide. */
  lemma OptionsNameTheirNumber()
    ensures forall h :: 0 <= h < 24 ==> HourOptions()[h] == TwoDigits(h)
    ensures forall m :: 0 <= m < 60 ==> MinuteOptions()[m] == TwoDigits(m)
    ensures forall h :: 0 <= h < 24 ==> |HourOptions()[h]| == 2 && ParseInt(HourOptions()[h]) == Some(h)
    ensures forall m :: 0 <= m < 60 ==> |MinuteOptions()[m]| == 2 && ParseInt(MinuteOptions()[m]) == Some(m)
  {
  }

  /** What the two selects hold. The minute is absent when the given time has no ':',
      as `time.split(":")[1]` is then `undefined`. */
  datatype Selection = Selection(hour: string, minute: Option<string>)

  /** The initial selection: "09" and "00" when no time (or an empty one) is given,
      otherwise the text up to the first ':' and, when there is one, the text after it
      up to the next ':' or the end. */
  function InitialSelection(time: Option<string>): (r: Selection)
    ensures time.None? || time == Some("") ==> r == Selection("09", Some("00"))
    ensures time.Some? && time.value != "" ==>
              && ':' !in r.hour
              && |r.hour| <= |time.value| && time.value[..|r.hour|] == r.hour
              && (r.minute.Some? <==> ':' in time.value)
              && (r.minute.Some? ==>
                    && ':' !in r.minute.value
                    && |r.hour| + 1 + |r.minute.value| <= |time.value|
                    && time.value[|r.hour|] == ':'
                    && time.value[|r.hour| + 1..|r.hour| + 1 + |r.minute.value|] == r.minute.value)
  {
    if time.None? || time.value == "" then Selection("09", Some("00"))
    else
      var pieces := Split(time.value, ':');
      LeadingPieces(pieces);
      SplitHasSeparator(time.value, ':');
      Selection(pieces[0], if |pieces| > 1 then Some(pieces[1]) else None)
  }

  /** Where the first two pieces sit in the joined text. */
  lemma LeadingPieces(pieces: seq<string>)
    requires |pieces| >= 1
    ensures var s := Join(pieces, ":");
            && |pieces[0]| <= |s| && s[..|pieces[0]|] == pieces[0]
            && (|pieces| > 1 ==>
                  && |pieces[0]| + 1 + |pieces[1]| <= |s|
                  && s[|pieces[0]|] == ':'
                  && s[|pieces[0]| + 1..|pieces[0]| + 1 + |pieces[1]|] == pieces[1])
  {
    if |pieces| > 1 {
      var rest := Join(pieces[1..], ":");
      assert Join(pieces, ":") == pieces[0] + ":" + rest;
      assert |pieces[1]| <= |rest| && rest[..|pieces[1]|] == pieces[1] by {
        if |pieces| > 2 {
          assert rest == pieces[1] + ":" + Join(pieces[2..], ":");
        }
      }
    }
  }

  /** A string splits into more than one piece exactly when it holds the separator. */
  lemma {:induction false} SplitHasSeparator(s: string, sep: char)
    ensures |Split(s, sep)| > 1 <==> sep in s
    decreases |s|
  {
    if |s| > 0 {
      SplitHasSeparator(s[1..], sep);
      assert s == [s[0]] + s[1..];
    }
  }

  /** The text the picker emits: `${hour.padStart(2, "0")}:${minute.padStart(2, "0")}`;
      `None` where the missing minute makes `padStart` fail. */
  function Emit(s: Selection): (r: Option<string>)
    ensures r.Some? <==> s.minute.Some?
    ensures r.Some? ==> |r.value| >= 5
    ensures r.Some? ==> |PadStart(s.hour, 2, '0')| < |r.value| && r.value[|PadStart(s.hour, 2, '0')|] == ':'
  {
    match s.minute
    case None => None
    case Some(minute) =>
      Some(PadStart(s.hour, 2, '0') + ":" + PadStart(minute, 2, '0'))
  }

  /** The time of the hour and minute options numbered `h` and `m`. */
  function FormatTime(h: nat, m: nat): (r: string)
    requires h < 24 && m < 60
    ensures |r| == 5 && r[2] == ':'
  {
    TwoDigits(h) + ":" + TwoDigits(m)
  }

  /** Picking the options `h` and `m` emits their two-digit texts around a colon. */
  lemma EmitOptions(h: nat, m: nat)
    requires h < 24 && m < 60
    ensures Emit(Selection(HourOptions()[h], Some(MinuteOptions()[m]))) == Some(FormatTime(h, m))
  {
    OptionsNameTheirNumber();
  }

  /** Splitting an emitted time on ':' gives the two option texts back. */
  lemma SplitFormattedTime(h: nat, m: nat)
    requires h < 24 && m < 60
    ensures Split(FormatTime(h, m), ':') == [TwoDigits(h), TwoDigits(m)]
  {
    var parts := [TwoDigits(h), TwoDigits(m)];
    assert Join(parts, [':']) == FormatTime(h, m) by {
      assert Join(parts[1..], [':']) == TwoDigits(m);
    }
    assert ':' !in TwoDigits(h) by { assert forall i :: 0 <= i < 2 ==> IsDigit(TwoDigits(h)[i]); }
    assert ':' !in TwoDigits(m) by { assert forall i :: 0 <= i < 2 ==> IsDigit(TwoDigits(m)[i]); }
    SplitJoinRoundTrip(parts, ':');
  }

  /** Opening the picker on a time it emitted selects the same options again. */
  lemma ReopenRestoresSelection(h: nat, m: nat)
    requires h < 24 && m < 60
    ensures InitialSelection(Some(FormatTime(h, m))) == Selection(HourOptions()[h], Some(MinuteOptions()[m]))
  {
    SplitFormattedTime(h, m);
    OptionsNameTheirNumber();
  }

  // ---------------------------------------------------------------- reading the time back

  /** The two numbers the date-time picker reads from a time: `parseInt` of the pieces
      before and after the first ':', `None` for `NaN` (and for a missing piece). */
  function ReadTime(time: string): (r: (Option<int>, Option<int>))
    ensures ':' !in time ==> r.1.None?
  {
    var pieces := Split(time, ':');
    SplitHasSeparator(time, ':');
    (ParseInt(pieces[0]), if |pieces| > 1 then ParseInt(pieces[1]) else None)
  }

  /** For h in 0..23 and m in 0..59, formatting and reading back returns (h, m). */
  lemma TimeRoundTrip(h: nat, m: nat)
    requires h < 24 && m < 60
    ensures ReadTime(FormatTime(h, m)) == (Some(h as int), Some(m as int))
  {
    SplitFormattedTime(h, m);
    TwoDigitsReadBack(h);
    TwoDigitsReadBack(m);
  }

  /** `date.setHours(h)`: the hour of the day becomes `h`, minutes, seconds and milliseconds
      stay, and an hour outside 0..23 rolls over into neighbouring days. */
  function SetHours(t: Moment, h: int): (r: Moment)
    requires ValidMoment(t)
    ensures ValidMoment(r)
    ensures 0 <= h < 24 ==> r.date == t.date && r.millis == h * HourMillis + t.millis % HourMillis
  {
    var total := h * HourMillis + t.millis % HourMillis;
    Moment(AddDays(t.date, total / DayMillis), total % DayMillis)
  }

  /** `date.setMinutes(m)`: the minute of the hour becomes `m`, seconds and milliseconds
      stay, and a minute outside 0..59 rolls over into neighbouring hours. */
  function SetMinutes(t: Moment, m: int): (r: Moment)
    requires ValidMoment(t)
    ensures ValidMoment(r)
    ensures 0 <= m < 60 ==>
              r.date == t.date && r.millis == (t.millis / HourMillis) * HourMillis + m * MinuteMillis + t.millis % MinuteMillis
  {
    var total := (t.millis / HourMillis) * HourMillis + m * MinuteMillis + t.millis % MinuteMillis;
    Moment(AddDays(t.date, total / DayMillis), total % DayMillis)
  }

  /** The date-time picker's effect: the hours and then the minutes of the time are set on
      the date; `None` is the Invalid Date a `NaN` leaves. */
  function ApplyTime(t: Moment, time: string): (r: Option<Moment>)
    requires ValidMoment(t)
    ensures r.Some? <==> ReadTime(time).0.Some? && ReadTime(time).1.Some?
    ensures r.Some? ==> ValidMoment(r.value)
  {
    SetClock(t, ReadTime(time))
  }

  /** Setting hours and then minutes read from a time; a `NaN` in either spoils the date. */
  function SetClock(t: Moment, clock: (Option<int>, Option<int>)): (r: Option<Moment>)
    requires ValidMoment(t)
    ensures r.Some? <==> clock.0.Some? && clock.1.Some?
    ensures r.Some? ==> ValidMoment(r.value)
  {
    match clock
    case (Some(h), Some(m)) => Some(SetMinutes(SetHours(t, h), m))
    case _ => None
  }

  /** Setting an hour and a minute in range keeps the day and sets the time of day. */
  lemma SetClockInRange(t: Moment, h: nat, m: nat)
    requires ValidMoment(t) && h < 24 && m < 60
    ensures SetClock(t, (Some(h as int), Some(m as int))) ==
              Some(Moment(t.date, h * HourMillis + m * MinuteMillis + t.millis % MinuteMillis))
  {
    var t1 := SetHours(t, h);
    SetHourArithmetic(t.millis, h, t1.millis);
    var y := h * HourMillis + m * MinuteMillis + t.millis % MinuteMillis;
    SetMinuteArithmetic(h, m, t.millis % MinuteMillis, y);
  }

  /** Setting the hour of a time of day `x` to `h` gives `y`, which keeps the minutes and
      seconds of `x`. */
  lemma SetHourArithmetic(x: int, h: int, y: int)
    requires 0 <= x < DayMillis && 0 <= h < 24
    requires y == h * HourMillis + x % HourMillis
    ensures 0 <= y < DayMillis && y / DayMillis == 0 && y % DayMillis == y
    ensures y / HourMillis == h && y % MinuteMillis == x % MinuteMillis
  {
  }

  /** Setting the minute within hour `h` to `m` gives `y`, still on the same day. */
  lemma SetMinuteArithmetic(h: int, m: int, s: int, y: int)
    requires 0 <= h < 24 && 0 <= m < 60 && 0 <= s < MinuteMillis
    requires y == h * HourMillis + m * MinuteMillis + s
    ensures 0 <= y < DayMillis && y / DayMillis == 0 && y % DayMillis == y
  {
  }

  /** Applying an emitted time keeps the calendar day and sets the time of day to h:m,
      keeping the seconds and milliseconds of the original date. */
  lemma ApplyEmittedTime(t: Moment, h: nat, m: nat)
    requires ValidMoment(t) && h < 24 && m < 60
    ensures ApplyTime(t, FormatTime(h, m)) ==
              Some(Moment(t.date, h * HourMillis + m * MinuteMillis + t.millis % MinuteMillis))
  {
    TimeRoundTrip(h, m);
    SetClockInRange(t, h, m);
  }

  /** The date-time picker's starting text: the date's own time as `HH:mm`, or "09:00". */
  function StartingTime(date: Option<Moment>): (r: string)
    requires date.Some? ==> ValidMoment(date.value)
    ensures |r| == 5 && r[2] == ':'
    ensures date.None? ==> r == "09:00"
  {
    if date.None? then FormatTime(9, 0)
    else FormatTime(date.value.millis / HourMillis, (date.value.millis % HourMillis) / MinuteMillis)
  }

  /** Applying the starting time to the date it was taken from gives that date back: the
      hour and minute are its own, and seconds and milliseconds are never touched. */
  lemma StartingTimeIsNeutral(t: Moment)
    requires ValidMoment(t)
    ensures ApplyTime(t, StartingTime(Some(t))) == Some(t)
  {
    var h := t.millis / HourMillis;
    var m := (t.millis % HourMillis) / MinuteMillis;
    ClockOfMillis(t.date, t.millis, h, m);
    assert StartingTime(Some(t)) == FormatTime(h, m);
    ApplyOwnClock(t, h, m);
  }

  lemma ApplyOwnClock(t: Moment, h: nat, m: nat)
    requires ValidMoment(t) && h < 24 && m < 60
    requires t == Moment(t.date, h * HourMillis + m * MinuteMillis + t.millis % MinuteMillis)
    ensures ApplyTime(t, FormatTime(h, m)) == Some(t)
  {
    ApplyEmittedTime(t, h, m);
  }

  /** A time of day is its hours, minutes and the milliseconds within the minute. */
  lemma ClockOfMillis(d: Date, x: int, h: int, m: int)
    requires 0 <= x < DayMillis
    requires h == x / HourMillis && m == (x % HourMillis) / MinuteMillis
    ensures 0 <= h < 24 && 0 <= m < 60
    ensures Moment(d, x) == Moment(d, h * HourMillis + m * MinuteMillis + x % MinuteMillis)
  {
  }
}
