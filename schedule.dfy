/** The weekly-schedule and happy-hour evaluation of lib/utils.ts:
    `formatTime`, `isBarOpen`, `getBarStatus`, `getHappyHourStatus` and
    `isOpenNow`. The weekday and minute of day that the source reads from
    `new Date()` are passed in as an `Instant`. */
module Schedule {
  import opened Base
  import opened Text
  import opened Domain

  /** The hour a 12-hour clock shows: `hours % 12 || 12`. */
  function Hour12(h: Hour): (r: int)
    ensures 1 <= r <= 12 && r % 12 == h % 12
  {
    if h % 12 == 0 then 12 else h % 12
  }

  /** `formatTime`: "H:MM AM" / "H:MM PM" on a 12-hour clock. */
  function FormatTime(t: Clock): (r: string)
    ensures 7 <= |r| <= 8
    ensures r[|r| - 6] == ':' && r[|r| - 3] == ' '
  {
    var period := if t.hour >= 12 then "PM" else "AM";
    var hourText := NatText(Hour12(t.hour));
    var minuteText := PadTwo(t.minute);
    TimePieces(hourText, minuteText, period);
    hourText + ":" + minuteText + " " + period
  }

  /** The displayed time reads back as the time of day: the hour, one or
      two digits without a leading zero, reads 1..12 and agrees with the
      hour of day modulo 12,
      the minutes are two digits, and the period tells the half of the
      day. */
  lemma FormatTimeReadsBack(t: Clock)
    ensures var r := FormatTime(t);
      AllDigits(r[..|r| - 6]) && r[0] != '0'
      && 1 <= DigitsValue(r[..|r| - 6]) <= 12
      && DigitsValue(r[..|r| - 6]) % 12 == t.hour % 12
      && AllDigits(r[|r| - 5..|r| - 3]) && DigitsValue(r[|r| - 5..|r| - 3]) == t.minute
      && (r[|r| - 2..] == "AM" <==> t.hour < 12)
      && (r[|r| - 2..] == "PM" <==> 12 <= t.hour)
  {
    var period := if t.hour >= 12 then "PM" else "AM";
    var hourText := NatText(Hour12(t.hour));
    var minuteText := PadTwo(t.minute);
    TimePieces(hourText, minuteText, period);
    assert FormatTime(t) == hourText + ":" + minuteText + " " + period;
  }

  /** Where the pieces of a formatted time sit. */
  lemma TimePieces(hourText: string, minuteText: string, period: string)
    requires |minuteText| == 2 && |period| == 2
    ensures var r := hourText + ":" + minuteText + " " + period;
      |r| == |hourText| + 6
      && r[..|r| - 6] == hourText && r[|r| - 6] == ':'
      && r[|r| - 5..|r| - 3] == minuteText && r[|r| - 3] == ' '
      && r[|r| - 2..] == period
  {
    var r := hourText + ":" + minuteText + " " + period;
    assert r == hourText + (":" + minuteText + " " + period);
    assert r[|r| - 5..|r| - 3] == minuteText;
  }

  /** Two different times of day never display alike. */
  lemma FormatTimeInjective(a: Clock, b: Clock)
    requires FormatTime(a) == FormatTime(b)
    ensures a == b
  {
    FormatTimeReadsBack(a);
    FormatTimeReadsBack(b);
    var r := FormatTime(a);
    var n := |r|;
    var minutes, hour, period := r[n - 5..n - 3], r[..n - 6], r[n - 2..];
    assert DigitsValue(minutes) == a.minute && DigitsValue(minutes) == b.minute;
    assert DigitsValue(hour) % 12 == a.hour % 12 && DigitsValue(hour) % 12 == b.hour % 12;
    assert (period == "AM") == (a.hour < 12) && (period == "AM") == (b.hour < 12);
    SameHour(a.hour, b.hour);
  }

  /** An hour of day is fixed by its value modulo 12 and its half of the
      day. */
  lemma SameHour(x: Hour, y: Hour)
    requires x % 12 == y % 12 && (x < 12 <==> y < 12)
    ensures x == y
  {
  }

  /** The entry of `hours` for the weekday of `now`: absent when the bar has
      no hours or that weekday is not listed. */
  function TodayHours(hours: Option<WeeklyHours>, now: Instant): Option<DayHours>
  {
    if hours.Some? && DayNames[now.day] in hours.value
    then Some(hours.value[DayNames[now.day]])
    else None
  }

  /** Minute `t` of a day lies in the daily interval `e`: from `open` up to
      but not including `close`, where a `close` earlier than `open` means
      the interval runs past midnight, so it holds the evening from `open`
      on and the early morning before `close`. */
  predicate WithinHours(e: DayHours, t: MinuteOfDay)
  {
    var o, c := MinutesOf(e.open), MinutesOf(e.close);
    if o <= c then o <= t < c else o <= t || t < c
  }

  /** The bar is open at `now` by the entry for `now`'s own weekday. */
  predicate OpenAt(hours: Option<WeeklyHours>, now: Instant)
  {
    TodayHours(hours, now).Some? && WithinHours(TodayHours(hours, now).value, now.minute)
  }

  /** `isBarOpen`: shifts `close`, and then the current minute, by a day
      before one comparison, and so decides exactly `OpenAt`. */
  method IsBarOpen(hours: Option<WeeklyHours>, now: Instant) returns (isOpen: bool)
    ensures isOpen == OpenAt(hours, now)
  {
    if hours.None? {
      return false;
    }
    var currentDay := DayNames[now.day];
    var currentTime := now.minute;
    if currentDay !in hours.value {
      return false;
    }
    var todayHours := hours.value[currentDay];
    var openTime := MinutesOf(todayHours.open);
    var closeTime := MinutesOf(todayHours.close);
    if closeTime < openTime {
      closeTime := closeTime + 24 * 60;
    }
    if currentTime < openTime {
      currentTime := currentTime + 24 * 60;
    }
    isOpen := currentTime >= openTime && currentTime < closeTime;
  }

  /** Without hours, or without an entry for today, the bar is closed. */
  lemma ClosedWithoutTodaysEntry(hours: Option<WeeklyHours>, now: Instant)
    requires hours.None? || DayNames[now.day] !in hours.value
    ensures !OpenAt(hours, now)
  {
  }

  /** An entry whose opening and closing times coincide is never open: it is
      not read as round-the-clock opening. */
  lemma SameOpenAndCloseNeverOpen(hours: Option<WeeklyHours>, now: Instant)
    requires TodayHours(hours, now).Some?
    requires TodayHours(hours, now).value.open == TodayHours(hours, now).value.close
    ensures !OpenAt(hours, now)
  {
  }

  /** Only today's entry is consulted: whatever yesterday's entry says, even
      an interval running past midnight into this morning, the answer is the
      same. */
  lemma YesterdayNotConsulted(h: WeeklyHours, now: Instant, yesterday: DayHours)
    ensures OpenAt(Some(h[DayNames[(now.day + 6) % 7] := yesterday]), now) == OpenAt(Some(h), now)
  {
    assert DayNames[(now.day + 6) % 7] != DayNames[now.day];
  }

  /** An early-morning minute before today's `close`, when today's entry
      runs past midnight, counts as open. */
  lemma OvernightEntryOpenEarly(hours: Option<WeeklyHours>, now: Instant)
    requires TodayHours(hours, now).Some?
    requires var e := TodayHours(hours, now).value;
      MinutesOf(e.close) < MinutesOf(e.open) && now.minute < MinutesOf(e.close)
    ensures OpenAt(hours, now)
  {
  }

  /** The result of `getBarStatus`. */
  datatype BarStatus = BarStatus(isOpen: bool, message: string, closingTime: Option<string>)

  /** `getBarStatus`: the open/closed state with the message shown for it. */
  function GetBarStatus(hours: Option<WeeklyHours>, now: Instant): (s: BarStatus)
    ensures s.isOpen == OpenAt(hours, now)
    ensures s.closingTime.Some? <==> s.isOpen
    ensures hours.None? ==> s.message == "Hours not available"
    ensures hours.Some? && TodayHours(hours, now).None? ==> s.message == "Closed today"
    ensures s.isOpen ==>
      var closeTime := FormatTime(TodayHours(hours, now).value.close);
      s.closingTime == Some(closeTime) && s.message == "Open until " + closeTime
    ensures TodayHours(hours, now).Some? && !s.isOpen ==>
      s.message == "Closed - Opens at " + FormatTime(TodayHours(hours, now).value.open)
  {
    if hours.None? then BarStatus(false, "Hours not available", None)
    else if DayNames[now.day] !in hours.value then BarStatus(false, "Closed today", None)
    else
      var todayHours := hours.value[DayNames[now.day]];
      if OpenAt(hours, now) then
        var closeTime := FormatTime(todayHours.close);
        BarStatus(true, "Open until " + closeTime, Some(closeTime))
      else
        BarStatus(false, "Closed - Opens at " + FormatTime(todayHours.open), None)
  }

  /** `getHappyHourStatus`: the happy-hour window, on a listed weekday. */
  function GetHappyHourStatus(happyHour: Option<HappyHour>, now: Instant): (r: Option<string>)
    ensures r.None? <==> happyHour.None? || DayNames[now.day] !in happyHour.value.days
    ensures r.Some? ==>
      r.value == "Happy Hour " + FormatTime(happyHour.value.startTime) + "-" + FormatTime(happyHour.value.endTime)
  {
    if happyHour.None? then None
    else if DayNames[now.day] !in happyHour.value.days then None
    else
      var startTime := FormatTime(happyHour.value.startTime);
      var endTime := FormatTime(happyHour.value.endTime);
      Some("Happy Hour " + startTime + "-" + endTime)
  }

  /** The happy-hour status does not depend on the time of day, only on the
      weekday: it is shown all day, before and after the window. */
  lemma HappyHourIgnoresTimeOfDay(happyHour: Option<HappyHour>, now: Instant, minute: MinuteOfDay)
    ensures GetHappyHourStatus(happyHour, now.(minute := minute)) == GetHappyHourStatus(happyHour, now)
  {
  }

  /** A time as `parseInt(time.replace(':', ''))` reads it: hours * 100 + minutes. */
  function HundredsForm(c: Clock): int
  {
    c.hour * 100 + c.minute
  }

  /** Comparing times in their hundreds form orders them as minutes of the
      day do. */
  lemma HundredsFormOrder(a: Clock, b: Clock)
    ensures HundredsForm(a) <= HundredsForm(b) <==> MinutesOf(a) <= MinutesOf(b)
  {
    if a.hour < b.hour {
      assert HundredsForm(a) < (a.hour + 1) * 100 <= HundredsForm(b);
      assert MinutesOf(a) < (a.hour + 1) * 60 <= MinutesOf(b);
    } else if b.hour < a.hour {
      assert HundredsForm(b) < (b.hour + 1) * 100 <= HundredsForm(a);
      assert MinutesOf(b) < (b.hour + 1) * 60 <= MinutesOf(a);
    }
  }

  /** `isOpenNow`: compares the current time with `open` and `close` in
      their hundreds form, both ends included and no overnight handling. */
  function IsOpenNow(hours: DayHours, now: Instant): (r: bool)
    ensures r <==> MinutesOf(hours.open) <= now.minute <= MinutesOf(hours.close)
  {
    var current := Clock(now.minute / 60, now.minute % 60);
    HundredsFormOrder(hours.open, current);
    HundredsFormOrder(current, hours.close);
    var currentTime := HundredsForm(current);
    currentTime >= HundredsForm(hours.open) && currentTime <= HundredsForm(hours.close)
  }

  /** `isOpenNow` and `isBarOpen` disagree: the first is open at the closing
      minute itself and never open on an interval that runs past midnight. */
  lemma IsOpenNowAgainstWithinHours(hours: DayHours, now: Instant)
    ensures MinutesOf(hours.close) < MinutesOf(hours.open) ==> !IsOpenNow(hours, now)
    ensures MinutesOf(hours.open) <= MinutesOf(hours.close) ==>
      (IsOpenNow(hours, now) <==> WithinHours(hours, now.minute) || now.minute == MinutesOf(hours.close))
  {
  }
}
