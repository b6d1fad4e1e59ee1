/**
 * The date helpers of the task backend: working days and calendar days
 * between two instants, and the "is today" / "is weekend" predicates.
 *
 * An instant is a naive local date-time, counted in microseconds (the
 * resolution of a Python datetime) from 1970-01-01 00:00. Its date is the
 * day number obtained by flooring, and its weekday follows Python's
 * convention: Monday is 0 and Sunday is 6.
 */
module Dates {

  type Instant = int

  /** One day (a `timedelta(days=1)`) in microseconds. */
  const MicrosPerDay: int := 86400000000

  /** 1970-01-01 was a Thursday, weekday 3. */
  const EpochWeekday: int := 3

  /** The date part of an instant, as a day number. */
  function DayOf(t: Instant): int {
    t / MicrosPerDay
  }

  /** `datetime.weekday()`: 0 for Monday up to 6 for Sunday. */
  function Weekday(t: Instant): (w: int)
    ensures 0 <= w < 7
  {
    (DayOf(t) + EpochWeekday) % 7
  }

  lemma DayOfMonotone(a: Instant, b: Instant)
    requires a <= b
    ensures DayOf(a) <= DayOf(b)
  {
  }

  /** Exactly one date boundary lies between an instant and the same instant a day later. */
  lemma DayOfNextDay(t: Instant)
    ensures DayOf(t + MicrosPerDay) == DayOf(t) + 1
  {
  }

  /** Two instants on the same date are less than a day apart. */
  lemma SameDayIsClose(a: Instant, b: Instant)
    requires DayOf(a) == DayOf(b)
    ensures -MicrosPerDay < a - b < MicrosPerDay
  {
  }

  /** `is_weekend`: the instant falls on a Saturday or a Sunday. */
  function IsWeekend(d: Instant): (r: bool)
    ensures r <==> Weekday(d) == 5 || Weekday(d) == 6
  {
    Weekday(d) >= 5
  }

  /** `is_today`: both instants have the same date. */
  function IsToday(d: Instant, now: Instant): (r: bool)
    ensures r ==> -MicrosPerDay < d - now < MicrosPerDay
  {
    if DayOf(d) == DayOf(now) then
      SameDayIsClose(d, now);
      true
    else
      false
  }

  /**
   * `calculate_calendar_days`: 0 unless start is before end, and otherwise the
   * difference of the two dates, which is the number of whole days between
   * the instants, or one more when the time of day of end is earlier than
   * that of start.
   */
  function CalendarDays(start: Instant, end: Instant): (r: nat)
    ensures start >= end ==> r == 0
    ensures start < end ==> (end - start) / MicrosPerDay <= r <= (end - start) / MicrosPerDay + 1
  {
    if start >= end then 0
    else
      DayOfMonotone(start, end);
      DayOf(end) - DayOf(start)
  }

  /**
   * The number of iterations of the working-day loop: the number of k >= 0
   * with start + k days before end.
   */
  function DaySteps(start: Instant, end: Instant): (n: nat)
    ensures start >= end ==> n == 0
    ensures start < end ==> n >= 1 && start + (n - 1) * MicrosPerDay < end <= start + n * MicrosPerDay
  {
    if start >= end then 0 else (end - start + MicrosPerDay - 1) / MicrosPerDay
  }

  /** Step k of the loop is taken exactly when start + k days is before end. */
  lemma StepBeforeEnd(start: Instant, end: Instant, k: nat)
    ensures k < DaySteps(start, end) <==> start + k * MicrosPerDay < end
  {
    var n := DaySteps(start, end);
    if start < end {
      if k < n {
        assert start + k * MicrosPerDay <= start + (n - 1) * MicrosPerDay;
      } else {
        assert start + k * MicrosPerDay >= start + n * MicrosPerDay;
      }
    } else {
      assert start + k * MicrosPerDay >= start;
    }
  }

  /** 1 when the instant is Monday to Friday, 0 otherwise. */
  function WorkdayAt(t: Instant): nat {
    if Weekday(t) < 5 then 1 else 0
  }

  /** The number of k in [0, n) such that start + k days is Monday to Friday. */
  function WorkdaysAmong(start: Instant, n: nat): (r: nat)
    ensures r <= n
  {
    if n == 0 then 0 else WorkdaysAmong(start, n - 1) + WorkdayAt(start + (n - 1) * MicrosPerDay)
  }

  /**
   * What `calculate_working_days` computes: among the day-steps start,
   * start + 1 day, ... that come before end, the number that fall on a
   * working day.
   */
  function WorkdayCount(start: Instant, end: Instant): nat {
    WorkdaysAmong(start, DaySteps(start, end))
  }

  /** `calculate_working_days`, the loop as written. */
  method WorkingDays(start: Instant, end: Instant) returns (r: nat)
    ensures r == WorkdayCount(start, end)
    ensures r <= DaySteps(start, end)
    ensures start >= end ==> r == 0
  {
    if start >= end {
      return 0;
    }
    r := 0;
    var current := start;
    ghost var k: nat := 0;
    while current < end
      invariant current == start + k * MicrosPerDay
      invariant k <= DaySteps(start, end)
      invariant r == WorkdaysAmong(start, k)
      decreases end - current
    {
      StepBeforeEnd(start, end, k);
      if Weekday(current) < 5 {
        r := r + 1;
      }
      current := current + MicrosPerDay;
      k := k + 1;
    }
    StepBeforeEnd(start, end, k);
  }

  /** Weekdays advance by one, modulo 7, with every day. */
  lemma {:induction false} WeekdayAfter(t: Instant, k: nat)
    ensures Weekday(t + k * MicrosPerDay) == (Weekday(t) + k) % 7
  {
    if k > 0 {
      WeekdayAfter(t, k - 1);
      var u := t + (k - 1) * MicrosPerDay;
      assert u + MicrosPerDay == t + k * MicrosPerDay;
      DayOfNextDay(u);
    }
  }

  /** 1 when weekday x % 7 is Monday to Friday. */
  function WorkdayIndex(x: nat): nat {
    if x % 7 < 5 then 1 else 0
  }

  /** The indicator repeats every seven days. */
  lemma WorkdayIndexPeriodic(x: nat)
    ensures WorkdayIndex(x + 7) == WorkdayIndex(x)
  {
  }

  /** Any seven consecutive weekdays contain five working days. */
  lemma {:induction false} CycleHoldsFive(m: nat)
    ensures WorkdayIndex(m) + WorkdayIndex(m + 1) + WorkdayIndex(m + 2) + WorkdayIndex(m + 3)
          + WorkdayIndex(m + 4) + WorkdayIndex(m + 5) + WorkdayIndex(m + 6) == 5
  {
    if m >= 7 {
      CycleHoldsFive(m - 7);
      WorkdayIndexPeriodic(m - 7);
      WorkdayIndexPeriodic(m - 6);
      WorkdayIndexPeriodic(m - 5);
      WorkdayIndexPeriodic(m - 4);
      WorkdayIndexPeriodic(m - 3);
      WorkdayIndexPeriodic(m - 2);
      WorkdayIndexPeriodic(m - 1);
    }
  }

  /** Step k of the count adds the working-day indicator of start + k days. */
  lemma AmongStep(start: Instant, m: nat, k: nat)
    requires m == Weekday(start) + k
    ensures WorkdaysAmong(start, k + 1) == WorkdaysAmong(start, k) + WorkdayIndex(m)
  {
    WeekdayAfter(start, k);
  }

  /** Seven consecutive day-steps hold exactly five working days. */
  lemma WeekHoldsFiveWorkdays(start: Instant, n: nat)
    ensures WorkdaysAmong(start, n + 7) == WorkdaysAmong(start, n) + 5
  {
    var m := Weekday(start) + n;
    var c0 := WorkdaysAmong(start, n);
    AmongStep(start, m, n);
    var c1 := WorkdaysAmong(start, n + 1);
    AmongStep(start, m + 1, n + 1);
    var c2 := WorkdaysAmong(start, n + 2);
    AmongStep(start, m + 2, n + 2);
    var c3 := WorkdaysAmong(start, n + 3);
    AmongStep(start, m + 3, n + 3);
    var c4 := WorkdaysAmong(start, n + 4);
    AmongStep(start, m + 4, n + 4);
    var c5 := WorkdaysAmong(start, n + 5);
    AmongStep(start, m + 5, n + 5);
    var c6 := WorkdaysAmong(start, n + 6);
    AmongStep(start, m + 6, n + 6);
    CycleHoldsFive(m);
  }

  /** A span of whole weeks has five working days per week. */
  lemma {:induction false} FullWeeks(start: Instant, weeks: nat)
    ensures WorkdayCount(start, start + 7 * weeks * MicrosPerDay) == 5 * weeks
  {
    FullWeeksAmong(start, weeks);
    var end := start + 7 * weeks * MicrosPerDay;
    var n := DaySteps(start, end);
    if weeks > 0 {
      StepBeforeEnd(start, end, 7 * weeks - 1);
      StepBeforeEnd(start, end, 7 * weeks);
      assert start + (7 * weeks - 1) * MicrosPerDay < end;
      assert n == 7 * weeks;
    }
  }

  lemma {:induction false} FullWeeksAmong(start: Instant, weeks: nat)
    ensures WorkdaysAmong(start, 7 * weeks) == 5 * weeks
  {
    if weeks > 0 {
      FullWeeksAmong(start, weeks - 1);
      WeekHoldsFiveWorkdays(start, 7 * (weeks - 1));
    }
  }

  /** The calendar days between two instants are the loop's day-steps, or one fewer. */
  lemma CalendarDaysWithinSteps(start: Instant, end: Instant)
    requires start < end
    ensures DaySteps(start, end) - 1 <= CalendarDays(start, end) <= DaySteps(start, end)
  {
    var n := DaySteps(start, end);
    var ds, de := DayOf(start), DayOf(end);
    assert start + (n - 1) * MicrosPerDay < end <= start + n * MicrosPerDay;
    DayOfMonotone(start + (n - 1) * MicrosPerDay, end);
    DayOfMonotone(end, start + n * MicrosPerDay);
    DayShift(start, n - 1);
    DayShift(start, n);
  }

  lemma {:induction false} DayShift(t: Instant, k: nat)
    ensures DayOf(t + k * MicrosPerDay) == DayOf(t) + k
  {
    if k > 0 {
      DayShift(t, k - 1);
      assert t + k * MicrosPerDay == (t + (k - 1) * MicrosPerDay) + MicrosPerDay;
      DayOfNextDay(t + (k - 1) * MicrosPerDay);
    }
  }

  /** Working days never exceed calendar days by more than one. */
  lemma WorkdaysAtMostCalendarDaysPlusOne(start: Instant, end: Instant)
    ensures WorkdayCount(start, end) <= CalendarDays(start, end) + 1
  {
    if start < end {
      CalendarDaysWithinSteps(start, end);
    }
  }

  /** Two instants have the same date exactly when neither is a calendar day before the other. */
  lemma IsTodayIffNoCalendarDays(d: Instant, now: Instant)
    ensures IsToday(d, now) <==> CalendarDays(now, d) == 0 && CalendarDays(d, now) == 0
  {
    if d < now {
      DayOfMonotone(d, now);
    } else if now < d {
      DayOfMonotone(now, d);
    }
  }
}
