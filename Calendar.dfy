/** The week-of-month bucket used for the output directory. */
module Calendar {

  /** `(day + first_weekday) // 7 + 1`, where `first_weekday` is the
      weekday of the 1st of the month, Monday = 0.  Both operands are
      non-negative, so Python's floor division and Dafny's `/` agree. */
  function WeekOfMonth(day: int, firstWeekday: int): (week: int)
    requires 1 <= day <= 31 && 0 <= firstWeekday <= 6
    ensures 1 <= week <= 6
  {
    (day + firstWeekday) / 7 + 1
  }

  /** The weekday of `day` (Monday = 0, Sunday = 6) in a month whose 1st
      falls on `firstWeekday`. */
  function Weekday(day: int, firstWeekday: int): (d: int)
    requires 1 <= day && 0 <= firstWeekday <= 6
    ensures 0 <= d <= 6
    ensures day == 1 ==> d == firstWeekday
  {
    (firstWeekday + day - 1) % 7
  }

  /** The number of Sundays among days `1..day`. */
  function SundaysUpTo(day: int, firstWeekday: int): nat
    requires 0 <= day && 0 <= firstWeekday <= 6
  {
    if day == 0 then 0
    else SundaysUpTo(day - 1, firstWeekday) + (if Weekday(day, firstWeekday) == 6 then 1 else 0)
  }

  /** The 1st is in week 1, unless the month starts on a Sunday, when it is
      already in week 2. */
  lemma FirstDayWeek(firstWeekday: int)
    requires 0 <= firstWeekday <= 6
    ensures WeekOfMonth(1, firstWeekday) == if firstWeekday == 6 then 2 else 1
  {
  }

  /** From one day to the next the week stays, or rises by one exactly when
      the new day is a Sunday. */
  lemma WeekStep(day: int, firstWeekday: int)
    requires 1 <= day < 31 && 0 <= firstWeekday <= 6
    ensures WeekOfMonth(day + 1, firstWeekday) ==
            WeekOfMonth(day, firstWeekday) + (if Weekday(day + 1, firstWeekday) == 6 then 1 else 0)
  {
  }

  /** The week never decreases as the day grows. */
  lemma {:induction false} WeekMonotone(d1: int, d2: int, firstWeekday: int)
    requires 1 <= d1 <= d2 <= 31 && 0 <= firstWeekday <= 6
    ensures WeekOfMonth(d1, firstWeekday) <= WeekOfMonth(d2, firstWeekday)
    decreases d2 - d1
  {
    if d1 < d2 {
      WeekStep(d1, firstWeekday);
      WeekMonotone(d1 + 1, d2, firstWeekday);
    }
  }

  /** A reference definition: the week is one more than the number of
      Sundays so far, so the buckets change on Sundays. */
  lemma {:induction false} WeekCountsSundays(day: int, firstWeekday: int)
    requires 1 <= day <= 31 && 0 <= firstWeekday <= 6
    ensures WeekOfMonth(day, firstWeekday) == 1 + SundaysUpTo(day, firstWeekday)
    decreases day
  {
    if day == 1 {
      FirstDayWeek(firstWeekday);
      assert SundaysUpTo(0, firstWeekday) == 0;
    } else {
      WeekCountsSundays(day - 1, firstWeekday);
      WeekStep(day - 1, firstWeekday);
    }
  }

  /** The 1st of a month starting on Monday is in week 1; the 31st of a
      month starting on Sunday is in week 6. */
  lemma WeekExamples()
    ensures WeekOfMonth(1, 0) == 1
    ensures WeekOfMonth(31, 6) == 6
  {
  }
}
