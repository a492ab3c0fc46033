/**
 * `generate_schedule`: the ordered rotation dates of a student, four in the
 * first week and five in each later week.
 *
 * As written, week 1 starts one day after the start date and takes offsets
 * 1..4 from there, so its dates are start + 2 .. start + 5; week k (counted
 * from 0, k >= 1) starts at start + 7k - 1 and takes offsets 0..4. For a
 * Monday start that is Wednesday to Saturday, then Sunday to Thursday.
 */
module Schedule {
  import opened Wrappers
  import opened Calendar
  import opened Slots

  /** The number of rotation dates in `rotationLength` weeks; none when it is not positive. */
  function ScheduleLength(rotationLength: int): nat {
    if rotationLength <= 0 then 0 else 4 + 5 * (rotationLength - 1)
  }

  /** The date `generate_schedule` lays a valid slot on. */
  function SlotDate(start: Date, s: Slot): Date
    requires ValidSlot(s)
  {
    if s.week == 1 then (start + 1) + s.day
    else (start + 7 * (s.week - 1) - 1) + (s.day - 1)
  }

  /** The dates of the first m flattened slots, in order. */
  function SlotDates(start: Date, m: nat): seq<Date> {
    seq(m, i requires 0 <= i => SlotDate(start, SlotAt(i)))
  }

  /** One more slot appends its date. */
  lemma SlotDatesSnoc(start: Date, m: nat, d: Date)
    requires d == SlotDate(start, SlotAt(m))
    ensures SlotDates(start, m + 1) == SlotDates(start, m) + [d]
  {
  }

  /** The rotation dates, in order: the i-th is the date of the slot at position i. */
  function ScheduleDates(start: Date, rotationLength: int): (r: seq<Date>)
    ensures |r| == ScheduleLength(rotationLength)
  {
    SlotDates(start, ScheduleLength(rotationLength))
  }

  /** Why `generate_schedule` fails: a date past 9999-12-31 raises OverflowError. */
  datatype ScheduleError = DateOutOfRange

  /** Some rotation date lies past the last representable date; the last one is the latest. */
  predicate ScheduleOverflows(start: Date, rotationLength: int) {
    rotationLength >= 1 && ScheduleDates(start, rotationLength)[ScheduleLength(rotationLength) - 1] > MaxOrdinal
  }

  /**
   * `generate_schedule`: an outer loop over `range(rotationLength)` and an
   * inner loop over the week's offsets, appending one date at a time. Each
   * `date + timedelta` that lands past 9999-12-31 raises, ending the call.
   */
  method GenerateSchedule(start: Date, rotationLength: int) returns (r: Result<seq<Date>, ScheduleError>)
    ensures ScheduleOverflows(start, rotationLength) ==> r == Failure(DateOutOfRange)
    ensures !ScheduleOverflows(start, rotationLength) ==> r == Success(ScheduleDates(start, rotationLength))
  {
    var days := [];
    var currentDate := start;
    var weeks := if rotationLength < 0 then 0 else rotationLength;
    ScheduleOverflowsWhen(start, rotationLength);
    for week := 0 to weeks
      invariant |days| == ScheduleLength(week) && days == SlotDates(start, |days|)
      invariant week >= 1 ==> (if week == 1 then start + 5 else start + 7 * week - 4) <= MaxOrdinal
    {
      var weekdayOffsets := if week == 0 then [1, 2, 3, 4] else [0, 1, 2, 3, 4];
      var weekStart := currentDate + (if week == 0 then 1 else 7 * week - 1);
      if weekStart > MaxOrdinal {
        return Failure(DateOutOfRange);
      }
      for k := 0 to |weekdayOffsets|
        invariant |days| == ScheduleLength(week) + k && days == SlotDates(start, |days|)
        invariant k >= 1 ==> weekStart + (if week == 0 then k else k - 1) <= MaxOrdinal
      {
        var dayDate := weekStart + weekdayOffsets[k];
        if dayDate > MaxOrdinal {
          return Failure(DateOutOfRange);
        }
        WeekStep(start, week, k);
        days := days + [dayDate];
      }
    }
    return Success(days);
  }

  /** Week 1 of a non-empty schedule is start + 2 .. start + 5. */
  lemma ScheduleFirstWeek(start: Date, rotationLength: int)
    requires rotationLength >= 1
    ensures ScheduleDates(start, rotationLength)[..4] == [start + 2, start + 3, start + 4, start + 5]
  {
  }

  /** Week k (counted from 0, 1 <= k < rotationLength) is start + 7k - 1 plus offsets 0..4. */
  lemma ScheduleLaterWeek(start: Date, rotationLength: int, k: int, j: int)
    requires 1 <= k < rotationLength && 0 <= j < 5
    ensures 4 + 5 * (k - 1) + j < |ScheduleDates(start, rotationLength)|
    ensures ScheduleDates(start, rotationLength)[4 + 5 * (k - 1) + j] == start + 7 * k - 1 + j
  {
    SlotAtPositionOf(Slot(k + 1, j + 1));
  }

  /** Later slots fall on later dates. */
  lemma SlotDateIncreasing(start: Date, s: Slot, t: Slot)
    requires ValidSlot(s) && ValidSlot(t) && Before(s, t)
    ensures SlotDate(start, s) < SlotDate(start, t)
  {
  }

  /** The schedule is strictly increasing, so no date occurs twice. */
  lemma ScheduleStrictlyIncreasing(start: Date, rotationLength: int, i: int, j: int)
    requires 0 <= i < j < ScheduleLength(rotationLength)
    ensures ScheduleDates(start, rotationLength)[i] < ScheduleDates(start, rotationLength)[j]
  {
    SlotOrder(i, j);
    SlotDateIncreasing(start, SlotAt(i), SlotAt(j));
  }

  /** The last rotation date: start + 5 for one week, start + 7n - 4 for n >= 2 weeks. */
  lemma ScheduleLastDate(start: Date, rotationLength: int)
    requires rotationLength >= 1
    ensures ScheduleDates(start, rotationLength)[ScheduleLength(rotationLength) - 1]
            == if rotationLength == 1 then start + 5 else start + 7 * rotationLength - 4
  {
    if rotationLength >= 2 {
      ScheduleLaterWeek(start, rotationLength, rotationLength - 1, 4);
    }
  }

  /**
   * One step of the inner loop of `generate_schedule`: the k-th date of week
   * `week` (from 0), the week's start plus the k-th offset, is the date of
   * the slot at the next free position.
   */
  lemma WeekStep(start: Date, week: int, k: int)
    requires week >= 0 && 0 <= k < (if week == 0 then 4 else 5)
    ensures ScheduleLength(week + 1) == ScheduleLength(week) + (if week == 0 then 4 else 5)
    ensures SlotDates(start, ScheduleLength(week) + k + 1) ==
              SlotDates(start, ScheduleLength(week) + k) +
              [start + (if week == 0 then 1 else 7 * week - 1) + (if week == 0 then k + 1 else k)]
  {
    SlotAtPositionOf(Slot(week + 1, k + 1));
    SlotDatesSnoc(start, ScheduleLength(week) + k,
                  start + (if week == 0 then 1 else 7 * week - 1) + (if week == 0 then k + 1 else k));
  }

  /** No rotation date comes after the last one. */
  lemma ScheduleAtMostLast(start: Date, rotationLength: int, i: int)
    requires 0 <= i < ScheduleLength(rotationLength)
    ensures ScheduleDates(start, rotationLength)[i] <= ScheduleDates(start, rotationLength)[ScheduleLength(rotationLength) - 1]
  {
    if i < ScheduleLength(rotationLength) - 1 {
      ScheduleStrictlyIncreasing(start, rotationLength, i, ScheduleLength(rotationLength) - 1);
    }
  }

  /**
   * Every rotation date lies between start + 2 and the last rotation date,
   * start + 5 for one week and start + 7n - 4 for n >= 2 weeks.
   */
  lemma ScheduleWithinRotation(start: Date, rotationLength: int, i: int)
    requires 0 <= i < ScheduleLength(rotationLength)
    ensures start + 2 <= ScheduleDates(start, rotationLength)[i]
    ensures ScheduleDates(start, rotationLength)[i] <= if rotationLength == 1 then start + 5 else start + 7 * rotationLength - 4
  {
    if i > 0 {
      ScheduleStrictlyIncreasing(start, rotationLength, 0, i);
    }
    ScheduleAtMostLast(start, rotationLength, i);
    ScheduleLastDate(start, rotationLength);
  }

  /** The schedule overflows exactly when its last date, start + 5 or start + 7n - 4, passes 9999-12-31. */
  lemma ScheduleOverflowsWhen(start: Date, rotationLength: int)
    ensures ScheduleOverflows(start, rotationLength) <==>
            (rotationLength == 1 && start + 5 > MaxOrdinal) || (rotationLength >= 2 && start + 7 * rotationLength - 4 > MaxOrdinal)
  {
    if rotationLength >= 1 {
      ScheduleLastDate(start, rotationLength);
    }
  }

  /** For a Monday start, week 1 ends on a Saturday and week 2 begins on a Sunday. */
  lemma MondayStartWeekends(start: Date, rotationLength: int)
    requires Weekday(start) == 0 && rotationLength >= 2
    ensures Weekday(ScheduleDates(start, rotationLength)[3]) == 5
    ensures Weekday(ScheduleDates(start, rotationLength)[4]) == 6
  {
    WeekdayAfter(start, 5);
    WeekdayAfter(start, 6);
  }

  /**
   * The schedule and the slot lookup disagree: for a Monday start, the first
   * rotation date is the Wednesday start + 2, which the schedule places at
   * position 0 (slot (1, 1)) but `_week_day_for_student` maps to slot (1, 2).
   */
  lemma ScheduleDisagreesWithLookup(start: Date, rotationLength: int)
    requires Weekday(start) == 0 && rotationLength >= 1 && start < MaxOrdinal
    ensures SlotAt(0) == Slot(1, 1)
    ensures WeekDayForStudent(Some(start), ScheduleDates(start, rotationLength)[0]) == Success(Slot(1, 2))
  {
    WeekdayAfter(start, 1);
    WeekdayAfter(start, 2);
    assert BusinessDayCount(start + 1, start + 2) == BusinessDayCount(start + 1, start + 1) + 1;
  }

  /**
   * Start Monday 2025-01-06 (ordinal 739257), two weeks: Wednesday 01-08 to
   * Saturday 01-11, then Sunday 01-12 to Thursday 01-16.
   */
  lemma ScheduleJanuary2025()
    ensures ScheduleDates(739257, 2) == [739259, 739260, 739261, 739262, 739263, 739264, 739265, 739266, 739267]
  {
    ScheduleLaterWeek(739257, 2, 1, 0);
    ScheduleLaterWeek(739257, 2, 1, 1);
    ScheduleLaterWeek(739257, 2, 1, 2);
    ScheduleLaterWeek(739257, 2, 1, 3);
    ScheduleLaterWeek(739257, 2, 1, 4);
  }
}
