/**
 * Rotation slots: the (week, day) coordinates of the rotation, their
 * flattening into positions 0, 1, 2, ... (four slots in week 1, five in every
 * later week), and `_week_day_for_student`, which turns the business days
 * elapsed since a student's start date into a slot.
 */
module Slots {
  import opened Wrappers
  import opened Calendar

  /** A rotation slot: `week` counts from 1, `day` from 1 within the week. */
  datatype Slot = Slot(week: int, day: int)

  /** Week 1 has days 1..4 (Tuesday to Friday); every later week has days 1..5. */
  predicate ValidSlot(s: Slot) {
    s.week >= 1 && 1 <= s.day <= (if s.week == 1 then 4 else 5)
  }

  /** `s` comes strictly before `t`: an earlier week, or the same week and an earlier day. */
  predicate Before(s: Slot, t: Slot) {
    s.week < t.week || (s.week == t.week && s.day < t.day)
  }

  /** The slot at flattened position `i`. */
  function SlotAt(i: nat): (s: Slot)
    ensures ValidSlot(s)
    ensures s.week == 1 <==> i < 4
  {
    if i < 4 then Slot(1, i + 1) else Slot(2 + (i - 4) / 5, 1 + (i - 4) % 5)
  }

  /** The flattened position of a valid slot: the number of slots before it. */
  function PositionOf(s: Slot): (i: nat)
    requires ValidSlot(s)
    ensures s.week == 1 <==> i < 4
  {
    if s.week == 1 then s.day - 1 else 4 + 5 * (s.week - 2) + (s.day - 1)
  }

  /** Flattening and unflattening are inverse: positions to slots and back. */
  lemma PositionOfSlotAt(i: nat)
    ensures PositionOf(SlotAt(i)) == i
  {
  }

  /** Flattening and unflattening are inverse: slots to positions and back. */
  lemma SlotAtPositionOf(s: Slot)
    requires ValidSlot(s)
    ensures SlotAt(PositionOf(s)) == s
  {
    if s.week >= 2 {
      var n := 5 * (s.week - 2) + (s.day - 1);
      assert n / 5 == s.week - 2 && n % 5 == s.day - 1;
    }
  }

  /** Positions and slots are ordered alike, so distinct positions give distinct slots. */
  lemma SlotOrder(i: nat, j: nat)
    ensures i < j <==> Before(SlotAt(i), SlotAt(j))
  {
    PositionOfSlotAt(i);
    PositionOfSlotAt(j);
  }

  /**
   * The slot that follows `s` under the counters of the link-numbering loop:
   * the day advances, and past day 4 of week 1 or day 5 of a later week the
   * week advances and the day restarts at 1.
   */
  lemma SlotAtSucc(i: nat)
    ensures var s := SlotAt(i);
            var d := s.day + 1;
            SlotAt(i + 1) == if (s.week == 1 && d > 4) || (s.week > 1 && d > 5) then Slot(s.week + 1, 1) else Slot(s.week, d)
  {
    var s := SlotAt(i);
    var t := if (s.week == 1 && s.day + 1 > 4) || (s.week > 1 && s.day + 1 > 5) then Slot(s.week + 1, 1) else Slot(s.week, s.day + 1);
    assert ValidSlot(t) && PositionOf(t) == i + 1;
    SlotAtPositionOf(t);
  }

  /**
   * The slot reached after `sendDays` sendable business days: (1, 1) when
   * none have passed yet, otherwise the slot at position `sendDays - 1`.
   */
  function SlotForSendDays(sendDays: int): (s: Slot)
    ensures ValidSlot(s)
    ensures sendDays <= 0 ==> s == Slot(1, 1)
    ensures sendDays >= 1 ==> PositionOf(s) == sendDays - 1
    ensures 1 <= sendDays <= 4 ==> s == Slot(1, sendDays)
    ensures sendDays > 4 ==> s.week >= 2 && 4 + 5 * (s.week - 2) + s.day == sendDays
  {
    if sendDays <= 0 then
      Slot(1, 1)
    else if sendDays <= 4 then
      Slot(1, sendDays)
    else
      var rem := sendDays - 4;
      Slot(2 + (rem - 1) / 5, 1 + (rem - 1) % 5)
  }

  /** The n-th sendable day (n >= 1) lands on the slot at flattened position n - 1. */
  lemma SlotForSendDaysIsSlotAt(n: int)
    requires n >= 1
    ensures SlotForSendDays(n) == SlotAt(n - 1)
  {
    SlotAtPositionOf(SlotForSendDays(n));
  }

  /** More sendable days never move the slot backwards. */
  lemma SlotForSendDaysMonotone(m: int, n: int)
    requires m <= n
    ensures SlotForSendDays(m) == SlotForSendDays(n) || Before(SlotForSendDays(m), SlotForSendDays(n))
  {
    if m >= 1 {
      SlotForSendDaysIsSlotAt(m);
      SlotForSendDaysIsSlotAt(n);
      SlotOrder(m - 1, n - 1);
    }
  }

  /**
   * Why `_week_day_for_student` fails: the HTTP 400 abort for a student
   * without a start date, or the OverflowError of stepping past 9999-12-31
   * to the first sendable day.
   */
  datatype SlotError = MissingStartDate | DateOverflow

  /**
   * `_week_day_for_student` with today's date passed in: the first sendable
   * day is the day after the start date, and the slot is given by the
   * Monday-to-Friday days from it through `today`. Computing the first
   * sendable day fails when the start date is the last representable date.
   */
  function WeekDayForStudent(startDate: Option<Date>, today: Date): (r: Result<Slot, SlotError>)
    ensures r == Failure(MissingStartDate) <==> startDate.None?
    ensures r == Failure(DateOverflow) <==> startDate.Some? && startDate.value >= MaxOrdinal
    ensures r.Success? ==> ValidSlot(r.value)
    ensures r.Success? && today <= startDate.value ==> r.value == Slot(1, 1)
    ensures r.Success? ==>
              var n := BusinessDayCount(startDate.value + 1, today);
              (n == 0 ==> r.value == Slot(1, 1)) && (n >= 1 ==> PositionOf(r.value) == n - 1)
  {
    if startDate.None? then
      Failure(MissingStartDate)
    else if startDate.value + 1 > MaxOrdinal then
      Failure(DateOverflow)
    else
      var firstSendDay := startDate.value + 1;
      var sendDays := BusinessDayCount(firstSendDay, today);
      Success(SlotForSendDays(sendDays))
  }

  /** As `today` advances the slot never moves backwards. */
  lemma WeekDayForStudentMonotone(start: Date, t1: Date, t2: Date)
    requires start < MaxOrdinal && t1 <= t2
    ensures var s1 := WeekDayForStudent(Some(start), t1).value;
            var s2 := WeekDayForStudent(Some(start), t2).value;
            s1 == s2 || Before(s1, s2)
  {
    CountMonotone(start + 1, t1, t2);
    SlotForSendDaysMonotone(BusinessDayCount(start + 1, t1), BusinessDayCount(start + 1, t2));
  }

  /** The lookup moves to the next slot exactly on Mondays to Fridays once week 1 has begun. */
  lemma WeekDayForStudentStep(start: Date, today: Date)
    requires start < MaxOrdinal && start < today
    ensures var s1 := WeekDayForStudent(Some(start), today).value;
            var s2 := WeekDayForStudent(Some(start), today + 1).value;
            var n := BusinessDayCount(start + 1, today);
            n >= 1 ==> (IsBusinessDay(today + 1) <==> s1 != s2)
  {
    var n := BusinessDayCount(start + 1, today);
    if n >= 1 {
      SlotForSendDaysIsSlotAt(n);
      if IsBusinessDay(today + 1) {
        SlotForSendDaysIsSlotAt(n + 1);
        SlotOrder(n - 1, n);
      }
    }
  }

  /** On the day after the start date the slot is (1, 1), whether or not that day is a Monday to Friday. */
  lemma FirstSendableDaySlot(start: Date)
    requires start < MaxOrdinal
    ensures WeekDayForStudent(Some(start), start + 1) == Success(Slot(1, 1))
  {
    SingleDayCount(start + 1);
  }

  /**
   * Start Monday 2025-01-06 (ordinal 739257): on Thursday 2025-01-09 three
   * sendable days (Tuesday to Thursday) have passed, which is slot (1, 3).
   */
  lemma LookupOnJanuary9()
    ensures WeekDayForStudent(Some(739257), 739260) == Success(Slot(1, 3))
  {
    assert BusinessDayCount(739258, 739260) == 3;
  }
}
