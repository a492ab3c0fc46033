/**
 * Calendar days and the Monday-to-Friday count of `_business_days_inclusive`.
 *
 * A date is its proleptic-Gregorian ordinal (0001-01-01 is day 1), so adding
 * `timedelta(days=k)` adds k, subtracting two dates subtracts ordinals, and the
 * weekday is `(ordinal + 6) % 7` with Monday = 0 .. Sunday = 6.
 */
module Calendar {

  /** A calendar date as its proleptic-Gregorian ordinal. */
  type Date = int

  /**
   * The ordinal of 9999-12-31, the last date a Python `date` can hold: adding
   * a `timedelta` that steps past it raises OverflowError.
   */
  const MaxOrdinal: Date := 3652059

  /** The day of the week of `d`, Monday = 0 .. Sunday = 6. */
  function Weekday(d: Date): (w: int)
    ensures 0 <= w < 7
  {
    (d + 6) % 7
  }

  /** Monday to Friday. */
  predicate IsBusinessDay(d: Date) {
    Weekday(d) < 5
  }

  /**
   * The reference count: the Monday-to-Friday days of the inclusive span
   * [start, end], taken one day at a time from the end.
   */
  function BusinessDayCount(start: Date, end: Date): (n: nat)
    ensures end < start ==> n == 0
    ensures start <= end ==> n <= end - start + 1
    decreases end - start
  {
    if end < start then 0
    else BusinessDayCount(start, end - 1) + (if IsBusinessDay(end) then 1 else 0)
  }

  /** Walking k days forward moves the weekday k steps round the week. */
  lemma WeekdayAfter(d: Date, k: int)
    ensures Weekday(d + k) == (Weekday(d) + k) % 7
  {
  }

  /** A single day counts exactly when it is a Monday to Friday. */
  lemma SingleDayCount(d: Date)
    ensures BusinessDayCount(d, d) == 1 <==> IsBusinessDay(d)
    ensures BusinessDayCount(d, d) == 0 <==> !IsBusinessDay(d)
  {
  }

  /** The count over [a, c] splits at any b into [a, b] and [b + 1, c]. */
  lemma {:induction false} CountSplit(a: Date, b: Date, c: Date)
    requires a - 1 <= b <= c
    ensures BusinessDayCount(a, c) == BusinessDayCount(a, b) + BusinessDayCount(b + 1, c)
    decreases c - b
  {
    if b < c {
      CountSplit(a, b, c - 1);
    }
  }

  /** Shifting a span by whole weeks does not change its count. */
  lemma {:induction false} CountShiftWeeks(a: Date, b: Date, k: nat)
    ensures BusinessDayCount(a + 7 * k, b + 7 * k) == BusinessDayCount(a, b)
    decreases b - a
  {
    if a <= b {
      CountShiftWeeks(a, b - 1, k);
      WeekdayAfter(b, 7 * k);
    }
  }

  /** Whether day a + k (0 <= k < 7) is a Monday to Friday, read off the weekday of a. */
  lemma BusinessDayAfter(a: Date, k: int)
    requires 0 <= k < 7
    ensures IsBusinessDay(a + k) <==> Weekday(a) + k < 5 || 7 <= Weekday(a) + k < 12
  {
    WeekdayAfter(a, k);
  }

  /** Any seven consecutive days hold exactly five Mondays-to-Fridays. */
  lemma CountOneWeek(a: Date)
    ensures BusinessDayCount(a, a + 6) == 5
  {
    assert BusinessDayCount(a, a) == if IsBusinessDay(a) then 1 else 0;
    assert BusinessDayCount(a, a + 1) == BusinessDayCount(a, a) + (if IsBusinessDay(a + 1) then 1 else 0);
    assert BusinessDayCount(a, a + 2) == BusinessDayCount(a, a + 1) + (if IsBusinessDay(a + 2) then 1 else 0);
    assert BusinessDayCount(a, a + 3) == BusinessDayCount(a, a + 2) + (if IsBusinessDay(a + 3) then 1 else 0);
    assert BusinessDayCount(a, a + 4) == BusinessDayCount(a, a + 3) + (if IsBusinessDay(a + 4) then 1 else 0);
    assert BusinessDayCount(a, a + 5) == BusinessDayCount(a, a + 4) + (if IsBusinessDay(a + 5) then 1 else 0);
    BusinessDayAfter(a, 0); BusinessDayAfter(a, 1); BusinessDayAfter(a, 2); BusinessDayAfter(a, 3);
    BusinessDayAfter(a, 4); BusinessDayAfter(a, 5); BusinessDayAfter(a, 6);
  }

  /** k whole weeks starting anywhere hold 5k Mondays-to-Fridays. */
  lemma {:induction false} CountWholeWeeks(a: Date, k: nat)
    ensures BusinessDayCount(a, a + 7 * k - 1) == 5 * k
  {
    if k > 0 {
      CountWholeWeeks(a, k - 1);
      CountSplit(a, a + 7 * (k - 1) - 1, a + 7 * k - 1);
      CountOneWeek(a + 7 * (k - 1));
    }
  }

  /** Extending the end of a span never lowers its count. */
  lemma CountMonotone(start: Date, e1: Date, e2: Date)
    requires e1 <= e2
    ensures BusinessDayCount(start, e1) <= BusinessDayCount(start, e2)
  {
    if start - 1 <= e1 {
      CountSplit(start, e1, e2);
    }
  }

  /**
   * `_business_days_inclusive`: whole seven-day blocks count five each, and the
   * remaining days are walked from the weekday of `start`, each counted when it
   * falls on Monday to Friday. The result is the day-by-day count.
   */
  method BusinessDaysInclusive(start: Date, end: Date) returns (count: int)
    ensures count == BusinessDayCount(start, end)
  {
    if end < start {
      return 0;
    }
    var days := end - start + 1;
    var fullWeeks, extra := days / 7, days % 7;
    count := fullWeeks * 5;
    var startWd := Weekday(start);
    for i := 0 to extra
      invariant count == fullWeeks * 5 + BusinessDayCount(start, start + i - 1)
    {
      WeekdayAfter(start, i);
      if (startWd + i) % 7 < 5 {
        count := count + 1;
      }
    }
    CountSplit(start, start + 7 * fullWeeks - 1, end);
    CountWholeWeeks(start, fullWeeks);
    CountShiftWeeks(start, start + extra - 1, fullWeeks);
  }
}
