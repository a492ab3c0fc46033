# Daily-dose rotation calendar in Dafny

This project models the rotation calendar of the daily-dose texting service. Each faculty
account has a rotation length in weeks and an ordered list of links. Each student has a
start date. Every morning each student is texted the link for the day's rotation slot. The
model covers the date arithmetic behind that:

- `generate_schedule` (module `Schedule`) lists a student's rotation dates: four in week 1,
  then five in each later week.
- `_business_days_inclusive` (module `Calendar`) counts Monday-to-Friday days in an inclusive
  span. It counts whole seven-day blocks first and then walks the remaining days.
- `_week_day_for_student` (module `Slots`) turns the business days elapsed since the day after
  the start date into a (week, day) slot.
- The numbering loop of `add_links` and `edit_links` (module `Links`) gives the i-th pasted link
  the i-th slot. Both routes run the same loop, so one method models both.
- `send_daily_texts` (module `Dispatch`) finds today among the rotation dates and sends the link
  at the same position when there is one.

Dates are proleptic-Gregorian ordinals: adding `timedelta(days=k)` adds k, and the weekday is
`(ordinal + 6) % 7` (Monday = 0). Python's `//` and `%` only ever see non-negative operands or
the positive divisors 5 and 7 here, so Dafny's Euclidean operators give the same results.
Python dates stop at 9999-12-31 (ordinal 3652059, `Calendar.MaxOrdinal`). A `date + timedelta`
that steps past it raises OverflowError. The model returns an explicit failure for each
such step: in `generate_schedule`, and for the first sendable day of `_week_day_for_student`.
Today's date is a parameter. The SMS transport is the outbox of texts that the daily pass
returns. Slots are laid out flat as positions 0, 1, 2, ... with `Slots.SlotAt`, which is a
bijection onto the valid slots.

Where the code and its description differ, the model follows the code:

- Week 1 of `generate_schedule` starts one day after the start date and then takes offsets
  1..4 (app.py:60, app.py:63). Its dates are therefore start + 2 .. start + 5. Later weeks
  start at start + 7k - 1. For a Monday start that gives Wednesday to Saturday, then Sunday to
  Thursday, although the docstring promises Tuesday to Friday and then Monday to Friday
  (`Schedule.MondayStartWeekends`).
- The schedule and the slot lookup therefore disagree. For a Monday start, the first
  rotation date is at position 0, which is slot (1, 1), but `_week_day_for_student` maps it to
  (1, 2) (`Schedule.ScheduleDisagreesWithLookup`). No agreement between the two is claimed.
- The business-day count tests the calendar weekday `(start.weekday() + i) % 7 < 5`. It is
  an absolute Monday-to-Friday count, not one relative to the start date's weekday. So a
  single-day span counts 1 exactly on Mondays to Fridays (`Calendar.SingleDayCount`).

## Model

| member | source | states |
|---|---|---|
| `Calendar.BusinessDayCount` | app.py:230-241 | The reference count of Monday-to-Friday days in [start, end]: 0 when end < start, and never more than the span's length |
| `Calendar.BusinessDaysInclusive` | app.py:230-241 | The whole-weeks-plus-remainder algorithm returns exactly the day-by-day Monday-to-Friday count (so 0 when end < start) |
| `Calendar.SingleDayCount` | app.py:237-240 | A one-day span counts 1 exactly when the day is Monday to Friday, and 0 otherwise |
| `Calendar.CountWholeWeeks` | app.py:235-236 | k whole seven-day blocks starting on any weekday hold exactly 5k business days, which justifies `full_weeks * 5` |
| `Calendar.CountMonotone` | app.py:230-241 | Moving the end of the span later never lowers the count |
| `Slots.SlotAt` | app.py:244-246 | Every flattened position names a valid slot (week 1 has days 1..4, later weeks 1..5), and week 1 holds exactly positions 0..3 |
| `Slots.PositionOfSlotAt` | app.py:268-272 | Position to slot to position is the identity |
| `Slots.SlotAtPositionOf` | app.py:268-272 | Valid slot to position to slot is the identity, so the flattening is a bijection |
| `Slots.SlotOrder` | app.py:268-272 | Position i precedes position j exactly when slot i precedes slot j in (week, day) order, so distinct positions have distinct slots |
| `Slots.SlotAtSucc` | app.py:162-165 | The slot at position i + 1 is what the numbering loop's day/week counter step makes of the slot at position i |
| `Slots.SlotForSendDays` | app.py:260-272 | Always a valid slot: (1, 1) for send_days <= 0, (1, send_days) for 1..4, and beyond that week >= 2 with 4 + 5(week - 2) + day = send_days; in every case with send_days >= 1 the slot's flattened position is send_days - 1 |
| `Slots.SlotForSendDaysIsSlotAt` | app.py:264-272 | After n >= 1 sendable days the lookup returns the slot at flattened position n - 1 |
| `Slots.SlotForSendDaysMonotone` | app.py:260-272 | More sendable days never move the slot backwards |
| `Slots.WeekDayForStudent` | app.py:248-272 | Fails with the missing-start-date error exactly when the start date is unset, and with an overflow exactly when the start date is 9999-12-31 (so the day after it cannot be formed); otherwise gives a valid slot, (1, 1) on or before the start date or when no business day has passed since it, and else the slot at position n - 1 for the n business days from the day after the start date through today |
| `Slots.WeekDayForStudentMonotone` | app.py:257-272 | As today advances the slot never moves backwards |
| `Slots.WeekDayForStudentStep` | app.py:257-272 | Once week 1 has begun, the slot changes from one day to the next exactly when the next day is a Monday to Friday |
| `Slots.FirstSendableDaySlot` | app.py:257-262 | On the day after the start date the slot is (1, 1) |
| `Slots.LookupOnJanuary9` | app.py:257-266 | For start 2025-01-06 the lookup on 2025-01-09 is slot (1, 3) |
| `Schedule.ScheduleDates` | app.py:55-67 | The schedule has 4 + 5(n - 1) dates for n >= 1 weeks and none for n <= 0 |
| `Schedule.GenerateSchedule` | app.py:53-67 | The nested append loops build exactly the specified schedule, the date of the slot at each position in turn, unless some rotation date would pass 9999-12-31, in which case the call fails with an overflow |
| `Schedule.ScheduleFirstWeek` | app.py:59-66 | Week 1 is [start + 2, start + 3, start + 4, start + 5] |
| `Schedule.ScheduleLaterWeek` | app.py:61-66 | Week k (from 0, k >= 1) is start + 7k - 1 plus offsets 0..4, at positions 4 + 5(k - 1) .. 4 + 5(k - 1) + 4 |
| `Schedule.SlotDateIncreasing` | app.py:57-66 | A later slot falls on a strictly later date |
| `Schedule.ScheduleStrictlyIncreasing` | app.py:57-66 | The schedule is strictly increasing, so `rotation_days.index(today)` names the only position of today |
| `Schedule.ScheduleLastDate` | app.py:57-66 | The last rotation date is start + 5 for one week and start + 7n - 4 for n >= 2 weeks |
| `Schedule.ScheduleWithinRotation` | app.py:57-66 | Every rotation date lies between start + 2 and the last rotation date (start + 5 for one week, start + 7n - 4 for n >= 2) |
| `Schedule.ScheduleOverflowsWhen` | app.py:63-65 | The schedule overflows exactly when n = 1 and start + 5 passes 9999-12-31, or n >= 2 and start + 7n - 4 does |
| `Schedule.MondayStartWeekends` | app.py:54-65 | For a Monday start, the fourth rotation date is a Saturday and the fifth a Sunday, against the docstring's Tuesday-to-Friday and Monday-to-Friday weeks |
| `Schedule.ScheduleDisagreesWithLookup` | app.py:59-66 | For a Monday start the first rotation date sits at position 0 (slot (1, 1)) but the slot lookup maps it to (1, 2) |
| `Schedule.ScheduleJanuary2025` | app.py:53-67 | For start 2025-01-06 and two weeks the dates are 2025-01-08 through 2025-01-16 |
| `Links.Numbering` | app.py:159-165 | One stored record per pasted link |
| `Links.NumberLinks` | app.py:159-165 | The counter loop stores the i-th link with the slot at flattened position i |
| `Links.NumberingValid` | app.py:188-194 | Every stored slot is valid and every record keeps its own link, in pasted order |
| `Links.NumberingIncreasing` | app.py:159-165 | Stored slots strictly increase with the pasting order, so no two links share a slot |
| `Links.NumberingMatchesSlotLookup` | app.py:159-165 | The i-th link's slot is what the slot lookup returns for send_days = i + 1 |
| `Dispatch.IndexOf` | app.py:86-87 | The first position of today in the schedule if it occurs there, and none exactly when it does not |
| `Dispatch.IndexOfRotationDate` | app.py:86-87 | `index` finds each rotation date exactly at its own position, so today's position is unique |
| `Dispatch.SelectLink` | app.py:84-92 | Nothing is scheduled exactly when today is not a rotation date; on the i-th rotation date the i-th link is sent, or no link is available when the list has fewer than i + 1 links; a link is sent only when today is the rotation date at some position idx < number of links, and it is the link at idx |
| `Dispatch.StudentSelection` | app.py:82-92 | A student's step fails exactly when there is at least one week to lay out and either the start date is unset (the missing-start-date error) or the schedule overflows past 9999-12-31 (the out-of-range error); with an unset start date nothing is ever sent; otherwise it is the selection rule for the student's start date, rotation length and links |
| `Dispatch.StudentTexts` | app.py:86-92 | One student is sent at most one text, and the pass goes on after it exactly when its step does not fail |
| `Dispatch.DailyTexts` | app.py:78-92 | The pass never hands over more texts than there are students, and it runs to the end exactly when no student's step fails |
| `Dispatch.DailyTextsAppend` | app.py:82-92 | Each student is handled independently, in order: the pass over a + b is the pass over a followed, if it finished, by the pass over b |
| `Dispatch.DailyTextsStopsAt` | app.py:82-88 | The first failing student ends the pass: the texts handed over before it stay, and the pass does not finish |
| `Dispatch.DailyTextsSingle` | app.py:86-92 | For one student the pass texts the selected link with the morning greeting, sends nothing, or stops |
| `Dispatch.SendDailyTexts` | app.py:78-92 | The loop over the students, stopping at a missing start date or a schedule overflow, produces exactly the specified texts and completion flag |

## Left out

- Flask routes, sessions, redirects, flash messages, templates and form parsing are web plumbing. The rotation length and the pasted links arrive already parsed.
- SQLAlchemy models and queries are persistence. A faculty account is a value that holds its rotation length and its links, in the order the link query returns them (`order_by(LinkLibrary.id)`). Each student record carries its faculty.
- The Twilio call in `send_text` and the SMTP email are network I/O. The daily pass returns the texts it hands to the transport. `send_text` catches every exception, so a failed delivery never changes the pass.
- The `print` logging in `send_daily_texts` has no counterpart beyond the `NoLinkAvailable` selection.
- The APScheduler cron job and the clock reads (`datetime.now()`, `date.today()`) are replaced by the `today` parameter.
- Calendar year/month/day conversion and the datetime-to-date coercion (app.py:250-251) are not modelled, because dates are ordinals.
- `link.strip()` (app.py:161, app.py:190) is not modelled. The stored link text is opaque.
- `home`, `resend_text` and `resend_email` are routes that use the slot lookup. The two resend routes also look up a link by (week, day) and then send it themselves, `resend_text` by SMS through Twilio and `resend_email` as an SMTP email. That lookup and that sending are network and database I/O and are not part of this model.
- The slot lookup `Slots.WeekDayForStudent` is a function, and functions cannot call methods. It therefore takes its count from the day-by-day reference count `Calendar.BusinessDayCount` rather than from the block algorithm. `Calendar.BusinessDaysInclusive` is proved to return that same count for every span.
- Dates before 0001-01-01 are not modelled. The code only adds days, so only the upper end of Python's date range can be crossed. The model accepts start ordinals outside 1..3652059, which no Python date holds.
- Python's `TypeError` when `generate_schedule` receives no start date is modelled as a failure that ends the daily pass (`Dispatch.PassError`), and so is the OverflowError of a schedule that passes 9999-12-31. The exceptions' text and the scheduler's logging of them are not modelled.
