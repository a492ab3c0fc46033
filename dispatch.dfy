/**
 * `send_daily_texts`: for each student, find today in the student's rotation
 * dates and, when a link exists at that position of the faculty's link list,
 * text it to the student. The clock is the `today` parameter; the text
 * transport is the outbox the pass returns.
 */
module Dispatch {
  import opened Wrappers
  import opened Calendar
  import opened Schedule

  /** The faculty account a student belongs to: its rotation length and its links in stored order. */
  datatype Faculty = Faculty(rotationLength: int, links: seq<string>)

  /** A student: the start date may be unset. */
  datatype Student = Student(name: string, phone: string, startDate: Option<Date>, faculty: Faculty)

  /** A text handed to the transport. */
  datatype Text = Text(to: string, body: string)

  /** What the pass does for one student today. */
  datatype Selection = SendLink(link: string) | NoLinkAvailable | NotScheduled

  /**
   * Why the pass stops: a missing start date makes `generate_schedule` add
   * days to nothing (TypeError), and a rotation date past 9999-12-31 raises
   * OverflowError.
   */
  datatype PassError = NoStartDate | ScheduleOutOfRange

  const Greeting := "Good morning! Here's today's link: "

  /** `list.index`: the first position of `x` in `s`, if any. */
  function IndexOf(s: seq<Date>, x: Date): (r: Option<nat>)
    ensures r.None? <==> x !in s
    ensures r.Some? ==> r.value < |s| && s[r.value] == x
    ensures r.Some? ==> forall j :: 0 <= j < r.value ==> s[j] != x
  {
    if |s| == 0 then None
    else if s[0] == x then Some(0)
    else match IndexOf(s[1..], x)
      case None => None
      case Some(k) => Some(k + 1)
  }

  /** An element that no earlier element equals is found at its own position. */
  lemma IndexOfFirst(s: seq<Date>, i: int)
    requires 0 <= i < |s|
    requires forall j :: 0 <= j < i ==> s[j] != s[i]
    ensures IndexOf(s, s[i]) == Some(i)
  {
    assert IndexOf(s, s[i]).Some?;
  }

  /** Today's position in the schedule is unique: `list.index` finds a rotation date exactly where it sits. */
  lemma IndexOfRotationDate(startDate: Date, rotationLength: int, i: int)
    requires 0 <= i < ScheduleLength(rotationLength)
    ensures IndexOf(ScheduleDates(startDate, rotationLength), ScheduleDates(startDate, rotationLength)[i]) == Some(i)
  {
    var days := ScheduleDates(startDate, rotationLength);
    forall j | 0 <= j < i
      ensures days[j] != days[i]
    {
      ScheduleStrictlyIncreasing(startDate, rotationLength, j, i);
    }
    IndexOfFirst(days, i);
  }

  /** `IndexOfRotationDate` for every position at once. */
  lemma IndexOfEveryRotationDate(startDate: Date, rotationLength: int)
    ensures forall i :: 0 <= i < ScheduleLength(rotationLength) ==>
              IndexOf(ScheduleDates(startDate, rotationLength), ScheduleDates(startDate, rotationLength)[i]) == Some(i)
  {
    forall i | 0 <= i < ScheduleLength(rotationLength)
      ensures IndexOf(ScheduleDates(startDate, rotationLength), ScheduleDates(startDate, rotationLength)[i]) == Some(i)
    {
      IndexOfRotationDate(startDate, rotationLength, i);
    }
  }

  /**
   * The selection rule for a student with a start date: the position of today
   * among the rotation dates picks the link at the same position. On the i-th
   * rotation date the i-th link is sent, or nothing when the list has no i-th
   * link; on any other day nothing is scheduled.
   */
  function SelectLink(startDate: Date, rotationLength: int, links: seq<string>, today: Date): (r: Selection)
    ensures r.NotScheduled? <==> today !in ScheduleDates(startDate, rotationLength)
    ensures forall i :: 0 <= i < ScheduleLength(rotationLength) && ScheduleDates(startDate, rotationLength)[i] == today ==>
              r == if i < |links| then SendLink(links[i]) else NoLinkAvailable
    ensures r.SendLink? ==>
              exists idx :: 0 <= idx < |links| && idx < ScheduleLength(rotationLength) &&
                ScheduleDates(startDate, rotationLength)[idx] == today && r.link == links[idx]
  {
    var rotationDays := ScheduleDates(startDate, rotationLength);
    IndexOfEveryRotationDate(startDate, rotationLength);
    match IndexOf(rotationDays, today)
    case None => NotScheduled
    case Some(idx) => if idx < |links| then SendLink(links[idx]) else NoLinkAvailable
  }

  /**
   * One student's step of the pass. It fails when there is at least one week
   * to lay out and either the start date is unset or a rotation date would
   * pass 9999-12-31.
   */
  function StudentSelection(s: Student, today: Date): (r: Result<Selection, PassError>)
    ensures r.Failure? <==> s.faculty.rotationLength >= 1 &&
                            (s.startDate.None? || ScheduleOverflows(s.startDate.value, s.faculty.rotationLength))
    ensures s.startDate.None? ==> r.Failure? || r.value.NotScheduled?
    ensures s.startDate.None? && r.Failure? ==> r.error == NoStartDate
    ensures s.startDate.Some? && r.Failure? ==> r.error == ScheduleOutOfRange
    ensures s.startDate.Some? && r.Success? ==>
              r.value == SelectLink(s.startDate.value, s.faculty.rotationLength, s.faculty.links, today)
  {
    if s.startDate.None? then
      if s.faculty.rotationLength >= 1 then Failure(NoStartDate) else Success(NotScheduled)
    else if ScheduleOverflows(s.startDate.value, s.faculty.rotationLength) then
      Failure(ScheduleOutOfRange)
    else
      Success(SelectLink(s.startDate.value, s.faculty.rotationLength, s.faculty.links, today))
  }

  /** One student's share of the pass: the text it is sent, if any, and whether the pass goes on. */
  function StudentTexts(s: Student, today: Date): (r: (seq<Text>, bool))
    ensures |r.0| <= 1
    ensures r.1 <==> StudentSelection(s, today).Success?
  {
    match StudentSelection(s, today)
    case Failure(_) => ([], false)
    case Success(SendLink(link)) => ([Text(s.phone, Greeting + link)], true)
    case Success(_) => ([], true)
  }

  /**
   * The whole pass over the students in order: the texts handed to the
   * transport and whether the pass ran to the end. The first failing student
   * ends it; the texts already handed over stay sent.
   */
  function DailyTexts(students: seq<Student>, today: Date): (r: (seq<Text>, bool))
    ensures |r.0| <= |students|
    ensures r.1 <==> forall i :: 0 <= i < |students| ==> StudentSelection(students[i], today).Success?
    decreases |students|
  {
    if |students| == 0 then
      ([], true)
    else
      var head := StudentTexts(students[0], today);
      var rest := DailyTexts(students[1..], today);
      assert forall i :: 1 <= i < |students| ==> students[i] == students[1..][i - 1];
      if head.1 then (head.0 + rest.0, rest.1) else ([], false)
  }

  /** The pass over a + b is the pass over a, then, if that finished, the pass over b. */
  lemma {:induction false} DailyTextsAppend(a: seq<Student>, b: seq<Student>, today: Date)
    ensures DailyTexts(a + b, today) ==
            if DailyTexts(a, today).1 then (DailyTexts(a, today).0 + DailyTexts(b, today).0, DailyTexts(b, today).1)
            else DailyTexts(a, today)
  {
    if |a| == 0 {
      assert a + b == b;
      assert [] + DailyTexts(b, today).0 == DailyTexts(b, today).0;
    } else {
      assert (a + b)[0] == a[0] && (a + b)[1..] == a[1..] + b;
      DailyTextsAppend(a[1..], b, today);
      var t := StudentTexts(a[0], today).0;
      assert t + (DailyTexts(a[1..], today).0 + DailyTexts(b, today).0)
          == (t + DailyTexts(a[1..], today).0) + DailyTexts(b, today).0;
    }
  }

  /** One student alone: a text carrying the selected link, nothing, or a stopped pass. */
  lemma DailyTextsSingle(s: Student, today: Date)
    ensures var r := DailyTexts([s], today);
            match StudentSelection(s, today)
            case Failure(_) => r == ([], false)
            case Success(SendLink(link)) => r == ([Text(s.phone, Greeting + link)], true)
            case Success(_) => r == ([], true)
  {
    assert [s][1..] == [];
    assert StudentTexts(s, today).0 + [] == StudentTexts(s, today).0;
  }

  /** A failing student ends the pass: the texts before it stay, and the pass does not finish. */
  lemma DailyTextsStopsAt(students: seq<Student>, i: int, today: Date)
    requires 0 <= i < |students| && StudentSelection(students[i], today).Failure?
    requires DailyTexts(students[..i], today).1
    ensures DailyTexts(students, today) == (DailyTexts(students[..i], today).0, false)
  {
    DailyTextsAppend(students[..i], students[i..], today);
    assert students[..i] + students[i..] == students;
    assert students[i..] == [students[i]] + students[i + 1..];
    DailyTextsAppend([students[i]], students[i + 1..], today);
    DailyTextsSingle(students[i], today);
    assert DailyTexts(students[..i], today).0 + [] == DailyTexts(students[..i], today).0;
  }

  /** `send_daily_texts`: the loop over the students. */
  method SendDailyTexts(students: seq<Student>, today: Date) returns (outbox: seq<Text>, finished: bool)
    ensures (outbox, finished) == DailyTexts(students, today)
  {
    outbox := [];
    for i := 0 to |students|
      invariant (outbox, true) == DailyTexts(students[..i], today)
    {
      var s := students[i];
      DailyTextsAppend(students[..i], [s], today);
      DailyTextsSingle(s, today);
      assert students[..i + 1] == students[..i] + [s];
      assert outbox + [] == outbox;
      var rotationDays: seq<Date>;
      if s.startDate.None? {
        if s.faculty.rotationLength >= 1 {
          DailyTextsStopsAt(students, i, today);
          return outbox, false;
        }
        rotationDays := [];
      } else {
        var generated := GenerateSchedule(s.startDate.value, s.faculty.rotationLength);
        if generated.Failure? {
          DailyTextsStopsAt(students, i, today);
          return outbox, false;
        }
        rotationDays := generated.value;
      }
      match IndexOf(rotationDays, today)
      case Some(idx) =>
        if idx < |s.faculty.links| {
          outbox := outbox + [Text(s.phone, Greeting + s.faculty.links[idx])];
        }
      case None =>
    }
    assert students[..|students|] == students;
    finished := true;
  }
}
