/** The calendar aggregation engine: recurring class meetings expanded day by
    day, assignment due dates tagged with a priority, and a fixed list of
    school events, merged for an inclusive window of instants and ordered by
    (day, time). Instants are milliseconds; local time is UTC. */
module CalendarService {
  import opened Common
  import opened JsText
  import ClassService
  import AssignmentService

  type ClassRecord = ClassService.ClassRecord
  type Assignment = AssignmentService.Assignment

  datatype Priority = Overdue | Urgent | High | Medium | Low

  /** The fields an event carries besides the common ones, by origin. */
  datatype Detail =
    | ClassDetail(classId: int, instructor: string, room: string)
    | AssignmentDetail(assignmentId: int, className: string, priority: Priority)
    | NoDetail

  /** A calendar event. `kind` is the event's `type` field; `day` is the
      calendar day the event falls on. */
  datatype Event = Event(
    Id: string,
    title: string,
    description: Option<string>,
    date: string,
    time: string,
    kind: string,
    detail: Detail,
    day: int)

  /** An entry of the fixed school-event list; `day` is the day `date` names. */
  datatype SchoolEvent = SchoolEvent(
    Id: int, title: string, description: string, date: string, time: string,
    kind: string, day: int)

  const FAILED_TO_LOAD := "Failed to load calendar events"

  /** The four school events. */
  const MockEvents: seq<SchoolEvent> := [
    SchoolEvent(1, "Back to School Night", "Meet your teachers and learn about the curriculum",
                "2024-09-15", "18:00", "event", 19981),
    SchoolEvent(2, "Parent-Teacher Conferences", "Individual meetings with teachers",
                "2024-10-20", "08:00", "event", 20016),
    SchoolEvent(3, "Fall Break", "No classes - Fall holiday",
                "2024-11-25", "00:00", "event", 20052),
    SchoolEvent(4, "Winter Break Starts", "Last day of classes before winter break",
                "2024-12-20", "15:30", "event", 20077)
  ]

  // ---------------------------------------------------------------------
  // Calendar days as text: format(date, 'yyyy-MM-dd') and format(date, 'EEE').

  /** Year, month and day of a day number (proleptic Gregorian calendar). */
  function CivilFromDays(day: int): (int, int, int) {
    var z := day + 719468;
    var era := z / 146097;
    var doe := z % 146097;
    var yoe := (doe - doe / 1460 + doe / 36524 - doe / 146096) / 365;
    var y := yoe + era * 400;
    var doy := doe - (365 * yoe + yoe / 4 - yoe / 100);
    var mp := (5 * doy + 2) / 153;
    var d := doy - (153 * mp + 2) / 5 + 1;
    var m := if mp < 10 then mp + 3 else mp - 9;
    (if m <= 2 then y + 1 else y, m, d)
  }

  /** `yyyy-MM-dd`: the year of the era padded to four digits, month and day to two. */
  function FormatDay(day: int): (s: string)
    ensures forall i :: 0 <= i < |s| ==> IsDigit(s[i]) || s[i] == '-'
  {
    var (y, m, d) := CivilFromDays(day);
    PadZerosText(IntText(if y > 0 then y else 1 - y), 4) + "-" +
    PadZerosText(IntText(m), 2) + "-" + PadZerosText(IntText(d), 2)
  }

  /** PadZeros on the text of an integer keeps it made of digits and '-'. */
  function PadZerosText(s: string, width: nat): (r: string)
    requires forall i :: 0 <= i < |s| ==> IsDigit(s[i]) || s[i] == '-'
    ensures forall i :: 0 <= i < |r| ==> IsDigit(r[i]) || r[i] == '-'
    ensures |r| == if |s| >= width then |s| else width
    ensures AllDigits(s) ==> AllDigits(r)
    decreases width - |s|
  {
    if |s| >= width then s else PadZerosText("0" + s, width)
  }

  const DAY_NAMES: seq<string> := ["Sun", "Mon", "Tue", "Wed", "Thu", "Fri", "Sat"]

  function DayName(day: int): string {
    DAY_NAMES[Weekday(day)]
  }

  /** The civil-date formula never puts a day of the era before the start
      of its year. The arguments are the quotients the formula divides out,
      with the era's day split into centuries (b), four-year cycles (q) and
      the rest (rq); the last day of the era is left to the caller. */
  lemma DayOfYearNonNegative(doe: int, a: int, b: int, yoe: int, f: int, g: int, q: int, rq: int)
    requires 0 <= doe < 146096
    requires 1460 * a <= doe < 1460 * a + 1460
    requires 36524 * b <= doe < 36524 * b + 36524
    requires 365 * yoe <= doe - a + b < 365 * yoe + 365
    requires 4 * f <= yoe < 4 * f + 4
    requires 100 * g <= yoe < 100 * g + 100
    requires doe == 36524 * b + 1461 * q + rq && 0 <= rq < 1461
    ensures 0 <= doe - (365 * yoe + f - g)
  {
    assert 0 <= b <= 3 && 0 <= q <= 24;
    if a == 25 * b + q {
      if rq < 365 {
        assert yoe == 100 * b + 4 * q;
      } else if rq < 730 {
        assert yoe == 100 * b + 4 * q + 1;
      } else if rq < 1095 {
        assert yoe == 100 * b + 4 * q + 2;
      } else {
        assert yoe == 100 * b + 4 * q + 3;
      }
    } else {
      assert a == 25 * b + q + 1;
    }
  }

  /** ... and never past its 366th day. */
  lemma DayOfYearAtMost365(doe: int, a: int, b: int, yoe: int, f: int, g: int)
    requires 0 <= doe < 146096
    requires 1460 * a <= doe < 1460 * a + 1460
    requires 36524 * b <= doe < 36524 * b + 36524
    requires 365 * yoe <= doe - a + b < 365 * yoe + 365
    requires 4 * f <= yoe < 4 * f + 4
    requires 100 * g <= yoe < 100 * g + 100
    ensures doe - (365 * yoe + f - g) <= 365
  {
  }

  /** Every day number has a month in 1..12 and a day of the month in 1..31. */
  lemma CivilFromDaysBounds(day: int)
    ensures 1 <= CivilFromDays(day).1 <= 12 && 1 <= CivilFromDays(day).2 <= 31
  {
    var z := day + 719468;
    var doe := z % 146097;
    var yoe := (doe - doe / 1460 + doe / 36524 - doe / 146096) / 365;
    if doe < 146096 {
      var b := doe / 36524;
      var rc := doe - 36524 * b;
      DayOfYearNonNegative(doe, doe / 1460, b, yoe, yoe / 4, yoe / 100, rc / 1461, rc % 1461);
      DayOfYearAtMost365(doe, doe / 1460, b, yoe, yoe / 4, yoe / 100);
    } else {
      assert yoe == 399;
    }
  }

  /** The formatted day has the `yyyy-MM-dd` shape whenever the year of the
      era has at most four digits. */
  lemma FormatDayShape(day: int)
    requires -9998 <= CivilFromDays(day).0 <= 9999
    ensures |FormatDay(day)| == 10 && FormatDay(day)[4] == '-' && FormatDay(day)[7] == '-'
    ensures forall i :: 0 <= i < 10 && i != 4 && i != 7 ==> IsDigit(FormatDay(day)[i])
  {
    var (y, m, d) := CivilFromDays(day);
    CivilFromDaysBounds(day);
    var era := if y > 0 then y else 1 - y;
    NatTextLength(era, 4);
    NatTextLength(m, 2);
    NatTextLength(d, 2);
    var ys := PadZerosText(IntText(era), 4);
    var ms := PadZerosText(IntText(m), 2);
    var ds := PadZerosText(IntText(d), 2);
    assert FormatDay(day) == ys + "-" + ms + "-" + ds;
  }

  lemma Year2024()
    ensures PadZerosText(IntText(2024), 4) == "2024"
  {
    assert NatText(2) == "2";
    assert NatText(20) == "20";
    assert NatText(202) == "202";
  }

  /** A two-digit number needs no padding. */
  lemma TwoDigitText(n: int)
    requires 10 <= n < 100
    ensures PadZerosText(IntText(n), 2) == [DigitChar(n / 10), DigitChar(n % 10)]
  {
    assert NatText(n / 10) == [DigitChar(n / 10)];
  }

  /** A one-digit number gets one leading zero. */
  lemma OneDigitText(n: int)
    requires 0 <= n < 10
    ensures PadZerosText(IntText(n), 2) == ['0', DigitChar(n)]
  {
    assert IntText(n) == [DigitChar(n)];
  }

  lemma Day19981()
    ensures FormatDay(19981) == "2024-09-15"
  {
    assert 739449 / 146097 == 5 && 739449 % 146097 == 8964;
    assert 8964 / 1460 == 6 && 8964 / 36524 == 0 && 8964 / 146096 == 0;
    assert 8958 / 365 == 24 && 24 / 4 == 6 && 24 / 100 == 0;
    assert (5 * 198 + 2) / 153 == 6 && (153 * 6 + 2) / 5 == 184;
    assert CivilFromDays(19981) == (2024, 9, 15);
    Year2024();
    OneDigitText(9);
    TwoDigitText(15);
  }

  lemma Day20016()
    ensures FormatDay(20016) == "2024-10-20"
  {
    assert 739484 / 146097 == 5 && 739484 % 146097 == 8999;
    assert 8999 / 1460 == 6 && 8999 / 36524 == 0 && 8999 / 146096 == 0;
    assert 8993 / 365 == 24 && 24 / 4 == 6 && 24 / 100 == 0;
    assert (5 * 233 + 2) / 153 == 7 && (153 * 7 + 2) / 5 == 214;
    assert CivilFromDays(20016) == (2024, 10, 20);
    Year2024();
    TwoDigitText(10);
    TwoDigitText(20);
  }

  lemma Day20052()
    ensures FormatDay(20052) == "2024-11-25"
  {
    assert 739520 / 146097 == 5 && 739520 % 146097 == 9035;
    assert 9035 / 1460 == 6 && 9035 / 36524 == 0 && 9035 / 146096 == 0;
    assert 9029 / 365 == 24 && 24 / 4 == 6 && 24 / 100 == 0;
    assert (5 * 269 + 2) / 153 == 8 && (153 * 8 + 2) / 5 == 245;
    assert CivilFromDays(20052) == (2024, 11, 25);
    Year2024();
    TwoDigitText(11);
    TwoDigitText(25);
  }

  lemma Day20077()
    ensures FormatDay(20077) == "2024-12-20"
  {
    assert 739545 / 146097 == 5 && 739545 % 146097 == 9060;
    assert 9060 / 1460 == 6 && 9060 / 36524 == 0 && 9060 / 146096 == 0;
    assert 9054 / 365 == 24 && 24 / 4 == 6 && 24 / 100 == 0;
    assert (5 * 294 + 2) / 153 == 9 && (153 * 9 + 2) / 5 == 275;
    assert CivilFromDays(20077) == (2024, 12, 20);
    Year2024();
    TwoDigitText(12);
    TwoDigitText(20);
  }

  /** The dates of the school events name their days, and those days fall on
      the weekdays the calendar gives them. */
  lemma MockEventDates()
    ensures forall i :: 0 <= i < |MockEvents| ==> FormatDay(MockEvents[i].day) == MockEvents[i].date
  {
    forall i | 0 <= i < |MockEvents| ensures FormatDay(MockEvents[i].day) == MockEvents[i].date {
      var m := MockEvents[i];
      if i == 0 {
        assert m.day == 19981 && m.date == "2024-09-15";
        Day19981();
      } else if i == 1 {
        assert m.day == 20016 && m.date == "2024-10-20";
        Day20016();
      } else if i == 2 {
        assert m.day == 20052 && m.date == "2024-11-25";
        Day20052();
      } else {
        assert m.day == 20077 && m.date == "2024-12-20";
        Day20077();
      }
    }
  }

  /** 2024-09-15 was a Sunday, 2024-11-25 a Monday and 2024-12-20 a Friday.
      A calibration of the weekday formula against dates of the school-event
      list; no other proof uses it. */
  lemma KnownWeekdays()
    ensures DayName(19981) == "Sun" && DayName(20052) == "Mon" && DayName(20077) == "Fri"
  {
    assert Weekday(19981) == 0 && Weekday(20052) == 1 && Weekday(20077) == 5;
  }

  // ---------------------------------------------------------------------
  // The class time: the first match of /(\d{1,2}:\d{2})/, or "09:00".

  /** The length of the match starting at `i`: the two-digit hour is tried
      first, then the one-digit hour; 0 when neither matches there. */
  function TokenLength(s: string, i: nat): (n: nat)
    ensures n == 0 || n == 4 || n == 5
    ensures n > 0 ==> i + n <= |s|
  {
    if i + 5 <= |s| && IsDigit(s[i]) && IsDigit(s[i + 1]) && s[i + 2] == ':' &&
       IsDigit(s[i + 3]) && IsDigit(s[i + 4]) then 5
    else if i + 4 <= |s| && IsDigit(s[i]) && s[i + 1] == ':' && IsDigit(s[i + 2]) &&
            IsDigit(s[i + 3]) then 4
    else 0
  }

  /** `H:MM` or `HH:MM`. */
  predicate IsTimeText(t: string) {
    (|t| == 5 && IsDigit(t[0]) && IsDigit(t[1]) && t[2] == ':' && IsDigit(t[3]) && IsDigit(t[4])) ||
    (|t| == 4 && IsDigit(t[0]) && t[1] == ':' && IsDigit(t[2]) && IsDigit(t[3]))
  }

  /** The leftmost match at or after `i`. */
  function FirstTimeToken(s: string, i: nat): (r: Option<string>)
    ensures r.Some? ==> IsTimeText(r.value)
    ensures r.Some? ==> exists j :: i <= j < |s| && TokenLength(s, j) > 0 &&
                          r.value == s[j..j + TokenLength(s, j)] &&
                          forall k :: i <= k < j ==> TokenLength(s, k) == 0
    ensures r.None? ==> forall k :: i <= k < |s| ==> TokenLength(s, k) == 0
    decreases |s| - i
  {
    if i >= |s| then None
    else if TokenLength(s, i) > 0 then Some(s[i..i + TokenLength(s, i)])
    else FirstTimeToken(s, i + 1)
  }

  /** The time every meeting of a class is shown at. */
  function ClassTime(schedule: string): (t: string)
    ensures IsTimeText(t)
    ensures FirstTimeToken(schedule, 0).None? ==> t == "09:00"
    ensures FirstTimeToken(schedule, 0).Some? ==> t == FirstTimeToken(schedule, 0).value
  {
    match FirstTimeToken(schedule, 0)
    case Some(t) => t
    case None => "09:00"
  }

  /** The ordering value of a time text: hours then minutes, 0 ("00:00") for
      a missing time. */
  function TimeKey(t: string): (k: int)
    ensures 0 <= k < 10000
  {
    if |t| == 5 && IsDigit(t[0]) && IsDigit(t[1]) && IsDigit(t[3]) && IsDigit(t[4]) then
      (DigitValue(t[0]) * 10 + DigitValue(t[1])) * 100 + DigitValue(t[3]) * 10 + DigitValue(t[4])
    else if |t| == 4 && IsDigit(t[0]) && IsDigit(t[2]) && IsDigit(t[3]) then
      DigitValue(t[0]) * 100 + DigitValue(t[2]) * 10 + DigitValue(t[3])
    else 0
  }

  /** A zero-padded `HH:MM` time text. */
  predicate IsClockText(t: string) {
    |t| == 5 && IsDigit(t[0]) && IsDigit(t[1]) && t[2] == ':' && IsDigit(t[3]) && IsDigit(t[4])
  }

  /** JavaScript's `a <= b` on strings: code-unit by code-unit. */
  predicate TextLe(a: string, b: string) {
    a == [] || (b != [] && (a[0] < b[0] || (a[0] == b[0] && TextLe(a[1..], b[1..]))))
  }

  /** On zero-padded `HH:MM` texts the key orders times as string comparison does. */
  lemma TimeKeyClockOrder(a: string, b: string)
    requires IsClockText(a) && IsClockText(b)
    ensures TimeKey(a) <= TimeKey(b) <==> TextLe(a, b)
  {
    var x0, x1, x3, x4 := DigitValue(a[0]), DigitValue(a[1]), DigitValue(a[3]), DigitValue(a[4]);
    var y0, y1, y3, y4 := DigitValue(b[0]), DigitValue(b[1]), DigitValue(b[3]), DigitValue(b[4]);
    assert TextLe(a[4..], b[4..]) <==> x4 <= y4 by {
      assert a[4..][1..] == [];
    }
    assert TextLe(a[3..], b[3..]) <==> x3 < y3 || (x3 == y3 && x4 <= y4) by {
      assert a[3..][1..] == a[4..] && b[3..][1..] == b[4..];
    }
    assert TextLe(a[2..], b[2..]) <==> TextLe(a[3..], b[3..]) by {
      assert a[2..][1..] == a[3..] && b[2..][1..] == b[3..];
    }
    assert TextLe(a[1..], b[1..]) <==> x1 < y1 || (x1 == y1 && TextLe(a[2..], b[2..])) by {
      assert a[1..][1..] == a[2..] && b[1..][1..] == b[2..];
    }
    assert TextLe(a, b) <==> x0 < y0 || (x0 == y0 && TextLe(a[1..], b[1..]));
    assert TimeKey(a) == ((x0 * 10 + x1) * 100 + x3 * 10 + x4);
    assert TimeKey(b) == ((y0 * 10 + y1) * 100 + y3 * 10 + y4);
  }

  /** An unpadded `H:MM` text has the key of its zero-padded form. */
  lemma TimeKeyPadded(t: string)
    requires |t| == 4 && IsDigit(t[0]) && t[1] == ':' && IsDigit(t[2]) && IsDigit(t[3])
    ensures IsClockText("0" + t) && TimeKey(t) == TimeKey("0" + t)
  {
  }

  // ---------------------------------------------------------------------
  // Class meetings.

  /** The schedule names the day's three-letter weekday, ignoring case,
      anywhere in its text. */
  function MeetsOn(schedule: string, day: int): (b: bool)
    ensures b <==> exists i :: 0 <= i <= |schedule| - 3 && NamesAt(schedule, DayName(day), i)
  {
    MeetsOnSpelled(schedule, DayName(day));
    Contains(Lower(schedule), Lower(DayName(day)))
  }

  /** The text at position `i` of `s` is `name`, letter case aside. */
  predicate NamesAt(s: string, name: string, i: int)
    requires 0 <= i <= |s| - |name|
  {
    forall j :: 0 <= j < |name| ==> LowerChar(s[i + j]) == LowerChar(name[j])
  }

  /** Lowering both texts and searching is searching letter case aside. */
  lemma MeetsOnSpelled(s: string, name: string)
    requires |name| == 3
    ensures Contains(Lower(s), Lower(name)) <==> exists i :: 0 <= i <= |s| - 3 && NamesAt(s, name, i)
  {
    var ls, ln := Lower(s), Lower(name);
    forall i | 0 <= i <= |s| - 3
      ensures OccursAt(ls, ln, i) <==> NamesAt(s, name, i)
    {
      if NamesAt(s, name, i) {
        assert ls[i..i + 3] == ln by {
          forall j | 0 <= j < 3 ensures ls[i..i + 3][j] == ln[j] {
            assert ls[i + j] == LowerChar(s[i + j]);
          }
        }
      }
      if OccursAt(ls, ln, i) {
        forall j | 0 <= j < 3 ensures LowerChar(s[i + j]) == LowerChar(name[j]) {
          assert ls[i..i + 3][j] == ls[i + j];
        }
      }
    }
  }

  /** A schedule meets on a weekday every week. */
  lemma MeetsOnWeekly(schedule: string, day: int)
    ensures MeetsOn(schedule, day + 7) == MeetsOn(schedule, day)
  {
    assert Weekday(day + 7) == Weekday(day);
  }

  /** The event of one meeting of a class: on that day, with that day's
      `yyyy-MM-dd` text as its date and in its Id, and "TBD" for a missing room. */
  function ClassEvent(c: ClassRecord, time: string, day: int): (e: Event)
    ensures e.day == day && e.date == FormatDay(day) && e.kind == "class" && e.time == time
    ensures e.Id == "class-" + IntText(c.Id) + "-" + e.date
    ensures e.title == c.name && e.description == Some(c.name + " - " + c.instructor)
    ensures e.detail.ClassDetail? && e.detail.classId == c.Id && e.detail.instructor == c.instructor
    ensures e.detail.room == (if c.room == "" then "TBD" else c.room)
  {
    Event("class-" + IntText(c.Id) + "-" + FormatDay(day), c.name,
          Some(c.name + " - " + c.instructor), FormatDay(day), time, "class",
          ClassDetail(c.Id, c.instructor, if c.room == "" then "TBD" else c.room), day)
  }

  /** How many days the loop visits: one per instant start, start + 1 day, ...
      that is not after end. */
  function NumDays(start: int, end: int): nat {
    if start <= end then (end - start) / DAY_MS + 1 else 0
  }

  /** The days among the `n` days from `firstDay` on that the schedule names. */
  function MeetingDays(schedule: string, firstDay: int, n: nat): seq<int> {
    if n == 0 then []
    else
      MeetingDays(schedule, firstDay, n - 1) +
      (if MeetsOn(schedule, firstDay + (n - 1)) then [firstDay + (n - 1)] else [])
  }

  /** The class event of each of the given days, in their order. */
  function EventsOn(c: ClassRecord, time: string, days: seq<int>): (r: seq<Event>)
    ensures |r| == |days|
    ensures forall i :: 0 <= i < |days| ==> r[i] == ClassEvent(c, time, days[i]) && r[i].day == days[i]
  {
    seq(|days|, i requires 0 <= i < |days| => ClassEvent(c, time, days[i]))
  }

  /** One more meeting day adds its class event at the end. */
  lemma EventsOnAppend(c: ClassRecord, time: string, days: seq<int>, day: int)
    ensures EventsOn(c, time, days + [day]) == EventsOn(c, time, days) + [ClassEvent(c, time, day)]
  {
    assert EventsOn(c, time, days + [day])[|days|] == ClassEvent(c, time, day);
  }

  /** The meetings among the `n` days from `firstDay` on. */
  function Occurrences(c: ClassRecord, time: string, firstDay: int, n: nat): seq<Event> {
    EventsOn(c, time, MeetingDays(c.schedule, firstDay, n))
  }

  /** What `parseClassSchedule` produces: nothing for an empty schedule,
      otherwise one event per visited day the schedule names. */
  function ClassOccurrences(c: ClassRecord, start: int, end: int): seq<Event> {
    if c.schedule == "" then []
    else Occurrences(c, ClassTime(c.schedule), DayOf(start), NumDays(start, end))
  }

  /** The k-th step of the loop is still inside the window exactly when k is
      below the number of visited days. */
  lemma StepInWindow(start: int, end: int, k: nat)
    ensures start + k * DAY_MS <= end <==> k < NumDays(start, end)
  {
    if start <= end {
      var q := (end - start) / DAY_MS;
      assert q * DAY_MS <= end - start < q * DAY_MS + DAY_MS;
      if k <= q {
        assert k * DAY_MS <= q * DAY_MS;
      } else {
        assert k * DAY_MS >= q * DAY_MS + DAY_MS;
      }
    }
  }

  /** `parseClassSchedule`: walks the window one day at a time and emits an
      event for each day the schedule names. */
  method ParseClassSchedule(c: ClassRecord, start: int, end: int) returns (events: seq<Event>)
    ensures events == ClassOccurrences(c, start, end)
  {
    events := [];
    if c.schedule == "" {
      return;
    }
    var time := ClassTime(c.schedule);
    var current := start;
    ghost var k: nat := 0;
    ghost var days: seq<int> := [];
    while current <= end
      invariant current == start + k * DAY_MS
      invariant k <= NumDays(start, end)
      invariant days == MeetingDays(c.schedule, DayOf(start), k)
      invariant events == EventsOn(c, time, days)
      decreases end - current
    {
      LoopDay(start, end, k, current);
      var day := DayOf(current);
      MeetingDaysNext(c.schedule, DayOf(start), k, day);
      if MeetsOn(c.schedule, day) {
        EventsOnAppend(c, time, days, day);
        events := events + [ClassEvent(c, time, day)];
        days := days + [day];
      }
      current := current + DAY_MS;
      k := k + 1;
    }
    StepInWindow(start, end, k);
  }

  /** A step of the loop that is still inside the window is a visited day,
      the k-th after the first, and the next step is one day later. */
  lemma LoopDay(start: int, end: int, k: nat, current: int)
    requires current == start + k * DAY_MS && current <= end
    ensures k < NumDays(start, end)
    ensures DayOf(current) == DayOf(start) + k
    ensures current + DAY_MS == start + (k + 1) * DAY_MS
  {
    StepInWindow(start, end, k);
    DayOfShift(start, k);
  }

  /** One more visited day adds that day, if the schedule names it. */
  lemma MeetingDaysNext(schedule: string, firstDay: int, k: nat, day: int)
    requires day == firstDay + k
    ensures MeetsOn(schedule, day) ==>
              MeetingDays(schedule, firstDay, k + 1) == MeetingDays(schedule, firstDay, k) + [day]
    ensures !MeetsOn(schedule, day) ==>
              MeetingDays(schedule, firstDay, k + 1) == MeetingDays(schedule, firstDay, k)
  {
  }

  /** Every meeting day is a visited day the schedule names. */
  lemma {:induction false} MeetingDaysSound(schedule: string, firstDay: int, n: nat)
    ensures forall d :: d in MeetingDays(schedule, firstDay, n) ==>
              firstDay <= d < firstDay + n && MeetsOn(schedule, d)
  {
    if n > 0 {
      MeetingDaysSound(schedule, firstDay, n - 1);
    }
  }

  /** Meeting days come in strictly increasing order, so none repeats. */
  lemma {:induction false} MeetingDaysIncreasing(schedule: string, firstDay: int, n: nat)
    ensures forall i, j :: 0 <= i < j < |MeetingDays(schedule, firstDay, n)| ==>
              MeetingDays(schedule, firstDay, n)[i] < MeetingDays(schedule, firstDay, n)[j]
  {
    if n > 0 {
      MeetingDaysIncreasing(schedule, firstDay, n - 1);
      MeetingDaysSound(schedule, firstDay, n - 1);
      var prefix := MeetingDays(schedule, firstDay, n - 1);
      var s := MeetingDays(schedule, firstDay, n);
      if MeetsOn(schedule, firstDay + (n - 1)) {
        assert s == prefix + [firstDay + (n - 1)];
        forall i, j | 0 <= i < j < |s| ensures s[i] < s[j] {
          assert s[i] == prefix[i] && prefix[i] in prefix;
          if j < |prefix| {
            assert s[j] == prefix[j];
          }
        }
      } else {
        assert s == prefix;
      }
    }
  }

  /** Every visited day the schedule names is a meeting day. */
  lemma {:induction false} MeetingDaysComplete(schedule: string, firstDay: int, n: nat)
    ensures forall d :: firstDay <= d < firstDay + n && MeetsOn(schedule, d) ==>
              d in MeetingDays(schedule, firstDay, n)
  {
    if n > 0 {
      MeetingDaysComplete(schedule, firstDay, n - 1);
    }
  }

  /** Every meeting falls on a visited day the schedule names and is that
      day's class event. */
  lemma OccurrencesSound(c: ClassRecord, time: string, firstDay: int, n: nat)
    ensures forall e :: e in Occurrences(c, time, firstDay, n) ==>
              firstDay <= e.day < firstDay + n && MeetsOn(c.schedule, e.day) &&
              e == ClassEvent(c, time, e.day)
  {
    var days := MeetingDays(c.schedule, firstDay, n);
    MeetingDaysSound(c.schedule, firstDay, n);
    forall e | e in Occurrences(c, time, firstDay, n)
      ensures firstDay <= e.day < firstDay + n && MeetsOn(c.schedule, e.day) &&
              e == ClassEvent(c, time, e.day)
    {
      var i :| 0 <= i < |days| && Occurrences(c, time, firstDay, n)[i] == e;
      assert days[i] in days;
    }
  }

  /** Meetings come in strictly increasing day order, so no day has two. */
  lemma OccurrencesIncreasing(c: ClassRecord, time: string, firstDay: int, n: nat)
    ensures forall i, j :: 0 <= i < j < |Occurrences(c, time, firstDay, n)| ==>
              Occurrences(c, time, firstDay, n)[i].day < Occurrences(c, time, firstDay, n)[j].day
  {
    MeetingDaysIncreasing(c.schedule, firstDay, n);
  }

  /** Every visited day the schedule names has its meeting. */
  lemma OccurrencesComplete(c: ClassRecord, time: string, firstDay: int, n: nat)
    ensures forall d :: firstDay <= d < firstDay + n && MeetsOn(c.schedule, d) ==>
              ClassEvent(c, time, d) in Occurrences(c, time, firstDay, n)
  {
    var days := MeetingDays(c.schedule, firstDay, n);
    MeetingDaysComplete(c.schedule, firstDay, n);
    forall d | firstDay <= d < firstDay + n && MeetsOn(c.schedule, d)
      ensures ClassEvent(c, time, d) in Occurrences(c, time, firstDay, n)
    {
      var i :| 0 <= i < |days| && days[i] == d;
      assert Occurrences(c, time, firstDay, n)[i] == ClassEvent(c, time, d);
    }
  }

  /** The visited days run from the start's day to at most the end's day, and
      exactly to the end's day when the window starts at midnight. */
  lemma WindowDays(start: int, end: int)
    requires start <= end
    ensures DayOf(start) + NumDays(start, end) - 1 <= DayOf(end)
    ensures start == StartOfDay(DayOf(start)) ==> DayOf(start) + NumDays(start, end) - 1 == DayOf(end)
  {
    var n := NumDays(start, end);
    StepInWindow(start, end, n - 1);
    DayOfShift(start, n - 1);
    DayOfMonotone(start + (n - 1) * DAY_MS, end);
    if start == StartOfDay(DayOf(start)) {
      StepInWindow(start, end, n);
      assert end < start + n * DAY_MS;
    }
  }

  /** Later instants never fall on earlier days. */
  lemma DayOfMonotone(a: int, b: int)
    requires a <= b
    ensures DayOf(a) <= DayOf(b)
  {
  }

  // ---------------------------------------------------------------------
  // Assignment priority.

  /** `Math.ceil((due - now) / one day)`. */
  function DaysUntilDue(due: int, now: int): (d: int)
    ensures (d - 1) * DAY_MS < due - now <= d * DAY_MS
  {
    -((now - due) / DAY_MS)
  }

  /** `getAssignmentPriority`, with the clock passed in. The bands in
      milliseconds: overdue only once a whole day has passed since the due
      instant, urgent from then until one day ahead, high up to three days,
      medium up to seven days, low beyond. */
  function AssignmentPriority(due: int, now: int): (p: Priority)
    ensures p == Overdue <==> due - now <= -DAY_MS
    ensures p == Urgent <==> -DAY_MS < due - now <= DAY_MS
    ensures p == High <==> DAY_MS < due - now <= 3 * DAY_MS
    ensures p == Medium <==> 3 * DAY_MS < due - now <= 7 * DAY_MS
    ensures p == Low <==> 7 * DAY_MS < due - now
  {
    var days := DaysUntilDue(due, now);
    if days < 0 then
      assert days * DAY_MS <= -DAY_MS;
      Overdue
    else if days <= 1 then
      assert (days - 1) * DAY_MS >= -DAY_MS && days * DAY_MS <= DAY_MS;
      Urgent
    else if days <= 3 then
      assert (days - 1) * DAY_MS >= DAY_MS && days * DAY_MS <= 3 * DAY_MS;
      High
    else if days <= 7 then
      assert (days - 1) * DAY_MS >= 3 * DAY_MS && days * DAY_MS <= 7 * DAY_MS;
      Medium
    else
      assert (days - 1) * DAY_MS >= 7 * DAY_MS;
      Low
  }

  /** Overdue first, low last. */
  function Rank(p: Priority): int {
    match p
    case Overdue => 0
    case Urgent => 1
    case High => 2
    case Medium => 3
    case Low => 4
  }

  /** As time passes, an assignment's priority only moves toward overdue. */
  lemma PriorityMonotone(due: int, now1: int, now2: int)
    requires now1 <= now2
    ensures Rank(AssignmentPriority(due, now2)) <= Rank(AssignmentPriority(due, now1))
  {
  }

  // ---------------------------------------------------------------------
  // Assignment and school events.

  /** The assignment is shown: it has a due date, and that instant lies in the window. */
  predicate AssignmentInWindow(a: Assignment, start: int, end: int) {
    a.dueDate != "" && a.dueAt.Some? && start <= a.dueAt.value <= end
  }

  /** The event of an assignment's due date: on the day of the due instant,
      with that day's `yyyy-MM-dd` text as its date, at "23:59", carrying the
      priority of the due instant. */
  function AssignmentEvent(a: Assignment, now: int): (e: Event)
    requires a.dueAt.Some?
    ensures e.day == DayOf(a.dueAt.value) && e.date == FormatDay(e.day)
    ensures e.kind == "assignment" && e.time == "23:59" && e.Id == "assignment-" + IntText(a.Id)
    ensures e.title == a.title && e.description == Some("Due: " + a.title)
    ensures e.detail.AssignmentDetail? && e.detail.assignmentId == a.Id
    ensures e.detail.className == (if a.className == "" then "Unknown Class" else a.className)
    ensures e.detail.priority == AssignmentPriority(a.dueAt.value, now)
  {
    var due := a.dueAt.value;
    Event("assignment-" + IntText(a.Id), a.title, Some("Due: " + a.title),
          FormatDay(DayOf(due)), "23:59", "assignment",
          AssignmentDetail(a.Id, if a.className == "" then "Unknown Class" else a.className,
                           AssignmentPriority(due, now)),
          DayOf(due))
  }

  /** A school event is shown when its midnight lies in the window. */
  predicate SchoolEventInWindow(e: SchoolEvent, start: int, end: int) {
    start <= StartOfDay(e.day) <= end
  }

  /** A school event as listed: the same fields, the Id prefixed with "event-". */
  function SchoolEventEntry(e: SchoolEvent): Event {
    Event("event-" + IntText(e.Id), e.title, Some(e.description), e.date, e.time, e.kind,
          NoDetail, e.day)
  }

  // ---------------------------------------------------------------------
  // The merged list.

  /** The meetings of every class, class by class. */
  function ClassEvents(classes: seq<ClassRecord>, start: int, end: int): seq<Event> {
    if classes == [] then []
    else ClassEvents(classes[..|classes| - 1], start, end) +
         ClassOccurrences(classes[|classes| - 1], start, end)
  }

  /** The events of the assignments due in the window, in list order. */
  function AssignmentEvents(assignments: seq<Assignment>, start: int, end: int, now: int): seq<Event> {
    if assignments == [] then []
    else
      var a := assignments[|assignments| - 1];
      AssignmentEvents(assignments[..|assignments| - 1], start, end, now) +
      (if AssignmentInWindow(a, start, end) then [AssignmentEvent(a, now)] else [])
  }

  /** The school events in the window, in list order. */
  function SchoolEvents(events: seq<SchoolEvent>, start: int, end: int): seq<Event> {
    if events == [] then []
    else
      var e := events[|events| - 1];
      SchoolEvents(events[..|events| - 1], start, end) +
      (if SchoolEventInWindow(e, start, end) then [SchoolEventEntry(e)] else [])
  }

  /** The ordering value of an event: its day, then its time. */
  function SortKey(e: Event): int {
    e.day * 10000 + TimeKey(e.time)
  }

  /** What `getEventsForDateRange` returns: class meetings, then assignments,
      then school events, stably sorted by (day, time). */
  function EventsForRange(classes: seq<ClassRecord>, assignments: seq<Assignment>,
                          start: int, end: int, now: int): seq<Event> {
    SortByKey(ClassEvents(classes, start, end) + AssignmentEvents(assignments, start, end, now) +
              SchoolEvents(MockEvents, start, end), SortKey)
  }

  /** The first `forEach` of `getEventsForDateRange`: each class with a
      schedule contributes its meetings. */
  method CollectClassEvents(classes: seq<ClassRecord>, start: int, end: int) returns (events: seq<Event>)
    ensures events == ClassEvents(classes, start, end)
  {
    events := [];
    for i := 0 to |classes|
      invariant events == ClassEvents(classes[..i], start, end)
    {
      assert classes[..i + 1][..i] == classes[..i];
      if classes[i].schedule != "" {
        var scheduleEvents := ParseClassSchedule(classes[i], start, end);
        events := events + scheduleEvents;
      }
    }
    assert classes[..|classes|] == classes;
  }

  /** The second `forEach`: each assignment due in the window contributes its event. */
  method CollectAssignmentEvents(assignments: seq<Assignment>, start: int, end: int, now: int)
    returns (events: seq<Event>)
    ensures events == AssignmentEvents(assignments, start, end, now)
  {
    events := [];
    for i := 0 to |assignments|
      invariant events == AssignmentEvents(assignments[..i], start, end, now)
    {
      assert assignments[..i + 1][..i] == assignments[..i];
      var a := assignments[i];
      if a.dueDate != "" && a.dueAt.Some? {
        if start <= a.dueAt.value <= end {
          events := events + [AssignmentEvent(a, now)];
        }
      }
    }
    assert assignments[..|assignments|] == assignments;
  }

  /** The third `forEach`: each school event in the window, renamed. */
  method CollectSchoolEvents(start: int, end: int) returns (events: seq<Event>)
    ensures events == SchoolEvents(MockEvents, start, end)
  {
    events := [];
    for i := 0 to |MockEvents|
      invariant events == SchoolEvents(MockEvents[..i], start, end)
    {
      assert MockEvents[..i + 1][..i] == MockEvents[..i];
      var e := MockEvents[i];
      if start <= StartOfDay(e.day) <= end {
        events := events + [SchoolEventEntry(e)];
      }
    }
    assert MockEvents[..|MockEvents|] == MockEvents;
  }

  /** `getEventsForDateRange`: fails with "Failed to load calendar events"
      when either list could not be fetched; otherwise collects the events of
      the window and sorts them. */
  method GetEventsForDateRange(classes: Result<seq<ClassRecord>>, assignments: Result<seq<Assignment>>,
                               start: int, end: int, now: int) returns (r: Result<seq<Event>>)
    ensures r.Failure? <==> classes.Failure? || assignments.Failure?
    ensures r.Failure? ==> r.message == FAILED_TO_LOAD
    ensures r.Success? ==> r.value == EventsForRange(classes.value, assignments.value, start, end, now)
  {
    if classes.Failure? || assignments.Failure? {
      return Failure(FAILED_TO_LOAD);
    }
    var classEvents := CollectClassEvents(classes.value, start, end);
    var assignmentEvents := CollectAssignmentEvents(assignments.value, start, end, now);
    var schoolEvents := CollectSchoolEvents(start, end);
    var events := classEvents + assignmentEvents + schoolEvents;
    r := Success(SortByKey(events, SortKey));
  }

  // ---------------------------------------------------------------------
  // Properties of the merged list.

  /** The events before sorting. */
  function Collected(classes: seq<ClassRecord>, assignments: seq<Assignment>,
                     start: int, end: int, now: int): seq<Event> {
    ClassEvents(classes, start, end) + AssignmentEvents(assignments, start, end, now) +
    SchoolEvents(MockEvents, start, end)
  }

  /** Comparing sort keys compares days first and times second. */
  lemma SortKeyOrder(a: Event, b: Event)
    ensures SortKey(a) <= SortKey(b) <==>
            a.day < b.day || (a.day == b.day && TimeKey(a.time) <= TimeKey(b.time))
  {
    if a.day < b.day {
      assert a.day * 10000 + 10000 <= b.day * 10000;
    } else if a.day > b.day {
      assert b.day * 10000 + 10000 <= a.day * 10000;
    }
  }

  /** The result is ordered by day and then time, holds exactly the collected
      events, and keeps events of the same day and time in collection order. */
  lemma {:induction false} EventsForRangeOrdered(classes: seq<ClassRecord>, assignments: seq<Assignment>,
                                                 start: int, end: int, now: int)
    ensures forall i, j :: 0 <= i < j < |EventsForRange(classes, assignments, start, end, now)| ==>
              EventsForRange(classes, assignments, start, end, now)[i].day <
                EventsForRange(classes, assignments, start, end, now)[j].day ||
              (EventsForRange(classes, assignments, start, end, now)[i].day ==
                 EventsForRange(classes, assignments, start, end, now)[j].day &&
               TimeKey(EventsForRange(classes, assignments, start, end, now)[i].time) <=
                 TimeKey(EventsForRange(classes, assignments, start, end, now)[j].time))
    ensures multiset(EventsForRange(classes, assignments, start, end, now)) ==
            multiset(Collected(classes, assignments, start, end, now))
    ensures forall k :: WithKey(EventsForRange(classes, assignments, start, end, now), SortKey, k) ==
                        WithKey(Collected(classes, assignments, start, end, now), SortKey, k)
  {
    var c := Collected(classes, assignments, start, end, now);
    var r := EventsForRange(classes, assignments, start, end, now);
    SortByKeyCorrect(c, SortKey);
    forall i, j | 0 <= i < j < |r|
      ensures r[i].day < r[j].day || (r[i].day == r[j].day && TimeKey(r[i].time) <= TimeKey(r[j].time))
    {
      SortKeyOrder(r[i], r[j]);
    }
  }

  /** The event falls on a day of the window, and its date text names that day. */
  predicate WellPlaced(e: Event, start: int, end: int) {
    DayOf(start) <= e.day <= DayOf(end) && e.date == FormatDay(e.day)
  }

  lemma {:induction false} ClassOccurrencesPlaced(c: ClassRecord, start: int, end: int)
    ensures forall e :: e in ClassOccurrences(c, start, end) ==>
              WellPlaced(e, start, end) && e.kind == "class" &&
              c.schedule != "" && e == ClassEvent(c, ClassTime(c.schedule), e.day) &&
              MeetsOn(c.schedule, e.day) && e.day < DayOf(start) + NumDays(start, end)
  {
    if c.schedule != "" {
      var n := NumDays(start, end);
      OccurrencesSound(c, ClassTime(c.schedule), DayOf(start), n);
      if n > 0 {
        WindowDays(start, end);
      }
    }
  }

  lemma {:induction false} ClassEventsPlaced(classes: seq<ClassRecord>, start: int, end: int)
    ensures forall e :: e in ClassEvents(classes, start, end) ==>
              WellPlaced(e, start, end) && e.kind == "class" &&
              exists c :: c in classes && c.schedule != "" &&
                e == ClassEvent(c, ClassTime(c.schedule), e.day) && MeetsOn(c.schedule, e.day) &&
                e.day < DayOf(start) + NumDays(start, end)
  {
    if classes != [] {
      var init := classes[..|classes| - 1];
      var last := classes[|classes| - 1];
      ClassEventsPlaced(init, start, end);
      ClassOccurrencesPlaced(last, start, end);
      forall e | e in ClassEvents(classes, start, end)
        ensures WellPlaced(e, start, end) && e.kind == "class" &&
                exists c :: c in classes && c.schedule != "" &&
                  e == ClassEvent(c, ClassTime(c.schedule), e.day) && MeetsOn(c.schedule, e.day) &&
                  e.day < DayOf(start) + NumDays(start, end)
      {
        if e in ClassEvents(init, start, end) {
          var c :| c in init && c.schedule != "" &&
                   e == ClassEvent(c, ClassTime(c.schedule), e.day) && MeetsOn(c.schedule, e.day) &&
                   e.day < DayOf(start) + NumDays(start, end);
          assert c in classes;
        } else {
          assert e in ClassOccurrences(last, start, end);
          assert last in classes;
        }
      }
    }
  }

  /** Every class with a schedule meets on every visited day its schedule names. */
  lemma {:induction false} ClassEventsComplete(classes: seq<ClassRecord>, start: int, end: int)
    ensures forall c, d ::
              (c in classes && c.schedule != "" && MeetsOn(c.schedule, d) &&
               DayOf(start) <= d < DayOf(start) + NumDays(start, end)) ==>
              ClassEvent(c, ClassTime(c.schedule), d) in ClassEvents(classes, start, end)
  {
    if classes != [] {
      var init := classes[..|classes| - 1];
      var last := classes[|classes| - 1];
      ClassEventsComplete(init, start, end);
      if last.schedule != "" {
        OccurrencesComplete(last, ClassTime(last.schedule), DayOf(start), NumDays(start, end));
      }
      forall c | c in classes ensures c in init || c == last {
        var i :| 0 <= i < |classes| && classes[i] == c;
        if i < |classes| - 1 {
          assert init[i] == c;
        }
      }
    }
  }

  lemma {:induction false} AssignmentEventsPlaced(assignments: seq<Assignment>, start: int, end: int, now: int)
    ensures forall e :: e in AssignmentEvents(assignments, start, end, now) ==>
              WellPlaced(e, start, end) && e.kind == "assignment" &&
              exists a :: a in assignments && AssignmentInWindow(a, start, end) && e == AssignmentEvent(a, now)
  {
    if assignments != [] {
      var init := assignments[..|assignments| - 1];
      var last := assignments[|assignments| - 1];
      AssignmentEventsPlaced(init, start, end, now);
      forall e | e in AssignmentEvents(assignments, start, end, now)
        ensures WellPlaced(e, start, end) && e.kind == "assignment" &&
                exists a :: a in assignments && AssignmentInWindow(a, start, end) && e == AssignmentEvent(a, now)
      {
        if e in AssignmentEvents(init, start, end, now) {
          var a :| a in init && AssignmentInWindow(a, start, end) && e == AssignmentEvent(a, now);
          assert a in assignments;
        } else {
          assert last in assignments;
          DayOfMonotone(start, last.dueAt.value);
          DayOfMonotone(last.dueAt.value, end);
        }
      }
    }
  }

  /** Every assignment due in the window has its event. */
  lemma {:induction false} AssignmentEventsComplete(assignments: seq<Assignment>, start: int, end: int, now: int)
    ensures forall a :: a in assignments && AssignmentInWindow(a, start, end) ==>
              AssignmentEvent(a, now) in AssignmentEvents(assignments, start, end, now)
  {
    if assignments != [] {
      var init := assignments[..|assignments| - 1];
      AssignmentEventsComplete(init, start, end, now);
      forall a | a in assignments ensures a in init || a == assignments[|assignments| - 1] {
        var i :| 0 <= i < |assignments| && assignments[i] == a;
        if i < |assignments| - 1 {
          assert init[i] == a;
        }
      }
    }
  }

  /** School events whose dates name their days and whose type is "event". */
  predicate ProperSchoolEvents(events: seq<SchoolEvent>) {
    forall i :: 0 <= i < |events| ==> FormatDay(events[i].day) == events[i].date && events[i].kind == "event"
  }

  lemma {:induction false} SchoolEventsPlaced(events: seq<SchoolEvent>, start: int, end: int)
    requires ProperSchoolEvents(events)
    ensures forall e :: e in SchoolEvents(events, start, end) ==>
              WellPlaced(e, start, end) && e.kind == "event" &&
              exists m :: m in events && SchoolEventInWindow(m, start, end) && e == SchoolEventEntry(m)
  {
    if events != [] {
      var init := events[..|events| - 1];
      var last := events[|events| - 1];
      assert ProperSchoolEvents(init) by {
        forall i | 0 <= i < |init| ensures FormatDay(init[i].day) == init[i].date && init[i].kind == "event" {
          assert init[i] == events[i];
        }
      }
      SchoolEventsPlaced(init, start, end);
      forall e | e in SchoolEvents(events, start, end)
        ensures WellPlaced(e, start, end) && e.kind == "event" &&
                exists m :: m in events && SchoolEventInWindow(m, start, end) && e == SchoolEventEntry(m)
      {
        if e in SchoolEvents(init, start, end) {
          var m :| m in init && SchoolEventInWindow(m, start, end) && e == SchoolEventEntry(m);
          assert m in events;
        } else {
          assert last in events;
          DayOfMonotone(start, StartOfDay(last.day));
          DayOfMonotone(StartOfDay(last.day), end);
          DayOfStartOfDay(last.day);
        }
      }
    }
  }

  /** No school event is listed when none lies in the window. */
  lemma {:induction false} SchoolEventsOutside(events: seq<SchoolEvent>, start: int, end: int)
    requires forall i :: 0 <= i < |events| ==> !SchoolEventInWindow(events[i], start, end)
    ensures SchoolEvents(events, start, end) == []
  {
    if events != [] {
      SchoolEventsOutside(events[..|events| - 1], start, end);
    }
  }

  /** Every school event in the window is listed. */
  lemma {:induction false} SchoolEventsComplete(events: seq<SchoolEvent>, start: int, end: int)
    ensures forall m :: m in events && SchoolEventInWindow(m, start, end) ==>
              SchoolEventEntry(m) in SchoolEvents(events, start, end)
  {
    if events != [] {
      var init := events[..|events| - 1];
      SchoolEventsComplete(init, start, end);
      forall m | m in events ensures m in init || m == events[|events| - 1] {
        var i :| 0 <= i < |events| && events[i] == m;
        if i < |events| - 1 {
          assert init[i] == m;
        }
      }
    }
  }

  lemma MockEventsProper()
    ensures ProperSchoolEvents(MockEvents)
  {
    MockEventDates();
  }

  /** Every event listed lies on a day of the window and its date text names
      that day; the class meetings, assignment events and school events are
      exactly those the window calls for. */
  lemma EventsForRangeMembers(classes: seq<ClassRecord>, assignments: seq<Assignment>,
                              start: int, end: int, now: int)
    ensures forall e :: e in EventsForRange(classes, assignments, start, end, now) ==>
              WellPlaced(e, start, end) && (e.kind == "class" || e.kind == "assignment" || e.kind == "event")
    ensures forall e :: e in EventsForRange(classes, assignments, start, end, now) && e.kind == "class" ==>
              exists c :: c in classes && c.schedule != "" &&
                e == ClassEvent(c, ClassTime(c.schedule), e.day) && MeetsOn(c.schedule, e.day)
    ensures forall c, d ::
              (c in classes && c.schedule != "" && MeetsOn(c.schedule, d) &&
               DayOf(start) <= d < DayOf(start) + NumDays(start, end)) ==>
              ClassEvent(c, ClassTime(c.schedule), d) in EventsForRange(classes, assignments, start, end, now)
    ensures forall e :: e in EventsForRange(classes, assignments, start, end, now) && e.kind == "assignment" ==>
              exists a :: a in assignments && AssignmentInWindow(a, start, end) && e == AssignmentEvent(a, now)
    ensures forall a :: a in assignments && AssignmentInWindow(a, start, end) ==>
              AssignmentEvent(a, now) in EventsForRange(classes, assignments, start, end, now)
    ensures forall e :: e in EventsForRange(classes, assignments, start, end, now) && e.kind == "event" ==>
              exists m :: m in MockEvents && SchoolEventInWindow(m, start, end) && e == SchoolEventEntry(m)
    ensures forall m :: m in MockEvents && SchoolEventInWindow(m, start, end) ==>
              SchoolEventEntry(m) in EventsForRange(classes, assignments, start, end, now)
  {
    EventsForRangeClasses(classes, assignments, start, end, now);
    EventsForRangeAssignments(classes, assignments, start, end, now);
    EventsForRangeSchoolEvents(classes, assignments, start, end, now);
  }

  /** The listed events are those collected, each well placed and of one of
      the three kinds. */
  lemma EventsForRangePlaced(classes: seq<ClassRecord>, assignments: seq<Assignment>,
                             start: int, end: int, now: int)
    ensures forall e :: e in EventsForRange(classes, assignments, start, end, now) <==>
              e in Collected(classes, assignments, start, end, now)
    ensures forall e :: e in EventsForRange(classes, assignments, start, end, now) ==>
              WellPlaced(e, start, end) && (e.kind == "class" || e.kind == "assignment" || e.kind == "event")
  {
    SortByKeyCorrect(Collected(classes, assignments, start, end, now), SortKey);
    ClassEventsPlaced(classes, start, end);
    AssignmentEventsPlaced(assignments, start, end, now);
    MockEventsProper();
    SchoolEventsPlaced(MockEvents, start, end);
  }

  /** The class meetings listed are exactly those the window calls for. */
  lemma EventsForRangeClasses(classes: seq<ClassRecord>, assignments: seq<Assignment>,
                              start: int, end: int, now: int)
    ensures forall e :: e in EventsForRange(classes, assignments, start, end, now) ==>
              WellPlaced(e, start, end) && (e.kind == "class" || e.kind == "assignment" || e.kind == "event")
    ensures forall e :: e in EventsForRange(classes, assignments, start, end, now) && e.kind == "class" ==>
              exists c :: c in classes && c.schedule != "" &&
                e == ClassEvent(c, ClassTime(c.schedule), e.day) && MeetsOn(c.schedule, e.day)
    ensures forall c, d ::
              (c in classes && c.schedule != "" && MeetsOn(c.schedule, d) &&
               DayOf(start) <= d < DayOf(start) + NumDays(start, end)) ==>
              ClassEvent(c, ClassTime(c.schedule), d) in EventsForRange(classes, assignments, start, end, now)
  {
    EventsForRangePlaced(classes, assignments, start, end, now);
    ClassEventsPlaced(classes, start, end);
    ClassEventsComplete(classes, start, end);
    AssignmentEventsPlaced(assignments, start, end, now);
    MockEventsProper();
    SchoolEventsPlaced(MockEvents, start, end);
  }

  /** The assignment events listed are exactly those the window calls for. */
  lemma EventsForRangeAssignments(classes: seq<ClassRecord>, assignments: seq<Assignment>,
                                  start: int, end: int, now: int)
    ensures forall e :: e in EventsForRange(classes, assignments, start, end, now) && e.kind == "assignment" ==>
              exists a :: a in assignments && AssignmentInWindow(a, start, end) && e == AssignmentEvent(a, now)
    ensures forall a :: a in assignments && AssignmentInWindow(a, start, end) ==>
              AssignmentEvent(a, now) in EventsForRange(classes, assignments, start, end, now)
  {
    EventsForRangePlaced(classes, assignments, start, end, now);
    ClassEventsPlaced(classes, start, end);
    AssignmentEventsPlaced(assignments, start, end, now);
    AssignmentEventsComplete(assignments, start, end, now);
    MockEventsProper();
    SchoolEventsPlaced(MockEvents, start, end);
  }

  /** The school events listed are exactly those the window calls for. */
  lemma EventsForRangeSchoolEvents(classes: seq<ClassRecord>, assignments: seq<Assignment>,
                                   start: int, end: int, now: int)
    ensures forall e :: e in EventsForRange(classes, assignments, start, end, now) && e.kind == "event" ==>
              exists m :: m in MockEvents && SchoolEventInWindow(m, start, end) && e == SchoolEventEntry(m)
    ensures forall m :: m in MockEvents && SchoolEventInWindow(m, start, end) ==>
              SchoolEventEntry(m) in EventsForRange(classes, assignments, start, end, now)
  {
    EventsForRangePlaced(classes, assignments, start, end, now);
    ClassEventsPlaced(classes, start, end);
    AssignmentEventsPlaced(assignments, start, end, now);
    MockEventsProper();
    SchoolEventsPlaced(MockEvents, start, end);
    SchoolEventsComplete(MockEvents, start, end);
  }

  /** When the window starts at a midnight, the visited days are exactly the
      days from the first to the last of the window. */
  lemma MidnightWindowDays(start: int, end: int)
    requires start <= end && start == StartOfDay(DayOf(start))
    ensures DayOf(start) + NumDays(start, end) == DayOf(end) + 1
  {
    WindowDays(start, end);
  }

  // ---------------------------------------------------------------------
  // Looking up a school event by its listed id.

  /** The first school event whose listed id is `id`. */
  function FindSchoolEvent(events: seq<SchoolEvent>, id: string): (r: Option<SchoolEvent>)
    ensures r.Some? ==> r.value in events && SchoolEventEntry(r.value).Id == id
    ensures r.None? <==> forall m :: m in events ==> SchoolEventEntry(m).Id != id
  {
    if events == [] then None
    else if SchoolEventEntry(events[0]).Id == id then Some(events[0])
    else FindSchoolEvent(events[1..], id)
  }

  /** `getEventById`: the school event listed under `id` (without the prefix
      on its Id), None when there is none. */
  function GetEventById(id: string): (r: Option<SchoolEvent>)
    ensures r.Some? ==> r.value in MockEvents && "event-" + IntText(r.value.Id) == id
    ensures r.None? <==> forall m :: m in MockEvents ==> "event-" + IntText(m.Id) != id
  {
    FindSchoolEvent(MockEvents, id)
  }

  predicate DistinctEventIds(events: seq<SchoolEvent>) {
    forall i, j :: 0 <= i < j < |events| ==> events[i].Id != events[j].Id
  }

  /** Different school-event ids give different listed ids. */
  lemma ListedIdInjective(m: SchoolEvent, n: SchoolEvent)
    requires SchoolEventEntry(m).Id == SchoolEventEntry(n).Id
    ensures m.Id == n.Id
  {
    var a := SchoolEventEntry(m).Id;
    assert a[6..] == IntText(m.Id);
    assert SchoolEventEntry(n).Id[6..] == IntText(n.Id);
    IntTextInjective(m.Id, n.Id);
  }

  lemma {:induction false} FindListedEvent(events: seq<SchoolEvent>, i: int)
    requires DistinctEventIds(events) && 0 <= i < |events|
    ensures FindSchoolEvent(events, SchoolEventEntry(events[i]).Id) == Some(events[i])
  {
    if i > 0 {
      if SchoolEventEntry(events[0]).Id == SchoolEventEntry(events[i]).Id {
        ListedIdInjective(events[0], events[i]);
        assert false;
      }
      assert DistinctEventIds(events[1..]) by {
        forall a, b | 0 <= a < b < |events[1..]| ensures events[1..][a].Id != events[1..][b].Id {
          assert events[1..][a] == events[a + 1] && events[1..][b] == events[b + 1];
        }
      }
      assert events[1..][i - 1] == events[i];
      FindListedEvent(events[1..], i - 1);
    }
  }

  /** Looking up the id a listed school event carries finds that event. */
  lemma GetEventByIdRoundTrip(m: SchoolEvent)
    requires m in MockEvents
    ensures GetEventById(SchoolEventEntry(m).Id) == Some(m)
  {
    var i :| 0 <= i < |MockEvents| && MockEvents[i] == m;
    FindListedEvent(MockEvents, i);
  }

  // ---------------------------------------------------------------------
  // The events of one date.

  /** The assignment events of the window as the range query writes them,
      with the stored due-date text as the event's date, in list order. */
  function AssignmentEventsAsWritten(assignments: seq<Assignment>, start: int, end: int, now: int): seq<Event> {
    if assignments == [] then []
    else
      var a := assignments[|assignments| - 1];
      AssignmentEventsAsWritten(assignments[..|assignments| - 1], start, end, now) +
      (if AssignmentInWindow(a, start, end) then [AssignmentEventAsWritten(a, now)] else [])
  }

  /** The range query as written: class meetings, assignment events carrying
      their raw due-date text, then school events, stably sorted by (day, time). */
  function EventsForRangeAsWritten(classes: seq<ClassRecord>, assignments: seq<Assignment>,
                                   start: int, end: int, now: int): (r: seq<Event>)
    ensures SortedByKey(r, SortKey)
    ensures multiset(r) == multiset(ClassEvents(classes, start, end) +
                                    AssignmentEventsAsWritten(assignments, start, end, now) +
                                    SchoolEvents(MockEvents, start, end))
    ensures forall k :: WithKey(r, SortKey, k) ==
                        WithKey(ClassEvents(classes, start, end) +
                                AssignmentEventsAsWritten(assignments, start, end, now) +
                                SchoolEvents(MockEvents, start, end), SortKey, k)
  {
    var collected := ClassEvents(classes, start, end) + AssignmentEventsAsWritten(assignments, start, end, now) +
                     SchoolEvents(MockEvents, start, end);
    SortByKeyCorrect(collected, SortKey);
    SortByKey(collected, SortKey)
  }

  lemma {:induction false} AssignmentEventsAsWrittenPlaced(assignments: seq<Assignment>, start: int, end: int, now: int)
    ensures forall e :: e in AssignmentEventsAsWritten(assignments, start, end, now) ==>
              e.kind == "assignment" &&
              exists a :: a in assignments && AssignmentInWindow(a, start, end) && e == AssignmentEventAsWritten(a, now)
  {
    if assignments != [] {
      var init := assignments[..|assignments| - 1];
      AssignmentEventsAsWrittenPlaced(init, start, end, now);
      forall e | e in AssignmentEventsAsWritten(assignments, start, end, now)
        ensures e.kind == "assignment" &&
                exists a :: a in assignments && AssignmentInWindow(a, start, end) && e == AssignmentEventAsWritten(a, now)
      {
        if e in AssignmentEventsAsWritten(init, start, end, now) {
          var a :| a in init && AssignmentInWindow(a, start, end) && e == AssignmentEventAsWritten(a, now);
          assert a in assignments;
        } else {
          assert assignments[|assignments| - 1] in assignments;
        }
      }
    }
  }

  lemma {:induction false} AssignmentEventsAsWrittenComplete(assignments: seq<Assignment>, start: int, end: int, now: int)
    ensures forall a :: a in assignments && AssignmentInWindow(a, start, end) ==>
              AssignmentEventAsWritten(a, now) in AssignmentEventsAsWritten(assignments, start, end, now)
  {
    if assignments != [] {
      var init := assignments[..|assignments| - 1];
      AssignmentEventsAsWrittenComplete(init, start, end, now);
      forall a | a in assignments ensures a in init || a == assignments[|assignments| - 1] {
        var i :| 0 <= i < |assignments| && assignments[i] == a;
        if i < |assignments| - 1 {
          assert init[i] == a;
        }
      }
    }
  }

  /** The assignment events the range query as written lists are exactly
      those of the assignments due in the window. */
  lemma EventsForRangeAsWrittenAssignments(classes: seq<ClassRecord>, assignments: seq<Assignment>,
                                           start: int, end: int, now: int)
    ensures forall e :: e in EventsForRangeAsWritten(classes, assignments, start, end, now) && e.kind == "assignment" ==>
              exists a :: a in assignments && AssignmentInWindow(a, start, end) && e == AssignmentEventAsWritten(a, now)
    ensures forall a :: a in assignments && AssignmentInWindow(a, start, end) ==>
              AssignmentEventAsWritten(a, now) in EventsForRangeAsWritten(classes, assignments, start, end, now)
  {
    var c := ClassEvents(classes, start, end);
    var w := AssignmentEventsAsWritten(assignments, start, end, now);
    var m := SchoolEvents(MockEvents, start, end);
    SortByKeyCorrect(c + w + m, SortKey);
    ClassEventsPlaced(classes, start, end);
    AssignmentEventsAsWrittenPlaced(assignments, start, end, now);
    AssignmentEventsAsWrittenComplete(assignments, start, end, now);
    MockEventsProper();
    SchoolEventsPlaced(MockEvents, start, end);
  }

  /** What `getEventsForDate(date)` returns: the events of the range query
      as written over the one-instant window [date, date] whose date text is
      the day of `date`. */
  function EventsForDate(classes: seq<ClassRecord>, assignments: seq<Assignment>,
                         date: int, now: int): seq<Event> {
    Filter(EventsForRangeAsWritten(classes, assignments, date, date, now),
           (e: Event) => e.date == FormatDay(DayOf(date)))
  }

  /** `getEventsForDate` as written: the range query over [date, date], then
      the events whose date text is that day's. */
  method GetEventsForDate(classes: Result<seq<ClassRecord>>, assignments: Result<seq<Assignment>>,
                          date: int, now: int) returns (r: Result<seq<Event>>)
    ensures r.Failure? <==> classes.Failure? || assignments.Failure?
    ensures r.Failure? ==> r.message == FAILED_TO_LOAD
    ensures r.Success? ==> r.value == EventsForDate(classes.value, assignments.value, date, now)
  {
    if classes.Failure? || assignments.Failure? {
      return Failure(FAILED_TO_LOAD);
    }
    var dateString := FormatDay(DayOf(date));
    var events := EventsForRangeAsWritten(classes.value, assignments.value, date, date, now);
    r := Success(Filter(events, (e: Event) => e.date == dateString));
  }

  /** As written, an assignment is listed for a date exactly when it is due
      at that very instant and its stored due-date text is that day's
      `yyyy-MM-dd` text. */
  lemma EventsForDateAssignmentsExact(classes: seq<ClassRecord>, assignments: seq<Assignment>,
                                      date: int, now: int)
    ensures forall e :: e in EventsForDate(classes, assignments, date, now) && e.kind == "assignment" ==>
              exists a :: a in assignments && a.dueAt == Some(date) && a.dueDate == FormatDay(DayOf(date)) &&
                e == AssignmentEventAsWritten(a, now)
    ensures forall a :: a in assignments && a.dueAt == Some(date) && a.dueDate == FormatDay(DayOf(date)) ==>
              AssignmentEventAsWritten(a, now) in EventsForDate(classes, assignments, date, now)
  {
    EventsForRangeAsWrittenAssignments(classes, assignments, date, date, now);
    forall a | a in assignments && a.dueAt == Some(date) && a.dueDate == FormatDay(DayOf(date))
      ensures AssignmentInWindow(a, date, date)
    {
      assert |FormatDay(DayOf(date))| > 0;
    }
  }

  /** As written, an assignment whose stored due text carries the ISO 'T'
      separator, as the assignment dialog writes it, is never listed for any
      date, even one at its very due instant. */
  lemma EventsForDateSkipsIsoDue(classes: seq<ClassRecord>, assignments: seq<Assignment>, date: int, now: int)
    ensures forall a :: a in assignments && a.dueAt.Some? && 'T' in a.dueDate ==>
              AssignmentEventAsWritten(a, now) !in EventsForDate(classes, assignments, date, now)
  {
    forall a | a in assignments && a.dueAt.Some? && 'T' in a.dueDate
      ensures AssignmentEventAsWritten(a, now) !in EventsForDate(classes, assignments, date, now)
    {
      var i :| 0 <= i < |a.dueDate| && a.dueDate[i] == 'T';
      AsWrittenDateNamesNoDay(a, now);
    }
  }

  /** An assignment due at 23:59 on 2024-07-15 is not among the events of
      2024-07-15 asked for at that day's midnight. */
  lemma EventsForDateMissesLateDue(a: Assignment, now: int)
    requires a.dueDate != "" && a.dueAt == Some(StartOfDay(19919) + 86340000)
    ensures DayOf(a.dueAt.value) == 19919
    ensures EventsForDate([], [a], StartOfDay(19919), now) == []
  {
    var d := StartOfDay(19919);
    DayOfShift(86340000, 19919);
    assert !AssignmentInWindow(a, d, d);
    assert [a][..0] == [];
    assert AssignmentEventsAsWritten([a], d, d, now) == [];
    NoSchoolEventsBefore(d, d);
    EmptyRangeAsWritten([a], d, d, now);
  }

  /** No school event is listed in a window that ends before the first of them. */
  lemma NoSchoolEventsBefore(start: int, end: int)
    requires end < StartOfDay(19981)
    ensures SchoolEvents(MockEvents, start, end) == []
  {
    assert forall i :: 0 <= i < |MockEvents| ==> MockEvents[i].day >= 19981;
    SchoolEventsOutside(MockEvents, start, end);
  }

  lemma EmptyRangeAsWritten(assignments: seq<Assignment>, start: int, end: int, now: int)
    requires AssignmentEventsAsWritten(assignments, start, end, now) == []
    requires SchoolEvents(MockEvents, start, end) == []
    ensures EventsForRangeAsWritten([], assignments, start, end, now) == []
  {
    var r := EventsForRangeAsWritten([], assignments, start, end, now);
    assert ClassEvents([], start, end) == [];
    assert multiset(r) == multiset{};
    assert |r| == |multiset(r)|;
  }

  /** The edge case of a window with nothing in it: no class meets, no
      assignment is due and no school event falls there. Stated for its own
      sake; no other proof uses it. */
  lemma EmptyRange(classes: seq<ClassRecord>, assignments: seq<Assignment>, start: int, end: int, now: int)
    requires classes == [] && AssignmentEvents(assignments, start, end, now) == []
    requires SchoolEvents(MockEvents, start, end) == []
    ensures EventsForRange(classes, assignments, start, end, now) == []
  {
    var c := Collected(classes, assignments, start, end, now);
    assert c == [];
    SortByKeyCorrect(c, SortKey);
  }

  /** The window of a whole calendar day, midnight to the last millisecond. */
  function DayWindowEnd(day: int): int {
    StartOfDay(day + 1) - 1
  }

  /** The events of a calendar day: the range query over the whole day, then
      the events whose date text is that day's. */
  function EventsOnDay(classes: seq<ClassRecord>, assignments: seq<Assignment>,
                       day: int, now: int): seq<Event> {
    Filter(EventsForRange(classes, assignments, StartOfDay(day), DayWindowEnd(day), now),
           (e: Event) => e.date == FormatDay(day))
  }

  /** `getEventsForDate` over the whole day of `date`. */
  method GetEventsOnDay(classes: Result<seq<ClassRecord>>, assignments: Result<seq<Assignment>>,
                        date: int, now: int) returns (r: Result<seq<Event>>)
    ensures r.Failure? <==> classes.Failure? || assignments.Failure?
    ensures r.Failure? ==> r.message == FAILED_TO_LOAD
    ensures r.Success? ==> r.value == EventsOnDay(classes.value, assignments.value, DayOf(date), now)
  {
    var day := DayOf(date);
    var dateString := FormatDay(day);
    var events := GetEventsForDateRange(classes, assignments, StartOfDay(day), DayWindowEnd(day), now);
    if events.Failure? {
      return events;
    }
    r := Success(Filter(events.value, (e: Event) => e.date == dateString));
  }

  /** The events of a day fall on that day, and every class meeting, every
      assignment due and every school event of that day is among them. */
  lemma EventsOnDayMembers(classes: seq<ClassRecord>, assignments: seq<Assignment>, day: int, now: int)
    ensures forall e :: e in EventsOnDay(classes, assignments, day, now) ==>
              e.day == day && e in EventsForRange(classes, assignments, StartOfDay(day), DayWindowEnd(day), now)
    ensures forall c :: c in classes && c.schedule != "" && MeetsOn(c.schedule, day) ==>
              ClassEvent(c, ClassTime(c.schedule), day) in EventsOnDay(classes, assignments, day, now)
    ensures forall a :: a in assignments && a.dueDate != "" && a.dueAt.Some? && DayOf(a.dueAt.value) == day ==>
              AssignmentEvent(a, now) in EventsOnDay(classes, assignments, day, now)
    ensures forall m :: m in MockEvents && m.day == day ==>
              SchoolEventEntry(m) in EventsOnDay(classes, assignments, day, now)
  {
    var start := StartOfDay(day);
    var end := DayWindowEnd(day);
    DayOfStartOfDay(day);
    DayOfStartOfDay(day + 1);
    assert DayOf(end) == day;
    MidnightWindowDays(start, end);
    EventsForRangeMembers(classes, assignments, start, end, now);
    forall a | a in assignments && a.dueDate != "" && a.dueAt.Some? && DayOf(a.dueAt.value) == day
      ensures AssignmentInWindow(a, start, end)
    {
      DayOfBounds(a.dueAt.value);
    }
  }

  // ---------------------------------------------------------------------
  // The date text of an assignment event as the range query writes it.

  /** The assignment event with `date` holding the stored due-date text
      itself, which is what the range query puts there. */
  function AssignmentEventAsWritten(a: Assignment, now: int): (e: Event)
    requires a.dueAt.Some?
    ensures e == AssignmentEvent(a, now).(date := a.dueDate)
  {
    var due := a.dueAt.value;
    Event("assignment-" + IntText(a.Id), a.title, Some("Due: " + a.title),
          a.dueDate, "23:59", "assignment",
          AssignmentDetail(a.Id, if a.className == "" then "Unknown Class" else a.className,
                           AssignmentPriority(due, now)),
          DayOf(due))
  }

  /** A due date stored as full ISO text (with its 'T' separator) is never
      the date text of any day, so filtering or grouping events by date text
      never places such an assignment event on a day. */
  lemma AsWrittenDateNamesNoDay(a: Assignment, now: int)
    requires a.dueAt.Some?
    requires exists i :: 0 <= i < |a.dueDate| && a.dueDate[i] == 'T'
    ensures forall d :: AssignmentEventAsWritten(a, now).date != FormatDay(d)
  {
    var i :| 0 <= i < |a.dueDate| && a.dueDate[i] == 'T';
    assert !IsDigit(a.dueDate[i]) && a.dueDate[i] != '-';
  }
}
