# School dashboard core, modelled in Dafny

This project models the logic core of a React school dashboard in Dafny:

- the **calendar aggregation engine** (`calendarService`). It expands recurring class schedules day by day over an inclusive window. It adds the assignments due in the window and the school's constant events. It tags each assignment with a priority from the days left until it is due. It sorts the result by day and time, and looks events up by day and by id.
- the **calendar page's search and type filter** over that list (`applyFilters`);
- the six **in-memory entity stores**: classes, students, assignments, grades, attendance and the activity log. Each is a module-level list. Each store is a Dafny class over a `seq` field. Its methods append with a fresh `max + 1` id, merge a patch at an index, splice out a record, upsert attendance, and add or remove roster members without duplicates. Its functions filter, count, average and sort;
- the **grade book**: the score checks before a grade is forwarded, the weighted student percentage (a loop), the colour bands, and the editing state;
- the three **create dialogs** (student, assignment, class): field-by-field validation with the source's messages, the student e-mail pattern, the assignment payload, and the reset paths.

Conventions used throughout:

- An instant is an integer number of milliseconds since 1970-01-01 00:00 UTC. A calendar day is `instant / 86400000`, and local time is taken to be UTC.
- The weekday is `(day + 4) % 7` (0 is Sunday).
- `yyyy-MM-dd` text comes from the civil-from-days algorithm.
- "now" is a parameter.
- Service calls are synchronous. A failed fetch of classes or assignments is an input (`Result`).
- Numbers are exact reals, and `Math.round` is `floor(x + 0.5)`.
- JavaScript `parseFloat`, `Number()` and `parseInt` are modelled on plain decimal text.

The modules are `Common` (shared helpers), `JsText` (number text), `ClassService`, `StudentService`, `AssignmentService`, `GradeService`, `AttendanceService`, `ActivityService`, `CalendarService`, `CalendarPage`, `GradeBook`, `CreateStudentModal`, `CreateAssignmentModal` and `CreateClassModal`.

The calendar model places an assignment event on the calendar day of its due instant. The code as written stores the raw due text there instead. Both versions are modelled; see "## Findings". The range query `getEventsForDateRange` is modelled with the corrected date (`GetEventsForDateRange`) and as written (`EventsForRangeAsWritten`). The one-date query `getEventsForDate` is modelled as written (`GetEventsForDate`), on top of the range query as written, and corrected (`GetEventsOnDay`).

## Model

| member | source | states |
|---|---|---|
| CalendarService.ClassTime | src/services/api/calendarService.js:133-134 | the class time is the first `d:dd`/`dd:dd` token of the schedule, and "09:00" when there is none |
| CalendarService.MeetsOn | src/services/api/calendarService.js:142-144 | the schedule names the day's three-letter weekday at some position, letter case aside |
| CalendarService.MeetsOnWeekly | src/services/api/calendarService.js:142-144 | a schedule that meets on a day meets on the same weekday a week later, and the other way round |
| CalendarService.ClassEvent | src/services/api/calendarService.js:145-155 | the meeting event lies on its day, carries that day's `yyyy-MM-dd` text as date and in its Id, has the class's name, instructor and time, and room "TBD" when none is set |
| CalendarService.FirstTimeToken | src/services/api/calendarService.js:133 | the token found is a time text starting at some position; when none is found, no position starts a token |
| CalendarService.TimeKey | src/services/api/calendarService.js:98-100 | the time of day of an event as a key in [0, 9999], used to order events of one day |
| CalendarService.TimeKeyClockOrder | src/services/api/calendarService.js:98-100 | on zero-padded `HH:MM` texts, one key is at most another exactly when its text is at most the other's in JavaScript string order |
| CalendarService.TimeKeyPadded | src/services/api/calendarService.js:133-134 | an unpadded `H:MM` class time has the key of its zero-padded form |
| CalendarService.ParseClassSchedule | src/services/api/calendarService.js:123-165 | the day-by-day loop yields exactly the class's occurrences over the window |
| CalendarService.StepInWindow | src/services/api/calendarService.js:140 | the loop visits step k exactly when start + k days is still <= end |
| CalendarService.WindowDays | src/services/api/calendarService.js:137-159 | the visited days run from the start's day and never past the end's day; from midnight they reach it |
| CalendarService.MidnightWindowDays | src/services/api/calendarService.js:137-159 | from a midnight start, the loop visits every day up to and including the end's day |
| CalendarService.OccurrencesSound | src/services/api/calendarService.js:144-155 | every occurrence is a class event of that class, on a day whose weekday name occurs in the schedule, at the class time |
| CalendarService.MeetingDaysSound | src/services/api/calendarService.js:140-158 | every meeting day is a visited day whose weekday name occurs in the schedule |
| CalendarService.MeetingDaysIncreasing | src/services/api/calendarService.js:140-158 | meeting days come in strictly increasing order |
| CalendarService.MeetingDaysComplete | src/services/api/calendarService.js:140-158 | every visited day whose weekday name occurs in the schedule is a meeting day |
| CalendarService.OccurrencesIncreasing | src/services/api/calendarService.js:140-158 | occurrences come in strictly increasing day order, so there is at most one per (class, day) |
| CalendarService.OccurrencesComplete | src/services/api/calendarService.js:140-159 | every visited day whose weekday name occurs in the schedule yields its class event |
| CalendarService.ClassOccurrencesPlaced | src/services/api/calendarService.js:145-155 | each occurrence lies in the window, its date text names its day, and its type is "class" |
| CalendarService.ClassEventsPlaced | src/services/api/calendarService.js:57-63 | every class event comes from a class with a non-empty schedule meeting that day, inside the window |
| CalendarService.ClassEventsComplete | src/services/api/calendarService.js:57-63 | every class with a schedule yields an event on each visited day its schedule names |
| CalendarService.CollectClassEvents | src/services/api/calendarService.js:57-63 | the forEach/push loop over the classes yields the class events of the window |
| CalendarService.DaysUntilDue | src/services/api/calendarService.js:170 | the ceiling of (due - now) in days: (d - 1) days < due - now <= d days |
| CalendarService.AssignmentPriority | src/services/api/calendarService.js:167-177 | overdue, urgent, high, medium and low each hold exactly on their band of due - now (overdue only once a whole day has passed) |
| CalendarService.PriorityMonotone | src/services/api/calendarService.js:167-177 | for a fixed due instant the priority only moves toward overdue as now grows |
| CalendarService.AssignmentEventsPlaced | src/services/api/calendarService.js:66-83 | every assignment event comes from an assignment with a due date inside the window, and is placed on its due day |
| CalendarService.AssignmentEvent | src/services/api/calendarService.js:70-80 | corrected: the event lies on the day of the due instant with that day's `yyyy-MM-dd` text as date, at "23:59", named `assignment-<Id>`, with class name defaulting to "Unknown Class" and the priority of the due instant |
| CalendarService.AssignmentEventsComplete | src/services/api/calendarService.js:66-83 | every assignment whose due instant lies in the window yields its event |
| CalendarService.CollectAssignmentEvents | src/services/api/calendarService.js:66-83 | the forEach/push loop over the assignments yields the assignment events of the window |
| CalendarService.MockEventDates | src/services/api/calendarService.js:6-39 | the day numbers of the four school events render as their listed dates |
| CalendarService.KnownWeekdays | src/services/api/calendarService.js:142 | the weekday names of known dates (2024-09-15 is a Sunday, 2024-11-25 a Monday, 2024-12-20 a Friday) |
| CalendarService.MockEventsProper | src/services/api/calendarService.js:6-39 | the school events carry day numbers that agree with their date text |
| CalendarService.SchoolEventsPlaced | src/services/api/calendarService.js:86-94 | every school event listed lies in the window, keeps its fields and is renamed `event-<Id>` |
| CalendarService.SchoolEventsComplete | src/services/api/calendarService.js:86-94 | every school event inside the window is listed |
| CalendarService.SchoolEventsOutside | src/services/api/calendarService.js:86-94 | with no school event inside the window none is listed |
| CalendarService.CollectSchoolEvents | src/services/api/calendarService.js:86-94 | the forEach/push loop over the school events yields those of the window |
| CalendarService.GetEventsForDateRange | src/services/api/calendarService.js:46-108 | fails with "Failed to load calendar events" exactly when a fetch fails; otherwise returns the sorted collected events |
| CalendarService.SortKeyOrder | src/services/api/calendarService.js:96-101 | the sort key orders events by day, then by time of day |
| CalendarService.EventsForRangeOrdered | src/services/api/calendarService.js:96-101 | the result is ordered by (day, time), is a permutation of the collected events, and keeps the collection order among equal keys (stable) |
| CalendarService.EventsForRangeMembers | src/services/api/calendarService.js:46-108 | every event is well placed; class, assignment and school events are each exactly those their sources produce in the window |
| CalendarService.FindSchoolEvent | src/services/api/calendarService.js:119 | finds a listed school event whose `event-<Id>` is the argument, and none exactly when no such event exists |
| CalendarService.GetEventById | src/services/api/calendarService.js:116-120 | returns the school event whose `event-<Id>` equals the argument, null exactly when none does |
| CalendarService.ListedIdInjective | src/services/api/calendarService.js:91 | two school events with the same listed id have the same Id |
| CalendarService.FindListedEvent | src/services/api/calendarService.js:119 | with distinct Ids, looking up a listed id finds that very event |
| CalendarService.GetEventByIdRoundTrip | src/services/api/calendarService.js:116-120 | looking up the id of a listed school event returns that event |
| CalendarService.GetEventsForDate | src/services/api/calendarService.js:110-114 | as written: the events of the range query as written over [date, date] whose date text is the formatted day; the fetch failure passes through |
| CalendarService.EventsForRangeAsWritten | src/services/api/calendarService.js:46-108 | as written: the collected class, raw-dated assignment and school events, stably sorted by (day, time): ordered, a permutation, equal keys in collection order |
| CalendarService.EventsForDateAssignmentsExact | src/services/api/calendarService.js:110-114 | as written, an assignment is returned exactly when it is due at the given instant and its stored due text is that day's `yyyy-MM-dd` text |
| CalendarService.EventsForDateSkipsIsoDue | src/services/api/calendarService.js:110-114 | as written, an assignment whose due text contains 'T' is returned for no date, not even at its due instant |
| CalendarService.EventsForRangeAsWrittenAssignments | src/services/api/calendarService.js:65-82 | as written, the range lists exactly the raw-dated events of the assignments due in the window |
| CalendarService.AssignmentEventsAsWrittenPlaced | src/services/api/calendarService.js:65-82 | every raw-dated assignment event comes from an assignment due in the window |
| CalendarService.AssignmentEventsAsWrittenComplete | src/services/api/calendarService.js:65-82 | every assignment due in the window yields its raw-dated event |
| CalendarService.EventsForDateMissesLateDue | src/services/api/calendarService.js:110-114 | as written, an assignment due 23:59 on a day is not returned for that day asked at midnight |
| CalendarService.EmptyRange | src/services/api/calendarService.js:46-108 | with no class, assignment or school event in the window, the range is empty |
| CalendarService.GetEventsOnDay | src/services/api/calendarService.js:110-114 | corrected: the events of the whole calendar day of the date; the fetch failure passes through |
| CalendarService.EventsOnDayMembers | src/services/api/calendarService.js:110-114 | corrected: every event returned is on that day, and every class meeting, assignment due and school event on that day is returned |
| CalendarService.AssignmentEventAsWritten | src/services/api/calendarService.js:70-80 | as written, the assignment event carries the raw due text as its date |
| CalendarService.AsWrittenDateNamesNoDay | src/services/api/calendarService.js:74 | a due text containing 'T' never equals any formatted day |
| CalendarService.FormatDay | src/services/api/calendarService.js:149 | `yyyy-MM-dd` text consists of digits and '-' only |
| CalendarService.CivilFromDaysBounds | src/services/api/calendarService.js:149 | every day number has a month in 1..12 and a day of the month in 1..31 |
| CalendarService.FormatDayShape | src/services/api/calendarService.js:149 | for a year of the era up to 9999 the formatted day is ten characters: four digits, '-', two digits, '-', two digits |
| CalendarPage.StepsAreConjunction | src/components/pages/Calendar.jsx:50-59 | the search step followed by the type step keeps exactly the events both filters select |
| CalendarPage.Filtered | src/components/pages/Calendar.jsx:47-61 | the filtered list is a subsequence of the events, holds exactly the selected events, and is the list itself for "" and "all" |
| CalendarPage.CalendarView.ApplyFilters | src/components/pages/Calendar.jsx:47-62 | sets the shown list to the filtered events and changes nothing else |
| ClassService.ClassStore.GetAll | src/services/api/classService.js:8-11 | the whole list in store order |
| ClassService.ClassStore.GetById | src/services/api/classService.js:13-17 | the first class with the id, none exactly when the id is absent |
| ClassService.ClassStore.Create | src/services/api/classService.js:19-30 | appends one class with Id = max(ids, 0) + 1 and an empty roster; ids stay distinct |
| ClassService.ClassStore.Update | src/services/api/classService.js:32-39 | null for an absent id; otherwise merges the patch into that one class only |
| ClassService.ClassStore.Delete | src/services/api/classService.js:41-48 | false for an absent id; otherwise splices out exactly that class, the others keeping their order |
| ClassService.ClassStore.AddStudentToClass | src/services/api/classService.js:50-59 | false for an unknown class; otherwise adds the student to that roster only when absent |
| ClassService.ClassStore.RemoveStudentFromClass | src/services/api/classService.js:61-68 | false for an unknown class; otherwise drops every occurrence of the student from that roster |
| Common.AddIfAbsentProperties | src/services/api/classService.js:55-57 | adding a member is idempotent, adds no duplicate and keeps the earlier members in place |
| Common.RemoveAllProperties | src/services/api/studentService.js:71 | removing a member drops every occurrence and keeps the others in order |
| Common.MaxOrZero | src/services/api/classService.js:21 | the largest id, or 0: bounds every id, and is an id unless 0 |
| Common.FirstIndex | src/services/api/classService.js:34 | findIndex: the first position holding the id, -1 exactly when absent |
| Common.BlankIffAllWhitespace | src/components/organisms/CreateClassModal.jsx:52 | `!s.trim()` holds exactly when every character is whitespace |
| Common.FilterIsSubsequence | src/components/pages/Calendar.jsx:50-59 | Array.prototype.filter keeps a subsequence of its input |
| Common.SortByKeyCorrect | src/services/api/calendarService.js:97-101 | the stable sort by key is ordered, a permutation, and keeps the input order among equal keys |
| Common.RoundBetween | src/services/api/attendanceService.js:124-125 | Math.round of a value between two integers stays between them |
| JsText.ParseFloatNatText | src/components/organisms/GradeBook.jsx:65-69 | parseFloat and Number read a whole number's text back as that number |
| JsText.ToNumberIntText | src/components/organisms/CreateAssignmentModal.jsx:54 | Number reads an integer's text back as that integer |
| JsText.ParseIntIntText | src/components/organisms/CreateAssignmentModal.jsx:78-80 | parseInt reads an integer's text back as that integer |
| JsText.IntTextInjective | src/services/api/calendarService.js:91 | different integers have different decimal texts |
| StudentService.StudentStore.GetAll | src/services/api/studentService.js:8-11 | the whole list in store order |
| StudentService.StudentStore.GetById | src/services/api/studentService.js:13-17 | the first student with the id, none exactly when the id is absent |
| StudentService.StudentStore.Create | src/services/api/studentService.js:19-30 | appends one student with Id = max + 1 and no classes; ids stay distinct |
| StudentService.StudentStore.Update | src/services/api/studentService.js:32-39 | null for an absent id; otherwise merges the patch into that one student only |
| StudentService.StudentStore.Delete | src/services/api/studentService.js:41-48 | false for an absent id; otherwise splices out exactly that student |
| StudentService.StudentStore.GetByClassId | src/services/api/studentService.js:50-53 | exactly the students enrolled in the class, in store order |
| StudentService.StudentStore.EnrollInClass | src/services/api/studentService.js:55-64 | false for an unknown student; otherwise adds the class only when absent |
| StudentService.StudentStore.UnenrollFromClass | src/services/api/studentService.js:66-73 | false for an unknown student; otherwise drops every occurrence of the class |
| AssignmentService.UpcomingMonotone | src/services/api/assignmentService.js:56-65 | a longer look-ahead keeps every upcoming assignment |
| AssignmentService.AssignmentStore.GetAll | src/services/api/assignmentService.js:8-11 | the whole list in store order |
| AssignmentService.AssignmentStore.GetById | src/services/api/assignmentService.js:13-17 | the first assignment with the id, none exactly when the id is absent |
| AssignmentService.AssignmentStore.Create | src/services/api/assignmentService.js:19-31 | appends one active assignment with Id = max + 1 and no submissions; ids stay distinct |
| AssignmentService.AssignmentStore.Update | src/services/api/assignmentService.js:33-40 | null for an absent id; otherwise merges the patch into that one assignment only |
| AssignmentService.AssignmentStore.Delete | src/services/api/assignmentService.js:42-49 | false for an absent id; otherwise splices out exactly that assignment |
| AssignmentService.AssignmentStore.GetByClassId | src/services/api/assignmentService.js:51-54 | exactly the assignments of the class, in store order |
| AssignmentService.AssignmentStore.GetUpcoming | src/services/api/assignmentService.js:56-65 | exactly the active assignments due between now and now + days (7 when not given), in store order |
| AssignmentService.AssignmentStore.SubmitAssignment | src/services/api/assignmentService.js:67-76 | false for an unknown assignment; otherwise records the student's submission only when absent |
| GradeService.SumScoresBounds | src/services/api/gradeService.js:76 | scores within [lo, hi] sum to between n·lo and n·hi |
| GradeService.Average | src/services/api/gradeService.js:74-77 | 0 for no grades; otherwise within half a hundredth of the mean score |
| GradeService.AverageBetween | src/services/api/gradeService.js:71-78 | the average lies between bounds on the scores given in whole hundredths |
| GradeService.AverageOfEqualScores | src/services/api/gradeService.js:71-78 | grades that all carry one score (in hundredths) average to that score |
| GradeService.StudentGrades | src/services/api/gradeService.js:80-92 | the student filter followed by the optional class filter selects the counted grades |
| GradeService.GradeStore.GetAll | src/services/api/gradeService.js:8-11 | the whole list in store order |
| GradeService.GradeStore.GetById | src/services/api/gradeService.js:13-17 | the first grade with the id, none exactly when the id is absent |
| GradeService.GradeStore.Create | src/services/api/gradeService.js:19-29 | appends one grade with Id = max + 1, stamped now; ids stay distinct |
| GradeService.GradeStore.Update | src/services/api/gradeService.js:31-38 | null for an absent id; otherwise merges the patch into that one grade only |
| GradeService.GradeStore.Delete | src/services/api/gradeService.js:40-47 | false for an absent id; otherwise splices out exactly that grade |
| GradeService.GradeStore.GetByStudentId | src/services/api/gradeService.js:49-52 | exactly the student's grades, in store order |
| GradeService.GradeStore.GetByClassId | src/services/api/gradeService.js:54-57 | exactly the class's grades, in store order |
| GradeService.GradeStore.GetByAssignmentId | src/services/api/gradeService.js:59-62 | exactly the assignment's grades, in store order |
| GradeService.GradeStore.GetStudentClassGrades | src/services/api/gradeService.js:64-69 | exactly the student's grades in the class, in store order |
| GradeService.GradeStore.CalculateClassAverage | src/services/api/gradeService.js:71-78 | the rounded mean of the class's grades, 0 without any |
| GradeService.GradeStore.CalculateStudentAverage | src/services/api/gradeService.js:80-92 | the rounded mean of the student's grades, restricted to the class when one is given |
| AttendanceService.FindMark | src/services/api/attendanceService.js:76-80 | the first record for (student, class, same day), -1 exactly when there is none |
| AttendanceService.StatsOf | src/services/api/attendanceService.js:117-127 | total counts the records; present + absent + late <= total; the rate lies in [0, 100], is 0 with no records and 100 when every record is present or late |
| AttendanceService.RateBounds | src/services/api/attendanceService.js:124-125 | the rounded percentage lies in [0, 100], reaching 100 for all and 0 for none |
| AttendanceService.StudentRecords | src/services/api/attendanceService.js:109-116 | the student filter followed by the optional class filter selects the counted records |
| AttendanceService.ClassRecords | src/services/api/attendanceService.js:130-138 | the class filter followed by the optional day filter selects the counted records |
| AttendanceService.AttendanceStore.GetAll | src/services/api/attendanceService.js:8-11 | the whole list in store order |
| AttendanceService.AttendanceStore.GetById | src/services/api/attendanceService.js:13-17 | the first record with the id, none exactly when the id is absent |
| AttendanceService.AttendanceStore.Create | src/services/api/attendanceService.js:19-28 | appends one record with Id = max + 1; ids stay distinct |
| AttendanceService.AttendanceStore.Update | src/services/api/attendanceService.js:30-37 | null for an absent id; otherwise merges the patch into that one record only |
| AttendanceService.AttendanceStore.Delete | src/services/api/attendanceService.js:39-46 | false for an absent id; otherwise splices out exactly that record |
| AttendanceService.AttendanceStore.GetByStudentId | src/services/api/attendanceService.js:48-51 | exactly the student's records, in store order |
| AttendanceService.AttendanceStore.GetByClassId | src/services/api/attendanceService.js:53-56 | exactly the class's records, in store order |
| AttendanceService.AttendanceStore.GetByDate | src/services/api/attendanceService.js:58-62 | exactly the records on the calendar day of the date, in store order |
| AttendanceService.AttendanceStore.GetByClassAndDate | src/services/api/attendanceService.js:64-71 | exactly the class's records on that day, in store order |
| AttendanceService.AttendanceStore.MarkAttendance | src/services/api/attendanceService.js:73-107 | updates status, note and marker of the existing record for (student, class, day) in place, or appends a new one with a fresh id; the note defaults to "" and the marker to "System"; afterwards that key has the status; ids stay distinct and each key keeps one record |
| AttendanceService.AttendanceStore.GetAttendanceStats | src/services/api/attendanceService.js:109-128 | the statistics of the student's records, restricted to the class when one is given |
| AttendanceService.AttendanceStore.GetClassAttendanceStats | src/services/api/attendanceService.js:130-150 | the statistics of the class's records, restricted to the day when one is given |
| ActivityService.GenerateId | src/services/api/activityService.js:40-42 | 1 for an empty log; otherwise larger than every id, and one more than an existing id |
| ActivityService.SortNewestFirst | src/services/api/activityService.js:48-50 | a stable permutation ordered newest first |
| ActivityService.ActivityLog.GetAll | src/services/api/activityService.js:45-51 | every activity, newest first, ties in log order |
| ActivityService.ActivityLog.GetById | src/services/api/activityService.js:54-63 | the first activity with the id, or "Activity not found" exactly when absent |
| ActivityService.ActivityLog.Create | src/services/api/activityService.js:66-78 | appends the activity dated now with a fresh id; ids stay distinct |
| ActivityService.ActivityLog.Update | src/services/api/activityService.js:81-96 | "Activity not found" for an absent id; otherwise merges the patch but keeps the Id |
| ActivityService.ActivityLog.Remove | src/services/api/activityService.js:99-109 | "Activity not found" for an absent id; otherwise removes exactly that one activity |
| ActivityService.ActivityLog.GetByType | src/services/api/activityService.js:112-124 | everything for "" or "all"; otherwise exactly the activities of that type, ignoring case; newest first |
| ActivityService.ActivityLog.Search | src/services/api/activityService.js:127-142 | everything for a blank term; otherwise exactly the activities whose description, user or type contains it, ignoring case; newest first |
| ActivityService.ActivityLog.GetStats | src/services/api/activityService.js:145-173 | today <= week <= month <= total, total being the log's length |
| GradeBook.GetGradeForStudent | src/components/organisms/GradeBook.jsx:92-94 | the first grade of the (student, assignment) cell, none exactly when there is none |
| GradeBook.FindAssignment | src/components/organisms/GradeBook.jsx:72 | an assignment with the id, none exactly when there is none |
| GradeBook.Band | src/components/organisms/GradeBook.jsx:115-119 | green for >= 90 %, blue for [80, 90), yellow for [70, 80), red below 70 |
| GradeBook.GetGradeColor | src/components/organisms/GradeBook.jsx:114-120 | the colour band of score / totalPoints * 100; over zero points a positive score is green and any other red |
| GradeBook.GradeColorMonotone | src/components/organisms/GradeBook.jsx:114-120 | a higher score never gets a worse colour |
| GradeBook.CalculateStudentAverage | src/components/organisms/GradeBook.jsx:96-112 | the accumulating loop returns the student's percentage: "-" without grades, else the rounded share of points over the known assignments, 0 when nothing is possible |
| GradeBook.TotalsBounds | src/components/organisms/GradeBook.jsx:103-109 | with scores within their assignment's points, the points earned lie between 0 and the points possible |
| GradeBook.StudentPercentageBounds | src/components/organisms/GradeBook.jsx:111 | with scores within their points, the percentage lies in [0, 100] |
| GradeBook.UnknownAssignmentsCountNothing | src/components/organisms/GradeBook.jsx:104-108 | grades of unknown assignments add nothing to either total |
| GradeBook.UpdateOutcome | src/components/organisms/GradeBook.jsx:68-81 | NaN or negative is ignored; above the assignment's points is refused with that limit; otherwise the score is forwarded |
| GradeBook.GradeBookEditor.HandleGradeClick | src/components/organisms/GradeBook.jsx:60-66 | edits that cell, prefilled with the existing score or "" |
| GradeBook.GradeBookEditor.HandleEditChange | src/components/organisms/GradeBook.jsx:213 | the edit buffer becomes the typed text |
| GradeBook.GradeBookEditor.HandleGradeUpdate | src/components/organisms/GradeBook.jsx:68-81 | forwards an accepted score once and clears the edit state; otherwise changes nothing; forwarded scores are never negative or above the points |
| GradeBook.GradeBookEditor.HandleKeyDown | src/components/organisms/GradeBook.jsx:83-90 | Enter submits the edit buffer, Escape clears the edit state, other keys change nothing |
| CreateStudentModal.With | src/components/organisms/CreateStudentModal.jsx:25-31 | sets one field and leaves the others |
| CreateStudentModal.PatternGivesShape | src/components/organisms/CreateStudentModal.jsx:53 | a text matching `^[^\s@]+@[^\s@]+\.[^\s@]+$` has one '@' after a non-empty local part, no whitespace, and a '.' inside the domain |
| CreateStudentModal.ShapeGivesPattern | src/components/organisms/CreateStudentModal.jsx:53 | every text of that shape matches the pattern |
| CreateStudentModal.EmailPatternIsShape | src/components/organisms/CreateStudentModal.jsx:53 | the pattern matches exactly the texts of that shape |
| CreateStudentModal.ErrorsAreFailingFields | src/components/organisms/CreateStudentModal.jsx:40-64 | the errors object holds exactly the failing fields, each with its message |
| CreateStudentModal.NoErrorsIffAcceptable | src/components/organisms/CreateStudentModal.jsx:43-63 | no field fails exactly when names and guardian are not blank, the e-mail matches and a grade level is chosen |
| CreateStudentModal.NoErrorsIffEmpty | src/components/organisms/CreateStudentModal.jsx:65-66 | validateForm's key count is 0 exactly when no error was recorded, exactly when the form is acceptable |
| CreateStudentModal.CollectErrors | src/components/organisms/CreateStudentModal.jsx:40-64 | the field-by-field checks build exactly the errors object of the form |
| CreateStudentModal.StudentForm.HandleInputChange | src/components/organisms/CreateStudentModal.jsx:25-38 | sets only that field and blanks only that field's shown error |
| CreateStudentModal.StudentForm.ValidateForm | src/components/organisms/CreateStudentModal.jsx:40-67 | records the failing fields' messages and returns true exactly when the form is acceptable |
| CreateStudentModal.StudentForm.BeginSubmit | src/components/organisms/CreateStudentModal.jsx:69-80 | submits the form exactly when it is acceptable, and then waits |
| CreateStudentModal.StudentForm.FinishSubmit | src/components/organisms/CreateStudentModal.jsx:80-97 | after success the form is empty, the errors cleared and the dialog closes; either way it stops waiting |
| CreateStudentModal.StudentForm.HandleClose | src/components/organisms/CreateStudentModal.jsx:99-111 | ignored while waiting; otherwise empties the form and errors and closes |
| CreateAssignmentModal.With | src/components/organisms/CreateAssignmentModal.jsx:20-26 | sets one field and leaves the others |
| CreateAssignmentModal.ErrorsAreFailingFields | src/components/organisms/CreateAssignmentModal.jsx:35-57 | the errors object holds exactly the failing fields, each with its message |
| CreateAssignmentModal.NoErrorsIffAcceptable | src/components/organisms/CreateAssignmentModal.jsx:35-59 | validateForm reports no error exactly when title and description are not blank, class and due date are set and the points text is neither empty nor a number ≤ 0; text that is no number passes |
| CreateAssignmentModal.WholePointsAcceptedIffPositive | src/components/organisms/CreateAssignmentModal.jsx:54-56 | whole-number points pass exactly when they are positive |
| CreateAssignmentModal.CollectErrors | src/components/organisms/CreateAssignmentModal.jsx:35-57 | the field-by-field checks build exactly the errors object of the form |
| CreateAssignmentModal.DueDateTime | src/components/organisms/CreateAssignmentModal.jsx:73 | the due text is the date, 'T', the time and ":00.000Z" |
| CreateAssignmentModal.BuildPayload | src/components/organisms/CreateAssignmentModal.jsx:73-81 | title and description as typed, class and points through `parseInt`, and a due text made of the date, a 'T' and the time |
| CreateAssignmentModal.PayloadReadsBackNumbers | src/components/organisms/CreateAssignmentModal.jsx:75-81 | the payload's class id and points are the integers the form's texts name |
| CreateAssignmentModal.PayloadDueDateNamesNoDay | src/components/organisms/CreateAssignmentModal.jsx:73-79 | a due date made by this dialog never matches a calendar day in the as-written assignment event |
| CreateAssignmentModal.AssignmentForm.HandleInputChange | src/components/organisms/CreateAssignmentModal.jsx:20-33 | sets only that field and blanks only that field's shown error |
| CreateAssignmentModal.AssignmentForm.ValidateForm | src/components/organisms/CreateAssignmentModal.jsx:35-60 | records the failing fields' messages and returns true exactly when the form is acceptable |
| CreateAssignmentModal.AssignmentForm.BeginSubmit | src/components/organisms/CreateAssignmentModal.jsx:62-84 | hands on the payload exactly when the form is acceptable, and then waits |
| CreateAssignmentModal.AssignmentForm.FinishSubmit | src/components/organisms/CreateAssignmentModal.jsx:84-102 | after success the form is reset (due time "23:59"), the errors cleared and the dialog closes; either way it stops waiting |
| CreateAssignmentModal.AssignmentForm.HandleClose | src/components/organisms/CreateAssignmentModal.jsx:104-117 | ignored while waiting; otherwise resets the form (due time "23:59") and errors and closes |
| CreateClassModal.With | src/components/organisms/CreateClassModal.jsx:34-38 | sets one field and leaves the others |
| CreateClassModal.ErrorsAreFailingFields | src/components/organisms/CreateClassModal.jsx:49-66 | the errors object holds exactly the failing fields, each with its message |
| CreateClassModal.NoErrorsIffAcceptable | src/components/organisms/CreateClassModal.jsx:52-69 | no error exactly when name and schedule are not blank and a subject and grade are chosen |
| CreateClassModal.CollectErrors | src/components/organisms/CreateClassModal.jsx:49-66 | the field-by-field checks build exactly the errors object of the form |
| CreateClassModal.ClassForm.HandleInputChange | src/components/organisms/CreateClassModal.jsx:34-47 | sets only that field and blanks only that field's shown error |
| CreateClassModal.ClassForm.ValidateForm | src/components/organisms/CreateClassModal.jsx:49-70 | records the failing fields' messages and returns true exactly when the form is acceptable |
| CreateClassModal.ClassForm.BeginSubmit | src/components/organisms/CreateClassModal.jsx:72-82 | hands on the form exactly when it is acceptable, and then waits |
| CreateClassModal.ClassForm.FinishSubmit | src/components/organisms/CreateClassModal.jsx:82-99 | after success the form is empty, the errors cleared and the dialog closes; either way it stops waiting |
| CreateClassModal.ClassForm.HandleClose | src/components/organisms/CreateClassModal.jsx:101-112 | ignored while waiting; otherwise empties the form and errors and closes |

## Left out

- Network delay, promises and `async`: every service call is a synchronous method, and the classes/assignments fetch result is a parameter.
- Time zones and daylight saving: local time is UTC, so every day is 86 400 000 ms long.
- date-fns `parseISO`, `format` and `new Date(text)`: a record stores its instant and its text side by side. An assignment whose due date is invalid has `dueAt == None`; the calendar and `getUpcoming` skip it. Every other stored date is a valid instant.
- Invalid attendance dates are not modelled. In the source two invalid dates both print "Invalid Date" through `toDateString` and so count as the same day in `getByDate`, `getByClassAndDate`, `markAttendance` and `getClassAttendanceStats`. Also, `markAttendance` throws a RangeError from `new Date(date).toISOString()` when it appends a record for an invalid date.
- Ids are integers: every store operation takes an integer id, and the `parseInt(id)` each service applies to its id arguments (a numeric string, say) is not modelled.
- ISO text of stored timestamps (`createdAt`, `gradedAt`, `timestamp`): these are stored as instants.
- `isWithinInterval` on a reversed interval (start after end): the model treats it as an empty window rather than the library's error.
- CreateAssignmentModal.BuildPayload: the due text is the concatenation `<date>T<time>:00.000Z`. The `new Date(...).toISOString()` normalisation, and its RangeError on malformed input, are not modelled.
- CreateAssignmentModal.AssignmentForm.BeginSubmit: because that RangeError is not modelled, a form whose due date or time makes an invalid date (a due time cleared to "", say) is handed on here. In the source `toISOString()` throws before `onCreateAssignment` is called, so nothing is handed on and loading stops.
- Floating point: numbers are exact reals, and `Math.round` rounds halves up.
- JavaScript number parsing: `parseFloat`, `Number()` and `parseInt` read plain decimal text only (sign, digits, one point; no exponent, `Infinity` or hex).
- `toLowerCase` folds ASCII letters only.
- Aliasing: the services return their stored objects, which callers could mutate. The model returns values.
- The free-form `details` object of an activity is not modelled: no operation reads it.
- The mock JSON seed data: each store's constructor takes its initial contents as a parameter.
- The `type` field of events and activities is named `kind`, because `type` is a Dafny keyword.
- GradeService.AverageBetween: proved only for bounds in whole hundredths, not for arbitrary minimum and maximum scores (rounding to hundredths can cross an arbitrary bound).
- CalendarService.FormatDay: its injectivity is not proved, so class event ids are shown unique per (class, day) through the day number, not through the id text.
- CalendarService.EventsForRangeOrdered: the as-written comparator parses `"<date>T<time>"` with `new Date`. For assignment events that text is `"<iso>T23:59"`, which yields NaN. For a class whose schedule gives an unpadded time such as "9:00", it is `"<date>T9:00"`, which is not ISO text, so the engine decides how to read it. Either way the source's order is engine-defined; the model sorts by the intended (day, time).
- CalendarService.EventsForRangeAsWritten: it sorts by the same intended (day, time) for the same reason, so the order of the one-date query as written is the intended one; its members are as written.
- The sort's missing-time default "00:00" never applies: every event the engine builds carries a time.
- The `onGradeUpdate`, `onCreateStudent`, `onCreateAssignment` and `onCreateClass` callbacks are outside the model. Their success or failure is the `succeeded` parameter of `FinishSubmit`, and a rejected grade update is not modelled.
- toast, alert and console messages; keyboard event objects (a key is its name).
- Rendering helpers (`getStudentName`, `getStudentInitials`, the Tailwind class names of the colours) and all other JSX.

## Findings

| source | as written | input that shows it | evidently intended | confidence | as-written member | corrected member |
|---|---|---|---|---|---|---|
| src/services/api/calendarService.js:74 | an assignment event's `date` is the raw `dueDate` text, such as "2024-07-15T23:59:00.000Z" | an assignment created by the dialog, due "2024-07-15T23:59:00.000Z": its event's date equals no `yyyy-MM-dd` day | the event's date is the `yyyy-MM-dd` day it is due, like class and school events | not executed | CalendarService.AssignmentEventAsWritten, CalendarService.AsWrittenDateNamesNoDay, CalendarService.EventsForDateSkipsIsoDue, CreateAssignmentModal.PayloadDueDateNamesNoDay | CalendarService.AssignmentEvent, CalendarService.EventsForRangeMembers |
| src/services/api/calendarService.js:110-114 | `getEventsForDate` asks for the single-instant window [date, date] | an assignment due 2024-07-15 at 23:59, asked for 2024-07-15 at midnight, is not returned | the events of the whole day of `date` | not executed | CalendarService.GetEventsForDate, CalendarService.EventsForDateMissesLateDue, CalendarService.EventsForDateAssignmentsExact | CalendarService.GetEventsOnDay, CalendarService.EventsOnDayMembers |
