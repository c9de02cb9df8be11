/** The attendance store: a module-level list of attendance records with
    create / update / delete, filters by student, class and calendar day, an
    upsert keyed on (student, class, day), and attendance statistics. */
module AttendanceService {
  import opened Common

  datatype AttendanceRecord = AttendanceRecord(
    Id: int,
    studentId: int,
    classId: int,
    date: int,          // the instant the record was taken for
    status: string,     // "present", "absent", "late", ...
    note: string,
    markedBy: string)

  /** The data `create` receives; the service adds the Id. */
  datatype AttendanceDraft = AttendanceDraft(
    studentId: int, classId: int, date: int, status: string, note: string, markedBy: string)

  /** The data `update` spreads over a record; None leaves a field as it is. */
  datatype AttendancePatch = AttendancePatch(
    Id: Option<int>, studentId: Option<int>, classId: Option<int>, date: Option<int>,
    status: Option<string>, note: Option<string>, markedBy: Option<string>)

  /** The counts `getAttendanceStats` and `getClassAttendanceStats` report. */
  datatype Stats = Stats(total: nat, present: nat, absent: nat, late: nat, attendanceRate: int)

  /** `{ ...record, ...patch }`. */
  function Merge(r: AttendanceRecord, p: AttendancePatch): AttendanceRecord {
    AttendanceRecord(
      p.Id.GetOr(r.Id), p.studentId.GetOr(r.studentId), p.classId.GetOr(r.classId),
      p.date.GetOr(r.date), p.status.GetOr(r.status), p.note.GetOr(r.note),
      p.markedBy.GetOr(r.markedBy))
  }

  /** Reads a record's Id. */
  const IdOf := (r: AttendanceRecord) => r.Id

  /** Who marked a record when `markAttendance` is not told. */
  const DEFAULT_MARKED_BY := "System"

  /** Two instants fall on the same calendar day (`toDateString()` equality). */
  predicate SameDay(a: int, b: int) {
    DayOf(a) == DayOf(b)
  }

  /** The key `markAttendance` looks records up by. */
  predicate IsMark(r: AttendanceRecord, studentId: int, classId: int, date: int) {
    r.studentId == studentId && r.classId == classId && SameDay(r.date, date)
  }

  /** The position of the first record under that key, or -1. */
  function FindMark(s: seq<AttendanceRecord>, studentId: int, classId: int, date: int): (k: int)
    ensures -1 <= k < |s|
    ensures k >= 0 ==> IsMark(s[k], studentId, classId, date)
    ensures forall j :: 0 <= j < |s| && (k == -1 || j < k) ==> !IsMark(s[j], studentId, classId, date)
  {
    if s == [] then -1
    else if IsMark(s[0], studentId, classId, date) then 0
    else
      var k := FindMark(s[1..], studentId, classId, date);
      if k == -1 then -1 else k + 1
  }

  /** No two records share a (student, class, day) key. */
  predicate OneMarkPerDay(s: seq<AttendanceRecord>) {
    forall i, j :: 0 <= i < j < |s| ==> !IsMark(s[j], s[i].studentId, s[i].classId, s[i].date)
  }

  /** The statistics of a list of records: how many there are, how many carry
      each status, and the rounded percentage that were present or late. */
  function StatsOf(records: seq<AttendanceRecord>): (st: Stats)
    ensures st.total == |records|
    ensures st.present + st.absent + st.late <= st.total
    ensures 0 <= st.attendanceRate <= 100
    ensures st.total == 0 ==> st.attendanceRate == 0
    ensures st.total > 0 && st.present + st.late == st.total ==> st.attendanceRate == 100
    ensures st.present + st.late == 0 ==> st.attendanceRate == 0
  {
    var present := |Filter(records, (r: AttendanceRecord) => r.status == "present")|;
    var absent := |Filter(records, (r: AttendanceRecord) => r.status == "absent")|;
    var late := |Filter(records, (r: AttendanceRecord) => r.status == "late")|;
    FilterCountDisjoint3(records, (r: AttendanceRecord) => r.status == "present",
                         (r: AttendanceRecord) => r.status == "absent",
                         (r: AttendanceRecord) => r.status == "late");
    var rate := if |records| > 0 then Round((present + late) as real / |records| as real * 100.0) else 0;
    RateBounds(present + late, |records|);
    Stats(|records|, present, absent, late, rate)
  }

  /** The rounded percentage of `part` out of `total` stays in [0, 100], is 0
      for nothing and 100 for everything. */
  lemma RateBounds(part: nat, total: nat)
    requires part <= total
    ensures total > 0 ==> 0 <= Round(part as real / total as real * 100.0) <= 100
    ensures total > 0 && part == total ==> Round(part as real / total as real * 100.0) == 100
    ensures total > 0 && part == 0 ==> Round(part as real / total as real * 100.0) == 0
  {
    if total > 0 {
      var x := part as real / total as real * 100.0;
      FractionBounds(part, total);
      RoundBetween(x, 0, 100);
      if part == total {
        RoundBetween(x, 100, 100);
      }
      if part == 0 {
        RoundBetween(x, 0, 0);
      }
    }
  }

  /** A part of a positive whole is a fraction between 0 and 1. */
  lemma FractionBounds(part: nat, total: nat)
    requires part <= total && total > 0
    ensures 0.0 <= part as real / total as real <= 1.0
    ensures part == total ==> part as real / total as real == 1.0
    ensures part == 0 ==> part as real / total as real == 0.0
  {
    var q := part as real / total as real;
    assert q * total as real == part as real;
    assert (1.0 - q) * total as real == total as real - part as real;
  }

  /** `if (classId)`: an absent or zero id does not restrict. */
  predicate Restricts(classId: Option<int>) {
    classId.Some? && classId.value != 0
  }

  class AttendanceStore {
    var attendance: seq<AttendanceRecord>

    constructor (seed: seq<AttendanceRecord>)
      ensures attendance == seed
    {
      attendance := seed;
    }

    /** `getAll`: the whole list, in store order. */
    function GetAll(): (r: seq<AttendanceRecord>)
      reads this
      ensures r == attendance
    {
      attendance
    }

    /** `getById`: the first record with that id, None when there is none. */
    function GetById(id: int): (r: Option<AttendanceRecord>)
      reads this
      ensures r.None? <==> id !in Ids(attendance, IdOf)
      ensures r.Some? ==> r.value.Id == id && r.value in attendance
      ensures r.Some? ==> exists k :: 0 <= k < |attendance| && attendance[k] == r.value &&
                            forall j :: 0 <= j < k ==> attendance[j].Id != id
    {
      var k := FirstIndex(Ids(attendance, IdOf), id);
      if k == -1 then None else Some(attendance[k])
    }

    /** `create`: appends one record whose Id is one more than the largest id
        (1 for an empty store). */
    method Create(draft: AttendanceDraft) returns (a: AttendanceRecord)
      modifies this
      ensures a.Id == MaxOrZero(old(Ids(attendance, IdOf))) + 1 && a.Id !in old(Ids(attendance, IdOf))
      ensures a == AttendanceRecord(a.Id, draft.studentId, draft.classId, draft.date,
                                    draft.status, draft.note, draft.markedBy)
      ensures attendance == old(attendance) + [a]
      ensures GetById(a.Id) == Some(a)
      ensures Distinct(old(Ids(attendance, IdOf))) ==> Distinct(Ids(attendance, IdOf))
    {
      var maxId := MaxOrZero(Ids(attendance, IdOf));
      a := AttendanceRecord(maxId + 1, draft.studentId, draft.classId, draft.date,
                            draft.status, draft.note, draft.markedBy);
      IdsAppend(attendance, a, IdOf);
      attendance := attendance + [a];
      assert Ids(attendance, IdOf)[|attendance| - 1] == a.Id;
    }

    /** `update`: None when no record has the id; otherwise the first such
        record becomes the patch spread over it, and nothing else changes. */
    method Update(id: int, patch: AttendancePatch) returns (r: Option<AttendanceRecord>)
      modifies this
      ensures var k := FirstIndex(old(Ids(attendance, IdOf)), id);
              if k == -1 then r.None? && attendance == old(attendance)
              else r == Some(Merge(old(attendance)[k], patch)) && attendance == old(attendance)[k := r.value]
      ensures Distinct(old(Ids(attendance, IdOf))) && (patch.Id.None? || patch.Id == Some(id))
              ==> Distinct(Ids(attendance, IdOf))
    {
      var k := FirstIndex(Ids(attendance, IdOf), id);
      if k == -1 {
        return None;
      }
      var merged := Merge(attendance[k], patch);
      if patch.Id.None? || patch.Id == Some(id) {
        IdsReplace(attendance, k, merged, IdOf);
      }
      attendance := attendance[k := merged];
      r := Some(merged);
    }

    /** `delete`: false when no record has the id; otherwise the first such
        record is spliced out and the others keep their order. */
    method Delete(id: int) returns (ok: bool)
      modifies this
      ensures ok <==> id in old(Ids(attendance, IdOf))
      ensures var k := FirstIndex(old(Ids(attendance, IdOf)), id);
              if ok then attendance == old(attendance)[..k] + old(attendance)[k + 1..]
              else attendance == old(attendance)
      ensures Distinct(old(Ids(attendance, IdOf))) ==> Distinct(Ids(attendance, IdOf))
    {
      var k := FirstIndex(Ids(attendance, IdOf), id);
      if k == -1 {
        return false;
      }
      IdsSplice(attendance, k, IdOf);
      attendance := attendance[..k] + attendance[k + 1..];
      ok := true;
    }

    /** `getByStudentId`: the student's records, in store order. */
    function GetByStudentId(studentId: int): (r: seq<AttendanceRecord>)
      reads this
      ensures IsSubsequence(r, attendance)
      ensures forall a :: a in r <==> a in attendance && a.studentId == studentId
    {
      FilterIsSubsequence(attendance, (a: AttendanceRecord) => a.studentId == studentId);
      Filter(attendance, (a: AttendanceRecord) => a.studentId == studentId)
    }

    /** `getByClassId`: the class's records, in store order. */
    function GetByClassId(classId: int): (r: seq<AttendanceRecord>)
      reads this
      ensures IsSubsequence(r, attendance)
      ensures forall a :: a in r <==> a in attendance && a.classId == classId
    {
      FilterIsSubsequence(attendance, (a: AttendanceRecord) => a.classId == classId);
      Filter(attendance, (a: AttendanceRecord) => a.classId == classId)
    }

    /** `getByDate`: the records taken on the calendar day of `date`, in store order. */
    function GetByDate(date: int): (r: seq<AttendanceRecord>)
      reads this
      ensures IsSubsequence(r, attendance)
      ensures forall a :: a in r <==> a in attendance && SameDay(a.date, date)
    {
      FilterIsSubsequence(attendance, (a: AttendanceRecord) => SameDay(a.date, date));
      Filter(attendance, (a: AttendanceRecord) => SameDay(a.date, date))
    }

    /** `getByClassAndDate`: the class's records on the day of `date`, in store order. */
    function GetByClassAndDate(classId: int, date: int): (r: seq<AttendanceRecord>)
      reads this
      ensures IsSubsequence(r, attendance)
      ensures forall a :: a in r <==> a in attendance && a.classId == classId && SameDay(a.date, date)
    {
      FilterIsSubsequence(attendance, (a: AttendanceRecord) => a.classId == classId && SameDay(a.date, date));
      Filter(attendance, (a: AttendanceRecord) => a.classId == classId && SameDay(a.date, date))
    }

    /** `markAttendance`: when a record for the student and class exists on the
        day of `date`, the first one takes the new status, note and marker and
        keeps its Id and date; otherwise a record with a fresh Id is appended.
        Either way the returned record is in the store under that key. The
        note defaults to empty and the marker to "System". */
    method MarkAttendance(studentId: int, classId: int, date: int, status: string,
                          note: string := "", markedBy: string := DEFAULT_MARKED_BY)
      returns (r: AttendanceRecord)
      modifies this
      ensures var k := FindMark(old(attendance), studentId, classId, date);
              if k >= 0 then
                r == old(attendance)[k].(status := status, note := note, markedBy := markedBy) &&
                attendance == old(attendance)[k := r]
              else
                r == AttendanceRecord(MaxOrZero(old(Ids(attendance, IdOf))) + 1, studentId, classId,
                                      date, status, note, markedBy) &&
                attendance == old(attendance) + [r]
      ensures r in attendance && IsMark(r, studentId, classId, date) && r.status == status
      ensures FindMark(attendance, studentId, classId, date) >= 0
      ensures attendance[FindMark(attendance, studentId, classId, date)] == r
      ensures Distinct(old(Ids(attendance, IdOf))) ==> Distinct(Ids(attendance, IdOf))
      ensures OneMarkPerDay(old(attendance)) ==> OneMarkPerDay(attendance)
    {
      var k := FindMark(attendance, studentId, classId, date);
      if k >= 0 {
        r := attendance[k].(status := status, note := note, markedBy := markedBy);
        IdsReplace(attendance, k, r, IdOf);
        attendance := attendance[k := r];
        assert FindMark(attendance, studentId, classId, date) == k;
      } else {
        var maxId := MaxOrZero(Ids(attendance, IdOf));
        r := AttendanceRecord(maxId + 1, studentId, classId, date, status, note, markedBy);
        IdsAppend(attendance, r, IdOf);
        attendance := attendance + [r];
        assert Ids(attendance, IdOf)[|attendance| - 1] == r.Id;
        assert FindMark(attendance, studentId, classId, date) == |attendance| - 1;
      }
    }

    /** `getAttendanceStats`: the statistics of the student's records,
        restricted to one class when a class is given. */
    function GetAttendanceStats(studentId: int, classId: Option<int>): (st: Stats)
      reads this
      ensures st == StatsOf(Filter(attendance, (a: AttendanceRecord) => CountsForStudent(a, studentId, classId)))
    {
      var records := GetByStudentId(studentId);
      var chosen := if Restricts(classId) then Filter(records, (a: AttendanceRecord) => a.classId == classId.value)
                    else records;
      StudentRecords(attendance, studentId, classId);
      StatsOf(chosen)
    }

    /** `getClassAttendanceStats`: the statistics of the class's records,
        restricted to the day of `date` when a date is given. */
    function GetClassAttendanceStats(classId: int, date: Option<int>): (st: Stats)
      reads this
      ensures st == StatsOf(Filter(attendance, (a: AttendanceRecord) => CountsForClass(a, classId, date)))
    {
      var records := GetByClassId(classId);
      var chosen := if date.Some? then Filter(records, (a: AttendanceRecord) => SameDay(a.date, date.value))
                    else records;
      ClassRecords(attendance, classId, date);
      StatsOf(chosen)
    }
  }

  /** The records `getAttendanceStats` counts. */
  predicate CountsForStudent(a: AttendanceRecord, studentId: int, classId: Option<int>) {
    a.studentId == studentId && (Restricts(classId) ==> a.classId == classId.value)
  }

  /** The records `getClassAttendanceStats` counts. */
  predicate CountsForClass(a: AttendanceRecord, classId: int, date: Option<int>) {
    a.classId == classId && (date.Some? ==> SameDay(a.date, date.value))
  }

  /** The two-stage filter of `getAttendanceStats` selects CountsForStudent. */
  lemma StudentRecords(s: seq<AttendanceRecord>, studentId: int, classId: Option<int>)
    ensures var records := Filter(s, (a: AttendanceRecord) => a.studentId == studentId);
            (if Restricts(classId) then Filter(records, (a: AttendanceRecord) => a.classId == classId.value) else records)
            == Filter(s, (a: AttendanceRecord) => CountsForStudent(a, studentId, classId))
  {
    var p := (a: AttendanceRecord) => a.studentId == studentId;
    var spec := (a: AttendanceRecord) => CountsForStudent(a, studentId, classId);
    if Restricts(classId) {
      var q := (a: AttendanceRecord) => a.classId == classId.value;
      FilterAnd(s, p, q, spec);
    } else {
      FilterSame(s, p, spec);
    }
  }

  /** The two-stage filter of `getClassAttendanceStats` selects CountsForClass. */
  lemma ClassRecords(s: seq<AttendanceRecord>, classId: int, date: Option<int>)
    ensures var records := Filter(s, (a: AttendanceRecord) => a.classId == classId);
            (if date.Some? then Filter(records, (a: AttendanceRecord) => SameDay(a.date, date.value)) else records)
            == Filter(s, (a: AttendanceRecord) => CountsForClass(a, classId, date))
  {
    var p := (a: AttendanceRecord) => a.classId == classId;
    var spec := (a: AttendanceRecord) => CountsForClass(a, classId, date);
    if date.Some? {
      var q := (a: AttendanceRecord) => SameDay(a.date, date.value);
      FilterAnd(s, p, q, spec);
    } else {
      FilterSame(s, p, spec);
    }
  }
}
