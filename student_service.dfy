/** The students store: a module-level list of students with create / update /
    delete, the class roster query, and enrolment edited in place. */
module StudentService {
  import opened Common

  datatype Student = Student(
    Id: int,
    firstName: string,
    lastName: string,
    email: string,
    gradeLevel: string,
    guardianContact: string,
    enrolledClasses: seq<int>,
    createdAt: int)

  /** The data `create` receives; the service adds Id, enrolment and time. */
  datatype StudentDraft = StudentDraft(
    firstName: string, lastName: string, email: string, gradeLevel: string,
    guardianContact: string)

  /** The data `update` spreads over a record; None leaves a field as it is. */
  datatype StudentPatch = StudentPatch(
    Id: Option<int>, firstName: Option<string>, lastName: Option<string>,
    email: Option<string>, gradeLevel: Option<string>, guardianContact: Option<string>,
    enrolledClasses: Option<seq<int>>, createdAt: Option<int>)

  /** `{ ...record, ...patch }`. */
  function Merge(r: Student, p: StudentPatch): Student {
    Student(
      p.Id.GetOr(r.Id), p.firstName.GetOr(r.firstName), p.lastName.GetOr(r.lastName),
      p.email.GetOr(r.email), p.gradeLevel.GetOr(r.gradeLevel),
      p.guardianContact.GetOr(r.guardianContact),
      p.enrolledClasses.GetOr(r.enrolledClasses), p.createdAt.GetOr(r.createdAt))
  }

  /** Reads a record's Id. */
  const IdOf := (r: Student) => r.Id

  class StudentStore {
    var students: seq<Student>

    constructor (seed: seq<Student>)
      ensures students == seed
    {
      students := seed;
    }

    /** `getAll`: the whole list, in store order. */
    function GetAll(): (r: seq<Student>)
      reads this
      ensures r == students
    {
      students
    }

    /** `getById`: the first student with that id, None when there is none. */
    function GetById(id: int): (r: Option<Student>)
      reads this
      ensures r.None? <==> id !in Ids(students, IdOf)
      ensures r.Some? ==> r.value.Id == id && r.value in students
      ensures r.Some? ==> exists k :: 0 <= k < |students| && students[k] == r.value &&
                            forall j :: 0 <= j < k ==> students[j].Id != id
    {
      var k := FirstIndex(Ids(students, IdOf), id);
      if k == -1 then None else Some(students[k])
    }

    /** `create`: appends a student enrolled in nothing whose Id is one more
        than the largest id (1 for an empty store). */
    method Create(draft: StudentDraft, now: int) returns (s: Student)
      modifies this
      ensures s.Id == MaxOrZero(old(Ids(students, IdOf))) + 1 && s.Id !in old(Ids(students, IdOf))
      ensures s == Student(s.Id, draft.firstName, draft.lastName, draft.email, draft.gradeLevel,
                           draft.guardianContact, [], now)
      ensures students == old(students) + [s]
      ensures GetById(s.Id) == Some(s)
      ensures Distinct(old(Ids(students, IdOf))) ==> Distinct(Ids(students, IdOf))
    {
      var maxId := MaxOrZero(Ids(students, IdOf));
      s := Student(maxId + 1, draft.firstName, draft.lastName, draft.email, draft.gradeLevel,
                   draft.guardianContact, [], now);
      IdsAppend(students, s, IdOf);
      students := students + [s];
      assert Ids(students, IdOf)[|students| - 1] == s.Id;
    }

    /** `update`: None when no student has the id; otherwise the first such
        student becomes the patch spread over it, and nothing else changes. */
    method Update(id: int, patch: StudentPatch) returns (r: Option<Student>)
      modifies this
      ensures var k := FirstIndex(old(Ids(students, IdOf)), id);
              if k == -1 then r.None? && students == old(students)
              else r == Some(Merge(old(students)[k], patch)) && students == old(students)[k := r.value]
      ensures Distinct(old(Ids(students, IdOf))) && (patch.Id.None? || patch.Id == Some(id))
              ==> Distinct(Ids(students, IdOf))
    {
      var k := FirstIndex(Ids(students, IdOf), id);
      if k == -1 {
        return None;
      }
      var merged := Merge(students[k], patch);
      if patch.Id.None? || patch.Id == Some(id) {
        IdsReplace(students, k, merged, IdOf);
      }
      students := students[k := merged];
      r := Some(merged);
    }

    /** `delete`: false when no student has the id; otherwise the first such
        student is spliced out and the others keep their order. */
    method Delete(id: int) returns (ok: bool)
      modifies this
      ensures ok <==> id in old(Ids(students, IdOf))
      ensures var k := FirstIndex(old(Ids(students, IdOf)), id);
              if ok then students == old(students)[..k] + old(students)[k + 1..]
              else students == old(students)
      ensures Distinct(old(Ids(students, IdOf))) ==> Distinct(Ids(students, IdOf))
    {
      var k := FirstIndex(Ids(students, IdOf), id);
      if k == -1 {
        return false;
      }
      IdsSplice(students, k, IdOf);
      students := students[..k] + students[k + 1..];
      ok := true;
    }

    /** `getByClassId`: the students enrolled in a class, in store order. */
    function GetByClassId(classId: int): (r: seq<Student>)
      reads this
      ensures IsSubsequence(r, students)
      ensures forall s :: s in r <==> s in students && classId in s.enrolledClasses
    {
      FilterIsSubsequence(students, (s: Student) => classId in s.enrolledClasses);
      Filter(students, (s: Student) => classId in s.enrolledClasses)
    }

    /** `enrollInClass`: false for an unknown student; otherwise the class
        joins that student's enrolment unless already there. */
    method EnrollInClass(studentId: int, classId: int) returns (ok: bool)
      modifies this
      ensures ok <==> studentId in old(Ids(students, IdOf))
      ensures var k := FirstIndex(old(Ids(students, IdOf)), studentId);
              if ok then students == old(students)[k := old(students)[k].(enrolledClasses := AddIfAbsent(old(students)[k].enrolledClasses, classId))]
              else students == old(students)
      ensures Ids(students, IdOf) == old(Ids(students, IdOf))
    {
      var k := FirstIndex(Ids(students, IdOf), studentId);
      if k == -1 {
        return false;
      }
      var s := students[k];
      if classId !in s.enrolledClasses {
        s := s.(enrolledClasses := s.enrolledClasses + [classId]);
      }
      IdsReplace(students, k, s, IdOf);
      students := students[k := s];
      ok := true;
    }

    /** `unenrollFromClass`: false for an unknown student; otherwise every
        occurrence of the class leaves that student's enrolment. */
    method UnenrollFromClass(studentId: int, classId: int) returns (ok: bool)
      modifies this
      ensures ok <==> studentId in old(Ids(students, IdOf))
      ensures var k := FirstIndex(old(Ids(students, IdOf)), studentId);
              if ok then students == old(students)[k := old(students)[k].(enrolledClasses := RemoveAll(old(students)[k].enrolledClasses, classId))]
              else students == old(students)
      ensures Ids(students, IdOf) == old(Ids(students, IdOf))
    {
      var k := FirstIndex(Ids(students, IdOf), studentId);
      if k == -1 {
        return false;
      }
      var s := students[k].(enrolledClasses := RemoveAll(students[k].enrolledClasses, classId));
      IdsReplace(students, k, s, IdOf);
      students := students[k := s];
      ok := true;
    }
  }
}
