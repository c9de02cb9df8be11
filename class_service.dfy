/** The classes store: a module-level list of class records that the service
    reads, appends to, overwrites at a position, splices, and whose roster
    (`studentIds`) it edits in place. */
module ClassService {
  import opened Common

  datatype ClassRecord = ClassRecord(
    Id: int,
    name: string,
    subject: string,
    grade: string,
    schedule: string,      // free text such as "Mon,Wed,Fri 10:00-11:00"; "" when missing
    instructor: string,
    room: string,          // "" when missing
    studentIds: seq<int>,
    createdAt: int)

  /** The data `create` receives; the service adds Id, roster and creation time. */
  datatype ClassDraft = ClassDraft(
    name: string, subject: string, grade: string, schedule: string,
    instructor: string, room: string)

  /** The data `update` spreads over a record: the fields it carries replace
      the record's, the absent ones (None) leave them. */
  datatype ClassPatch = ClassPatch(
    Id: Option<int>, name: Option<string>, subject: Option<string>,
    grade: Option<string>, schedule: Option<string>, instructor: Option<string>,
    room: Option<string>, studentIds: Option<seq<int>>, createdAt: Option<int>)

  /** `{ ...record, ...patch }`. */
  function Merge(r: ClassRecord, p: ClassPatch): ClassRecord {
    ClassRecord(
      p.Id.GetOr(r.Id), p.name.GetOr(r.name), p.subject.GetOr(r.subject),
      p.grade.GetOr(r.grade), p.schedule.GetOr(r.schedule),
      p.instructor.GetOr(r.instructor), p.room.GetOr(r.room),
      p.studentIds.GetOr(r.studentIds), p.createdAt.GetOr(r.createdAt))
  }

  /** Reads a record's Id. */
  const IdOf := (r: ClassRecord) => r.Id

  class ClassStore {
    var classes: seq<ClassRecord>

    /** The store starts out with the seed data. */
    constructor (seed: seq<ClassRecord>)
      ensures classes == seed
    {
      classes := seed;
    }

    /** `getAll`: a copy of the whole list, in store order. */
    function GetAll(): (r: seq<ClassRecord>)
      reads this
      ensures r == classes
    {
      classes
    }

    /** `getById`: the first record with that id, None when there is none. */
    function GetById(id: int): (r: Option<ClassRecord>)
      reads this
      ensures r.None? <==> id !in Ids(classes, IdOf)
      ensures r.Some? ==> r.value.Id == id && r.value in classes
      ensures r.Some? ==> exists k :: 0 <= k < |classes| && classes[k] == r.value &&
                            forall j :: 0 <= j < k ==> classes[j].Id != id
    {
      var k := FirstIndex(Ids(classes, IdOf), id);
      if k == -1 then None else Some(classes[k])
    }

    /** `create`: appends one record whose Id is one more than the largest id
        (or 1 for an empty store) and whose roster is empty. */
    method Create(draft: ClassDraft, now: int) returns (c: ClassRecord)
      modifies this
      ensures c.Id == MaxOrZero(old(Ids(classes, IdOf))) + 1 && c.Id !in old(Ids(classes, IdOf))
      ensures c == ClassRecord(c.Id, draft.name, draft.subject, draft.grade, draft.schedule,
                               draft.instructor, draft.room, [], now)
      ensures classes == old(classes) + [c]
      ensures GetById(c.Id) == Some(c)
      ensures Distinct(old(Ids(classes, IdOf))) ==> Distinct(Ids(classes, IdOf))
    {
      var maxId := MaxOrZero(Ids(classes, IdOf));
      c := ClassRecord(maxId + 1, draft.name, draft.subject, draft.grade, draft.schedule,
                       draft.instructor, draft.room, [], now);
      IdsAppend(classes, c, IdOf);
      classes := classes + [c];
      assert Ids(classes, IdOf)[|classes| - 1] == c.Id;
    }

    /** `update`: None when no record has the id; otherwise the first such
        record becomes the patch spread over it, and nothing else changes. */
    method Update(id: int, patch: ClassPatch) returns (r: Option<ClassRecord>)
      modifies this
      ensures var k := FirstIndex(old(Ids(classes, IdOf)), id);
              if k == -1 then r.None? && classes == old(classes)
              else r == Some(Merge(old(classes)[k], patch)) && classes == old(classes)[k := r.value]
      ensures Distinct(old(Ids(classes, IdOf))) && (patch.Id.None? || patch.Id == Some(id))
              ==> Distinct(Ids(classes, IdOf))
    {
      var k := FirstIndex(Ids(classes, IdOf), id);
      if k == -1 {
        return None;
      }
      var merged := Merge(classes[k], patch);
      if patch.Id.None? || patch.Id == Some(id) {
        IdsReplace(classes, k, merged, IdOf);
      }
      classes := classes[k := merged];
      r := Some(merged);
    }

    /** `delete`: false when no record has the id; otherwise the first such
        record is spliced out and the others keep their order. */
    method Delete(id: int) returns (ok: bool)
      modifies this
      ensures ok <==> id in old(Ids(classes, IdOf))
      ensures var k := FirstIndex(old(Ids(classes, IdOf)), id);
              if ok then classes == old(classes)[..k] + old(classes)[k + 1..]
              else classes == old(classes)
      ensures Distinct(old(Ids(classes, IdOf))) ==> Distinct(Ids(classes, IdOf))
    {
      var k := FirstIndex(Ids(classes, IdOf), id);
      if k == -1 {
        return false;
      }
      IdsSplice(classes, k, IdOf);
      classes := classes[..k] + classes[k + 1..];
      ok := true;
    }

    /** `addStudentToClass`: false for an unknown class; otherwise the student
        joins that class's roster unless already on it. */
    method AddStudentToClass(classId: int, studentId: int) returns (ok: bool)
      modifies this
      ensures ok <==> classId in old(Ids(classes, IdOf))
      ensures var k := FirstIndex(old(Ids(classes, IdOf)), classId);
              if ok then classes == old(classes)[k := old(classes)[k].(studentIds := AddIfAbsent(old(classes)[k].studentIds, studentId))]
              else classes == old(classes)
      ensures Ids(classes, IdOf) == old(Ids(classes, IdOf))
    {
      var k := FirstIndex(Ids(classes, IdOf), classId);
      if k == -1 {
        return false;
      }
      var c := classes[k];
      if studentId !in c.studentIds {
        c := c.(studentIds := c.studentIds + [studentId]);
      }
      IdsReplace(classes, k, c, IdOf);
      classes := classes[k := c];
      ok := true;
    }

    /** `removeStudentFromClass`: false for an unknown class; otherwise every
        occurrence of the student leaves that class's roster. */
    method RemoveStudentFromClass(classId: int, studentId: int) returns (ok: bool)
      modifies this
      ensures ok <==> classId in old(Ids(classes, IdOf))
      ensures var k := FirstIndex(old(Ids(classes, IdOf)), classId);
              if ok then classes == old(classes)[k := old(classes)[k].(studentIds := RemoveAll(old(classes)[k].studentIds, studentId))]
              else classes == old(classes)
      ensures Ids(classes, IdOf) == old(Ids(classes, IdOf))
    {
      var k := FirstIndex(Ids(classes, IdOf), classId);
      if k == -1 {
        return false;
      }
      var c := classes[k].(studentIds := RemoveAll(classes[k].studentIds, studentId));
      IdsReplace(classes, k, c, IdOf);
      classes := classes[k := c];
      ok := true;
    }
  }
}
