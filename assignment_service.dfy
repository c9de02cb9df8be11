/** The assignments store: a module-level list of assignments with the usual
    create / update / delete, class and due-date queries, and submissions
    recorded in place on an assignment. */
module AssignmentService {
  import opened Common

  datatype Assignment = Assignment(
    Id: int,
    title: string,
    description: string,
    classId: int,
    className: string,      // "" when missing
    dueDate: string,        // the ISO text the store holds, "" when missing
    dueAt: Option<int>,     // the instant `new Date(dueDate)` denotes; None for an invalid date
    totalPoints: int,
    submissions: seq<int>,  // ids of the students who submitted
    status: string,
    createdAt: int)

  /** The data `create` receives; the service adds Id, submissions, status and time. */
  datatype AssignmentDraft = AssignmentDraft(
    title: string, description: string, classId: int, className: string,
    dueDate: string, dueAt: Option<int>, totalPoints: int)

  /** The data `update` spreads over a record; None leaves a field as it is. */
  datatype AssignmentPatch = AssignmentPatch(
    Id: Option<int>, title: Option<string>, description: Option<string>,
    classId: Option<int>, className: Option<string>, dueDate: Option<string>,
    dueAt: Option<Option<int>>, totalPoints: Option<int>, submissions: Option<seq<int>>,
    status: Option<string>, createdAt: Option<int>)

  /** `{ ...record, ...patch }`. */
  function Merge(r: Assignment, p: AssignmentPatch): Assignment {
    Assignment(
      p.Id.GetOr(r.Id), p.title.GetOr(r.title), p.description.GetOr(r.description),
      p.classId.GetOr(r.classId), p.className.GetOr(r.className),
      p.dueDate.GetOr(r.dueDate), p.dueAt.GetOr(r.dueAt),
      p.totalPoints.GetOr(r.totalPoints), p.submissions.GetOr(r.submissions),
      p.status.GetOr(r.status), p.createdAt.GetOr(r.createdAt))
  }

  /** Reads a record's Id. */
  const IdOf := (r: Assignment) => r.Id

  /** The look-ahead of `getUpcoming` when no number of days is given. */
  const DEFAULT_UPCOMING_DAYS := 7

  /** The window of `getUpcoming`: active, and due between now and `days` days later. */
  predicate IsUpcoming(a: Assignment, days: int, now: int) {
    a.dueAt.Some? && now <= a.dueAt.value <= now + days * DAY_MS && a.status == "active"
  }

  /** A longer look-ahead never loses an upcoming assignment. */
  lemma UpcomingMonotone(a: Assignment, d1: int, d2: int, now: int)
    requires d1 <= d2 && IsUpcoming(a, d1, now)
    ensures IsUpcoming(a, d2, now)
  {
    assert d1 * DAY_MS <= d2 * DAY_MS;
  }

  class AssignmentStore {
    var assignments: seq<Assignment>

    constructor (seed: seq<Assignment>)
      ensures assignments == seed
    {
      assignments := seed;
    }

    /** `getAll`: the whole list, in store order. */
    function GetAll(): (r: seq<Assignment>)
      reads this
      ensures r == assignments
    {
      assignments
    }

    /** `getById`: the first assignment with that id, None when there is none. */
    function GetById(id: int): (r: Option<Assignment>)
      reads this
      ensures r.None? <==> id !in Ids(assignments, IdOf)
      ensures r.Some? ==> r.value.Id == id && r.value in assignments
      ensures r.Some? ==> exists k :: 0 <= k < |assignments| && assignments[k] == r.value &&
                            forall j :: 0 <= j < k ==> assignments[j].Id != id
    {
      var k := FirstIndex(Ids(assignments, IdOf), id);
      if k == -1 then None else Some(assignments[k])
    }

    /** `create`: appends an active assignment without submissions whose Id is
        one more than the largest id (1 for an empty store). */
    method Create(draft: AssignmentDraft, now: int) returns (a: Assignment)
      modifies this
      ensures a.Id == MaxOrZero(old(Ids(assignments, IdOf))) + 1 && a.Id !in old(Ids(assignments, IdOf))
      ensures a == Assignment(a.Id, draft.title, draft.description, draft.classId, draft.className,
                              draft.dueDate, draft.dueAt, draft.totalPoints, [], "active", now)
      ensures assignments == old(assignments) + [a]
      ensures GetById(a.Id) == Some(a)
      ensures Distinct(old(Ids(assignments, IdOf))) ==> Distinct(Ids(assignments, IdOf))
    {
      var maxId := MaxOrZero(Ids(assignments, IdOf));
      a := Assignment(maxId + 1, draft.title, draft.description, draft.classId, draft.className,
                      draft.dueDate, draft.dueAt, draft.totalPoints, [], "active", now);
      IdsAppend(assignments, a, IdOf);
      assignments := assignments + [a];
      assert Ids(assignments, IdOf)[|assignments| - 1] == a.Id;
    }

    /** `update`: None when no assignment has the id; otherwise the first such
        assignment becomes the patch spread over it, and nothing else changes. */
    method Update(id: int, patch: AssignmentPatch) returns (r: Option<Assignment>)
      modifies this
      ensures var k := FirstIndex(old(Ids(assignments, IdOf)), id);
              if k == -1 then r.None? && assignments == old(assignments)
              else r == Some(Merge(old(assignments)[k], patch)) && assignments == old(assignments)[k := r.value]
      ensures Distinct(old(Ids(assignments, IdOf))) && (patch.Id.None? || patch.Id == Some(id))
              ==> Distinct(Ids(assignments, IdOf))
    {
      var k := FirstIndex(Ids(assignments, IdOf), id);
      if k == -1 {
        return None;
      }
      var merged := Merge(assignments[k], patch);
      if patch.Id.None? || patch.Id == Some(id) {
        IdsReplace(assignments, k, merged, IdOf);
      }
      assignments := assignments[k := merged];
      r := Some(merged);
    }

    /** `delete`: false when no assignment has the id; otherwise the first such
        assignment is spliced out and the others keep their order. */
    method Delete(id: int) returns (ok: bool)
      modifies this
      ensures ok <==> id in old(Ids(assignments, IdOf))
      ensures var k := FirstIndex(old(Ids(assignments, IdOf)), id);
              if ok then assignments == old(assignments)[..k] + old(assignments)[k + 1..]
              else assignments == old(assignments)
      ensures Distinct(old(Ids(assignments, IdOf))) ==> Distinct(Ids(assignments, IdOf))
    {
      var k := FirstIndex(Ids(assignments, IdOf), id);
      if k == -1 {
        return false;
      }
      IdsSplice(assignments, k, IdOf);
      assignments := assignments[..k] + assignments[k + 1..];
      ok := true;
    }

    /** `getByClassId`: the assignments of one class, in store order. */
    function GetByClassId(classId: int): (r: seq<Assignment>)
      reads this
      ensures IsSubsequence(r, assignments)
      ensures forall a :: a in r <==> a in assignments && a.classId == classId
    {
      FilterIsSubsequence(assignments, (a: Assignment) => a.classId == classId);
      Filter(assignments, (a: Assignment) => a.classId == classId)
    }

    /** `getUpcoming(days)`: the active assignments due within the next `days`
        days (both ends included, a week when not given), in store order; an
        invalid due date never qualifies. */
    function GetUpcoming(now: int, days: int := DEFAULT_UPCOMING_DAYS): (r: seq<Assignment>)
      reads this
      ensures IsSubsequence(r, assignments)
      ensures forall a :: a in r <==> a in assignments && IsUpcoming(a, days, now)
    {
      FilterIsSubsequence(assignments, (a: Assignment) => IsUpcoming(a, days, now));
      Filter(assignments, (a: Assignment) => IsUpcoming(a, days, now))
    }

    /** `submitAssignment`: false for an unknown assignment; otherwise the
        student joins its submissions unless already there. */
    method SubmitAssignment(assignmentId: int, studentId: int) returns (ok: bool)
      modifies this
      ensures ok <==> assignmentId in old(Ids(assignments, IdOf))
      ensures var k := FirstIndex(old(Ids(assignments, IdOf)), assignmentId);
              if ok then assignments == old(assignments)[k := old(assignments)[k].(submissions := AddIfAbsent(old(assignments)[k].submissions, studentId))]
              else assignments == old(assignments)
      ensures Ids(assignments, IdOf) == old(Ids(assignments, IdOf))
    {
      var k := FirstIndex(Ids(assignments, IdOf), assignmentId);
      if k == -1 {
        return false;
      }
      var a := assignments[k];
      if studentId !in a.submissions {
        a := a.(submissions := a.submissions + [studentId]);
      }
      IdsReplace(assignments, k, a, IdOf);
      assignments := assignments[k := a];
      ok := true;
    }
  }
}
