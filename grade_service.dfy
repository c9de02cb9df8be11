/** The grades store: a module-level list of grades with create / update /
    delete, filters by student, class and assignment, and score averages
    rounded to hundredths. */
module GradeService {
  import opened Common

  datatype Grade = Grade(
    Id: int,
    studentId: int,
    classId: int,
    assignmentId: int,
    score: real,
    gradedAt: int)

  /** The data `create` receives; the service adds Id and grading time. */
  datatype GradeDraft = GradeDraft(studentId: int, classId: int, assignmentId: int, score: real)

  /** The data `update` spreads over a grade; None leaves a field as it is. */
  datatype GradePatch = GradePatch(
    Id: Option<int>, studentId: Option<int>, classId: Option<int>,
    assignmentId: Option<int>, score: Option<real>, gradedAt: Option<int>)

  /** `{ ...grade, ...patch }`. */
  function Merge(g: Grade, p: GradePatch): Grade {
    Grade(
      p.Id.GetOr(g.Id), p.studentId.GetOr(g.studentId), p.classId.GetOr(g.classId),
      p.assignmentId.GetOr(g.assignmentId), p.score.GetOr(g.score), p.gradedAt.GetOr(g.gradedAt))
  }

  /** Reads a record's Id. */
  const IdOf := (r: Grade) => r.Id

  /** `grades.reduce((sum, g) => sum + g.score, 0)`. */
  function SumScores(s: seq<Grade>): real {
    if s == [] then 0.0 else s[0].score + SumScores(s[1..])
  }

  /** All scores lie in [lo, hi]. */
  predicate ScoresWithin(s: seq<Grade>, lo: real, hi: real) {
    forall i :: 0 <= i < |s| ==> lo <= s[i].score <= hi
  }

  /** Scores in [lo, hi] sum to between n·lo and n·hi. */
  lemma {:induction false} SumScoresBounds(s: seq<Grade>, lo: real, hi: real)
    requires ScoresWithin(s, lo, hi)
    ensures |s| as real * lo <= SumScores(s) <= |s| as real * hi
  {
    if s != [] {
      SumScoresBounds(s[1..], lo, hi);
    }
  }

  /** `Math.round((total / n) * 100) / 100`, and 0 for no grades. */
  function Average(s: seq<Grade>): (avg: real)
    ensures s == [] ==> avg == 0.0
    ensures s != [] ==> -0.005 < avg - SumScores(s) / |s| as real <= 0.005
  {
    if s == [] then 0.0
    else
      var mean := SumScores(s) / |s| as real;
      RoundBounds(mean * 100.0);
      Round(mean * 100.0) as real / 100.0
  }

  /** The average stays within bounds given in whole hundredths (for example
      0 and the largest score when scores are whole points). */
  lemma AverageBetween(s: seq<Grade>, lo: int, hi: int)
    requires s != [] && ScoresWithin(s, lo as real / 100.0, hi as real / 100.0)
    ensures lo as real / 100.0 <= Average(s) <= hi as real / 100.0
  {
    var n := |s| as real;
    SumScoresBounds(s, lo as real / 100.0, hi as real / 100.0);
    MeanBetween(SumScores(s), n, lo as real / 100.0, hi as real / 100.0);
    var mean := SumScores(s) / n;
    RoundBetween(mean * 100.0, lo, hi);
  }

  /** A sum between n·a and n·b has its mean between a and b. */
  lemma MeanBetween(sum: real, n: real, a: real, b: real)
    requires n > 0.0 && n * a <= sum <= n * b
    ensures a <= sum / n <= b
  {
    var q := sum / n;
    assert q * n == sum;
    assert (q - a) * n == sum - n * a;
    assert (b - q) * n == n * b - sum;
  }

  /** Averaging grades that all carry one score gives that score, when it is
      a whole number of hundredths. */
  lemma AverageOfEqualScores(s: seq<Grade>, v: int)
    requires s != [] && ScoresWithin(s, v as real / 100.0, v as real / 100.0)
    ensures Average(s) == v as real / 100.0
  {
    AverageBetween(s, v, v);
  }

  /** `if (classId)`: an absent or zero id does not restrict. */
  predicate Restricts(classId: Option<int>) {
    classId.Some? && classId.value != 0
  }

  /** The grades `calculateStudentAverage` averages. */
  predicate CountsForStudent(g: Grade, studentId: int, classId: Option<int>) {
    g.studentId == studentId && (Restricts(classId) ==> g.classId == classId.value)
  }

  class GradeStore {
    var grades: seq<Grade>

    constructor (seed: seq<Grade>)
      ensures grades == seed
    {
      grades := seed;
    }

    /** `getAll`: the whole list, in store order. */
    function GetAll(): (r: seq<Grade>)
      reads this
      ensures r == grades
    {
      grades
    }

    /** `getById`: the first grade with that id, None when there is none. */
    function GetById(id: int): (r: Option<Grade>)
      reads this
      ensures r.None? <==> id !in Ids(grades, IdOf)
      ensures r.Some? ==> r.value.Id == id && r.value in grades
      ensures r.Some? ==> exists k :: 0 <= k < |grades| && grades[k] == r.value &&
                            forall j :: 0 <= j < k ==> grades[j].Id != id
    {
      var k := FirstIndex(Ids(grades, IdOf), id);
      if k == -1 then None else Some(grades[k])
    }

    /** `create`: appends one grade stamped with the current time whose Id is
        one more than the largest id (1 for an empty store). */
    method Create(draft: GradeDraft, now: int) returns (g: Grade)
      modifies this
      ensures g.Id == MaxOrZero(old(Ids(grades, IdOf))) + 1 && g.Id !in old(Ids(grades, IdOf))
      ensures g == Grade(g.Id, draft.studentId, draft.classId, draft.assignmentId, draft.score, now)
      ensures grades == old(grades) + [g]
      ensures GetById(g.Id) == Some(g)
      ensures Distinct(old(Ids(grades, IdOf))) ==> Distinct(Ids(grades, IdOf))
    {
      var maxId := MaxOrZero(Ids(grades, IdOf));
      g := Grade(maxId + 1, draft.studentId, draft.classId, draft.assignmentId, draft.score, now);
      IdsAppend(grades, g, IdOf);
      grades := grades + [g];
      assert Ids(grades, IdOf)[|grades| - 1] == g.Id;
    }

    /** `update`: None when no grade has the id; otherwise the first such
        grade becomes the patch spread over it, and nothing else changes. */
    method Update(id: int, patch: GradePatch) returns (r: Option<Grade>)
      modifies this
      ensures var k := FirstIndex(old(Ids(grades, IdOf)), id);
              if k == -1 then r.None? && grades == old(grades)
              else r == Some(Merge(old(grades)[k], patch)) && grades == old(grades)[k := r.value]
      ensures Distinct(old(Ids(grades, IdOf))) && (patch.Id.None? || patch.Id == Some(id))
              ==> Distinct(Ids(grades, IdOf))
    {
      var k := FirstIndex(Ids(grades, IdOf), id);
      if k == -1 {
        return None;
      }
      var merged := Merge(grades[k], patch);
      if patch.Id.None? || patch.Id == Some(id) {
        IdsReplace(grades, k, merged, IdOf);
      }
      grades := grades[k := merged];
      r := Some(merged);
    }

    /** `delete`: false when no grade has the id; otherwise the first such
        grade is spliced out and the others keep their order. */
    method Delete(id: int) returns (ok: bool)
      modifies this
      ensures ok <==> id in old(Ids(grades, IdOf))
      ensures var k := FirstIndex(old(Ids(grades, IdOf)), id);
              if ok then grades == old(grades)[..k] + old(grades)[k + 1..]
              else grades == old(grades)
      ensures Distinct(old(Ids(grades, IdOf))) ==> Distinct(Ids(grades, IdOf))
    {
      var k := FirstIndex(Ids(grades, IdOf), id);
      if k == -1 {
        return false;
      }
      IdsSplice(grades, k, IdOf);
      grades := grades[..k] + grades[k + 1..];
      ok := true;
    }

    /** `getByStudentId`: the student's grades, in store order. */
    function GetByStudentId(studentId: int): (r: seq<Grade>)
      reads this
      ensures IsSubsequence(r, grades)
      ensures forall g :: g in r <==> g in grades && g.studentId == studentId
    {
      FilterIsSubsequence(grades, (g: Grade) => g.studentId == studentId);
      Filter(grades, (g: Grade) => g.studentId == studentId)
    }

    /** `getByClassId`: the class's grades, in store order. */
    function GetByClassId(classId: int): (r: seq<Grade>)
      reads this
      ensures IsSubsequence(r, grades)
      ensures forall g :: g in r <==> g in grades && g.classId == classId
    {
      FilterIsSubsequence(grades, (g: Grade) => g.classId == classId);
      Filter(grades, (g: Grade) => g.classId == classId)
    }

    /** `getByAssignmentId`: the assignment's grades, in store order. */
    function GetByAssignmentId(assignmentId: int): (r: seq<Grade>)
      reads this
      ensures IsSubsequence(r, grades)
      ensures forall g :: g in r <==> g in grades && g.assignmentId == assignmentId
    {
      FilterIsSubsequence(grades, (g: Grade) => g.assignmentId == assignmentId);
      Filter(grades, (g: Grade) => g.assignmentId == assignmentId)
    }

    /** `getStudentClassGrades`: the student's grades in one class, in store order. */
    function GetStudentClassGrades(studentId: int, classId: int): (r: seq<Grade>)
      reads this
      ensures IsSubsequence(r, grades)
      ensures forall g :: g in r <==> g in grades && g.studentId == studentId && g.classId == classId
    {
      FilterIsSubsequence(grades, (g: Grade) => g.studentId == studentId && g.classId == classId);
      Filter(grades, (g: Grade) => g.studentId == studentId && g.classId == classId)
    }

    /** `calculateClassAverage`: the rounded mean score of the class's grades, 0 without any. */
    function CalculateClassAverage(classId: int): (avg: real)
      reads this
      ensures avg == Average(GetByClassId(classId))
      ensures GetByClassId(classId) == [] ==> avg == 0.0
    {
      var classGrades := GetByClassId(classId);
      if |classGrades| == 0 then 0.0
      else Round(SumScores(classGrades) / |classGrades| as real * 100.0) as real / 100.0
    }

    /** `calculateStudentAverage`: the rounded mean score of the student's
        grades, restricted to one class when a class is given; 0 without any. */
    function CalculateStudentAverage(studentId: int, classId: Option<int>): (avg: real)
      reads this
      ensures avg == Average(Filter(grades, (g: Grade) => CountsForStudent(g, studentId, classId)))
    {
      var studentGrades := GetByStudentId(studentId);
      var chosen := if Restricts(classId) then Filter(studentGrades, (g: Grade) => g.classId == classId.value)
                    else studentGrades;
      StudentGrades(grades, studentId, classId);
      Average(chosen)
    }
  }

  /** The two-stage filter of `calculateStudentAverage` selects CountsForStudent. */
  lemma StudentGrades(s: seq<Grade>, studentId: int, classId: Option<int>)
    ensures var mine := Filter(s, (g: Grade) => g.studentId == studentId);
            (if Restricts(classId) then Filter(mine, (g: Grade) => g.classId == classId.value) else mine)
            == Filter(s, (g: Grade) => CountsForStudent(g, studentId, classId))
  {
    var p := (g: Grade) => g.studentId == studentId;
    var spec := (g: Grade) => CountsForStudent(g, studentId, classId);
    if Restricts(classId) {
      FilterAnd(s, p, (g: Grade) => g.classId == classId.value, spec);
    } else {
      FilterSame(s, p, spec);
    }
  }
}
