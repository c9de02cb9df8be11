/** The grade book table: which grade a cell shows, the colour of a score,
    a student's overall percentage, and the in-place editing of one cell
    (click to edit, type, Enter or leaving the cell to submit, Escape to
    cancel), with the score checks an edit must pass before it is handed on. */
module GradeBook {
  import opened Common
  import opened JsText
  import GradeService
  import AssignmentService

  type Grade = GradeService.Grade
  type Assignment = AssignmentService.Assignment

  // ---------------------------------------------------------------------
  // Looking things up.

  /** `getGradeForStudent`: the first grade of that student for that
      assignment, None when there is none. */
  function GetGradeForStudent(grades: seq<Grade>, studentId: int, assignmentId: int): (r: Option<Grade>)
    ensures r.None? <==> forall g :: g in grades ==> !(g.studentId == studentId && g.assignmentId == assignmentId)
    ensures r.Some? ==> r.value.studentId == studentId && r.value.assignmentId == assignmentId
    ensures r.Some? ==>
              exists k :: 0 <= k < |grades| && grades[k] == r.value &&
                forall j :: 0 <= j < k ==> !(grades[j].studentId == studentId && grades[j].assignmentId == assignmentId)
  {
    if grades == [] then None
    else if grades[0].studentId == studentId && grades[0].assignmentId == assignmentId then
      Some(grades[0])
    else
      var r := GetGradeForStudent(grades[1..], studentId, assignmentId);
      if r.Some? then
        var k :| 0 <= k < |grades[1..]| && grades[1..][k] == r.value &&
                 forall j :: 0 <= j < k ==> !(grades[1..][j].studentId == studentId && grades[1..][j].assignmentId == assignmentId);
        assert grades[k + 1] == r.value;
        assert forall j :: 1 <= j < k + 1 ==> grades[j] == grades[1..][j - 1];
        r
      else r
  }

  /** `assignments.find(a => a.Id === id)`. */
  function FindAssignment(assignments: seq<Assignment>, id: int): (r: Option<Assignment>)
    ensures r.None? <==> forall a :: a in assignments ==> a.Id != id
    ensures r.Some? ==> r.value in assignments && r.value.Id == id
  {
    if assignments == [] then None
    else if assignments[0].Id == id then Some(assignments[0])
    else FindAssignment(assignments[1..], id)
  }

  // ---------------------------------------------------------------------
  // Colour bands.

  datatype Color = Green | Blue | Yellow | Red

  function ColorRank(c: Color): int {
    match c
    case Red => 0
    case Yellow => 1
    case Blue => 2
    case Green => 3
  }

  /** The band of a percentage: the half-open intervals [90, ∞), [80, 90),
      [70, 80) and below 70. */
  function Band(percentage: real): (c: Color)
    ensures c == Green <==> percentage >= 90.0
    ensures c == Blue <==> 80.0 <= percentage < 90.0
    ensures c == Yellow <==> 70.0 <= percentage < 80.0
    ensures c == Red <==> percentage < 70.0
  {
    if percentage >= 90.0 then Green
    else if percentage >= 80.0 then Blue
    else if percentage >= 70.0 then Yellow
    else Red
  }

  /** `getGradeColor`: the band of score / totalPoints * 100. Over zero
      points a positive score is an infinite percentage (green) and any
      other score no number at all, which fails every threshold (red). */
  function GetGradeColor(score: real, totalPoints: int): (c: Color)
    ensures totalPoints == 0 ==> (c == Green <==> score > 0.0) && (c == Red <==> score <= 0.0)
    ensures totalPoints != 0 ==>
              var percentage := score / totalPoints as real * 100.0;
              (c == Green <==> percentage >= 90.0) && (c == Blue <==> 80.0 <= percentage < 90.0) &&
              (c == Yellow <==> 70.0 <= percentage < 80.0) && (c == Red <==> percentage < 70.0)
  {
    if totalPoints == 0 then (if score > 0.0 then Green else Red)
    else Band(score / totalPoints as real * 100.0)
  }

  /** A higher score out of the same positive total never gets a lower band. */
  lemma GradeColorMonotone(s1: real, s2: real, totalPoints: int)
    requires s1 <= s2 && totalPoints > 0
    ensures ColorRank(GetGradeColor(s1, totalPoints)) <= ColorRank(GetGradeColor(s2, totalPoints))
  {
    var t := totalPoints as real;
    DivideMonotone(s1, s2, t);
    assert s1 / t * 100.0 <= s2 / t * 100.0;
  }

  // ---------------------------------------------------------------------
  // A student's overall percentage.

  datatype StudentAverage = Dash | Percent(value: int)

  /** Points earned and points possible over the grades whose assignment is
      known, accumulated in list order. */
  function Totals(grades: seq<Grade>, assignments: seq<Assignment>): (real, int) {
    if grades == [] then (0.0, 0)
    else
      var prefix := Totals(grades[..|grades| - 1], assignments);
      var g := grades[|grades| - 1];
      match FindAssignment(assignments, g.assignmentId)
      case None => prefix
      case Some(a) => (prefix.0 + g.score, prefix.1 + a.totalPoints)
  }

  function StudentGrades(grades: seq<Grade>, studentId: int): seq<Grade> {
    Filter(grades, (g: Grade) => g.studentId == studentId)
  }

  /** What `calculateStudentAverage` returns: "-" without grades, 0 when no
      points are possible, otherwise the rounded percentage of points earned. */
  function StudentPercentage(grades: seq<Grade>, assignments: seq<Assignment>, studentId: int): StudentAverage {
    var mine := StudentGrades(grades, studentId);
    if mine == [] then Dash
    else
      var t := Totals(mine, assignments);
      if t.1 > 0 then Percent(Round(t.0 / t.1 as real * 100.0)) else Percent(0)
  }

  /** `calculateStudentAverage`: accumulates points earned and possible over
      the student's grades in one pass. */
  method CalculateStudentAverage(grades: seq<Grade>, assignments: seq<Assignment>, studentId: int)
    returns (r: StudentAverage)
    ensures r == StudentPercentage(grades, assignments, studentId)
  {
    var studentGrades := Filter(grades, (g: Grade) => g.studentId == studentId);
    if |studentGrades| == 0 {
      return Dash;
    }
    var totalPoints := 0.0;
    var totalPossible := 0;
    for i := 0 to |studentGrades|
      invariant (totalPoints, totalPossible) == Totals(studentGrades[..i], assignments)
    {
      assert studentGrades[..i + 1][..i] == studentGrades[..i];
      var grade := studentGrades[i];
      var assignment := FindAssignment(assignments, grade.assignmentId);
      if assignment.Some? {
        totalPoints := totalPoints + grade.score;
        totalPossible := totalPossible + assignment.value.totalPoints;
      }
    }
    assert studentGrades[..|studentGrades|] == studentGrades;
    r := if totalPossible > 0 then Percent(Round(totalPoints / totalPossible as real * 100.0)) else Percent(0);
  }

  /** Every counted grade is between zero and its assignment's points. */
  predicate ScoresWithinPoints(grades: seq<Grade>, assignments: seq<Assignment>) {
    forall g :: g in grades && FindAssignment(assignments, g.assignmentId).Some? ==>
      0.0 <= g.score <= FindAssignment(assignments, g.assignmentId).value.totalPoints as real
  }

  lemma {:induction false} TotalsBounds(grades: seq<Grade>, assignments: seq<Assignment>)
    requires ScoresWithinPoints(grades, assignments)
    ensures 0.0 <= Totals(grades, assignments).0 <= Totals(grades, assignments).1 as real
  {
    if grades != [] {
      var init := grades[..|grades| - 1];
      assert ScoresWithinPoints(init, assignments) by {
        forall g | g in init ensures g in grades {
        }
      }
      TotalsBounds(init, assignments);
      assert grades[|grades| - 1] in grades;
    }
  }

  /** When every score lies within its assignment's points, the percentage
      lies between 0 and 100. */
  lemma StudentPercentageBounds(grades: seq<Grade>, assignments: seq<Assignment>, studentId: int)
    requires ScoresWithinPoints(grades, assignments)
    ensures StudentPercentage(grades, assignments, studentId).Percent? ==>
              0 <= StudentPercentage(grades, assignments, studentId).value <= 100
  {
    var mine := StudentGrades(grades, studentId);
    assert ScoresWithinPoints(mine, assignments);
    TotalsBounds(mine, assignments);
    var t := Totals(mine, assignments);
    if mine != [] && t.1 > 0 {
      var q := t.1 as real;
      assert 0.0 <= t.0 / q <= 1.0 by {
        assert t.0 / q * q == t.0;
      }
      RoundBetween(t.0 / q * 100.0, 0, 100);
    }
  }

  /** Grades count towards the percentage only through their assignments:
      without any known assignment the percentage is 0. */
  lemma {:induction false} UnknownAssignmentsCountNothing(grades: seq<Grade>, assignments: seq<Assignment>)
    requires forall g :: g in grades ==> FindAssignment(assignments, g.assignmentId).None?
    ensures Totals(grades, assignments) == (0.0, 0)
  {
    if grades != [] {
      var init := grades[..|grades| - 1];
      assert forall g :: g in init ==> g in grades;
      UnknownAssignmentsCountNothing(init, assignments);
      assert grades[|grades| - 1] in grades;
    }
  }

  // ---------------------------------------------------------------------
  // Editing a cell.

  /** The cell being edited. */
  datatype Cell = Cell(studentId: int, assignmentId: int)

  /** The text in the edit box: either text the user typed or the printed
      form of an existing score, which `parseFloat` reads back exactly. */
  datatype EditValue = Text(text: string) | ScoreText(score: real)

  function ParseEdit(v: EditValue): Num {
    match v
    case Text(s) => ParseFloat(s)
    case ScoreText(x) => Finite(x)
  }

  /** The fate of a submitted edit: dropped silently (no number, or a
      negative one), refused with the assignment's points in the alert, or
      handed on with the parsed score. */
  datatype Outcome = Ignored | TooHigh(limit: int) | Forwarded(score: real)

  /** The checks of `handleGradeUpdate`. A score is compared with the points
      of the assignment only when the assignment is known; against an unknown
      one the comparison is false and the score passes. */
  function UpdateOutcome(assignments: seq<Assignment>, assignmentId: int, v: EditValue): (o: Outcome)
    ensures o == Ignored <==> ParseEdit(v).NaN? || ParseEdit(v).value < 0.0
    ensures o.TooHigh? <==>
              (ParseEdit(v).Finite? && ParseEdit(v).value >= 0.0 &&
               FindAssignment(assignments, assignmentId).Some? &&
               ParseEdit(v).value > FindAssignment(assignments, assignmentId).value.totalPoints as real)
    ensures o.TooHigh? ==> o.limit == FindAssignment(assignments, assignmentId).value.totalPoints
    ensures o.Forwarded? ==>
              (ParseEdit(v) == Finite(o.score) && 0.0 <= o.score &&
               (FindAssignment(assignments, assignmentId).Some? ==>
                  o.score <= FindAssignment(assignments, assignmentId).value.totalPoints as real))
  {
    match ParseEdit(v)
    case NaN => Ignored
    case Finite(x) =>
      if x < 0.0 then Ignored
      else
        match FindAssignment(assignments, assignmentId)
        case Some(a) => if x > a.totalPoints as real then TooHigh(a.totalPoints) else Forwarded(x)
        case None => Forwarded(x)
  }

  /** A score handed on for a cell: the arguments of `onGradeUpdate`. */
  datatype GradeUpdate = GradeUpdate(studentId: int, assignmentId: int, score: real)

  /** The table's editing state over fixed grades and assignments, with the
      updates it has handed on so far. */
  class GradeBookEditor {
    const grades: seq<Grade>
    const assignments: seq<Assignment>
    var editingGrade: Option<Cell>
    var editValue: EditValue
    var handedOn: seq<GradeUpdate>

    /** Every score handed on is non-negative and within the points of its
        assignment when that assignment is known. */
    predicate Valid()
      reads this
    {
      forall u :: u in handedOn ==>
        (0.0 <= u.score &&
         (FindAssignment(assignments, u.assignmentId).Some? ==>
            u.score <= FindAssignment(assignments, u.assignmentId).value.totalPoints as real))
    }

    constructor (grades: seq<Grade>, assignments: seq<Assignment>)
      ensures this.grades == grades && this.assignments == assignments
      ensures editingGrade.None? && editValue == Text("") && handedOn == []
      ensures Valid()
    {
      this.grades := grades;
      this.assignments := assignments;
      editingGrade := None;
      editValue := Text("");
      handedOn := [];
    }

    /** `handleGradeClick`: edit this cell, starting from its current score
        or from an empty box. */
    method HandleGradeClick(studentId: int, assignmentId: int)
      modifies this
      ensures editingGrade == Some(Cell(studentId, assignmentId))
      ensures GetGradeForStudent(grades, studentId, assignmentId).Some? ==>
                editValue == ScoreText(GetGradeForStudent(grades, studentId, assignmentId).value.score)
      ensures GetGradeForStudent(grades, studentId, assignmentId).None? ==> editValue == Text("")
      ensures handedOn == old(handedOn)
    {
      var existingGrade := GetGradeForStudent(grades, studentId, assignmentId);
      editingGrade := Some(Cell(studentId, assignmentId));
      editValue := if existingGrade.Some? then ScoreText(existingGrade.value.score) else Text("");
    }

    /** Typing in the edit box replaces its text. */
    method HandleEditChange(text: string)
      modifies this
      ensures editValue == Text(text)
      ensures editingGrade == old(editingGrade) && handedOn == old(handedOn)
    {
      editValue := Text(text);
    }

    /** `handleGradeUpdate`: a score that passes the checks is handed on once
        and the editing state cleared; any other leaves everything as it was. */
    method HandleGradeUpdate(studentId: int, assignmentId: int, score: EditValue) returns (o: Outcome)
      requires Valid()
      modifies this
      ensures o == UpdateOutcome(assignments, assignmentId, score)
      ensures o.Forwarded? ==> handedOn == old(handedOn) + [GradeUpdate(studentId, assignmentId, o.score)] &&
                               editingGrade.None? && editValue == Text("")
      ensures !o.Forwarded? ==> handedOn == old(handedOn) && editingGrade == old(editingGrade) &&
                                editValue == old(editValue)
      ensures Valid()
    {
      o := UpdateOutcome(assignments, assignmentId, score);
      if o.Forwarded? {
        handedOn := handedOn + [GradeUpdate(studentId, assignmentId, o.score)];
        editingGrade := None;
        editValue := Text("");
      }
    }

    /** `handleKeyDown`: Enter submits the box's value, Escape abandons the
        edit, any other key does nothing. */
    method HandleKeyDown(key: string, studentId: int, assignmentId: int) returns (o: Option<Outcome>)
      requires Valid()
      modifies this
      ensures key == "Enter" ==> o == Some(UpdateOutcome(assignments, assignmentId, old(editValue)))
      ensures key == "Enter" && o.value.Forwarded? ==>
                handedOn == old(handedOn) + [GradeUpdate(studentId, assignmentId, o.value.score)] &&
                editingGrade.None? && editValue == Text("")
      ensures key == "Enter" && !o.value.Forwarded? ==>
                handedOn == old(handedOn) && editingGrade == old(editingGrade) && editValue == old(editValue)
      ensures key == "Escape" ==> o.None? && editingGrade.None? && editValue == Text("") &&
                                  handedOn == old(handedOn)
      ensures key != "Enter" && key != "Escape" ==>
                o.None? && editingGrade == old(editingGrade) && editValue == old(editValue) &&
                handedOn == old(handedOn)
      ensures Valid()
    {
      if key == "Enter" {
        var outcome := HandleGradeUpdate(studentId, assignmentId, editValue);
        o := Some(outcome);
      } else if key == "Escape" {
        editingGrade := None;
        editValue := Text("");
        o := None;
      } else {
        o := None;
      }
    }
  }
}
