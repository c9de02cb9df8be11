/** The "create assignment" form: required title, description, class and
    due date, a positive number of points, the due time defaulting to 23:59,
    and the record handed on once the form passes (class and points read as
    integers, the due date and time joined into one ISO text in UTC). */
module CreateAssignmentModal {
  import opened Common
  import opened JsText
  import AssignmentService
  import CalendarService

  datatype Field = Title | Description | ClassId | DueDate | DueTime | TotalPoints

  /** The form as typed; every value is text, as the inputs hold it. */
  datatype Form = Form(
    title: string, description: string, classId: string,
    dueDate: string, dueTime: string, totalPoints: string)

  /** The empty form, with the due time at its default. */
  const EMPTY_FORM := Form("", "", "", "", "23:59", "")

  function Get(form: Form, f: Field): string {
    match f
    case Title => form.title
    case Description => form.description
    case ClassId => form.classId
    case DueDate => form.dueDate
    case DueTime => form.dueTime
    case TotalPoints => form.totalPoints
  }

  /** `{ ...form, [field]: value }`. */
  function With(form: Form, f: Field, value: string): (r: Form)
    ensures Get(r, f) == value
    ensures forall g :: g != f ==> Get(r, g) == Get(form, g)
  {
    match f
    case Title => form.(title := value)
    case Description => form.(description := value)
    case ClassId => form.(classId := value)
    case DueDate => form.(dueDate := value)
    case DueTime => form.(dueTime := value)
    case TotalPoints => form.(totalPoints := value)
  }

  // ---------------------------------------------------------------------
  // Validation.

  /** `!text || text <= 0`: empty, or a number not above zero. A text that
      is no number at all compares false and passes. */
  predicate PointsMissing(text: string) {
    text == "" || (ToNumber(text).Finite? && ToNumber(text).value <= 0.0)
  }

  /** The message `validateForm` records for a field, None when the field passes. */
  function ErrorFor(form: Form, f: Field): Option<string> {
    match f
    case Title => if IsBlank(form.title) then Some("Assignment title is required") else None
    case Description => if IsBlank(form.description) then Some("Description is required") else None
    case ClassId => if form.classId == "" then Some("Please select a class") else None
    case DueDate => if form.dueDate == "" then Some("Due date is required") else None
    case DueTime => None
    case TotalPoints =>
      if PointsMissing(form.totalPoints) then Some("Total points must be greater than 0") else None
  }

  /** The errors object `validateForm` builds, field by field. */
  function Errors(form: Form): map<Field, string> {
    var m1 := RecordError(map[], Title, ErrorFor(form, Title));
    var m2 := RecordError(m1, Description, ErrorFor(form, Description));
    var m3 := RecordError(m2, ClassId, ErrorFor(form, ClassId));
    var m4 := RecordError(m3, DueDate, ErrorFor(form, DueDate));
    RecordError(m4, TotalPoints, ErrorFor(form, TotalPoints))
  }

  /** The errors object holds exactly the failing fields, each with its message. */
  lemma ErrorsAreFailingFields(form: Form)
    ensures forall f :: f in Errors(form) <==> ErrorFor(form, f).Some?
    ensures forall f :: f in Errors(form) ==> Errors(form)[f] == ErrorFor(form, f).value
  {
    var m := Errors(form);
    forall f ensures (f in m <==> ErrorFor(form, f).Some?) && (f in m ==> m[f] == ErrorFor(form, f).value) {
      match f
      case Title =>
      case Description =>
      case ClassId =>
      case DueDate =>
      case DueTime =>
      case TotalPoints =>
    }
  }

  /** The form passes: title and description are not blank, a class and a
      due date are chosen, and the points are not missing or at most zero. */
  predicate Acceptable(form: Form) {
    !AllWhitespace(form.title) && !AllWhitespace(form.description) &&
    form.classId != "" && form.dueDate != "" && !PointsMissing(form.totalPoints)
  }

  /** `validateForm` reports success exactly when the form is acceptable. */
  lemma NoErrorsIffAcceptable(form: Form)
    ensures |Errors(form)| == 0 <==> Errors(form) == map[]
    ensures Errors(form) == map[] <==> Acceptable(form)
  {
    ErrorsAreFailingFields(form);
    BlankIffAllWhitespace(form.title);
    BlankIffAllWhitespace(form.description);
    if |Errors(form)| != 0 {
      var f :| f in Errors(form);
    }
    if !Acceptable(form) {
      if AllWhitespace(form.title) {
        assert Title in Errors(form);
      } else if AllWhitespace(form.description) {
        assert Description in Errors(form);
      } else if form.classId == "" {
        assert ClassId in Errors(form);
      } else if form.dueDate == "" {
        assert DueDate in Errors(form);
      } else {
        assert TotalPoints in Errors(form);
      }
    }
  }

  /** Points typed as a whole number pass exactly when the number is positive. */
  lemma WholePointsAcceptedIffPositive(form: Form, n: int)
    requires form.totalPoints == IntText(n)
    ensures ErrorFor(form, TotalPoints).None? <==> n > 0
  {
    ToNumberIntText(n);
  }

  /** The body of `validateForm`: the errors object, filled field by field. */
  method CollectErrors(form: Form) returns (newErrors: map<Field, string>)
    ensures newErrors == Errors(form)
    ensures forall f :: f in newErrors <==> ErrorFor(form, f).Some?
    ensures forall f :: f in newErrors ==> newErrors[f] == ErrorFor(form, f).value
  {
    newErrors := map[];
    if IsBlank(form.title) {
      newErrors := newErrors[Title := "Assignment title is required"];
    }
    assert newErrors == RecordError(map[], Title, ErrorFor(form, Title));
    ghost var m1 := newErrors;
    if IsBlank(form.description) {
      newErrors := newErrors[Description := "Description is required"];
    }
    assert newErrors == RecordError(m1, Description, ErrorFor(form, Description));
    ghost var m2 := newErrors;
    if form.classId == "" {
      newErrors := newErrors[ClassId := "Please select a class"];
    }
    assert newErrors == RecordError(m2, ClassId, ErrorFor(form, ClassId));
    ghost var m3 := newErrors;
    if form.dueDate == "" {
      newErrors := newErrors[DueDate := "Due date is required"];
    }
    assert newErrors == RecordError(m3, DueDate, ErrorFor(form, DueDate));
    ghost var m4 := newErrors;
    if PointsMissing(form.totalPoints) {
      newErrors := newErrors[TotalPoints := "Total points must be greater than 0"];
    }
    assert newErrors == RecordError(m4, TotalPoints, ErrorFor(form, TotalPoints));
    ErrorsAreFailingFields(form);
  }

  // ---------------------------------------------------------------------
  // The record handed on.

  /** What `onCreateAssignment` receives; a class or points text that
      `parseInt` cannot read gives None (NaN). */
  datatype Payload = Payload(
    title: string, description: string, classId: Option<int>,
    dueDate: string, totalPoints: Option<int>)

  /** The due date and time joined as `<date>T<time>:00.000Z`. */
  function DueDateTime(dueDate: string, dueTime: string): (r: string)
    ensures |r| == |dueDate| + |dueTime| + 9 && r[|dueDate|] == 'T'
    ensures r[..|dueDate|] == dueDate && r[|dueDate| + 1..|dueDate| + 1 + |dueTime|] == dueTime
  {
    var r := dueDate + "T" + dueTime + ":00.000Z";
    assert r == dueDate + ("T" + dueTime + ":00.000Z");
    assert r[|dueDate|..] == "T" + dueTime + ":00.000Z";
    assert r[|dueDate| + 1..|dueDate| + 1 + |dueTime|] == dueTime by {
      assert r[|dueDate| + 1..] == dueTime + ":00.000Z";
    }
    r
  }

  /** The payload built from a form that passed validation: title and
      description as typed, class and points through `parseInt`, and the due
      text made of the date, a 'T' and the time. */
  function BuildPayload(form: Form): (p: Payload)
    ensures p.title == form.title && p.description == form.description
    ensures p.classId == ParseInt(form.classId) && p.totalPoints == ParseInt(form.totalPoints)
    ensures |p.dueDate| == |form.dueDate| + |form.dueTime| + 9
    ensures p.dueDate[..|form.dueDate|] == form.dueDate && p.dueDate[|form.dueDate|] == 'T'
    ensures p.dueDate[|form.dueDate| + 1..|form.dueDate| + 1 + |form.dueTime|] == form.dueTime
  {
    Payload(form.title, form.description, ParseInt(form.classId),
            DueDateTime(form.dueDate, form.dueTime), ParseInt(form.totalPoints))
  }

  /** A class chosen from the list and points typed as a whole number reach
      the store as those very integers. */
  lemma PayloadReadsBackNumbers(form: Form, classId: int, points: int)
    requires form.classId == IntText(classId) && form.totalPoints == IntText(points)
    ensures BuildPayload(form).classId == Some(classId)
    ensures BuildPayload(form).totalPoints == Some(points)
  {
    ParseIntIntText(classId);
    ParseIntIntText(points);
  }

  /** The due-date text of every assignment created through this form has a
      'T' between date and time, so it is never the date text of a day: an
      event that keeps it as its date is placed on no day. */
  lemma PayloadDueDateNamesNoDay(form: Form, a: AssignmentService.Assignment, now: int)
    requires a.dueDate == BuildPayload(form).dueDate && a.dueAt.Some?
    ensures forall d :: CalendarService.AssignmentEventAsWritten(a, now).date != CalendarService.FormatDay(d)
  {
    assert a.dueDate[|form.dueDate|] == 'T';
    CalendarService.AsWrittenDateNamesNoDay(a, now);
  }

  /** The form state of the dialog. */
  class AssignmentForm {
    var formData: Form
    var errors: map<Field, string>
    var loading: bool
    /** The payload handed to `onCreateAssignment`, while that call is in flight. */
    var pending: Option<Payload>
    /** Whether `onClose` has been asked for. */
    var closeRequested: bool

    constructor ()
      ensures formData == EMPTY_FORM && errors == map[] && !loading && pending.None? && !closeRequested
    {
      formData := EMPTY_FORM;
      errors := map[];
      loading := false;
      pending := None;
      closeRequested := false;
    }

    /** `handleInputChange`: sets one field, and blanks that field's error
        when it shows one; every other field and error stays. */
    method HandleInputChange(f: Field, value: string)
      modifies this
      ensures Get(formData, f) == value
      ensures forall g :: g != f ==> Get(formData, g) == Get(old(formData), g)
      ensures f in old(errors) && old(errors)[f] != "" ==> errors == old(errors)[f := ""]
      ensures !(f in old(errors) && old(errors)[f] != "") ==> errors == old(errors)
      ensures loading == old(loading) && pending == old(pending) && closeRequested == old(closeRequested)
    {
      formData := With(formData, f, value);
      if f in errors && errors[f] != "" {
        errors := errors[f := ""];
      }
    }

    /** `validateForm`: records the message of every failing field and
        reports whether there was none. */
    method ValidateForm() returns (ok: bool)
      modifies this
      ensures forall f :: f in errors <==> ErrorFor(formData, f).Some?
      ensures forall f :: f in errors ==> errors[f] == ErrorFor(formData, f).value
      ensures ok <==> errors == map[]
      ensures ok <==> Acceptable(formData)
      ensures formData == old(formData) && loading == old(loading) && pending == old(pending)
      ensures closeRequested == old(closeRequested)
    {
      var newErrors := CollectErrors(formData);
      NoErrorsIffAcceptable(formData);
      errors := newErrors;
      ok := |newErrors| == 0;
    }

    /** The first half of `handleSubmit`: an invalid form is not submitted;
        a valid one is turned into the payload, which is handed on while the
        dialog waits for the result. */
    method BeginSubmit() returns (submitted: Option<Payload>)
      requires !loading
      modifies this
      ensures submitted.Some? <==> Acceptable(old(formData))
      ensures submitted.Some? ==> submitted.value == BuildPayload(formData) && loading && pending == submitted
      ensures submitted.None? ==> !loading && pending == old(pending)
      ensures forall f :: f in errors <==> ErrorFor(formData, f).Some?
      ensures formData == old(formData) && closeRequested == old(closeRequested)
    {
      var ok := ValidateForm();
      if !ok {
        return None;
      }
      loading := true;
      var dueDateTime := DueDateTime(formData.dueDate, formData.dueTime);
      var assignmentData := Payload(formData.title, formData.description, ParseInt(formData.classId),
                                    dueDateTime, ParseInt(formData.totalPoints));
      pending := Some(assignmentData);
      submitted := pending;
    }

    /** The second half: on success the form returns to its defaults, the
        errors are cleared and the dialog asks to close; either way it stops
        waiting. */
    method FinishSubmit(succeeded: bool)
      requires loading
      modifies this
      ensures !loading && pending.None?
      ensures succeeded ==> formData == EMPTY_FORM && errors == map[] && closeRequested
      ensures !succeeded ==> formData == old(formData) && errors == old(errors) &&
                             closeRequested == old(closeRequested)
    {
      if succeeded {
        formData := EMPTY_FORM;
        errors := map[];
        closeRequested := true;
      }
      loading := false;
      pending := None;
    }

    /** `handleClose`: ignored while a submit is in flight; otherwise returns
        the form to its defaults, clears the errors and asks to close. */
    method HandleClose()
      modifies this
      ensures old(loading) ==> formData == old(formData) && errors == old(errors) &&
                               closeRequested == old(closeRequested)
      ensures !old(loading) ==> formData == EMPTY_FORM && errors == map[] && closeRequested
      ensures loading == old(loading) && pending == old(pending)
    {
      if !loading {
        formData := EMPTY_FORM;
        errors := map[];
        closeRequested := true;
      }
    }
  }
}
