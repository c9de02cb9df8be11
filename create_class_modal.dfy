/** The "create class" form: a required name and schedule (not blank), a
    chosen subject and grade level, editing a field, and the two ways the
    form is emptied (a successful submit, or closing it while no submit is
    in flight). */
module CreateClassModal {
  import opened Common

  datatype Field = Name | Subject | Grade | Schedule

  datatype Form = Form(name: string, subject: string, grade: string, schedule: string)

  const EMPTY_FORM := Form("", "", "", "")

  function Get(form: Form, f: Field): string {
    match f
    case Name => form.name
    case Subject => form.subject
    case Grade => form.grade
    case Schedule => form.schedule
  }

  /** `{ ...form, [field]: value }`. */
  function With(form: Form, f: Field, value: string): (r: Form)
    ensures Get(r, f) == value
    ensures forall g :: g != f ==> Get(r, g) == Get(form, g)
  {
    match f
    case Name => form.(name := value)
    case Subject => form.(subject := value)
    case Grade => form.(grade := value)
    case Schedule => form.(schedule := value)
  }

  /** The message `validateForm` records for a field, None when the field passes. */
  function ErrorFor(form: Form, f: Field): Option<string> {
    match f
    case Name => if IsBlank(form.name) then Some("Class name is required") else None
    case Subject => if form.subject == "" then Some("Subject is required") else None
    case Grade => if form.grade == "" then Some("Grade level is required") else None
    case Schedule => if IsBlank(form.schedule) then Some("Schedule is required") else None
  }

  /** The errors object `validateForm` builds, field by field. */
  function Errors(form: Form): map<Field, string> {
    var m1 := RecordError(map[], Name, ErrorFor(form, Name));
    var m2 := RecordError(m1, Subject, ErrorFor(form, Subject));
    var m3 := RecordError(m2, Grade, ErrorFor(form, Grade));
    RecordError(m3, Schedule, ErrorFor(form, Schedule))
  }

  /** The errors object holds exactly the failing fields, each with its message. */
  lemma ErrorsAreFailingFields(form: Form)
    ensures forall f :: f in Errors(form) <==> ErrorFor(form, f).Some?
    ensures forall f :: f in Errors(form) ==> Errors(form)[f] == ErrorFor(form, f).value
  {
    var m := Errors(form);
    forall f ensures (f in m <==> ErrorFor(form, f).Some?) && (f in m ==> m[f] == ErrorFor(form, f).value) {
      match f
      case Name =>
      case Subject =>
      case Grade =>
      case Schedule =>
    }
  }

  /** The form passes: name and schedule hold something besides whitespace,
      and a subject and a grade level are chosen. */
  predicate Acceptable(form: Form) {
    !AllWhitespace(form.name) && form.subject != "" && form.grade != "" && !AllWhitespace(form.schedule)
  }

  /** `validateForm` reports success exactly when the form is acceptable. */
  lemma NoErrorsIffAcceptable(form: Form)
    ensures |Errors(form)| == 0 <==> Errors(form) == map[]
    ensures Errors(form) == map[] <==> Acceptable(form)
  {
    ErrorsAreFailingFields(form);
    BlankIffAllWhitespace(form.name);
    BlankIffAllWhitespace(form.schedule);
    if |Errors(form)| != 0 {
      var f :| f in Errors(form);
    }
    if !Acceptable(form) {
      if AllWhitespace(form.name) {
        assert Name in Errors(form);
      } else if form.subject == "" {
        assert Subject in Errors(form);
      } else if form.grade == "" {
        assert Grade in Errors(form);
      } else {
        assert Schedule in Errors(form);
      }
    }
  }

  /** The body of `validateForm`: the errors object, filled field by field. */
  method CollectErrors(form: Form) returns (newErrors: map<Field, string>)
    ensures newErrors == Errors(form)
    ensures forall f :: f in newErrors <==> ErrorFor(form, f).Some?
    ensures forall f :: f in newErrors ==> newErrors[f] == ErrorFor(form, f).value
  {
    newErrors := map[];
    if IsBlank(form.name) {
      newErrors := newErrors[Name := "Class name is required"];
    }
    assert newErrors == RecordError(map[], Name, ErrorFor(form, Name));
    ghost var m1 := newErrors;
    if form.subject == "" {
      newErrors := newErrors[Subject := "Subject is required"];
    }
    assert newErrors == RecordError(m1, Subject, ErrorFor(form, Subject));
    ghost var m2 := newErrors;
    if form.grade == "" {
      newErrors := newErrors[Grade := "Grade level is required"];
    }
    assert newErrors == RecordError(m2, Grade, ErrorFor(form, Grade));
    ghost var m3 := newErrors;
    if IsBlank(form.schedule) {
      newErrors := newErrors[Schedule := "Schedule is required"];
    }
    assert newErrors == RecordError(m3, Schedule, ErrorFor(form, Schedule));
    ErrorsAreFailingFields(form);
  }

  /** The form state of the dialog. */
  class ClassForm {
    var formData: Form
    var errors: map<Field, string>
    var loading: bool
    /** The form handed to `onCreateClass`, while that call is in flight. */
    var pending: Option<Form>
    /** Whether `onClose` has been asked for. */
    var closeRequested: bool

    constructor ()
      ensures formData == EMPTY_FORM && errors == map[] && !loading && pending.None? && !closeRequested
    {
      formData := EMPTY_FORM;
      errors := map[];
      loading := false;
      pending := None;
      closeRequested := false;
    }

    /** `handleInputChange`: sets one field, and blanks that field's error
        when it shows one; every other field and error stays. */
    method HandleInputChange(f: Field, value: string)
      modifies this
      ensures Get(formData, f) == value
      ensures forall g :: g != f ==> Get(formData, g) == Get(old(formData), g)
      ensures f in old(errors) && old(errors)[f] != "" ==> errors == old(errors)[f := ""]
      ensures !(f in old(errors) && old(errors)[f] != "") ==> errors == old(errors)
      ensures loading == old(loading) && pending == old(pending) && closeRequested == old(closeRequested)
    {
      formData := With(formData, f, value);
      if f in errors && errors[f] != "" {
        errors := errors[f := ""];
      }
    }

    /** `validateForm`: records the message of every failing field and
        reports whether there was none. */
    method ValidateForm() returns (ok: bool)
      modifies this
      ensures forall f :: f in errors <==> ErrorFor(formData, f).Some?
      ensures forall f :: f in errors ==> errors[f] == ErrorFor(formData, f).value
      ensures ok <==> errors == map[]
      ensures ok <==> Acceptable(formData)
      ensures formData == old(formData) && loading == old(loading) && pending == old(pending)
      ensures closeRequested == old(closeRequested)
    {
      var newErrors := CollectErrors(formData);
      NoErrorsIffAcceptable(formData);
      errors := newErrors;
      ok := |newErrors| == 0;
    }

    /** The first half of `handleSubmit`: an invalid form is not submitted;
        a valid one is handed on and the dialog waits for the result. */
    method BeginSubmit() returns (submitted: Option<Form>)
      requires !loading
      modifies this
      ensures submitted.Some? <==> Acceptable(old(formData))
      ensures submitted.Some? ==> submitted.value == formData && loading && pending == submitted
      ensures submitted.None? ==> !loading && pending == old(pending)
      ensures forall f :: f in errors <==> ErrorFor(formData, f).Some?
      ensures formData == old(formData) && closeRequested == old(closeRequested)
    {
      var ok := ValidateForm();
      if !ok {
        return None;
      }
      loading := true;
      pending := Some(formData);
      submitted := pending;
    }

    /** The second half: on success the form is emptied, the errors cleared
        and the dialog asks to close; either way it stops waiting. */
    method FinishSubmit(succeeded: bool)
      requires loading
      modifies this
      ensures !loading && pending.None?
      ensures succeeded ==> formData == EMPTY_FORM && errors == map[] && closeRequested
      ensures !succeeded ==> formData == old(formData) && errors == old(errors) &&
                             closeRequested == old(closeRequested)
    {
      if succeeded {
        formData := EMPTY_FORM;
        errors := map[];
        closeRequested := true;
      }
      loading := false;
      pending := None;
    }

    /** `handleClose`: ignored while a submit is in flight; otherwise empties
        the form, clears the errors and asks to close. */
    method HandleClose()
      modifies this
      ensures old(loading) ==> formData == old(formData) && errors == old(errors) &&
                               closeRequested == old(closeRequested)
      ensures !old(loading) ==> formData == EMPTY_FORM && errors == map[] && closeRequested
      ensures loading == old(loading) && pending == old(pending)
    {
      if !loading {
        formData := EMPTY_FORM;
        errors := map[];
        closeRequested := true;
      }
    }
  }
}
