/** The "add student" form: its fields, the checks `validateForm` applies
    (required names and guardian contact, a required and well-shaped email, a
    chosen grade level), the per-field error messages, editing a field, and
    the two ways the form is emptied (a successful submit, or closing it
    while no submit is in flight). */
module CreateStudentModal {
  import opened Common

  datatype Field = FirstName | LastName | Email | GradeLevel | GuardianContact

  datatype Form = Form(
    firstName: string, lastName: string, email: string,
    gradeLevel: string, guardianContact: string)

  const EMPTY_FORM := Form("", "", "", "", "")

  function Get(form: Form, f: Field): string {
    match f
    case FirstName => form.firstName
    case LastName => form.lastName
    case Email => form.email
    case GradeLevel => form.gradeLevel
    case GuardianContact => form.guardianContact
  }

  /** `{ ...form, [field]: value }`. */
  function With(form: Form, f: Field, value: string): (r: Form)
    ensures Get(r, f) == value
    ensures forall g :: g != f ==> Get(r, g) == Get(form, g)
  {
    match f
    case FirstName => form.(firstName := value)
    case LastName => form.(lastName := value)
    case Email => form.(email := value)
    case GradeLevel => form.(gradeLevel := value)
    case GuardianContact => form.(guardianContact := value)
  }

  // ---------------------------------------------------------------------
  // The email pattern ^[^\s@]+@[^\s@]+\.[^\s@]+$.

  /** A non-empty run of characters that are neither whitespace nor '@'. */
  predicate PlainRun(s: string) {
    s != [] && forall i :: 0 <= i < |s| ==> Plain(s[i])
  }

  /** The pattern matches: the text splits as run '@' run '.' run. */
  predicate MatchesEmailPattern(s: string) {
    exists a, d :: 0 < a < d < |s| - 1 && s[a] == '@' && s[d] == '.' &&
      PlainRun(s[..a]) && PlainRun(s[a + 1..d]) && PlainRun(s[d + 1..])
  }

  /** The shape the pattern describes, spelled out: no whitespace, exactly one
      '@', something before it, and after it a domain holding a '.' that is
      neither its first nor its last character. */
  predicate EmailShape(s: string) {
    (forall i :: 0 <= i < |s| ==> !IsJsWhitespace(s[i])) &&
    exists a :: 0 < a < |s| && s[a] == '@' &&
      (forall i :: 0 <= i < |s| && i != a ==> s[i] != '@') &&
      exists d :: a + 1 < d < |s| - 1 && s[d] == '.'
  }

  /** Neither whitespace nor '@'. */
  predicate Plain(c: char) {
    !IsJsWhitespace(c) && c != '@'
  }

  lemma PatternGivesShape(s: string)
    requires MatchesEmailPattern(s)
    ensures EmailShape(s)
  {
    var a, d :| 0 < a < d < |s| - 1 && s[a] == '@' && s[d] == '.' &&
                PlainRun(s[..a]) && PlainRun(s[a + 1..d]) && PlainRun(s[d + 1..]);
    var local, domain, top := s[..a], s[a + 1..d], s[d + 1..];
    assert forall i :: 0 <= i < |local| ==> Plain(local[i]);
    assert forall i :: 0 <= i < |domain| ==> Plain(domain[i]);
    assert forall i :: 0 <= i < |top| ==> Plain(top[i]);
    assert forall i :: 0 <= i < |s| && i != a ==> Plain(s[i]) by {
      forall i | 0 <= i < |s| && i != a ensures Plain(s[i]) {
        if i < a {
          assert local[i] == s[i];
        } else if i < d {
          assert domain[i - a - 1] == s[i];
        } else if i > d {
          assert top[i - d - 1] == s[i];
        }
      }
    }
    assert a + 1 < d by {
      assert domain != [];
    }
    assert !IsJsWhitespace(s[a]);
  }

  lemma ShapeGivesPattern(s: string)
    requires EmailShape(s)
    ensures MatchesEmailPattern(s)
  {
    var a :| 0 < a < |s| && s[a] == '@' &&
             (forall i :: 0 <= i < |s| && i != a ==> s[i] != '@') &&
             exists d :: a + 1 < d < |s| - 1 && s[d] == '.';
    var d :| a + 1 < d < |s| - 1 && s[d] == '.';
    assert forall i :: 0 <= i < |s| && i != a ==> Plain(s[i]);
    var local, domain, top := s[..a], s[a + 1..d], s[d + 1..];
    assert PlainRun(local) by {
      forall i | 0 <= i < |local| ensures Plain(local[i]) {
        assert local[i] == s[i];
      }
    }
    assert PlainRun(domain) by {
      forall i | 0 <= i < |domain| ensures Plain(domain[i]) {
        assert domain[i] == s[a + 1 + i];
      }
    }
    assert PlainRun(top) by {
      forall i | 0 <= i < |top| ensures Plain(top[i]) {
        assert top[i] == s[d + 1 + i];
      }
    }
  }

  /** The pattern holds exactly for texts of the spelled-out shape. */
  lemma EmailPatternIsShape(s: string)
    ensures MatchesEmailPattern(s) <==> EmailShape(s)
  {
    if MatchesEmailPattern(s) {
      PatternGivesShape(s);
    }
    if EmailShape(s) {
      ShapeGivesPattern(s);
    }
  }

  // ---------------------------------------------------------------------
  // Validation.

  /** The message `validateForm` records for a field, None when the field passes. */
  function ErrorFor(form: Form, f: Field): Option<string> {
    match f
    case FirstName => if IsBlank(form.firstName) then Some("First name is required") else None
    case LastName => if IsBlank(form.lastName) then Some("Last name is required") else None
    case Email =>
      if IsBlank(form.email) then Some("Email is required")
      else if !MatchesEmailPattern(form.email) then Some("Please enter a valid email address")
      else None
    case GradeLevel => if form.gradeLevel == "" then Some("Grade level is required") else None
    case GuardianContact => if IsBlank(form.guardianContact) then Some("Guardian contact is required") else None
  }

  /** The errors object `validateForm` builds, field by field. */
  function Errors(form: Form): map<Field, string> {
    var m1 := RecordError(map[], FirstName, ErrorFor(form, FirstName));
    var m2 := RecordError(m1, LastName, ErrorFor(form, LastName));
    var m3 := RecordError(m2, Email, ErrorFor(form, Email));
    var m4 := RecordError(m3, GradeLevel, ErrorFor(form, GradeLevel));
    RecordError(m4, GuardianContact, ErrorFor(form, GuardianContact))
  }

  /** The errors object holds exactly the failing fields, each with its message. */
  lemma ErrorsAreFailingFields(form: Form)
    ensures forall f :: f in Errors(form) <==> ErrorFor(form, f).Some?
    ensures forall f :: f in Errors(form) ==> Errors(form)[f] == ErrorFor(form, f).value
  {
    var e1, e2, e3 := ErrorFor(form, FirstName), ErrorFor(form, LastName), ErrorFor(form, Email);
    var e4, e5 := ErrorFor(form, GradeLevel), ErrorFor(form, GuardianContact);
    var m := RecordError(RecordError(RecordError(RecordError(RecordError(map[], FirstName, e1), LastName, e2), Email, e3),
                           GradeLevel, e4), GuardianContact, e5);
    assert m == Errors(form);
    forall f ensures (f in m <==> ErrorFor(form, f).Some?) && (f in m ==> m[f] == ErrorFor(form, f).value) {
      match f
      case FirstName =>
      case LastName =>
      case Email =>
      case GradeLevel =>
      case GuardianContact =>
    }
  }

  /** The form passes: the names and the guardian contact are not blank, the
      email has the shape of an address (the pattern is tried on the text as
      typed, so surrounding spaces fail it), and a grade level is chosen. */
  predicate Acceptable(form: Form) {
    !AllWhitespace(form.firstName) && !AllWhitespace(form.lastName) &&
    EmailShape(form.email) && form.gradeLevel != "" && !AllWhitespace(form.guardianContact)
  }

  lemma NoErrorsIffAcceptable(form: Form)
    ensures (forall f :: ErrorFor(form, f).None?) <==> Acceptable(form)
  {
    BlankIffAllWhitespace(form.firstName);
    BlankIffAllWhitespace(form.lastName);
    BlankIffAllWhitespace(form.email);
    BlankIffAllWhitespace(form.guardianContact);
    EmailPatternIsShape(form.email);
    if EmailShape(form.email) {
      assert !AllWhitespace(form.email) by {
        assert !IsJsWhitespace(form.email[0]);
      }
    }
    if !Acceptable(form) {
      if AllWhitespace(form.firstName) {
        assert ErrorFor(form, FirstName).Some?;
      } else if AllWhitespace(form.lastName) {
        assert ErrorFor(form, LastName).Some?;
      } else if !EmailShape(form.email) {
        assert ErrorFor(form, Email).Some?;
      } else if form.gradeLevel == "" {
        assert ErrorFor(form, GradeLevel).Some?;
      } else {
        assert ErrorFor(form, GuardianContact).Some?;
      }
    }
  }

  /** `validateForm` reports success exactly when the form is acceptable. */
  lemma NoErrorsIffEmpty(form: Form)
    ensures |Errors(form)| == 0 <==> Errors(form) == map[]
    ensures Errors(form) == map[] <==> Acceptable(form)
  {
    ErrorsAreFailingFields(form);
    NoErrorsIffAcceptable(form);
    if |Errors(form)| != 0 {
      var f :| f in Errors(form);
    }
  }

  /** The body of `validateForm`: the errors object, filled field by field. */
  method CollectErrors(form: Form) returns (newErrors: map<Field, string>)
    ensures newErrors == Errors(form)
    ensures forall f :: f in newErrors <==> ErrorFor(form, f).Some?
    ensures forall f :: f in newErrors ==> newErrors[f] == ErrorFor(form, f).value
  {
    newErrors := map[];
    if IsBlank(form.firstName) {
      newErrors := newErrors[FirstName := "First name is required"];
    }
    assert newErrors == RecordError(map[], FirstName, ErrorFor(form, FirstName));
    ghost var m1 := newErrors;
    if IsBlank(form.lastName) {
      newErrors := newErrors[LastName := "Last name is required"];
    }
    assert newErrors == RecordError(m1, LastName, ErrorFor(form, LastName));
    ghost var m2 := newErrors;
    if IsBlank(form.email) {
      newErrors := newErrors[Email := "Email is required"];
    } else if !MatchesEmailPattern(form.email) {
      newErrors := newErrors[Email := "Please enter a valid email address"];
    }
    assert newErrors == RecordError(m2, Email, ErrorFor(form, Email));
    ghost var m3 := newErrors;
    if form.gradeLevel == "" {
      newErrors := newErrors[GradeLevel := "Grade level is required"];
    }
    assert newErrors == RecordError(m3, GradeLevel, ErrorFor(form, GradeLevel));
    ghost var m4 := newErrors;
    if IsBlank(form.guardianContact) {
      newErrors := newErrors[GuardianContact := "Guardian contact is required"];
    }
    assert newErrors == RecordError(m4, GuardianContact, ErrorFor(form, GuardianContact));
    ErrorsAreFailingFields(form);
  }

  /** The form state of the dialog. */
  class StudentForm {
    var formData: Form
    var errors: map<Field, string>
    var loading: bool
    /** The form handed to `onCreateStudent`, while that call is in flight. */
    var pending: Option<Form>
    /** Whether `onClose` has been asked for. */
    var closeRequested: bool

    constructor ()
      ensures formData == EMPTY_FORM && errors == map[] && !loading && pending.None? && !closeRequested
    {
      formData := EMPTY_FORM;
      errors := map[];
      loading := false;
      pending := None;
      closeRequested := false;
    }

    /** `handleInputChange`: sets one field, and blanks that field's error
        when it shows one; every other field and error stays. */
    method HandleInputChange(f: Field, value: string)
      modifies this
      ensures Get(formData, f) == value
      ensures forall g :: g != f ==> Get(formData, g) == Get(old(formData), g)
      ensures f in old(errors) && old(errors)[f] != "" ==> errors == old(errors)[f := ""]
      ensures !(f in old(errors) && old(errors)[f] != "") ==> errors == old(errors)
      ensures loading == old(loading) && pending == old(pending) && closeRequested == old(closeRequested)
    {
      formData := With(formData, f, value);
      if f in errors && errors[f] != "" {
        errors := errors[f := ""];
      }
    }

    /** `validateForm`: records the message of every failing field and
        reports whether there was none. */
    method ValidateForm() returns (ok: bool)
      modifies this
      ensures forall f :: f in errors <==> ErrorFor(formData, f).Some?
      ensures forall f :: f in errors ==> errors[f] == ErrorFor(formData, f).value
      ensures ok <==> errors == map[]
      ensures ok <==> Acceptable(formData)
      ensures formData == old(formData) && loading == old(loading) && pending == old(pending)
      ensures closeRequested == old(closeRequested)
    {
      var newErrors := CollectErrors(formData);
      NoErrorsIffEmpty(formData);
      errors := newErrors;
      ok := |newErrors| == 0;
    }

    /** The first half of `handleSubmit`: an invalid form is not submitted;
        a valid one is handed on and the dialog waits for the result. */
    method BeginSubmit() returns (submitted: Option<Form>)
      requires !loading
      modifies this
      ensures submitted.Some? <==> Acceptable(old(formData))
      ensures submitted.Some? ==> submitted.value == formData && loading && pending == submitted
      ensures submitted.None? ==> !loading && pending == old(pending)
      ensures forall f :: f in errors <==> ErrorFor(formData, f).Some?
      ensures formData == old(formData) && closeRequested == old(closeRequested)
    {
      var ok := ValidateForm();
      if !ok {
        return None;
      }
      loading := true;
      pending := Some(formData);
      submitted := pending;
    }

    /** The second half: on success the form is emptied, the errors cleared
        and the dialog asks to close; either way it stops waiting. */
    method FinishSubmit(succeeded: bool)
      requires loading
      modifies this
      ensures !loading && pending.None?
      ensures succeeded ==> formData == EMPTY_FORM && errors == map[] && closeRequested
      ensures !succeeded ==> formData == old(formData) && errors == old(errors) &&
                             closeRequested == old(closeRequested)
    {
      if succeeded {
        formData := EMPTY_FORM;
        errors := map[];
        closeRequested := true;
      }
      loading := false;
      pending := None;
    }

    /** `handleClose`: ignored while a submit is in flight; otherwise empties
        the form, clears the errors and asks to close. */
    method HandleClose()
      modifies this
      ensures old(loading) ==> formData == old(formData) && errors == old(errors) &&
                               closeRequested == old(closeRequested)
      ensures !old(loading) ==> formData == EMPTY_FORM && errors == map[] && closeRequested
      ensures loading == old(loading) && pending == old(pending)
    {
      if !loading {
        formData := EMPTY_FORM;
        errors := map[];
        closeRequested := true;
      }
    }
  }
}
