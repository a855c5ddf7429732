/** The registration form: its initial state, the per-field validation
    messages, clearing a field's message on input, and the submit gate. */
module Register {
  import opened Wrappers
  import opened Text

  datatype RegisterForm = RegisterForm(fullName: string, username: string, email: string, password: string, role: string)

  datatype FormField = FullName | Username | Email | Password | Role

  /** Every field empty and the role preset to STUDENT. */
  const InitialForm := RegisterForm("", "", "", "", "STUDENT")

  /** The role select offers STUDENT alone. */
  const RoleOptions: seq<string> := ["STUDENT"]

  /** `formData[name]`. */
  function Get(form: RegisterForm, f: FormField): string {
    match f
    case FullName => form.fullName
    case Username => form.username
    case Email => form.email
    case Password => form.password
    case Role => form.role
  }

  /** `{ ...prev, [name]: value }`: that field changes and no other. */
  function Set(form: RegisterForm, f: FormField, value: string): (g: RegisterForm)
    ensures Get(g, f) == value
    ensures forall h :: h != f ==> Get(g, h) == Get(form, h)
  {
    match f
    case FullName => form.(fullName := value)
    case Username => form.(username := value)
    case Email => form.(email := value)
    case Password => form.(password := value)
    case Role => form.(role := value)
  }

  /** The full-name check: required. */
  function FullNameError(x: string): (m: Option<string>)
    ensures m.Some? <==> IsBlank(x)
    ensures m.Some? ==> m.value == "Full name is required"
  {
    if Trim(x) == "" then Some("Full name is required") else None
  }

  /** A text that is required and has a minimum length: blankness is
      reported first, then a short value, counting any surrounding spaces. */
  function LengthError(x: string, min: nat, required: string, tooShort: string): (m: Option<string>)
    ensures m.Some? <==> IsBlank(x) || |x| < min
    ensures m.Some? && IsBlank(x) ==> m.value == required
    ensures m.Some? && !IsBlank(x) ==> m.value == tooShort
  {
    if Trim(x) == "" then Some(required)
    else if |x| < min then Some(tooShort)
    else None
  }

  /** The email check: required, then the pattern `\S+@\S+\.\S+`. */
  function EmailError(x: string): (m: Option<string>)
    ensures m.Some? <==> IsBlank(x) || !LooksLikeEmail(x)
    ensures m.Some? && IsBlank(x) ==> m.value == "Email is required"
    ensures m.Some? && !IsBlank(x) ==> m.value == "Email is invalid"
  {
    if Trim(x) == "" then Some("Email is required")
    else if !LooksLikeEmail(x) then Some("Email is invalid")
    else None
  }

  /** The message `validateForm` records for one field, if any; the role
      is never checked. */
  function FieldError(form: RegisterForm, f: FormField): (m: Option<string>)
    ensures m.Some? ==> m.value != ""
    ensures f == Role ==> m.None?
  {
    match f
    case FullName => FullNameError(form.fullName)
    case Username => LengthError(form.username, 3, "Username is required", "Username must be at least 3 characters")
    case Email => EmailError(form.email)
    case Password => LengthError(form.password, 6, "Password is required", "Password must be at least 6 characters")
    case Role => None
  }

  /** The messages of `validateForm`, keyed by field: a field has an entry
      exactly when its check fails, holding that check's message, and never
      an empty one. */
  function ValidateForm(form: RegisterForm): (errors: map<FormField, string>)
    ensures forall f :: f in errors <==> FieldError(form, f).Some?
    ensures forall f :: f in errors ==> errors[f] == FieldError(form, f).value && errors[f] != ""
  {
    map f | f in {FullName, Username, Email, Password} && FieldError(form, f).Some? :: FieldError(form, f).value
  }

  /** `Object.keys(newErrors).length === 0`. */
  predicate IsValid(form: RegisterForm) {
    ValidateForm(form) == map[]
  }

  /** A form is accepted exactly when the full name is not blank, the
      username is not blank and at least three characters long, the email
      matches the pattern `\S+@\S+\.\S+` somewhere in it, and the password is
      not blank and at least six characters long. */
  lemma ValidIffAcceptable(form: RegisterForm)
    ensures IsValid(form) <==>
      && !IsBlank(form.fullName)
      && !IsBlank(form.username) && |form.username| >= 3
      && !IsBlank(form.email) && RegexTest(form.email)
      && !IsBlank(form.password) && |form.password| >= 6
  {
    LooksLikeEmailIsRegexTest(form.email);
    var errors := ValidateForm(form);
    if errors != map[] {
      var f :| f in errors;
    }
    assert errors == map[] <== FieldError(form, FullName).None? && FieldError(form, Username).None? &&
      FieldError(form, Email).None? && FieldError(form, Password).None?;
  }

  /** The untouched form reports the four text fields as required. */
  lemma InitialFormIsIncomplete()
    ensures ValidateForm(InitialForm) == map[
      FullName := "Full name is required", Username := "Username is required",
      Email := "Email is required", Password := "Password is required"]
  {
    var e := ValidateForm(InitialForm);
    var m := map[
      FullName := "Full name is required", Username := "Username is required",
      Email := "Email is required", Password := "Password is required"];
    assert Trim("") == "" by { assert IsBlank(""); }
    forall f ensures f in e <==> f in m
                 ensures f in e ==> e[f] == m[f] {
      if f == Role {
        assert FieldError(InitialForm, f).None?;
      } else {
        assert FieldError(InitialForm, f) == Some(m[f]);
      }
    }
    assert e == m;
  }

  /** The message shown under a field: only a non-empty one. */
  predicate ShowsError(errors: map<FormField, string>, f: FormField) {
    f in errors && errors[f] != ""
  }

  /** `handleInputChange`: the field takes the typed value and, if it was
      showing a message, that message is emptied; every other field and
      message stays as it was. */
  function HandleInputChange(form: RegisterForm, errors: map<FormField, string>, f: FormField, value: string)
    : (r: (RegisterForm, map<FormField, string>))
    ensures r.0 == Set(form, f, value)
    ensures !ShowsError(r.1, f)
    ensures r.1.Keys == errors.Keys
    ensures forall h :: h != f && h in errors ==> r.1[h] == errors[h]
    ensures f in errors ==> r.1[f] == ""
  {
    (Set(form, f, value), if ShowsError(errors, f) then errors[f := ""] else errors)
  }

  datatype Submission = Rejected(errors: map<FormField, string>) | Registered(payload: RegisterForm)

  /** `handleSubmit`: an invalid form shows its messages and makes no call;
      a valid one is sent as it stands. */
  function HandleSubmit(form: RegisterForm): (s: Submission)
    ensures s.Registered? <==> IsValid(form)
    ensures s.Registered? ==> s.payload == form
    ensures s.Rejected? ==> s.errors == ValidateForm(form) && s.errors != map[]
  {
    if IsValid(form) then Registered(form) else Rejected(ValidateForm(form))
  }

  /** One keystroke or selection: the field and the value it now holds. */
  type Input = (FormField, string)

  /** The form and messages after a sequence of inputs, each applied with
      `handleInputChange` in order. */
  function AfterInputs(form: RegisterForm, errors: map<FormField, string>, inputs: seq<Input>)
    : (r: (RegisterForm, map<FormField, string>))
    decreases |inputs|
  {
    if inputs == [] then (form, errors)
    else
      var last := inputs[|inputs| - 1];
      var p := AfterInputs(form, errors, inputs[..|inputs| - 1]);
      HandleInputChange(p.0, p.1, last.0, last.1)
  }

  /** The role select can only hold one of its options. */
  predicate OffersOnly(inputs: seq<Input>) {
    forall i :: 0 <= i < |inputs| && inputs[i].0 == Role ==> inputs[i].1 in RoleOptions
  }

  /** Whatever the user types, starting from the initial form and choosing
      the role from the select, the role stays STUDENT; so every form that
      is registered registers a student. */
  lemma {:induction false} OnlyStudentsRegister(inputs: seq<Input>)
    requires OffersOnly(inputs)
    ensures AfterInputs(InitialForm, map[], inputs).0.role == "STUDENT"
    ensures var s := HandleSubmit(AfterInputs(InitialForm, map[], inputs).0);
      s.Registered? ==> s.payload.role == "STUDENT"
    decreases |inputs|
  {
    if inputs != [] {
      var init := inputs[..|inputs| - 1];
      assert OffersOnly(init) by {
        forall i | 0 <= i < |init| && init[i].0 == Role ensures init[i].1 in RoleOptions {
          assert init[i] == inputs[i];
        }
      }
      OnlyStudentsRegister(init);
      var last := inputs[|inputs| - 1];
      var f := AfterInputs(InitialForm, map[], init).0;
      assert Get(Set(f, last.0, last.1), Role) == "STUDENT" by {
        if last.0 == Role {
          assert last.1 in RoleOptions;
        } else {
          assert Get(f, Role) == "STUDENT";
        }
      }
    }
  }
}
