/** The legacy sign-up page (`src/components/Signup.jsx`): a form whose
    `validateForm` fills an error object field by field, whose `handleChange`
    clears the edited field's error, and whose `handleSignup` dispatches the
    local `registerUser` action only for a valid form. */
module Signup {
  import opened Common

  datatype Field = Username | Password | ConfirmPassword | Interests

  datatype SignupFields = SignupFields(username: string, password: string, confirmPassword: string, interests: string)

  const EMPTY_FIELDS := SignupFields("", "", "", "")

  function FieldValue(f: SignupFields, name: Field): string {
    match name
    case Username => f.username
    case Password => f.password
    case ConfirmPassword => f.confirmPassword
    case Interests => f.interests
  }

  const MSG_USERNAME_REQUIRED := "Username is required"
  const MSG_USERNAME_SHORT := "Username must be at least 3 characters"
  const MSG_PASSWORD_REQUIRED := "Password is required"
  const MSG_PASSWORD_SHORT := "Password must be at least 6 characters"
  const MSG_MISMATCH := "Passwords do not match"

  /** The username's error: blank after trimming, else shorter than three
      before trimming. */
  function UsernameError(f: SignupFields): (e: Option<string>)
    ensures e.None? <==> !IsBlank(f.username) && |f.username| >= 3
  {
    if IsBlank(f.username) then Some(MSG_USERNAME_REQUIRED)
    else if |f.username| < 3 then Some(MSG_USERNAME_SHORT)
    else None
  }

  /** The password's error: empty, else shorter than six. */
  function PasswordError(f: SignupFields): (e: Option<string>)
    ensures e.None? <==> |f.password| >= 6
    ensures f.password == "" ==> e == Some(MSG_PASSWORD_REQUIRED)
  {
    if f.password == "" then Some(MSG_PASSWORD_REQUIRED)
    else if |f.password| < 6 then Some(MSG_PASSWORD_SHORT)
    else None
  }

  /** The confirmation's error, whatever the password's own errors are. */
  function ConfirmError(f: SignupFields): (e: Option<string>)
    ensures e.None? <==> f.password == f.confirmPassword
  {
    if f.password != f.confirmPassword then Some(MSG_MISMATCH) else None
  }

  /** The form a user can submit: no field has an error. */
  predicate SignupValid(f: SignupFields) {
    && !IsBlank(f.username) && |f.username| >= 3
    && |f.password| >= 6 && f.password == f.confirmPassword
  }

  /** The toast: the first error in the order the checks run. */
  function FirstError(f: SignupFields): (m: Option<string>)
    ensures m.None? <==> SignupValid(f)
    ensures UsernameError(f).Some? ==> m == UsernameError(f)
    ensures UsernameError(f).None? && PasswordError(f).Some? ==> m == PasswordError(f)
  {
    if UsernameError(f).Some? then UsernameError(f)
    else if PasswordError(f).Some? then PasswordError(f)
    else ConfirmError(f)
  }

  /** The blank test trims but the length test does not: a username of one
      letter and two spaces passes. */
  lemma UntrimmedLengthCounts()
    ensures UsernameError(SignupFields("  a", "", "", "")).None?
  {
    var s := "  a";
    assert !IsBlank(s) by {
      BlankIffAllSpace(s);
      assert !IsSpace(s[2]);
    }
  }

  /** The error object `validateForm` stores: one message per failing field. */
  function Errors(f: SignupFields): (m: map<Field, string>)
    ensures Username in m <==> UsernameError(f).Some?
    ensures Username in m ==> Some(m[Username]) == UsernameError(f)
    ensures Password in m <==> PasswordError(f).Some?
    ensures Password in m ==> Some(m[Password]) == PasswordError(f)
    ensures ConfirmPassword in m <==> ConfirmError(f).Some?
    ensures ConfirmPassword in m ==> Some(m[ConfirmPassword]) == ConfirmError(f)
    ensures Interests !in m
  {
    var byName := if UsernameError(f).Some? then map[Username := UsernameError(f).value] else map[];
    var byPassword := if PasswordError(f).Some? then byName[Password := PasswordError(f).value] else byName;
    if ConfirmError(f).Some? then byPassword[ConfirmPassword := ConfirmError(f).value] else byPassword
  }

  /** The `registerUser` payload: the form without the confirmation. */
  datatype Registration = Registration(username: string, password: string, interests: string)

  function RegistrationOf(f: SignupFields): Registration {
    Registration(f.username, f.password, f.interests)
  }

  /** What `dispatch` hands back: the action object itself for a plain
      reducer action, which has no `unwrap`; for an async thunk, a promise
      whose `unwrap` resolves when the thunk is fulfilled and throws otherwise. */
  datatype Dispatched = PlainAction | Thunk(fulfilled: bool)

  /** `registerUser` comes from `createSlice`'s `reducers`, so it is a plain action. */
  const REGISTER_USER_DISPATCH := PlainAction

  /** Whether `await dispatch(...).unwrap()` completes without throwing. */
  predicate Unwraps(d: Dispatched) {
    d.Thunk? && d.fulfilled
  }

  /** A submission's effect: the form afterwards, the action dispatched, and
      whether the login page is scheduled. */
  function SignupOutcome(f: SignupFields, d: Dispatched): (r: (SignupFields, Option<Registration>, bool))
    ensures r.1.Some? <==> SignupValid(f)
    ensures r.1.Some? ==> r.1.value == RegistrationOf(f)
    ensures r.2 <==> SignupValid(f) && Unwraps(d)
    ensures r.0 == if r.2 then EMPTY_FIELDS else f
  {
    if !SignupValid(f) then (f, None, false)
    else if Unwraps(d) then (EMPTY_FIELDS, Some(RegistrationOf(f)), true)
    else (f, Some(RegistrationOf(f)), false)
  }

  /** As written, a valid form is dispatched yet stays filled in, and no
      redirect follows: the success path is unreachable. */
  lemma AsWrittenSignupKeepsForm(f: SignupFields)
    requires SignupValid(f)
    ensures SignupOutcome(f, REGISTER_USER_DISPATCH) == (f, Some(RegistrationOf(f)), false)
  {
  }

  /** With a thunk, a fulfilled registration clears the form and redirects;
      a rejected one keeps the form. */
  lemma FulfilledSignupClears(f: SignupFields)
    requires SignupValid(f)
    ensures SignupOutcome(f, Thunk(true)) == (EMPTY_FIELDS, Some(RegistrationOf(f)), true)
    ensures SignupOutcome(f, Thunk(false)) == (f, Some(RegistrationOf(f)), false)
  {
  }

  class SignupPage {
    var formData: SignupFields
    var formErrors: map<Field, string>
    var loading: bool

    constructor ()
      ensures formData == EMPTY_FIELDS && formErrors == map[] && !loading
    {
      formData, formErrors, loading := EMPTY_FIELDS, map[], false;
    }

    /** `validateForm`: builds the error object one check at a time, stores it,
        and reports whether it is empty together with the toast it shows. */
    method ValidateForm() returns (valid: bool, toast: Option<string>)
      modifies this
      ensures formData == old(formData) && loading == old(loading)
      ensures Username in formErrors <==> UsernameError(formData).Some?
      ensures Username in formErrors ==> Some(formErrors[Username]) == UsernameError(formData)
      ensures Password in formErrors <==> PasswordError(formData).Some?
      ensures Password in formErrors ==> Some(formErrors[Password]) == PasswordError(formData)
      ensures ConfirmPassword in formErrors <==> ConfirmError(formData).Some?
      ensures ConfirmPassword in formErrors ==> Some(formErrors[ConfirmPassword]) == ConfirmError(formData)
      ensures Interests !in formErrors
      ensures formErrors == Errors(formData)
      ensures valid <==> SignupValid(formData)
      ensures toast == FirstError(formData)
    {
      var errors: map<Field, string> := map[];
      var order: seq<Field> := [];
      if IsBlank(formData.username) {
        errors, order := errors[Username := MSG_USERNAME_REQUIRED], order + [Username];
      } else if |formData.username| < 3 {
        errors, order := errors[Username := MSG_USERNAME_SHORT], order + [Username];
      }
      if formData.password == "" {
        errors, order := errors[Password := MSG_PASSWORD_REQUIRED], order + [Password];
      } else if |formData.password| < 6 {
        errors, order := errors[Password := MSG_PASSWORD_SHORT], order + [Password];
      }
      if formData.password != formData.confirmPassword {
        errors, order := errors[ConfirmPassword := MSG_MISMATCH], order + [ConfirmPassword];
      }
      // `order` is the insertion order `Object.values` follows.
      if |order| > 0 {
        toast := Some(errors[order[0]]);
      } else {
        toast := None;
      }
      formErrors := errors;
      valid := |errors| == 0;
      if !valid {
        assert order[0] in errors;
      }
    }

    /** `handleChange`: the edited field takes the new value; its error, if set
        and non-empty, is blanked; no other error changes. */
    method HandleChange(name: Field, value: string)
      modifies this
      ensures FieldValue(formData, name) == value
      ensures forall other :: other != name ==> FieldValue(formData, other) == FieldValue(old(formData), other)
      ensures name in old(formErrors) && old(formErrors)[name] != "" ==> formErrors == old(formErrors)[name := ""]
      ensures !(name in old(formErrors) && old(formErrors)[name] != "") ==> formErrors == old(formErrors)
      ensures loading == old(loading)
    {
      match name {
        case Username => formData := formData.(username := value);
        case Password => formData := formData.(password := value);
        case ConfirmPassword => formData := formData.(confirmPassword := value);
        case Interests => formData := formData.(interests := value);
      }
      if name in formErrors && formErrors[name] != "" {
        formErrors := formErrors[name := ""];
      }
    }

    /** `handleSignup`'s shared course: an invalid form dispatches nothing;
        a valid one dispatches its username, password and interests, then
        awaits `unwrap` of what `dispatch` returned. The form is cleared and
        the login page scheduled only when that completes; a throw is
        swallowed by the empty `catch`. Loading ends either way. */
    method Submit(d: Dispatched) returns (dispatched: Option<Registration>, redirected: bool)
      modifies this
      ensures (formData, dispatched, redirected) == SignupOutcome(old(formData), d)
      ensures formErrors == Errors(old(formData))
      ensures dispatched.Some? ==> !loading
      ensures dispatched.None? ==> loading == old(loading)
    {
      var valid, _ := ValidateForm();
      if !valid {
        return None, false;
      }
      loading := true;
      dispatched := Some(RegistrationOf(formData));
      redirected := Unwraps(d);
      if redirected {
        formData := EMPTY_FIELDS;
      }
      loading := false;
    }

    /** `handleSignup` as written: `registerUser` is a plain reducer action, so
        the reducer runs but `unwrap` is missing and always throws; the form
        is never cleared and the page never moves on. */
    method HandleSignup() returns (dispatched: Option<Registration>, redirected: bool)
      modifies this
      ensures dispatched.Some? <==> SignupValid(old(formData))
      ensures dispatched.Some? ==> dispatched.value == RegistrationOf(old(formData))
      ensures !redirected && formData == old(formData)
      ensures formErrors == Errors(old(formData))
      ensures dispatched.Some? ==> !loading
      ensures dispatched.None? ==> loading == old(loading)
    {
      dispatched, redirected := Submit(REGISTER_USER_DISPATCH);
    }

    /** `handleSignup` with `registerUser` an async thunk that settles as
        `fulfilled` says: the form is reset and the login page scheduled
        exactly when a valid form's registration is fulfilled. */
    method HandleSignupWithThunk(fulfilled: bool) returns (dispatched: Option<Registration>, redirected: bool)
      modifies this
      ensures dispatched.Some? <==> SignupValid(old(formData))
      ensures dispatched.Some? ==> dispatched.value == RegistrationOf(old(formData))
      ensures redirected <==> SignupValid(old(formData)) && fulfilled
      ensures formData == if redirected then EMPTY_FIELDS else old(formData)
      ensures formErrors == Errors(old(formData))
      ensures dispatched.Some? ==> !loading
      ensures dispatched.None? ==> loading == old(loading)
    {
      dispatched, redirected := Submit(Thunk(fulfilled));
    }
  }
}
