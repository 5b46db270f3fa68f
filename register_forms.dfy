/** The two registration forms of the client. `components/Register.jsx`
    checks a username, a password and a free-text interest field in order;
    `pages/Register.jsx` collects the full account, toggles interests from
    the fixed list and sends everything but the confirmation. What each form
    sends is related to the server's `register` checks. */
module RegisterForms {
  import opened Common
  import opened Selection
  import opened UserModel
  import opened AuthController

  // ---------------------------------------------------------------------------
  // components/Register.jsx
  // ---------------------------------------------------------------------------

  datatype QuickForm = QuickForm(username: string, password: string, interests: string)

  /** `validateForm`: `true`, or the toast of the first failed check. */
  datatype Check = Passed | Refused(message: string)

  const MSG_USERNAME := "Username is required"
  const MSG_PASSWORD := "Password is required"
  const MSG_PASSWORD_SHORT := "Password must be at least 6 characters"
  const MSG_INTERESTS_REQUIRED := "At least one interest is required"

  /** The chain of early returns, in the component's order. */
  function ValidateQuickForm(f: QuickForm): (c: Check)
    ensures c.Passed? <==> !IsBlank(f.username) && |f.password| >= 6 && !IsBlank(f.interests)
    ensures IsBlank(f.username) ==> c == Refused(MSG_USERNAME)
    ensures !IsBlank(f.username) && f.password == "" ==> c == Refused(MSG_PASSWORD)
  {
    if IsBlank(f.username) then Refused(MSG_USERNAME)
    else if f.password == "" then Refused(MSG_PASSWORD)
    else if |f.password| < 6 then Refused(MSG_PASSWORD_SHORT)
    else if IsBlank(f.interests) then Refused(MSG_INTERESTS_REQUIRED)
    else Passed
  }

  /** A password that is present but short gets the length message, not the
      "required" one. */
  lemma ShortPasswordMessage(f: QuickForm)
    requires !IsBlank(f.username) && 0 < |f.password| < 6
    ensures ValidateQuickForm(f) == Refused(MSG_PASSWORD_SHORT)
  {
  }

  /** `handleSubmit`: what is passed to `register`, only when the check
      returned exactly `true`. */
  function QuickSubmit(f: QuickForm): (sent: Option<QuickForm>)
    ensures sent.Some? <==> ValidateQuickForm(f).Passed?
    ensures sent.Some? ==> sent.value == f
  {
    if ValidateQuickForm(f) == Passed then Some(f) else None
  }

  /** The request body the server reads from this form: it has no email and
      no full name, and its interests are a string, not an array. */
  function QuickRequest(f: QuickForm): RegisterRequest {
    RegisterRequest(Some(f.username), None, Some(f.password), None, None)
  }

  /** Whatever passes this form's own check, the server refuses it with 400. */
  lemma QuickFormRefusedByServer(users: UserMap, nextId: nat, f: QuickForm, salt: nat)
    requires IdsBelow(users, nextId)
    requires QuickSubmit(f).Some?
    ensures RegisterStep(users, nextId, QuickRequest(QuickSubmit(f).value), salt).reply
      == Fail(400, MSG_REGISTER_FIELDS)
  {
  }

  // ---------------------------------------------------------------------------
  // pages/Register.jsx
  // ---------------------------------------------------------------------------

  /** The interests a user can tick. */
  const INTEREST_OPTIONS: seq<string> := ["technical", "cultural", "sports", "literary", "workshop", "seminar", "others"]

  datatype AccountForm = AccountForm(
    fullname: string, username: string, email: string,
    password: string, confirmPassword: string, interests: seq<string>)

  const EMPTY_ACCOUNT_FORM := AccountForm("", "", "", "", "", [])

  /** The body sent to `register`: the form without `confirmPassword`. */
  datatype AccountPayload = AccountPayload(
    fullname: string, username: string, email: string, password: string, interests: seq<string>)

  /** `toggleInterest`. */
  function ToggleInterest(form: AccountForm, interest: string): (r: AccountForm)
    ensures r.(interests := form.interests) == form
    ensures forall i :: i in r.interests <==> (i != interest && i in form.interests) || (i == interest && interest !in form.interests)
  {
    ToggleMembers(form.interests, interest);
    form.(interests := Toggle(form.interests, interest))
  }

  /** Ticking and unticking an interest leaves the form as it was. */
  lemma ToggleInterestTwice(form: AccountForm, interest: string)
    requires interest !in form.interests
    ensures ToggleInterest(ToggleInterest(form, interest), interest) == form
  {
    ToggleTwiceAbsent(form.interests, interest);
  }

  /** Ticking only options of the list, starting from none, yields distinct
      options of the list. */
  lemma TickedInterestsDistinct(form: AccountForm, interest: string)
    requires Distinct(form.interests) && forall i :: i in form.interests ==> i in INTEREST_OPTIONS
    requires interest in INTEREST_OPTIONS
    ensures var r := ToggleInterest(form, interest);
      Distinct(r.interests) && forall i :: i in r.interests ==> i in INTEREST_OPTIONS
  {
    ToggleKeepsDistinct(form.interests, interest);
  }

  /** `const { confirmPassword, ...payload } = form`. */
  function Payload(form: AccountForm): (p: AccountPayload)
    ensures p.fullname == form.fullname && p.username == form.username && p.email == form.email
    ensures p.password == form.password && p.interests == form.interests
  {
    AccountPayload(form.fullname, form.username, form.email, form.password, form.interests)
  }

  /** The confirmation plays no part in what is sent. */
  lemma PayloadIgnoresConfirmation(form: AccountForm, c: string)
    ensures Payload(form.(confirmPassword := c)) == Payload(form)
  {
  }

  /** `handleSubmit`: nothing is sent when the two passwords differ. */
  function AccountSubmit(form: AccountForm): (sent: Option<AccountPayload>)
    ensures sent.Some? <==> form.password == form.confirmPassword
    ensures sent.Some? ==> sent.value == Payload(form)
  {
    if form.password != form.confirmPassword then None else Some(Payload(form))
  }

  /** The toast after a refused registration. The store's `register` shows it
      and swallows the error, so the page's own `catch`, which builds the same
      message, is never reached. */
  function RegistrationError(message: Option<string>): (m: string)
    ensures m != ""
    ensures Given(message) ==> m == message.value
  {
    if Given(message) then message.value else "Registration failed"
  }

  /** The request body the server reads from this page. */
  function AccountRequest(p: AccountPayload): RegisterRequest {
    RegisterRequest(Some(p.username), Some(p.email), Some(p.password), Some(p.fullname), Some(p.interests))
  }

  /** The page checks nothing but the confirmation: a form with no interest
      ticked is sent and the server answers 400. */
  lemma NoInterestRefusedByServer(users: UserMap, nextId: nat, form: AccountForm, salt: nat)
    requires IdsBelow(users, nextId)
    requires form.password == form.confirmPassword && form.interests == []
    ensures AccountSubmit(form).Some?
    ensures RegisterStep(users, nextId, AccountRequest(AccountSubmit(form).value), salt).reply
      == Fail(400, MSG_REGISTER_FIELDS)
  {
  }

  /** A filled form with at least one interest passes the server's field
      check: whether it is stored is then up to the length and uniqueness
      rules. */
  lemma FilledFormPassesFieldCheck(form: AccountForm)
    requires form.password == form.confirmPassword && form.interests != []
    requires !IsBlank(form.username) && !IsBlank(form.email) && !IsBlank(form.password) && !IsBlank(form.fullname)
    ensures AccountSubmit(form).Some? && RegisterFieldsOk(AccountRequest(AccountSubmit(form).value))
  {
  }
}
