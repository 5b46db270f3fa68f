/** The account handlers of `controllers/auth.controller.js` over the user
    collection, a map from id to user document. Each handler is a pure step
    from the collection to the collection afterwards and the reply it sends;
    the class `UserTable` performs the same steps in place. A request body
    field is `None` when it is missing or not a string.

    Query filters go through the schema's setters before they are matched,
    as Mongoose casts them: `{ username: q }` matches the stored username
    `StoredUsername(q)`, `{ email: q }` the stored email `StoredEmail(q)`. A
    missing value matches no stored user. Errors that are not raised as
    `ApiError` (bcrypt's illegal-argument error, a validation error, a
    duplicate-key error, a property read on `null`) reach Express's default
    handler and become 500. */
module AuthController {
  import opened Common
  import opened UserModel

  const MSG_REGISTER_FIELDS := "All fields are required, including at least one interest"
  const MSG_PASSWORD_LENGTH := "Password must be 6 characters"
  const MSG_USER_EXISTS := "User is already existed"
  const MSG_LOGIN_FIELDS := "Username or email is required"
  const MSG_USER_NOT_FOUND := "User not found"
  const MSG_WRONG_PASSWORD := "Password is incorrect"
  const MSG_CHANGE_FIELDS := "All feilds are required"
  const MSG_OLD_PASSWORD := "Old password is incorrect"
  const MSG_NO_REFRESH_TOKEN := "Unauthorized refresh-token request"
  const MSG_REFRESH_DEFAULT := "invalid refersh token"
  const MSG_REFRESH_NO_USER := "Invalid refersh-token"
  const MSG_REFRESH_STALE := "Refresh token is expired or used"
  const MSG_ACCOUNT_FIELDS := "All fields are required"
  const MSG_INTERESTS := "At least one interest must be selected"
  const MSG_ROLE_NOT_FOUND := "User not found for role updation"
  const MSG_USERNAME_REQUIRED := "Username is required"
  /** Messages of errors that are not `ApiError`s; Express answers them with 500. */
  const MSG_ILLEGAL_ARGUMENTS := "Illegal arguments"
  const MSG_DUPLICATE_KEY := "E11000 duplicate key error"
  const MSG_VALIDATION := "Validation failed"
  const MSG_NULL_USER := "Cannot read properties of null"

  /** The collection's invariant: every id is below the next one handed out,
      every user has the shape the schema's setters give, and the unique
      indexes on `username` and `email` hold. */
  ghost predicate TableValid(users: UserMap, nextId: nat) {
    && IdsBelow(users, nextId)
    && (forall id :: id in users ==> WellFormed(users[id]))
    && UniqueKeys(users)
  }

  /** Every id in use is below `bound`, so a lookup up to `bound` sees every user. */
  ghost predicate IdsBelow(users: UserMap, bound: nat) {
    forall id :: id in users ==> id < bound
  }

  /** Replacing one stored user by a well-formed one whose keys no other
      user holds keeps the invariant. */
  lemma ReplaceKeepsValid(users: UserMap, nextId: nat, id: UserId, v: User)
    requires TableValid(users, nextId) && id in users && WellFormed(v)
    requires forall j :: j in users && j != id ==> users[j].username != v.username && users[j].email != v.email
    ensures TableValid(users[id := v], nextId)
  {
    var m := users[id := v];
    forall j | j in m ensures j < nextId && WellFormed(m[j]) {
      if j != id { assert m[j] == users[j]; }
    }
    forall i, j | i in m && j in m && i != j
      ensures m[i].username != m[j].username && m[i].email != m[j].email
    {
      if i != id && j != id { assert m[i] == users[i] && m[j] == users[j]; }
    }
  }

  /** A change that leaves the username, the full name and the email alone
      and keeps the password when one is required keeps the invariant. */
  lemma SameKeysKeepValid(users: UserMap, nextId: nat, id: UserId, v: User)
    requires TableValid(users, nextId) && id in users
    requires v.username == users[id].username && v.fullname == users[id].fullname && v.email == users[id].email
    requires PasswordRequired(v) ==> v.password.Some?
    ensures TableValid(users[id := v], nextId)
  {
    assert WellFormed(users[id]);
    ReplaceKeepsValid(users, nextId, id, v);
  }

  /** Adding a well-formed user under the next id, with keys no user holds,
      keeps the invariant. */
  lemma AddKeepsValid(users: UserMap, nextId: nat, v: User)
    requires TableValid(users, nextId) && WellFormed(v)
    requires forall j :: j in users ==> users[j].username != v.username && users[j].email != v.email
    ensures TableValid(users[nextId := v], nextId + 1)
  {
    var m := users[nextId := v];
    forall j | j in m ensures j < nextId + 1 && WellFormed(m[j]) {
      if j != nextId { assert m[j] == users[j]; }
    }
    forall i, j | i in m && j in m && i != j
      ensures m[i].username != m[j].username && m[i].email != m[j].email
    {
      if i != nextId && j != nextId { assert m[i] == users[i] && m[j] == users[j]; }
    }
  }

  /** The lookup finds the one user that matches. */
  lemma FindsOnlyMatch(users: UserMap, bound: nat, p: User -> bool, id: UserId)
    requires id < bound && id in users && p(users[id])
    requires forall j :: j in users && j != id ==> !p(users[j])
    ensures FindOne(users, p, bound) == Some(id)
  {
  }

  /** A handler's effect: the collection afterwards and the reply. */
  datatype Step<T> = Step(users: UserMap, reply: Outcome<T>)

  datatype Tokens = Tokens(accessToken: string, refreshToken: string)

  /** What `login` answers with: the user without the password, and the two
      tokens (which it also sets as cookies). */
  datatype Session = Session(user: User, accessToken: string, refreshToken: string)

  /** A request value that passes `register`'s field check: a string that is
      not blank after trimming. */
  predicate Filled(x: Option<string>) {
    x.Some? && !IsBlank(x.value)
  }

  lemma FilledIsGiven(x: Option<string>)
    ensures Filled(x) ==> Given(x)
  {
    if x.Some? && x.value == "" {
      assert Trim(x.value) == "";
    }
  }

  /** A request value cast for a filter on `username`: the setter applied; a
      missing value gives no key and matches no stored user. */
  function UsernameKey(q: Option<string>): (k: Option<string>)
    ensures k.Some? <==> q.Some?
  {
    if q.Some? then Some(StoredUsername(q.value)) else None
  }

  /** The same for a filter on `email`. */
  function EmailKey(q: Option<string>): (k: Option<string>)
    ensures k.Some? <==> q.Some?
  {
    if q.Some? then Some(StoredEmail(q.value)) else None
  }

  /** The filter `{ $or: [{ username }, { email }] }`. */
  function EitherFilter(username: Option<string>, email: Option<string>): User -> bool {
    var nameKey := UsernameKey(username);
    var emailKey := EmailKey(email);
    (u: User) => Some(u.username) == nameKey || Some(u.email) == emailKey
  }

  // ---------------------------------------------------------------------------
  // generateRefreshAndAccessTokens
  // ---------------------------------------------------------------------------

  /** Signs both tokens for user `id` in second `iat` and stores the refresh
      token as the user's only current one; nothing else changes. */
  function IssueTokens(users: UserMap, id: UserId, sign: Signer, iat: nat): (r: (UserMap, Tokens))
    requires id in users
    ensures r.0 == users[id := users[id].(refreshTokens := Some(r.1.refreshToken))]
    ensures r.1.accessToken == sign(AccessTokenClaims(id, users[id]), iat)
    ensures r.1.refreshToken == sign(RefreshTokenClaims(id), iat)
  {
    var u := users[id];
    var access := sign(AccessTokenClaims(id, u), iat);
    var refresh := sign(RefreshTokenClaims(id), iat);
    (users[id := u.(refreshTokens := Some(refresh))], Tokens(access, refresh))
  }

  // ---------------------------------------------------------------------------
  // register
  // ---------------------------------------------------------------------------

  datatype RegisterRequest = RegisterRequest(
    username: Option<string>, email: Option<string>, password: Option<string>,
    fullname: Option<string>, interests: Option<seq<string>>)

  /** The 400 check: four non-blank strings and a non-empty interest array. */
  predicate RegisterFieldsOk(req: RegisterRequest) {
    && Filled(req.username) && Filled(req.email) && Filled(req.password) && Filled(req.fullname)
    && req.interests.Some? && req.interests.value != []
  }

  /** The document `User.create` stores for a request that passed the checks. */
  function NewAccount(req: RegisterRequest, salt: nat): User
    requires RegisterFieldsOk(req)
  {
    NewLocalUser(ToLower(req.username.value), req.fullname.value, ToLower(req.email.value),
                 req.password.value, req.interests.value, salt)
  }

  /** A stored user holds one of the new account's unique keys. */
  predicate Collides(u: User, account: User) {
    u.username == account.username || u.email == account.email
  }

  /** No stored user is found by `register`'s lookup or holds a key of the
      new account. */
  predicate Unclaimed(users: UserMap, req: RegisterRequest, salt: nat)
    requires RegisterFieldsOk(req)
  {
    forall id :: id in users ==>
      !EitherFilter(req.username, req.email)(users[id]) && !Collides(users[id], NewAccount(req, salt))
  }

  /** The part of `register` after the field checks: the duplicate lookup,
      the unique indexes, and the insert under the next id. */
  function CreateAccount(users: UserMap, nextId: nat, req: RegisterRequest, salt: nat): (r: Step<User>)
    requires IdsBelow(users, nextId) && RegisterFieldsOk(req)
    ensures r.reply.Done? <==> Unclaimed(users, req, salt)
    ensures r.reply.Fail? ==> r.users == users
    ensures FindOne(users, EitherFilter(req.username, req.email), nextId).Some? ==> r.reply == Fail(400, MSG_USER_EXISTS)
    ensures (FindOne(users, EitherFilter(req.username, req.email), nextId).None?
             && exists id :: id in users && Collides(users[id], NewAccount(req, salt))) ==>
      r.reply == Fail(500, MSG_DUPLICATE_KEY)
    ensures r.reply.Done? ==>
      r.users == users[nextId := NewAccount(req, salt)] && r.reply == Done(201, WithoutSecrets(NewAccount(req, salt)))
  {
    if FindOne(users, EitherFilter(req.username, req.email), nextId).Some? then
      Step(users, Fail(400, MSG_USER_EXISTS))
    else
      var account := NewAccount(req, salt);
      if exists id :: id in users && Collides(users[id], account) then
        Step(users, Fail(500, MSG_DUPLICATE_KEY))
      else
        Step(users[nextId := account], Done(201, WithoutSecrets(account)))
  }

  function RegisterStep(users: UserMap, nextId: nat, req: RegisterRequest, salt: nat): (r: Step<User>)
    requires IdsBelow(users, nextId)
    ensures r.reply.Fail? ==> r.users == users
    ensures !RegisterFieldsOk(req) ==> r.reply == Fail(400, MSG_REGISTER_FIELDS)
    ensures RegisterFieldsOk(req) && |req.password.value| < 6 ==> r.reply == Fail(401, MSG_PASSWORD_LENGTH)
    ensures RegisterFieldsOk(req) && |req.password.value| >= 6 ==>
      && (FindOne(users, EitherFilter(req.username, req.email), nextId).Some? ==> r.reply == Fail(400, MSG_USER_EXISTS))
      && ((FindOne(users, EitherFilter(req.username, req.email), nextId).None?
           && exists id :: id in users && Collides(users[id], NewAccount(req, salt))) ==>
          r.reply == Fail(500, MSG_DUPLICATE_KEY))
    ensures r.reply.Done? <==>
      RegisterFieldsOk(req) && |req.password.value| >= 6 && Unclaimed(users, req, salt)
    ensures r.reply.Done? ==>
      && r.reply.status == 201
      && r.users == users[nextId := NewAccount(req, salt)]
      && r.reply.value == WithoutSecrets(NewAccount(req, salt))
  {
    if !RegisterFieldsOk(req) then Step(users, Fail(400, MSG_REGISTER_FIELDS))
    else if |req.password.value| < 6 then Step(users, Fail(401, MSG_PASSWORD_LENGTH))
    else CreateAccount(users, nextId, req, salt)
  }

  /** What `Unclaimed` asks in terms of the stored values: no user has the
      username's stored form, the email's stored form, or the stored form of
      the lower-cased email. */
  lemma UnclaimedMeans(users: UserMap, req: RegisterRequest, salt: nat)
    requires RegisterFieldsOk(req)
    ensures Unclaimed(users, req, salt) <==>
      forall id :: id in users ==>
        && users[id].username != StoredUsername(req.username.value)
        && users[id].email != StoredEmail(req.email.value)
        && users[id].email != StoredEmail(ToLower(req.email.value))
  {
    StoredUsernameOfLower(req.username.value);
  }

  /** An address that differs from a stored one only in letter case passes
      the duplicate lookup and is refused by the unique index instead: 500
      rather than 400. */
  lemma RegisterCaseOnlyDuplicate(users: UserMap, nextId: nat, req: RegisterRequest, salt: nat, id: UserId)
    requires IdsBelow(users, nextId) && RegisterFieldsOk(req) && |req.password.value| >= 6
    requires id in users && users[id].email == StoredEmail(ToLower(req.email.value))
    requires forall j :: j in users ==> !EitherFilter(req.username, req.email)(users[j])
    ensures RegisterStep(users, nextId, req, salt).reply == Fail(500, MSG_DUPLICATE_KEY)
  {
    assert FindOne(users, EitherFilter(req.username, req.email), nextId).None?;
    assert Collides(users[id], NewAccount(req, salt));
  }

  lemma RegisterKeepsValid(users: UserMap, nextId: nat, req: RegisterRequest, salt: nat)
    requires TableValid(users, nextId)
    ensures var r := RegisterStep(users, nextId, req, salt);
      TableValid(r.users, if r.reply.Done? then nextId + 1 else nextId)
  {
    var r := RegisterStep(users, nextId, req, salt);
    if r.reply.Done? {
      var account := NewAccount(req, salt);
      BlankLower(req.username.value);
      BlankLower(req.email.value);
      NewLocalUserValid(ToLower(req.username.value), req.fullname.value, ToLower(req.email.value),
                        req.password.value, req.interests.value, salt);
      StoredUsernameOfLower(req.username.value);
      AddKeepsValid(users, nextId, account);
    }
  }

  /** Lower-casing keeps a string non-blank: only letters change. */
  lemma BlankLower(s: string)
    ensures IsBlank(ToLower(s)) == IsBlank(s)
  {
    BlankIffAllSpace(s);
    BlankIffAllSpace(ToLower(s));
    ToLowerAt(s);
    if IsBlank(ToLower(s)) {
      forall i | 0 <= i < |s| ensures IsSpace(s[i]) {
        assert IsSpace(ToLower(s)[i]);
      }
    }
  }

  // ---------------------------------------------------------------------------
  // login
  // ---------------------------------------------------------------------------

  datatype LoginRequest = LoginRequest(username: Option<string>, email: Option<string>, password: Option<string>)

  /** The user `login`'s lookup finds, if any. */
  function LoginTarget(users: UserMap, nextId: nat, req: LoginRequest): Option<UserId> {
    FindOne(users, EitherFilter(req.username, req.email), nextId)
  }

  function LoginStep(users: UserMap, nextId: nat, req: LoginRequest, sign: Signer, iat: nat): (r: Step<Session>)
    ensures r.reply.Fail? ==> r.users == users
    ensures !Given(req.username) && !Given(req.email) ==> r.reply == Fail(400, MSG_LOGIN_FIELDS)
    ensures (Given(req.username) || Given(req.email)) && LoginTarget(users, nextId, req).None? ==>
      r.reply == Fail(404, MSG_USER_NOT_FOUND)
    ensures (Given(req.username) || Given(req.email)) && LoginTarget(users, nextId, req).Some? ==>
      var id := LoginTarget(users, nextId, req).value;
      && id in users
      && (Compare(req.password, users[id].password) == Some(true) ==> r.reply.Done?)
      && (Compare(req.password, users[id].password) == Some(false) ==> r.reply == Fail(401, MSG_WRONG_PASSWORD))
      && (Compare(req.password, users[id].password).None? ==> r.reply == Fail(500, MSG_ILLEGAL_ARGUMENTS))
    ensures r.reply.Done? ==>
      && r.reply.status == 200
      && (Given(req.username) || Given(req.email))
      && LoginTarget(users, nextId, req).Some?
      && var id := LoginTarget(users, nextId, req).value;
      && Compare(req.password, users[id].password) == Some(true)
      && r.users == users[id := users[id].(refreshTokens := Some(r.reply.value.refreshToken))]
      && r.reply.value.refreshToken == sign(RefreshTokenClaims(id), iat)
      && r.reply.value.accessToken == sign(AccessTokenClaims(id, users[id]), iat)
      && r.reply.value.user == WithoutPassword(r.users[id])
  {
    if !Given(req.username) && !Given(req.email) then Step(users, Fail(400, MSG_LOGIN_FIELDS))
    else match LoginTarget(users, nextId, req)
      case None => Step(users, Fail(404, MSG_USER_NOT_FOUND))
      case Some(id) =>
        match Compare(req.password, users[id].password)
        case None => Step(users, Fail(500, MSG_ILLEGAL_ARGUMENTS))
        case Some(ok) =>
          if !ok then Step(users, Fail(401, MSG_WRONG_PASSWORD))
          else
            var (after, t) := IssueTokens(users, id, sign, iat);
            Step(after, Done(200, Session(WithoutPassword(after[id]), t.accessToken, t.refreshToken)))
  }

  /** No user has the given username or email: 404, and no token is issued. */
  lemma LoginUnknownUser(users: UserMap, nextId: nat, req: LoginRequest, sign: Signer, iat: nat)
    requires TableValid(users, nextId) && (Given(req.username) || Given(req.email))
    requires forall id :: id in users ==> !EitherFilter(req.username, req.email)(users[id])
    ensures LoginStep(users, nextId, req, sign, iat) == Step(users, Fail(404, MSG_USER_NOT_FOUND))
  {
  }

  /** The user the lookup finds has a password other than the one given: 401. */
  lemma LoginWrongPassword(users: UserMap, nextId: nat, req: LoginRequest, sign: Signer, iat: nat, id: UserId)
    requires TableValid(users, nextId) && (Given(req.username) || Given(req.email))
    requires id in users && EitherFilter(req.username, req.email)(users[id])
    requires forall j :: j in users && j != id ==> !EitherFilter(req.username, req.email)(users[j])
    requires req.password.Some? && users[id].password.Some?
    requires users[id].password.value.secret != req.password.value
    ensures LoginStep(users, nextId, req, sign, iat) == Step(users, Fail(401, MSG_WRONG_PASSWORD))
  {
    FindsOnlyMatch(users, nextId, EitherFilter(req.username, req.email), id);
  }

  /** `$or` can match two users: a username of one and the email of another.
      The lookup then checks the password of the earlier one only, so the
      later user's own password is refused. */
  lemma LoginChecksFirstMatch(users: UserMap, nextId: nat, req: LoginRequest, sign: Signer, iat: nat,
                              first: UserId, second: UserId)
    requires Given(req.username) || Given(req.email)
    requires first < second < nextId && first in users && second in users
    requires EitherFilter(req.username, req.email)(users[first]) && EitherFilter(req.username, req.email)(users[second])
    requires forall j :: j in users && j < first ==> !EitherFilter(req.username, req.email)(users[j])
    requires Compare(req.password, users[first].password) == Some(false)
    ensures LoginStep(users, nextId, req, sign, iat) == Step(users, Fail(401, MSG_WRONG_PASSWORD))
  {
    var id := LoginTarget(users, nextId, req).value;
    assert id == first;
  }

  lemma LoginKeepsValid(users: UserMap, nextId: nat, req: LoginRequest, sign: Signer, iat: nat)
    requires TableValid(users, nextId)
    ensures TableValid(LoginStep(users, nextId, req, sign, iat).users, nextId)
  {
    var r := LoginStep(users, nextId, req, sign, iat);
    if r.reply.Done? {
      var id := LoginTarget(users, nextId, req).value;
      SameKeysKeepValid(users, nextId, id, users[id].(refreshTokens := Some(r.reply.value.refreshToken)));
    }
  }

  /** A login whose lookup finds exactly one user, with the right password,
      succeeds and stores the refresh token it hands out. */
  lemma LoginOnlyMatch(users: UserMap, nextId: nat, req: LoginRequest, sign: Signer, iat: nat, id: UserId)
    requires Given(req.username) || Given(req.email)
    requires id < nextId && id in users && EitherFilter(req.username, req.email)(users[id])
    requires forall j :: j in users && j != id ==> !EitherFilter(req.username, req.email)(users[j])
    requires Compare(req.password, users[id].password) == Some(true)
    ensures var r := LoginStep(users, nextId, req, sign, iat);
      && r.reply.Done?
      && r.users[id].refreshTokens == Some(r.reply.value.refreshToken)
      && r.reply.value.refreshToken == sign(RefreshTokenClaims(id), iat)
  {
    FindsOnlyMatch(users, nextId, EitherFilter(req.username, req.email), id);
  }

  /** The account `register` adds is the only one a lookup by its username
      finds, and its password is the one registered. */
  lemma RegisteredAccountFound(users: UserMap, nextId: nat, req: RegisterRequest, salt: nat)
    requires IdsBelow(users, nextId)
    requires RegisterStep(users, nextId, req, salt).reply.Done?
    ensures var after := RegisterStep(users, nextId, req, salt).users;
      var p := EitherFilter(req.username, None);
      && Given(req.username) && nextId in after && p(after[nextId])
      && (forall j :: j in after && j != nextId ==> !p(after[j]))
      && Compare(req.password, after[nextId].password) == Some(true)
  {
    var account := NewAccount(req, salt);
    var after := users[nextId := account];
    var p := EitherFilter(req.username, None);
    StoredUsernameOfLower(req.username.value);
    assert p(account);
    forall j | j in after && j != nextId ensures !p(after[j]) {
      assert j in users && after[j] == users[j];
    }
    FilledIsGiven(req.username);
  }

  /** A registered account can log in with its username and password; the
      session's refresh token is the one now stored for it. */
  lemma RegisterThenLogin(users: UserMap, nextId: nat, req: RegisterRequest, salt: nat, sign: Signer, iat: nat)
    requires IdsBelow(users, nextId)
    requires RegisterStep(users, nextId, req, salt).reply.Done?
    ensures var after := RegisterStep(users, nextId, req, salt).users;
      var r := LoginStep(after, nextId + 1, LoginRequest(req.username, None, req.password), sign, iat);
      && r.reply.Done?
      && r.users[nextId].refreshTokens == Some(r.reply.value.refreshToken)
      && r.reply.value.refreshToken == sign(RefreshTokenClaims(nextId), iat)
  {
    var after := RegisterStep(users, nextId, req, salt).users;
    RegisteredAccountFound(users, nextId, req, salt);
    LoginOnlyMatch(after, nextId + 1, LoginRequest(req.username, None, req.password), sign, iat, nextId);
  }

  // ---------------------------------------------------------------------------
  // logout
  // ---------------------------------------------------------------------------

  /** `logout` as written: `$set: { refreshTokens: undefined }` loses its only
      key when the update is cast, so the update changes nothing and the
      stored refresh token survives. */
  function LogoutAsWrittenStep(users: UserMap, id: UserId): (r: Step<()>)
    ensures r.users == users && r.reply == Done(200, ())
  {
    Step(users, Done(200, ()))
  }

  /** `logout` as intended: the user's stored refresh token is cleared. A
      missing user is not an error. */
  function LogoutStep(users: UserMap, id: UserId): (r: Step<()>)
    ensures r.reply == Done(200, ())
    ensures id in users ==> r.users == users[id := users[id].(refreshTokens := None)]
    ensures id !in users ==> r.users == users
  {
    if id in users then Step(users[id := users[id].(refreshTokens := None)], Done(200, ()))
    else Step(users, Done(200, ()))
  }

  lemma LogoutKeepsValid(users: UserMap, nextId: nat, id: UserId)
    requires TableValid(users, nextId)
    ensures TableValid(LogoutStep(users, id).users, nextId)
  {
    if id in users {
      SameKeysKeepValid(users, nextId, id, users[id].(refreshTokens := None));
    }
  }

  // ---------------------------------------------------------------------------
  // changecurrentPassword
  // ---------------------------------------------------------------------------

  function ChangePasswordStep(users: UserMap, id: UserId, oldPassword: Option<string>,
                              newPassword: Option<string>, salt: nat): (r: Step<()>)
    ensures r.reply.Fail? ==> r.users == users
    ensures !Given(oldPassword) || !Given(newPassword) ==> r.reply == Fail(400, MSG_CHANGE_FIELDS)
    ensures r.reply.Done? <==>
      Given(oldPassword) && Given(newPassword) && id in users
      && Compare(oldPassword, users[id].password) == Some(true)
    ensures Given(oldPassword) && Given(newPassword) && id !in users ==> r.reply == Fail(500, MSG_NULL_USER)
    ensures Given(oldPassword) && Given(newPassword) && id in users ==>
      && (Compare(oldPassword, users[id].password) == Some(false) ==> r.reply == Fail(400, MSG_OLD_PASSWORD))
      && (Compare(oldPassword, users[id].password).None? ==> r.reply == Fail(500, MSG_ILLEGAL_ARGUMENTS))
    ensures r.reply.Done? ==>
      r.reply.status == 200 && r.users == users[id := users[id].(password := Some(Hash(newPassword.value, salt)))]
  {
    if !Given(oldPassword) || !Given(newPassword) then Step(users, Fail(400, MSG_CHANGE_FIELDS))
    else if id !in users then Step(users, Fail(500, MSG_NULL_USER))
    else
      var u := users[id];
      match Compare(oldPassword, u.password)
      case None => Step(users, Fail(500, MSG_ILLEGAL_ARGUMENTS))
      case Some(ok) =>
        if !ok then Step(users, Fail(400, MSG_OLD_PASSWORD))
        else Step(users[id := u.(password := PreSave(u.password, newPassword, salt))], Done(200, ()))
  }

  /** After a change the new password is the one that checks, whatever its
      length: the handler has no minimum such as `register`'s six. */
  lemma ChangedPasswordChecks(users: UserMap, id: UserId, oldPassword: Option<string>,
                              newPassword: Option<string>, salt: nat, candidate: string)
    requires ChangePasswordStep(users, id, oldPassword, newPassword, salt).reply.Done?
    ensures var after := ChangePasswordStep(users, id, oldPassword, newPassword, salt).users;
      Compare(Some(candidate), after[id].password) == Some(candidate == newPassword.value)
  {
  }

  /** A one-character new password is accepted. */
  lemma ChangePasswordSkipsLength(users: UserMap, id: UserId, current: string, salt: nat)
    requires id in users && users[id].password == Some(Hash(current, salt)) && current != ""
    ensures ChangePasswordStep(users, id, Some(current), Some("x"), salt).reply == Done(200, ())
  {
  }

  lemma ChangePasswordKeepsValid(users: UserMap, nextId: nat, id: UserId, oldPassword: Option<string>,
                                 newPassword: Option<string>, salt: nat)
    requires TableValid(users, nextId)
    ensures TableValid(ChangePasswordStep(users, id, oldPassword, newPassword, salt).users, nextId)
  {
    var r := ChangePasswordStep(users, id, oldPassword, newPassword, salt);
    if r.reply.Done? {
      SameKeysKeepValid(users, nextId, id, r.users[id]);
    }
  }

  // ---------------------------------------------------------------------------
  // refreshAccessToken
  // ---------------------------------------------------------------------------

  /** `req.cookies.refreshToken || req.body.refreshToken`. */
  function IncomingRefreshToken(cookie: Option<string>, body: Option<string>): (r: Option<string>)
    ensures Given(cookie) ==> r == cookie
    ensures !Given(cookie) ==> r == body
  {
    if Given(cookie) then cookie else body
  }

  /** `error?.message || "invalid refersh token"`. */
  function RefreshErrorMessage(message: string): string {
    if message == "" then MSG_REFRESH_DEFAULT else message
  }

  function RefreshStep(users: UserMap, cookie: Option<string>, body: Option<string>,
                       verify: string -> Verification, sign: Signer, iat: nat): (r: Step<Tokens>)
    ensures r.reply.Fail? ==> r.users == users && r.reply.status == 401
    ensures !Given(IncomingRefreshToken(cookie, body)) ==> r.reply == Fail(401, MSG_NO_REFRESH_TOKEN)
    ensures r.reply.Done? <==>
      var t := IncomingRefreshToken(cookie, body);
      && Given(t) && verify(t.value).Verified?
      && verify(t.value).id in users && users[verify(t.value).id].refreshTokens == t
    ensures r.reply.Done? ==>
      var id := verify(IncomingRefreshToken(cookie, body).value).id;
      && r.reply.value.refreshToken == sign(RefreshTokenClaims(id), iat)
      && r.users == users[id := users[id].(refreshTokens := Some(r.reply.value.refreshToken))]
  {
    var incoming := IncomingRefreshToken(cookie, body);
    if !Given(incoming) then Step(users, Fail(401, MSG_NO_REFRESH_TOKEN))
    else match verify(incoming.value)
      case Rejected(message) => Step(users, Fail(401, RefreshErrorMessage(message)))
      case Verified(id) =>
        if id !in users then Step(users, Fail(401, MSG_REFRESH_NO_USER))
        else if incoming != users[id].refreshTokens then Step(users, Fail(401, MSG_REFRESH_STALE))
        else
          var (after, t) := IssueTokens(users, id, sign, iat);
          Step(after, Done(200, t))
  }

  lemma RefreshKeepsValid(users: UserMap, nextId: nat, cookie: Option<string>, body: Option<string>,
                          verify: string -> Verification, sign: Signer, iat: nat)
    requires TableValid(users, nextId)
    ensures TableValid(RefreshStep(users, cookie, body, verify, sign, iat).users, nextId)
  {
    var r := RefreshStep(users, cookie, body, verify, sign, iat);
    if r.reply.Done? {
      var id := verify(IncomingRefreshToken(cookie, body).value).id;
      SameKeysKeepValid(users, nextId, id, r.users[id]);
    }
  }

  /** Rotation: once a refresh succeeds, the token it consumed is refused,
      provided the new token differs from it, which an injective signer
      guarantees when the old token was issued in another second. */
  lemma {:induction false} ReplayRefused(users: UserMap, t: string, verify: string -> Verification,
                                         sign: Signer, issuedAt: nat, iat: nat, later: nat)
    requires Injective(sign) && issuedAt != iat
    requires verify(t).Verified? && verify(t).id in users
    requires t == sign(RefreshTokenClaims(verify(t).id), issuedAt)
    requires RefreshStep(users, Some(t), None, verify, sign, iat).reply.Done?
    ensures var after := RefreshStep(users, Some(t), None, verify, sign, iat).users;
      RefreshStep(after, Some(t), None, verify, sign, later).reply == Fail(401, MSG_REFRESH_STALE)
  {
    var r := RefreshStep(users, Some(t), None, verify, sign, iat);
    var id := verify(t).id;
    assert r.reply.value.refreshToken == sign(RefreshTokenClaims(id), iat);
    assert r.reply.value.refreshToken != t;
  }

  /** But tokens name their issue time only to the second: a refresh in the
      second the consumed token was issued stores that same token again, and
      it is accepted once more. */
  lemma SameSecondReplayAccepted(users: UserMap, t: string, verify: string -> Verification,
                                 sign: Signer, iat: nat)
    requires verify(t).Verified? && verify(t).id in users
    requires t == sign(RefreshTokenClaims(verify(t).id), iat)
    requires RefreshStep(users, Some(t), None, verify, sign, iat).reply.Done?
    ensures var after := RefreshStep(users, Some(t), None, verify, sign, iat).users;
      RefreshStep(after, Some(t), None, verify, sign, iat).reply.Done?
  {
  }

  /** After the intended logout, the user's refresh token is refused. */
  lemma RefreshAfterLogoutRefused(users: UserMap, id: UserId, t: string,
                                  verify: string -> Verification, sign: Signer, iat: nat)
    requires verify(t) == Verified(id)
    ensures RefreshStep(LogoutStep(users, id).users, Some(t), None, verify, sign, iat).reply.Fail?
  {
  }

  /** As written, logging out changes nothing, so a refresh token that was
      current before logging out is still accepted after it. */
  lemma RefreshAfterLogoutAsWrittenAccepted(users: UserMap, id: UserId, t: string,
                                            verify: string -> Verification, sign: Signer, iat: nat)
    requires RefreshStep(users, Some(t), None, verify, sign, iat).reply.Done?
    ensures RefreshStep(LogoutAsWrittenStep(users, id).users, Some(t), None, verify, sign, iat).reply.Done?
  {
  }

  /** With a verifier that accepts the tokens its signer issues, the refresh
      token a login hands out can be exchanged once. */
  lemma LoginThenRefresh(users: UserMap, nextId: nat, req: LoginRequest, sign: Signer,
                         verify: string -> Verification, iat: nat, later: nat)
    requires NonEmptyTokens(sign)
    requires forall id: UserId, s: nat :: verify(sign(RefreshTokenClaims(id), s)) == Verified(id)
    requires LoginStep(users, nextId, req, sign, iat).reply.Done?
    ensures var r := LoginStep(users, nextId, req, sign, iat);
      RefreshStep(r.users, Some(r.reply.value.refreshToken), None, verify, sign, later).reply.Done?
  {
    var r := LoginStep(users, nextId, req, sign, iat);
    var id := LoginTarget(users, nextId, req).value;
    var t := r.reply.value.refreshToken;
    assert t == sign(RefreshTokenClaims(id), iat);
    assert verify(t) == Verified(id);
    assert r.users[id].refreshTokens == Some(t);
    assert IncomingRefreshToken(Some(t), None) == Some(t);
  }

  // ---------------------------------------------------------------------------
  // updateAccountDetails, updateUserInterests, updateUserRoleBySuperAdmin
  // ---------------------------------------------------------------------------

  /** The email `updateAccountDetails` stores: trimmed and lower-cased by the
      handler, then trimmed again by the schema. */
  function UpdatedEmail(email: string): string {
    StoredEmail(ToLower(Trim(email)))
  }

  function UpdateAccountStep(users: UserMap, id: UserId, fullname: Option<string>,
                             email: Option<string>): (r: Step<User>)
    ensures r.reply.Fail? ==> r.users == users
    ensures !Given(fullname) || !Given(email) ==> r.reply == Fail(400, MSG_ACCOUNT_FIELDS)
    ensures r.reply.Done? <==>
      && Given(fullname) && Given(email) && id in users
      && Trim(fullname.value) != "" && UpdatedEmail(email.value) != ""
      && forall j :: j in users && j != id ==> users[j].email != UpdatedEmail(email.value)
    ensures Given(fullname) && Given(email) && (Trim(fullname.value) == "" || UpdatedEmail(email.value) == "") ==>
      r.reply == Fail(500, MSG_VALIDATION)
    ensures Given(fullname) && Given(email) && Trim(fullname.value) != "" && UpdatedEmail(email.value) != "" ==>
      && (id !in users ==> r.reply == Fail(404, MSG_USER_NOT_FOUND))
      && (id in users && (exists j :: j in users && j != id && users[j].email == UpdatedEmail(email.value)) ==>
            r.reply == Fail(500, MSG_DUPLICATE_KEY))
    ensures r.reply.Done? ==>
      && r.reply.status == 200
      && r.users == users[id := users[id].(fullname := Trim(fullname.value), email := UpdatedEmail(email.value))]
      && r.reply.value == WithoutPassword(r.users[id])
  {
    if !Given(fullname) || !Given(email) then Step(users, Fail(400, MSG_ACCOUNT_FIELDS))
    else
      var newName := Trim(fullname.value);
      var newEmail := UpdatedEmail(email.value);
      if newName == "" || newEmail == "" then Step(users, Fail(500, MSG_VALIDATION))
      else if id !in users then Step(users, Fail(404, MSG_USER_NOT_FOUND))
      else if exists j :: j in users && j != id && users[j].email == newEmail then
        Step(users, Fail(500, MSG_DUPLICATE_KEY))
      else
        var u := users[id].(fullname := newName, email := newEmail);
        Step(users[id := u], Done(200, WithoutPassword(u)))
  }

  /** The stored email is lower case and has no surrounding whitespace. */
  lemma UpdatedEmailNormal(email: string)
    ensures IsLowerCase(UpdatedEmail(email)) && IsTrimmed(UpdatedEmail(email))
  {
    ToLowerKeepsSpaces(Trim(email));
    ToLowerIsLowerCase(Trim(Trim(email)));
  }

  lemma UpdateAccountKeepsValid(users: UserMap, nextId: nat, id: UserId, fullname: Option<string>,
                                email: Option<string>)
    requires TableValid(users, nextId)
    ensures TableValid(UpdateAccountStep(users, id, fullname, email).users, nextId)
  {
    var r := UpdateAccountStep(users, id, fullname, email);
    if r.reply.Done? {
      UpdatedEmailNormal(email.value);
      assert WellFormed(users[id]);
      ReplaceKeepsValid(users, nextId, id, r.users[id]);
    }
  }

  function UpdateInterestsStep(users: UserMap, id: UserId, interests: Option<seq<string>>): (r: Step<Option<User>>)
    ensures r.reply.Fail? <==> interests.None? || interests.value == []
    ensures r.reply.Fail? ==> r.users == users && r.reply == Fail(400, MSG_INTERESTS)
    ensures r.reply.Done? && id in users ==>
      && r.users == users[id := users[id].(interests := interests.value)]
      && r.reply.value == Some(WithoutSecrets(r.users[id]))
    ensures r.reply.Done? && id !in users ==> r.users == users && r.reply.value.None?
  {
    if interests.None? || interests.value == [] then Step(users, Fail(400, MSG_INTERESTS))
    else if id !in users then Step(users, Done(200, None))
    else
      var u := users[id].(interests := interests.value);
      Step(users[id := u], Done(200, Some(WithoutSecrets(u))))
  }

  lemma UpdateInterestsKeepsValid(users: UserMap, nextId: nat, id: UserId, interests: Option<seq<string>>)
    requires TableValid(users, nextId)
    ensures TableValid(UpdateInterestsStep(users, id, interests).users, nextId)
  {
    if interests.Some? && interests.value != [] && id in users {
      SameKeysKeepValid(users, nextId, id, users[id].(interests := interests.value));
    }
  }

  /** `findByIdAndUpdate(id, { role })` without validators: whatever string is
      sent is stored; a missing role leaves the update empty. */
  function UpdateRoleStep(users: UserMap, id: UserId, role: Option<string>): (r: Step<User>)
    ensures r.reply.Fail? <==> id !in users
    ensures r.reply.Fail? ==> r.users == users && r.reply == Fail(404, MSG_ROLE_NOT_FOUND)
    ensures r.reply.Done? ==>
      && r.users == (if role.Some? then users[id := users[id].(role := role.value)] else users)
      && r.reply.value == WithoutSecrets(r.users[id])
  {
    if id !in users then Step(users, Fail(404, MSG_ROLE_NOT_FOUND))
    else
      var u := if role.Some? then users[id].(role := role.value) else users[id];
      Step(users[id := u], Done(200, WithoutSecrets(u)))
  }

  /** A role outside the schema's enumeration is stored as sent. */
  lemma UpdateRoleUnchecked(users: UserMap, id: UserId)
    requires id in users
    ensures var after := UpdateRoleStep(users, id, Some("root")).users;
      after[id].role == "root" && !IsRole(after[id].role)
  {
  }

  lemma UpdateRoleKeepsValid(users: UserMap, nextId: nat, id: UserId, role: Option<string>)
    requires TableValid(users, nextId)
    ensures TableValid(UpdateRoleStep(users, id, role).users, nextId)
  {
    if id in users && role.Some? {
      SameKeysKeepValid(users, nextId, id, users[id].(role := role.value));
    }
  }

  // ---------------------------------------------------------------------------
  // searchUserByUsername
  // ---------------------------------------------------------------------------

  /** The filter `{ username: key }`. */
  function UsernameFilter(key: string): User -> bool {
    (u: User) => u.username == key
  }

  function SearchUserByUsername(users: UserMap, nextId: nat, username: Option<string>): (r: Outcome<User>)
    requires IdsBelow(users, nextId)
    ensures !Given(username) ==> r == Fail(400, MSG_USERNAME_REQUIRED)
    ensures Given(username) ==>
      (r.Done? <==> exists id :: id in users && users[id].username == StoredUsername(username.value))
    ensures r.Done? ==> Given(username) && exists id ::
      id in users && users[id].username == StoredUsername(username.value) && r == Done(200, WithoutSecrets(users[id]))
    ensures r.Fail? ==> r.status == 400 || r == Fail(404, MSG_USER_NOT_FOUND)
  {
    if !Given(username) then Fail(400, MSG_USERNAME_REQUIRED)
    else
      ToLowerIdempotent(username.value);
      match FindOne(users, UsernameFilter(StoredUsername(ToLower(username.value))), nextId)
      case None => Fail(404, MSG_USER_NOT_FOUND)
      case Some(id) => Done(200, WithoutSecrets(users[id]))
  }

  /** With unique usernames, the search answers with the one user whose
      stored username is the normalised query. */
  lemma SearchFindsHolder(users: UserMap, nextId: nat, q: string, id: UserId)
    requires TableValid(users, nextId) && q != ""
    requires id in users && users[id].username == StoredUsername(q)
    ensures SearchUserByUsername(users, nextId, Some(q)) == Done(200, WithoutSecrets(users[id]))
  {
  }

  /** The search ignores letter case and surrounding whitespace. */
  lemma SearchIgnoresCase(users: UserMap, nextId: nat, a: string, b: string)
    requires TableValid(users, nextId) && a != "" && b != ""
    requires StoredUsername(a) == StoredUsername(b)
    ensures SearchUserByUsername(users, nextId, Some(a)) == SearchUserByUsername(users, nextId, Some(b))
  {
    StoredUsernameOfLower(a);
    StoredUsernameOfLower(b);
  }

  // ---------------------------------------------------------------------------
  // The collection, updated in place
  // ---------------------------------------------------------------------------

  class UserTable {
    var users: UserMap
    var nextId: nat

    ghost predicate Valid()
      reads this
    {
      TableValid(users, nextId)
    }

    constructor ()
      ensures Valid() && users == map[] && nextId == 0
    {
      users := map[];
      nextId := 0;
    }

    method Register(req: RegisterRequest, salt: nat) returns (reply: Outcome<User>)
      requires Valid()
      modifies this
      ensures Valid()
      ensures Step(users, reply) == RegisterStep(old(users), old(nextId), req, salt)
      ensures nextId == if reply.Done? then old(nextId) + 1 else old(nextId)
    {
      RegisterKeepsValid(users, nextId, req, salt);
      if !RegisterFieldsOk(req) {
        return Fail(400, MSG_REGISTER_FIELDS);
      }
      if |req.password.value| < 6 {
        return Fail(401, MSG_PASSWORD_LENGTH);
      }
      var existed := FindOne(users, EitherFilter(req.username, req.email), nextId);
      if existed.Some? {
        return Fail(400, MSG_USER_EXISTS);
      }
      var account := NewAccount(req, salt);
      if exists id :: id in users && Collides(users[id], account) {
        return Fail(500, MSG_DUPLICATE_KEY);
      }
      users := users[nextId := account];
      nextId := nextId + 1;
      reply := Done(201, WithoutSecrets(account));
    }

    /** `generateRefreshAndAccessTokens`: the stored refresh token becomes
        the one returned. */
    method GenerateTokens(id: UserId, sign: Signer, iat: nat) returns (tokens: Tokens)
      requires Valid() && id in users
      modifies this
      ensures Valid() && nextId == old(nextId)
      ensures (users, tokens) == IssueTokens(old(users), id, sign, iat)
      ensures users[id].refreshTokens == Some(tokens.refreshToken)
    {
      var u := users[id];
      var access := sign(AccessTokenClaims(id, u), iat);
      var refresh := sign(RefreshTokenClaims(id), iat);
      SameKeysKeepValid(users, nextId, id, u.(refreshTokens := Some(refresh)));
      users := users[id := u.(refreshTokens := Some(refresh))];
      tokens := Tokens(access, refresh);
    }

    method Login(req: LoginRequest, sign: Signer, iat: nat) returns (reply: Outcome<Session>)
      requires Valid()
      modifies this
      ensures Valid() && nextId == old(nextId)
      ensures Step(users, reply) == LoginStep(old(users), nextId, req, sign, iat)
    {
      if !Given(req.username) && !Given(req.email) {
        return Fail(400, MSG_LOGIN_FIELDS);
      }
      var found := LoginTarget(users, nextId, req);
      if found.None? {
        return Fail(404, MSG_USER_NOT_FOUND);
      }
      var id := found.value;
      var valid := Compare(req.password, users[id].password);
      if valid.None? {
        return Fail(500, MSG_ILLEGAL_ARGUMENTS);
      }
      if !valid.value {
        return Fail(401, MSG_WRONG_PASSWORD);
      }
      var t := GenerateTokens(id, sign, iat);
      reply := Done(200, Session(WithoutPassword(users[id]), t.accessToken, t.refreshToken));
    }

    /** `logout`, with the corrected update that clears the token. */
    method Logout(id: UserId) returns (reply: Outcome<()>)
      requires Valid()
      modifies this
      ensures Valid() && nextId == old(nextId)
      ensures Step(users, reply) == LogoutStep(old(users), id)
    {
      if id in users {
        SameKeysKeepValid(users, nextId, id, users[id].(refreshTokens := None));
        users := users[id := users[id].(refreshTokens := None)];
      }
      reply := Done(200, ());
    }

    method ChangePassword(id: UserId, oldPassword: Option<string>, newPassword: Option<string>, salt: nat)
      returns (reply: Outcome<()>)
      requires Valid()
      modifies this
      ensures Valid() && nextId == old(nextId)
      ensures Step(users, reply) == ChangePasswordStep(old(users), id, oldPassword, newPassword, salt)
    {
      ChangePasswordKeepsValid(users, nextId, id, oldPassword, newPassword, salt);
      if !Given(oldPassword) || !Given(newPassword) {
        return Fail(400, MSG_CHANGE_FIELDS);
      }
      if id !in users {
        return Fail(500, MSG_NULL_USER);
      }
      var u := users[id];
      var valid := Compare(oldPassword, u.password);
      if valid.None? {
        return Fail(500, MSG_ILLEGAL_ARGUMENTS);
      }
      if !valid.value {
        return Fail(400, MSG_OLD_PASSWORD);
      }
      users := users[id := u.(password := PreSave(u.password, newPassword, salt))];
      reply := Done(200, ());
    }

    method RefreshAccessToken(cookie: Option<string>, body: Option<string>,
                              verify: string -> Verification, sign: Signer, iat: nat)
      returns (reply: Outcome<Tokens>)
      requires Valid()
      modifies this
      ensures Valid() && nextId == old(nextId)
      ensures Step(users, reply) == RefreshStep(old(users), cookie, body, verify, sign, iat)
    {
      var incoming := IncomingRefreshToken(cookie, body);
      if !Given(incoming) {
        return Fail(401, MSG_NO_REFRESH_TOKEN);
      }
      var decoded := verify(incoming.value);
      if decoded.Rejected? {
        return Fail(401, RefreshErrorMessage(decoded.message));
      }
      var id := decoded.id;
      if id !in users {
        return Fail(401, MSG_REFRESH_NO_USER);
      }
      if incoming != users[id].refreshTokens {
        return Fail(401, MSG_REFRESH_STALE);
      }
      var t := GenerateTokens(id, sign, iat);
      reply := Done(200, t);
    }

    method UpdateAccountDetails(id: UserId, fullname: Option<string>, email: Option<string>)
      returns (reply: Outcome<User>)
      requires Valid()
      modifies this
      ensures Valid() && nextId == old(nextId)
      ensures Step(users, reply) == UpdateAccountStep(old(users), id, fullname, email)
    {
      UpdateAccountKeepsValid(users, nextId, id, fullname, email);
      if !Given(fullname) || !Given(email) {
        return Fail(400, MSG_ACCOUNT_FIELDS);
      }
      var newName := Trim(fullname.value);
      var newEmail := UpdatedEmail(email.value);
      if newName == "" || newEmail == "" {
        return Fail(500, MSG_VALIDATION);
      }
      if id !in users {
        return Fail(404, MSG_USER_NOT_FOUND);
      }
      if exists j :: j in users && j != id && users[j].email == newEmail {
        return Fail(500, MSG_DUPLICATE_KEY);
      }
      var u := users[id].(fullname := newName, email := newEmail);
      users := users[id := u];
      reply := Done(200, WithoutPassword(u));
    }

    method UpdateUserInterests(id: UserId, interests: Option<seq<string>>) returns (reply: Outcome<Option<User>>)
      requires Valid()
      modifies this
      ensures Valid() && nextId == old(nextId)
      ensures Step(users, reply) == UpdateInterestsStep(old(users), id, interests)
    {
      if interests.None? || interests.value == [] {
        return Fail(400, MSG_INTERESTS);
      }
      if id !in users {
        return Done(200, None);
      }
      var u := users[id].(interests := interests.value);
      SameKeysKeepValid(users, nextId, id, u);
      users := users[id := u];
      reply := Done(200, Some(WithoutSecrets(u)));
    }

    method UpdateUserRole(id: UserId, role: Option<string>) returns (reply: Outcome<User>)
      requires Valid()
      modifies this
      ensures Valid() && nextId == old(nextId)
      ensures Step(users, reply) == UpdateRoleStep(old(users), id, role)
    {
      if id !in users {
        return Fail(404, MSG_ROLE_NOT_FOUND);
      }
      var u := users[id];
      if role.Some? {
        u := u.(role := role.value);
      }
      SameKeysKeepValid(users, nextId, id, u);
      users := users[id := u];
      reply := Done(200, WithoutSecrets(u));
    }
  }
}
