/** The user document (`models/user.model.js`): its fields and the schema's
    setters and constraints, the pre-save password hook, and the claims the
    two token builders sign. bcrypt and jsonwebtoken are not modelled: a
    digest is an opaque value recording what was hashed and with which salt,
    and signing is a function the caller supplies. */
module UserModel {
  import opened Common

  type UserId = nat

  /** The `role` enumeration, in the schema's order, and its default. */
  const ROLES: seq<string> := ["student", "superadmin", "admin"]
  const DEFAULT_ROLE: string := "student"

  predicate IsRole(r: string) {
    r in ROLES
  }

  /** What `bcrypt.hash(password, 10)` stores: opaque, determined by the
      password and the random salt. */
  datatype Digest = Digest(secret: string, salt: nat)

  function Hash(password: string, salt: nat): Digest {
    Digest(password, salt)
  }

  /** `bcrypt.compare(candidate, stored)`: None where bcrypt throws because an
      argument is missing (no candidate, or a user without a password). */
  function Compare(candidate: Option<string>, stored: Option<Digest>): (r: Option<bool>)
    ensures r.None? <==> candidate.None? || stored.None?
  {
    if candidate.None? || stored.None? then None
    else Some(stored.value.secret == candidate.value)
  }

  datatype User = User(
    username: string,
    fullname: string,
    email: string,
    password: Option<Digest>,
    interests: seq<string>,
    role: string,
    refreshTokens: Option<string>,   // the single current refresh token
    googleId: Option<string>,
    isGoogleUser: bool)

  /** What the schema's setters store for each string field: `username` is
      lower-cased and trimmed, `fullname` and `email` are trimmed. */
  function StoredUsername(s: string): string {
    Trim(ToLower(s))
  }

  /** The trimmed `email` the schema stores. */
  function StoredEmail(s: string): string {
    Trim(s)
  }

  /** `password` is required exactly when the user is not a Google user. */
  predicate PasswordRequired(u: User) {
    !u.isGoogleUser
  }

  /** The shape every stored user has: the setters have been applied (the
      username is lower case and trimmed, the full name and the email are
      trimmed), the required fields are non-empty, and a local user has a
      password. */
  predicate WellFormed(u: User) {
    && IsLowerCase(u.username) && IsTrimmed(u.username) && u.username != ""
    && IsTrimmed(u.fullname) && u.fullname != ""
    && IsTrimmed(u.email) && u.email != ""
    && (PasswordRequired(u) ==> u.password.Some?)
  }

  /** The username setter's output is in the stored form, and the stored form
      is what the setter leaves unchanged. */
  lemma StoredUsernameNormal(s: string)
    ensures IsLowerCase(StoredUsername(s)) && IsTrimmed(StoredUsername(s))
  {
    ToLowerKeepsSpaces(s);
    ToLowerIsLowerCase(Trim(s));
  }

  /** Lower-casing before the setter, as `register` does, changes nothing. */
  lemma StoredUsernameOfLower(s: string)
    ensures StoredUsername(ToLower(s)) == StoredUsername(s)
  {
    ToLowerIdempotent(s);
  }

  lemma StoredUsernameFixed(s: string)
    requires IsLowerCase(s) && IsTrimmed(s)
    ensures StoredUsername(s) == s
  {
    LowerCaseIsFixed(s);
    TrimmedIsFixed(s);
  }

  /** What `validate()` accepts: a well-formed user whose role is in the enum. */
  predicate SchemaValid(u: User) {
    WellFormed(u) && IsRole(u.role)
  }

  /** A new local account as `User.create` builds it: the setters applied, the
      defaults (`role` student, `isGoogleUser` false, no refresh token, no
      Google id), and the pre-save hook hashing the freshly set password. */
  function NewLocalUser(username: string, fullname: string, email: string, password: string,
                        interests: seq<string>, salt: nat): (u: User)
    ensures u.role == DEFAULT_ROLE && !u.isGoogleUser && u.refreshTokens.None? && u.googleId.None?
    ensures u.password == Some(Hash(password, salt))
    ensures u.username == StoredUsername(username) && u.fullname == Trim(fullname)
    ensures u.email == StoredEmail(email) && u.interests == interests
  {
    User(StoredUsername(username), Trim(fullname), StoredEmail(email),
         PreSave(None, Some(password), salt), interests, DEFAULT_ROLE, None, None, false)
  }

  /** A new account whose required strings are not blank passes validation. */
  lemma NewLocalUserValid(username: string, fullname: string, email: string, password: string,
                          interests: seq<string>, salt: nat)
    requires !IsBlank(username) && !IsBlank(fullname) && !IsBlank(email)
    ensures SchemaValid(NewLocalUser(username, fullname, email, password, interests, salt))
  {
    StoredUsernameNormal(username);
    ToLowerKeepsSpaces(username);
    assert |StoredUsername(username)| == |Trim(username)|;
  }

  /** The pre-save hook: `password` is hashed when it was assigned since the
      document was loaded (`newPassword` is that plaintext) and left as it is
      otherwise. */
  function PreSave(stored: Option<Digest>, newPassword: Option<string>, salt: nat): Option<Digest> {
    match newPassword
    case None => stored
    case Some(p) => Some(Hash(p, salt))
  }

  /** Saving without touching `password` never re-hashes it. */
  lemma SaveKeepsHash(stored: Option<Digest>, salt: nat)
    ensures PreSave(stored, None, salt) == stored
  {
  }

  /** A password set and saved is the one `isPasswordCorrect` accepts, and the
      only one. */
  lemma SavedPasswordChecks(stored: Option<Digest>, p: string, candidate: string, salt: nat)
    ensures Compare(Some(candidate), PreSave(stored, Some(p), salt)) == Some(candidate == p)
  {
  }

  // ---------------------------------------------------------------------------
  // Token claims
  // ---------------------------------------------------------------------------

  datatype Claims =
    | AccessClaims(id: UserId, email: string, username: string, fullname: string)
    | RefreshClaims(id: UserId)

  /** `generateAceessToken`'s payload. As written, its `username` claim is
      filled from the email. */
  function AccessTokenClaims(id: UserId, u: User): (c: Claims)
    ensures c.AccessClaims? && c.id == id && c.email == u.email && c.fullname == u.fullname
    ensures c.username == u.email
  {
    AccessClaims(id, u.email, u.email, u.fullname)
  }

  /** `generateRefreshToken`'s payload: the id and nothing else. */
  function RefreshTokenClaims(id: UserId): (c: Claims)
    ensures c.RefreshClaims? && c.id == id
  {
    RefreshClaims(id)
  }

  /** A token signer: `jwt.sign(claims, secret, { expiresIn })` when the token
      is issued in second `iat`. The secret and the expiry are fixed per
      signer, so the token depends only on the claims and that second. */
  type Signer = (Claims, nat) -> string

  /** A signature scheme whose tokens carry their payload: distinct claims or
      distinct issue seconds give distinct tokens. */
  ghost predicate Injective(sign: Signer) {
    forall a: Claims, b: Claims, i: nat, j: nat :: sign(a, i) == sign(b, j) ==> a == b && i == j
  }

  /** `jwt.sign` never returns an empty string. */
  ghost predicate NonEmptyTokens(sign: Signer) {
    forall c: Claims, i: nat :: sign(c, i) != ""
  }

  /** The access token's `username` claim equals the user's username only when
      the email happens to be the same string. */
  lemma AccessUsernameClaimIsEmail(id: UserId, u: User)
    ensures AccessTokenClaims(id, u).username == u.username <==> u.email == u.username
  {
  }

  /** What `jwt.verify(token, secret)` gives in this model: the `_id` claim of
      a token that verifies, or the error message it throws. */
  datatype Verification = Verified(id: UserId) | Rejected(message: string)

  /** The user as a handler returns it after `select("-password")`. */
  function WithoutPassword(u: User): (v: User)
    ensures v.password.None? && v == u.(password := None)
  {
    u.(password := None)
  }

  /** The user as a handler returns it after `select("-password -refreshTokens")`. */
  function WithoutSecrets(u: User): (v: User)
    ensures v.password.None? && v.refreshTokens.None?
    ensures v.(password := u.password, refreshTokens := u.refreshTokens) == u
  {
    u.(password := None, refreshTokens := None)
  }

  // ---------------------------------------------------------------------------
  // The collection
  // ---------------------------------------------------------------------------

  type UserMap = map<UserId, User>

  /** `findOne(filter)`: the first user in natural order, taken here to be id
      order, that satisfies the filter; `bound` is above every id. */
  function FindOne(users: UserMap, p: User -> bool, bound: nat): (r: Option<UserId>)
    ensures r.Some? ==> r.value < bound && r.value in users && p(users[r.value])
    ensures r.Some? ==> forall j: UserId :: j < r.value && j in users ==> !p(users[j])
    ensures r.None? ==> forall j: UserId :: j < bound && j in users ==> !p(users[j])
  {
    FindFrom(users, p, 0, bound)
  }

  function FindFrom(users: UserMap, p: User -> bool, i: nat, bound: nat): (r: Option<UserId>)
    ensures r.Some? ==> i <= r.value < bound && r.value in users && p(users[r.value])
    ensures r.Some? ==> forall j: UserId :: i <= j < r.value && j in users ==> !p(users[j])
    ensures r.None? ==> forall j: UserId :: i <= j < bound && j in users ==> !p(users[j])
    decreases bound - i
  {
    if i >= bound then None
    else if i in users && p(users[i]) then Some(i)
    else FindFrom(users, p, i + 1, bound)
  }

  /** The unique indexes: no two users share a username or an email. */
  ghost predicate UniqueKeys(users: UserMap) {
    forall i, j :: i in users && j in users && i != j ==>
      users[i].username != users[j].username && users[i].email != users[j].email
  }
}
