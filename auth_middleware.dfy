/** The per-request gates of `middleware/auth.middleware.js`: `verifyJWT`,
    which finds the access token, verifies it and loads the user into
    `req.user`, and `authorizeRoles`, which lets a request through only for
    the listed roles. `jwt.verify` with the access-token secret is the
    parameter `verify`. */
module AuthMiddleware {
  import opened Common
  import opened UserModel

  const MSG_UNAUTHORIZED_TOKEN := "Unauthorized Token"
  const MSG_INVALID_ACCESS_TOKEN := "Invalid Access Token"
  const MSG_ACCESS_DEFAULT := "Invalid Access token"
  const MSG_ACCESS_DENIED := "Access denied"

  /** A gate either calls `next` with what it attached to the request, or
      answers the request itself. */
  datatype Gate<+T> = Next(value: T) | Stop(status: int, message: string)

  /** `req.cookies?.accessToken || req.header("Authorization")?.replace("Bearer", "")`:
      a truthy cookie wins; otherwise the header with its first `Bearer`
      removed, and nothing when there is no header. */
  function ExtractToken(cookie: Option<string>, header: Option<string>): (r: Option<string>)
    ensures Given(cookie) ==> r == cookie
    ensures !Given(cookie) && header.None? ==> r.None?
    ensures !Given(cookie) && header.Some? && !Includes(header.value, "Bearer") ==> r == header
    ensures !Given(cookie) && header.Some? && Includes(header.value, "Bearer") ==>
      r.Some? && |r.value| == |header.value| - 6
  {
    if Given(cookie) then cookie
    else if header.None? then None
    else Some(ReplaceFirst(header.value, "Bearer", ""))
  }

  /** The usual `Authorization: Bearer <t>` header gives `<t>` with the
      separating space still in front of it. */
  lemma BearerKeepsSpace(cookie: Option<string>, t: string)
    requires !Given(cookie)
    ensures ExtractToken(cookie, Some("Bearer " + t)) == Some(" " + t)
  {
    var h := "Bearer " + t;
    assert h[0..6] == "Bearer";
    ReplaceFirstPrefix(h, "Bearer", "");
    assert h[6..] == " " + t;
    assert "" + h[6..] == h[6..];
  }

  /** A header that is exactly `Bearer` yields the empty token, which the
      gate refuses as missing. */
  lemma BareBearerRefused(users: UserMap, verify: string -> Verification)
    ensures VerifyJwt(users, None, Some("Bearer"), verify) == Stop(401, MSG_UNAUTHORIZED_TOKEN)
  {
    ReplaceFirstPrefix("Bearer", "Bearer", "");
  }

  /** `error?.message || "Invalid Access token"`. */
  function AccessErrorMessage(message: string): (m: string)
    ensures m != ""
    ensures message != "" ==> m == message
  {
    if message == "" then MSG_ACCESS_DEFAULT else message
  }

  /** `verifyJWT`. Every failure, including the ones raised inside the `try`,
      is rethrown as 401; on success `req.user` is the user found by the
      token's id, without password and refresh token. */
  function VerifyJwt(users: UserMap, cookie: Option<string>, header: Option<string>,
                     verify: string -> Verification): (r: Gate<User>)
    ensures r.Stop? ==> r.status == 401 && r.message != ""
    ensures !Given(ExtractToken(cookie, header)) ==> r == Stop(401, MSG_UNAUTHORIZED_TOKEN)
    ensures r.Next? <==>
      var t := ExtractToken(cookie, header);
      Given(t) && verify(t.value).Verified? && verify(t.value).id in users
    ensures r.Next? ==>
      var id := verify(ExtractToken(cookie, header).value).id;
      r.value == WithoutSecrets(users[id])
  {
    var token := ExtractToken(cookie, header);
    if !Given(token) then Stop(401, MSG_UNAUTHORIZED_TOKEN)
    else match verify(token.value)
      case Rejected(message) => Stop(401, AccessErrorMessage(message))
      case Verified(id) =>
        if id !in users then Stop(401, MSG_INVALID_ACCESS_TOKEN)
        else Next(WithoutSecrets(users[id]))
  }

  /** A truthy cookie decides alone: the header is not looked at. */
  lemma CookieWins(users: UserMap, cookie: Option<string>, h1: Option<string>, h2: Option<string>,
                   verify: string -> Verification)
    requires Given(cookie)
    ensures VerifyJwt(users, cookie, h1, verify) == VerifyJwt(users, cookie, h2, verify)
  {
  }

  /** `authorizeRoles(...allowedRoles)`: `next` exactly when the request's
      user has a non-empty role among the allowed ones; 403 otherwise. */
  function AuthorizeRoles(allowed: seq<string>, user: Option<User>): (r: Gate<()>)
    ensures r.Stop? ==> r == Stop(403, MSG_ACCESS_DENIED)
    ensures r.Next? ==> user.Some? && user.value.role in allowed
  {
    if user.None? || user.value.role == "" || user.value.role !in allowed then Stop(403, MSG_ACCESS_DENIED)
    else Next(())
  }

  /** A user with a listed, non-empty role is let through. */
  lemma AuthorizeListed(allowed: seq<string>, u: User)
    requires u.role != "" && u.role in allowed
    ensures AuthorizeRoles(allowed, Some(u)) == Next(())
  {
  }

  /** Allowing more roles never turns away a user that fewer roles let in. */
  lemma AuthorizeMonotone(smaller: seq<string>, larger: seq<string>, user: Option<User>)
    requires forall r :: r in smaller ==> r in larger
    requires AuthorizeRoles(smaller, user).Next?
    ensures AuthorizeRoles(larger, user).Next?
  {
  }

  /** Even when the empty string is listed, a user without a role is refused. */
  lemma EmptyRoleRefused(allowed: seq<string>, u: User)
    requires u.role == ""
    ensures AuthorizeRoles(allowed, Some(u)).Stop?
  {
  }

  /** `verifyJWT` followed by `authorizeRoles`, as the superadmin routes mount
      them: the handler runs with `req.user` set. */
  function GuardedUser(users: UserMap, cookie: Option<string>, header: Option<string>,
                       verify: string -> Verification, allowed: seq<string>): (r: Gate<User>)
    ensures r.Next? ==>
      VerifyJwt(users, cookie, header, verify) == Next(r.value) && r.value.role in allowed
  {
    match VerifyJwt(users, cookie, header, verify)
    case Stop(status, message) => Stop(status, message)
    case Next(u) =>
      match AuthorizeRoles(allowed, Some(u))
      case Stop(status, message) => Stop(status, message)
      case Next(_) => Next(u)
  }

  /** A request reaches a role-guarded handler only on behalf of a stored user
      whose stored role is allowed, and the token named that user. */
  lemma GuardedMeansStoredRole(users: UserMap, cookie: Option<string>, header: Option<string>,
                               verify: string -> Verification, allowed: seq<string>)
    requires GuardedUser(users, cookie, header, verify, allowed).Next?
    ensures var t := ExtractToken(cookie, header);
      && Given(t) && verify(t.value).Verified? && verify(t.value).id in users
      && users[verify(t.value).id].role in allowed
  {
  }
}
