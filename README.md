# EVENTALLY — a verified model of the campus event app's rules

EVENTALLY is a campus event application: an Express/Mongoose API (users,
sessions, events) and two React front-ends. This project models the rule sets
beneath its HTTP and database plumbing, as Dafny modules, and proves what
those rules promise.

- **Server response cache** (`ResponseCache`). A class over a map from URL to
  (payload, timestamp): the strict freshness test, the 200-only insert, the
  over-cap sweep and the `/events` purge.
- **Users and sessions.**
  - `UserModel`: the user document's setters and constraints, the pre-save
    hash hook and the token claims.
  - `AuthController`: every handler of the auth controller as a guarded
    transition of the user table (`map<UserId, User>`). Each handler is a
    step function; the `UserTable` class whose methods are proved against
    those functions; and the invariant (well-formed users, unique usernames
    and emails) that every step keeps.
  - `AuthMiddleware`: the `verifyJWT` and `authorizeRoles` gates.
- **Events.**
  - `EventModel`: the event schema.
  - `EventController`: the listings, creation, owner-only update and the
    thumbnail replacement, over an `EventCollection` class.
  - `EventCleanup`: the daily expiry sweep.
- **Client state.**
  - `EventsStore`: the zustand events store, with TTL cache hits, timestamp
    invalidation and deletion across three lists.
  - `AuthSlice`: the Redux reducer over a list of credentials.
- **Small pure helpers.** The API response helpers (`ApiHelpers`), the
  date/time picker (`DateTimePicker`), the personalised filter
  (`PersonalizedEvents`), the route guards (`AppGuards`), the form validators
  and submit gates (`RegisterForms`, `Signup`, `CreateEventForm`) and the
  membership toggle they share (`Selection`).

`Common` holds the string helpers: trimming, lower-casing, substring search,
decimal rendering, two-digit padding, and `Option`/`Outcome`. `Json` holds the
JSON values the client receives, with JavaScript truthiness.

Some source operations sit outside the model and are passed in as parameters:

- `now` is the clock reading;
- `sign` is a function from claims and issue second to a token string;
- `verify` is a function from a token to a user id or an error message;
- a bcrypt digest is an opaque value that records the password and the salt;
- `parseDate` is the Mongoose date cast;
- `publicIdOf` is the Cloudinary URL parser;
- an upload is an `Option` of a URL.

Errors that the code does not raise as `ApiError` are answered 500, as
Express's default handler does. These are a property read on a missing
document, a Mongoose validation or cast error, and a duplicate-key error.

## Model

| member | source | states |
|---|---|---|
| ResponseCache.CachedAt | backend/src/middleware/cache.middleware.js:13-20 | a GET is answered from the cache exactly when an entry under that exact URL has age strictly below the duration, and then with that entry's data |
| ResponseCache.Swept | backend/src/middleware/cache.middleware.js:34-42 | the sweep keeps exactly the entries whose age is not above the duration, each unchanged |
| ResponseCache.Purged | backend/src/middleware/cache.middleware.js:58-64 | the purge keeps exactly the keys that do not contain `/events`, each unchanged |
| ResponseCache.Cache.constructor | backend/src/middleware/cache.middleware.js:2-4 | the cache starts empty, with a cap of 200 in production and 100 otherwise |
| ResponseCache.Cache.Lookup | backend/src/middleware/cache.middleware.js:9-20 | a non-GET passes through; a GET is a hit iff a fresh entry exists, and the hit carries that entry's data; every other GET is a miss |
| ResponseCache.Cache.Json | backend/src/middleware/cache.middleware.js:24-46 | the wrapped `res.json` loop leaves the map `AfterJson` describes: a 200 stored with the current time, then the expired entries swept when the map is over the cap. `cleaned` counts the deleted entries |
| ResponseCache.Cache.Serve | backend/src/middleware/cache.middleware.js:7-54 | non-GET requests neither read nor write the cache; a hit returns the stored data with `X-Cache: HIT` without calling the handler; a miss calls the handler, replies with `MISS` and stores the reply as `AfterJson` says; a raised error writes nothing |
| ResponseCache.Cache.ClearEventCache | backend/src/middleware/cache.middleware.js:58-64 | the key loop leaves exactly `Purged` of the old map |
| ResponseCache.RemoveOne | backend/src/middleware/cache.middleware.js:39-40 | deleting a present key shrinks the map by exactly one, so the sweep's count is right |
| ResponseCache.StoredThenHit | backend/src/middleware/cache.middleware.js:16-42 | a stored 200 reply is served for its key until its age reaches the duration, even when storing it triggered a sweep |
| ResponseCache.NonOkWithinCapUnchanged | backend/src/middleware/cache.middleware.js:26-34 | a reply that is not 200 leaves a map that is within the cap unchanged |
| ResponseCache.NonOkOverCapSweeps | backend/src/middleware/cache.middleware.js:26-42 | a reply that is not 200 still sweeps a map that is over the cap |
| ResponseCache.SweepKeepsUnexpired | backend/src/middleware/cache.middleware.js:35-42 | a sweep with nothing expired leaves the map as it is, however far above the cap |
| ResponseCache.BoundaryAge | backend/src/middleware/cache.middleware.js:16-38 | an entry whose age equals the duration exactly is neither served nor swept |
| ResponseCache.PurgeIdempotent | backend/src/middleware/cache.middleware.js:58-64 | purging twice is purging once |
| ResponseCache.PurgeMissesEvents | backend/src/middleware/cache.middleware.js:58-64 | after a purge, no URL containing `/events` is served from the cache |
| UserModel.Compare | backend/src/models/user.model.js:71-73 | `bcrypt.compare` fails exactly when the candidate or the stored hash is missing |
| UserModel.StoredUsernameNormal | backend/src/models/user.model.js:6-13 | the username setter's output is lower case and trimmed |
| UserModel.StoredUsernameOfLower | backend/src/models/user.model.js:6-13 | lower-casing before the setter changes nothing |
| UserModel.StoredUsernameFixed | backend/src/models/user.model.js:6-13 | a lower-case, trimmed username is stored as it is |
| UserModel.NewLocalUser | backend/src/models/user.model.js:4-67 | a created local user has the setters applied, role `student`, `isGoogleUser` false, no refresh token or Google id, and the hash of the given password |
| UserModel.NewLocalUserValid | backend/src/models/user.model.js:6-40 | a new account whose username, full name and email are not blank passes the schema's validation |
| UserModel.SaveKeepsHash | backend/src/models/user.model.js:63-67 | saving without modifying `password` leaves the stored hash unchanged |
| UserModel.SavedPasswordChecks | backend/src/models/user.model.js:63-73 | after a password is set and saved, `isPasswordCorrect` accepts exactly that password |
| UserModel.AccessTokenClaims | backend/src/models/user.model.js:77-84 | the access token carries `_id`, `email` and `fullname`, and a `username` claim set to the email |
| UserModel.RefreshTokenClaims | backend/src/models/user.model.js:91-96 | the refresh token carries only `_id` |
| UserModel.AccessUsernameClaimIsEmail | backend/src/models/user.model.js:81 | the `username` claim equals the user's username only when the email is that same string |
| UserModel.WithoutPassword | backend/src/controllers/auth.controller.js:216 | `select("-password")` clears the password and nothing else |
| UserModel.WithoutSecrets | backend/src/middleware/auth.middleware.js:19 | `select("-password -refreshTokens")` clears those two fields and nothing else |
| UserModel.FindOne | backend/src/controllers/auth.controller.js:198-203 | `findOne` returns the first user in id order that matches the filter, or none when no user matches |
| UserModel.FindFrom | backend/src/controllers/auth.controller.js:150-156 | the same search, starting at a given id |
| AuthController.ReplaceKeepsValid | backend/src/models/user.model.js:6-45 | replacing a user with a well-formed one whose keys no other user holds keeps the table invariant |
| AuthController.SameKeysKeepValid | backend/src/models/user.model.js:6-45 | an update that keeps a user's username, full name and email, and the password a local user needs, keeps the invariant |
| AuthController.AddKeepsValid | backend/src/models/user.model.js:6-45 | adding a well-formed user with fresh keys under the next id keeps the invariant |
| AuthController.FindsOnlyMatch | backend/src/controllers/auth.controller.js:198-203 | when exactly one user matches a filter, `findOne` finds it |
| AuthController.FilledIsGiven | backend/src/controllers/auth.controller.js:136-143 | a field that is present and not blank is truthy |
| AuthController.UsernameKey | backend/src/controllers/auth.controller.js:150-156 | the username query value is present exactly when the request gave one (the filter is cast through the setter) |
| AuthController.EmailKey | backend/src/controllers/auth.controller.js:150-156 | the same for the email query value |
| AuthController.IssueTokens | backend/src/controllers/auth.controller.js:107-120 | both tokens are signed from the user's claims, and the refresh token becomes the user's only stored one; nothing else changes |
| AuthController.UserTable.GenerateTokens | backend/src/controllers/auth.controller.js:107-120 | the method leaves the table and tokens `IssueTokens` describes, so the stored refresh token is the one returned |
| AuthController.CreateAccount | backend/src/controllers/auth.controller.js:150-176 | a user found by the `$or` lookup gives 400 "User is already existed"; when the lookup finds none but a stored user holds a key of the new account (a case-only email duplicate), the unique index gives 500; success iff neither, and then 201 with the new account stored under the next id |
| AuthController.RegisterStep | backend/src/controllers/auth.controller.js:122-179 | 400 unless the four strings are filled and interests is a non-empty array; then 401 for a password shorter than 6; then 400 when the lookup finds a user and 500 when only the unique index collides; success stores exactly the new account and returns it without secrets |
| AuthController.UnclaimedMeans | backend/src/controllers/auth.controller.js:150-164 | registration is free iff no user holds the stored username, the trimmed email or the lowercased email |
| AuthController.RegisterCaseOnlyDuplicate | backend/src/controllers/auth.controller.js:150-164 | an email that differs from a stored one only in case passes the lookup and fails at the unique index with 500 |
| AuthController.RegisterKeepsValid | backend/src/controllers/auth.controller.js:122-179 | registration keeps the table invariant |
| AuthController.BlankLower | backend/src/controllers/auth.controller.js:158-164 | lower-casing does not change whether a string is blank |
| AuthController.LoginStep | backend/src/controllers/auth.controller.js:181-231 | 400 without a username or email; 404 when no user matches; otherwise the first matching user decides: a password that checks succeeds, one that does not gives 401, and a missing password or hash gives 500. Success issues the access token signed from that user's claims, stores the refresh token and returns the user without password |
| AuthController.LoginChecksFirstMatch | backend/src/controllers/auth.controller.js:193-210 | when the `$or` matches two users (one's username, another's email), only the earlier one's password is checked, so the later user's password is refused with 401 |
| AuthController.LoginUnknownUser | backend/src/controllers/auth.controller.js:198-203 | a login that matches no user answers 404 and changes nothing |
| AuthController.LoginWrongPassword | backend/src/controllers/auth.controller.js:206-210 | a wrong password answers 401 and changes nothing |
| AuthController.LoginKeepsValid | backend/src/controllers/auth.controller.js:181-231 | login keeps the table invariant |
| AuthController.LoginOnlyMatch | backend/src/controllers/auth.controller.js:198-213 | the user a login uniquely identifies, given the right password, gets the new refresh token |
| AuthController.RegisteredAccountFound | backend/src/controllers/auth.controller.js:158-210 | after a registration, its username finds exactly the new account and its password checks |
| AuthController.RegisterThenLogin | backend/src/controllers/auth.controller.js:122-231 | a login with the credentials just registered succeeds and stores its refresh token |
| AuthController.LogoutAsWrittenStep | backend/src/controllers/auth.controller.js:233-254 | as written, `$set: {refreshTokens: undefined}` is stripped, so logout answers 200 and leaves the table as it was |
| AuthController.LogoutStep | backend/src/controllers/auth.controller.js:233-254 | the intended logout answers 200 and clears the caller's stored refresh token, changing nothing else |
| AuthController.LogoutKeepsValid | backend/src/controllers/auth.controller.js:233-254 | logout keeps the table invariant |
| AuthController.ChangePasswordStep | backend/src/controllers/auth.controller.js:256-277 | 400 unless both passwords are given; then 500 for a missing user (a property read on `null`); then 500 when the old password or the stored hash is missing, 400 "Old password is incorrect" when it does not check, and 200 iff it checks, storing the hash of the new password |
| AuthController.ChangedPasswordChecks | backend/src/controllers/auth.controller.js:264-271 | after a change, exactly the new password checks |
| AuthController.ChangePasswordSkipsLength | backend/src/controllers/auth.controller.js:256-277 | a one-character new password is accepted, since no length check applies here |
| AuthController.ChangePasswordKeepsValid | backend/src/controllers/auth.controller.js:256-277 | a password change keeps the table invariant |
| AuthController.IncomingRefreshToken | backend/src/controllers/auth.controller.js:287 | the cookie wins over the body |
| AuthController.RefreshStep | backend/src/controllers/auth.controller.js:286-325 | every failure is 401 and changes nothing; success iff the token verifies, its user exists and holds exactly that token; success rotates the stored token to the newly signed one |
| AuthController.RefreshKeepsValid | backend/src/controllers/auth.controller.js:286-325 | refresh keeps the table invariant |
| AuthController.ReplayRefused | backend/src/controllers/auth.controller.js:298-313 | after a rotation in a later second, replaying the superseded token is refused with 401 |
| AuthController.SameSecondReplayAccepted | backend/src/controllers/auth.controller.js:298-313 | a replay signed in the same second is accepted, because `jwt.sign` produces the same token again |
| AuthController.RefreshAfterLogoutRefused | backend/src/controllers/auth.controller.js:233-305 | with the intended logout, a later refresh with any token of that user fails |
| AuthController.RefreshAfterLogoutAsWrittenAccepted | backend/src/controllers/auth.controller.js:233-305 | as written, a refresh token that worked before logout still works after it |
| AuthController.LoginThenRefresh | backend/src/controllers/auth.controller.js:181-325 | the refresh token a login returns is accepted by the next refresh |
| AuthController.UpdateAccountStep | backend/src/controllers/auth.controller.js:328-357 | 400 unless the full name and the email are both given; success stores the trimmed full name and the trimmed, lower-cased email and returns the user without password; a blank trimmed name or email gives 500 from the validators, then a missing user gives 404 "User not found", then an email another user holds gives 500 from the unique index; every failure changes nothing |
| AuthController.UpdatedEmailNormal | backend/src/controllers/auth.controller.js:335-346 | the stored email is lower case and trimmed |
| AuthController.UpdateAccountKeepsValid | backend/src/controllers/auth.controller.js:328-357 | the account update keeps the table invariant |
| AuthController.UpdateInterestsStep | backend/src/controllers/auth.controller.js:359-374 | 400 exactly for a missing or empty list; otherwise the list replaces the user's interests; a missing user yields null and no change |
| AuthController.UpdateInterestsKeepsValid | backend/src/controllers/auth.controller.js:359-374 | the interests update keeps the table invariant |
| AuthController.UpdateRoleStep | backend/src/controllers/auth.controller.js:376-392 | 404 exactly when the user is missing; otherwise the role, when given, is stored and the user returned without secrets |
| AuthController.UpdateRoleUnchecked | backend/src/controllers/auth.controller.js:380 | a role outside the enumeration is stored, since the update runs no validators |
| AuthController.UpdateRoleKeepsValid | backend/src/controllers/auth.controller.js:376-392 | the role update keeps the table invariant |
| AuthController.SearchUserByUsername | backend/src/controllers/auth.controller.js:394-408 | 400 without a username; found iff a user has the setter-normalised name, and then a user holding that name, without secrets; otherwise 404 |
| AuthController.SearchFindsHolder | backend/src/controllers/auth.controller.js:394-408 | with unique usernames, the search answers 200 with exactly the user whose stored username is the normalised query |
| AuthController.SearchIgnoresCase | backend/src/controllers/auth.controller.js:397-405 | two queries with the same normalised form give the same answer |
| AuthController.UserTable.constructor | backend/src/models/user.model.js:4-59 | an empty table satisfies the invariant |
| AuthController.UserTable.Register | backend/src/controllers/auth.controller.js:122-179 | the method's new table and reply are `RegisterStep`'s, and the invariant holds |
| AuthController.UserTable.Login | backend/src/controllers/auth.controller.js:181-231 | the method's new table and reply are `LoginStep`'s |
| AuthController.UserTable.Logout | backend/src/controllers/auth.controller.js:233-254 | the method's new table and reply are `LogoutStep`'s |
| AuthController.UserTable.ChangePassword | backend/src/controllers/auth.controller.js:256-277 | the method's new table and reply are `ChangePasswordStep`'s |
| AuthController.UserTable.RefreshAccessToken | backend/src/controllers/auth.controller.js:286-325 | the method's new table and reply are `RefreshStep`'s |
| AuthController.UserTable.UpdateAccountDetails | backend/src/controllers/auth.controller.js:328-357 | the method's new table and reply are `UpdateAccountStep`'s |
| AuthController.UserTable.UpdateUserInterests | backend/src/controllers/auth.controller.js:359-374 | the method's new table and reply are `UpdateInterestsStep`'s |
| AuthController.UserTable.UpdateUserRole | backend/src/controllers/auth.controller.js:376-392 | the method's new table and reply are `UpdateRoleStep`'s |
| AuthMiddleware.ExtractToken | backend/src/middleware/auth.middleware.js:8 | a truthy cookie wins; otherwise the header with its first `Bearer` removed, which shortens it by exactly six characters |
| AuthMiddleware.BearerKeepsSpace | backend/src/middleware/auth.middleware.js:8 | `Bearer <t>` yields `" " + t`: the space before the token stays |
| AuthMiddleware.BareBearerRefused | backend/src/middleware/auth.middleware.js:8-12 | a header that is only `Bearer` leaves an empty token and is refused with 401 |
| AuthMiddleware.AccessErrorMessage | backend/src/middleware/auth.middleware.js:29 | the caught error's message is kept, with a non-empty default |
| AuthMiddleware.VerifyJwt | backend/src/middleware/auth.middleware.js:6-31 | every failure is 401; passes iff the token is truthy, verifies and names a stored user; the request's user is that user without secrets |
| AuthMiddleware.CookieWins | backend/src/middleware/auth.middleware.js:8 | with a cookie present, the header does not matter |
| AuthMiddleware.AuthorizeRoles | backend/src/middleware/auth.middleware.js:33-43 | a refusal is 403 "Access denied"; passing means the user exists and their role is allowed |
| AuthMiddleware.AuthorizeListed | backend/src/middleware/auth.middleware.js:37 | a non-empty allowed role passes |
| AuthMiddleware.AuthorizeMonotone | backend/src/middleware/auth.middleware.js:37 | enlarging the allowed roles never refuses a role a smaller list accepted |
| AuthMiddleware.EmptyRoleRefused | backend/src/middleware/auth.middleware.js:37 | an empty role is refused whatever the list |
| AuthMiddleware.GuardedUser | backend/src/routes/event.route.js:25-31 | the handler behind both gates runs only for a verified user whose role is allowed |
| AuthMiddleware.GuardedMeansStoredRole | backend/src/routes/event.route.js:25-31 | passing both gates means the token names a stored user whose stored role is allowed |
| EventModel.TrimOpt | backend/src/models/event.model.js:33-36 | an optional trimmed field stays absent or is trimmed |
| EventModel.NewEvent | backend/src/models/event.model.js:3-73 | a created event has every string setter applied and `isApproved` false |
| EventModel.NewEventValid | backend/src/models/event.model.js:21-60 | a new event validates iff its required strings are not blank and every domain is in the enumeration; an empty domain list is allowed |
| EventModel.UnknownDomainInvalid | backend/src/models/event.model.js:55-60 | one domain outside the enumeration makes the event invalid |
| EventCleanup.Retained | backend/src/utils/cleanupEvents.js:9-10 | `deleteMany` keeps exactly the events dated no earlier than `now`, each unchanged |
| EventCleanup.ExpiredIds | backend/src/utils/cleanupEvents.js:10 | the deleted ids are exactly those of events dated strictly before `now` |
| EventCleanup.DeletedCount | backend/src/utils/cleanupEvents.js:10-13 | `deletedCount` is the number of expired events |
| EventCleanup.SweepIdempotent | backend/src/utils/cleanupEvents.js:10 | a second sweep at the same `now` deletes nothing |
| EventCleanup.NowSurvives | backend/src/utils/cleanupEvents.js:10 | an event dated at or after `now` survives unchanged |
| EventCleanup.LaterSweepsMore | backend/src/utils/cleanupEvents.js:10 | a later sweep keeps no more events than an earlier one |
| EventCleanup.LogsIffExpired | backend/src/utils/cleanupEvents.js:12-14 | the log line is written iff some event expired |
| EventController.InIdOrder | backend/src/controllers/event.controller.js:131 | the natural-order listing holds every stored event once, in increasing id order |
| EventController.InsertByDate | backend/src/controllers/event.controller.js:131 | inserting adds exactly one element |
| EventController.InsertKeepsSorted | backend/src/controllers/event.controller.js:131 | inserting into a date-sorted list keeps it sorted |
| EventController.SortByDate | backend/src/controllers/event.controller.js:131 | the sort is a permutation |
| EventController.SortByDateSorted | backend/src/controllers/event.controller.js:131 | the sort's result is ascending by `event_date` |
| EventController.GetAllEventsCorrect | backend/src/controllers/event.controller.js:130-141 | `getAllEvents` returns every stored event exactly once, ascending by `event_date` |
| EventController.FilterByInterests | backend/src/controllers/event.controller.js:150-154 | the filter never grows the list |
| EventController.FilterMembers | backend/src/controllers/event.controller.js:150-154 | the filter keeps exactly the events with a domain in the interests |
| EventController.FilterKeepsOrder | backend/src/controllers/event.controller.js:150-154 | the filter keeps the listing order |
| EventController.FilterNoInterests | backend/src/controllers/event.controller.js:150-154 | `$in: []` matches nothing |
| EventController.GetEventsByUserInterests | backend/src/controllers/event.controller.js:143-163 | 400 exactly when interests are missing; otherwise 200 with exactly the events sharing a domain with them |
| EventController.InterestEventsInIdOrder | backend/src/controllers/event.controller.js:150-154 | the matching events come in natural order |
| EventController.StoredUserHasInterests | backend/src/controllers/event.controller.js:144-148 | a stored user always has an interests array, so that 400 does not occur |
| EventController.NoInterestsNoEvents | backend/src/controllers/event.controller.js:146-154 | an empty interests array is truthy and gives 200 with no events |
| EventController.ThumbnailUrl | backend/src/controllers/event.controller.js:209 | the upload's URL, or `""` when the upload yields nothing |
| EventController.CreateEventStep | backend/src/controllers/event.controller.js:166-221 | 400 unless the five required fields are truthy and `domains` is a non-empty array; a date that does not cast or a document that fails validation gives 500; success iff neither, and it then stores the event under the next id and returns it with 200 |
| EventController.ArrayDomains | backend/src/controllers/event.controller.js:186-187 | `Array.isArray(domains)` holds exactly for an array, whose items are then the domains |
| EventController.CastDomains | backend/src/controllers/event.controller.js:244-256 | the `$set` cast of `domains`: absent stays absent, an array is kept and a single string becomes a one-element array |
| EventController.ScalarDomainCastOnUpdate | backend/src/controllers/event.controller.js:166-256 | a single domain string is refused with 400 by `createEvent` but stored as a one-domain array by `updateEventDetails` |
| EventController.CreatedEventFields | backend/src/controllers/event.controller.js:198-211 | the created event's club is the caller, its `club_name` the caller's full name, `isApproved` false, and the thumbnail `""` without an upload |
| EventController.ClubNameIgnored | backend/src/controllers/event.controller.js:175-200 | the submitted `club_name` has no effect |
| EventController.CreateKeepsValid | backend/src/controllers/event.controller.js:166-221 | creation keeps the collection invariant |
| EventController.SetField | backend/src/controllers/event.controller.js:244-259 | an absent field in `$set` is left as it was; a given one is trimmed |
| EventController.SetOptField | backend/src/controllers/event.controller.js:244-259 | the same for an optional field |
| EventController.UpdatedEvent | backend/src/controllers/event.controller.js:244-256 | the update keeps the club, club name and thumbnail, sets the date when given and the domains as cast (a single string becomes a one-element array), and forces `isApproved` to false |
| EventController.UpdateEventDetailsStep | backend/src/controllers/event.controller.js:224-267 | a missing event gives 500; a caller who is not the owner gets 403; for the owner, a date that does not cast or a field the validators refuse gives 500; success iff neither, and it then stores the updated event and returns it with 200 |
| EventController.UpdateOnlyByOwner | backend/src/controllers/event.controller.js:240-242 | a caller who is not the owner gets 403 and nothing changes |
| EventController.UpdateWithdrawsApproval | backend/src/controllers/event.controller.js:254 | an accepted update leaves the event unapproved |
| EventController.UpdateKeepsValid | backend/src/controllers/event.controller.js:224-267 | the update keeps the collection invariant |
| EventController.UpdateEventThumbnailStep | backend/src/controllers/event.controller.js:269-310 | the checks run in order: 404, 403, 400 without a file, then 400 without a public id; the old image is deleted only after all four pass; success stores the new URL |
| EventController.FailedUploadLosesImage | backend/src/controllers/event.controller.js:289-301 | a failed upload after the delete leaves the old URL stored but the image deleted |
| EventController.NoDeleteBeforeChecks | backend/src/controllers/event.controller.js:273-294 | no image is deleted when the event is missing, the caller is not the owner or no file was sent |
| EventController.ThumbnailKeepsValid | backend/src/controllers/event.controller.js:269-310 | the thumbnail update keeps the collection invariant |
| EventController.EventCollection.constructor | backend/src/models/event.model.js:3-73 | an empty collection satisfies the invariant |
| EventController.EventCollection.CreateEvent | backend/src/controllers/event.controller.js:166-221 | the method's new collection and reply are `CreateEventStep`'s; the next id moves only on success |
| EventController.EventCollection.UpdateEventDetails | backend/src/controllers/event.controller.js:224-267 | the method's new collection and reply are `UpdateEventDetailsStep`'s |
| EventController.EventCollection.UpdateEventThumbnail | backend/src/controllers/event.controller.js:269-310 | the method's new collection, reply and deleted image are `UpdateEventThumbnailStep`'s |
| EventController.EventCollection.CleanupOldEvents | backend/src/utils/cleanupEvents.js:9-14 | the sweep leaves `Retained`, counts the expired events and logs iff one expired |
| ApiHelpers.ExtractEventsFromResponse | frontend/src/utils/apiHelpers.js:3-20 | a falsy response yields `[]`; an `events` array is returned; otherwise a top-level array is returned; anything else yields `[]` |
| ApiHelpers.ExtractPaginationFromResponse | frontend/src/utils/apiHelpers.js:23-25 | `response.pagination` when truthy, otherwise null |
| ApiHelpers.PaginatedRoundTrip | frontend/src/utils/apiHelpers.js:9-25 | both helpers recover what a paginated body carries |
| ApiHelpers.ArrayRoundTrip | frontend/src/utils/apiHelpers.js:14-16 | a top-level array comes back unchanged, with no pagination |
| ApiHelpers.ScalarYieldsNothing | frontend/src/utils/apiHelpers.js:19 | a value that is neither an array nor an object yields `[]` |
| EventsStore.Fetched | frontend/src/store/useEvents.js:62-71 | a successful fetch stores the extracted events and pagination, turns loading off, clears the error and sets the timestamp to `now` |
| EventsStore.FetchFailed | frontend/src/store/useEvents.js:74-79 | a failed fetch keeps the list, pagination and timestamp, turns loading off and stores the server's message or a non-empty default |
| EventsStore.FetchThenHit | frontend/src/store/useEvents.js:8-56 | a non-empty list fetched less than five minutes ago is served from the store |
| EventsStore.EmptyNeverHits | frontend/src/store/useEvents.js:54 | an empty list is never served from the store |
| EventsStore.FailureKeepsStaleness | frontend/src/store/useEvents.js:74-79 | a failure does not make a stale list fresh |
| EventsStore.RemoveId | frontend/src/store/useEvents.js:238-240 | the id filter never grows a list |
| EventsStore.RemoveIdMembers | frontend/src/store/useEvents.js:238-240 | the filter keeps exactly the entries with another id |
| EventsStore.RemoveAbsentId | frontend/src/store/useEvents.js:238-240 | removing an id no entry has changes nothing |
| EventsStore.RemoveIdIdempotent | frontend/src/store/useEvents.js:238-240 | removing an id twice is removing it once |
| EventsStore.FindById | frontend/src/store/useEvents.js:160 | `find` returns the first entry with that id, or nothing when no entry has it |
| EventsStore.DeletedIdGone | frontend/src/store/useEvents.js:238-240 | every entry left after a delete was there before and has another id |
| EventsStore.ClearedTimestampMisses | frontend/src/store/useEvents.js:197-201 | a list whose timestamp was cleared is never served from the store |
| EventsStore.Store.constructor | frontend/src/store/useEvents.js:22-47 | every field starts at its initial value |
| EventsStore.Store.SetList | frontend/src/store/useEvents.js:58 | `set` replaces one list and nothing else |
| EventsStore.Store.FetchList | frontend/src/store/useEvents.js:50-147 | an unforced fetch with a valid timestamp and a non-empty list returns the stored list without a request, whatever the page and limit; otherwise it requests the list's URL and leaves `Fetched` or `FetchFailed`; the other lists and the current event are unchanged |
| EventsStore.Store.FetchEventById | frontend/src/store/useEvents.js:150-187 | the server is asked exactly when the cached event does not serve: its id differs, it is falsy, the all-events timestamp is invalid or the fetch is forced. A served request returns the current event unchanged; otherwise the server's event is stored, or on failure the error is the server's message or the default and the first cached list entry with that id, if there is one, stays current; the lists are unchanged |
| EventsStore.Store.ClearTimestamps | frontend/src/store/useEvents.js:197-201 | the three timestamps are cleared and nothing else changes |
| EventsStore.Store.CreateEvent | frontend/src/store/useEvents.js:190-207 | an accepted creation clears the three timestamps only; a failed one changes nothing |
| EventsStore.Store.InvalidateCache | frontend/src/store/useEvents.js:254-262 | the timestamps, the current event and its id are cleared |
| EventsStore.Store.UpdateEvent | frontend/src/store/useEvents.js:210-229 | an accepted update also clears the current event and its id; a failed one changes nothing |
| EventsStore.Store.DeleteEvent | frontend/src/store/useEvents.js:232-251 | after an accepted delete, each list keeps exactly the entries with another id, in order, and its timestamp is cleared; a failed delete changes nothing |
| EventsStore.Store.ClearEvents | frontend/src/store/useEvents.js:265-287 | every field is back at its initial value |
| DateTimePicker.SlotAt | frontend/src/components/DateTimePicker.jsx:49-56 | the `i`-th quarter hour records hour `i / 4` |
| DateTimePicker.SlotValueRoundTrip | frontend/src/components/DateTimePicker.jsx:49 | the value reads back as the hour and the minute, each as two digits |
| DateTimePicker.SlotValuesDistinct | frontend/src/components/DateTimePicker.jsx:47-49 | no two of the 96 slots share a value |
| DateTimePicker.PeriodOfIndex | frontend/src/components/DateTimePicker.jsx:183-188 | the generator's if-chain and `getTimePeriod` pick the same period |
| DateTimePicker.Band | frontend/src/components/DateTimePicker.jsx:47-61 | the size of a period's list after `n` quarter hours |
| DateTimePicker.BandStep | frontend/src/components/DateTimePicker.jsx:58-61 | one more quarter hour grows a period's list by that slot exactly when it falls in the period |
| DateTimePicker.OptionsStep | frontend/src/components/DateTimePicker.jsx:58-61 | one more quarter hour is appended to its period's list only |
| DateTimePicker.QuarterHour | frontend/src/components/DateTimePicker.jsx:47-49 | the slot for (hour, minute) is the hour and the minute zero-padded, in the hour's period |
| DateTimePicker.GenerateTimeOptions | frontend/src/components/DateTimePicker.jsx:19-65 | the nested loops produce exactly the four period lists of all 96 quarter hours |
| DateTimePicker.PeriodSizes | frontend/src/components/DateTimePicker.jsx:58-61 | the periods hold 24, 20, 16 and 36 slots |
| DateTimePicker.PeriodEntry | frontend/src/components/DateTimePicker.jsx:58-61 | position `k` of a period's list is a quarter hour of that period |
| DateTimePicker.SlotInOwnPeriod | frontend/src/components/DateTimePicker.jsx:58-61 | every slot is in its own period's list |
| DateTimePicker.PeriodHoldsOwnSlots | frontend/src/components/DateTimePicker.jsx:58-61 | a slot is in no other period's list |
| DateTimePicker.SlotInItsPeriodOnly | frontend/src/components/DateTimePicker.jsx:183-188 | a slot is in a period's list iff `getTimePeriod` of its hour names that period |
| DateTimePicker.PeriodsIncreasing | frontend/src/components/DateTimePicker.jsx:47-61 | within a period, later positions hold later quarter hours |
| DateTimePicker.SlotOrder | frontend/src/components/DateTimePicker.jsx:47-49 | a later quarter hour has a larger time of day, both as numbers and as read back from the value |
| DateTimePicker.FormatDate | frontend/src/components/DateTimePicker.jsx:90-93 | the date string ends in `-MM-DD` |
| DateTimePicker.FormatDateRoundTrip | frontend/src/components/DateTimePicker.jsx:90-93 | the string reads back as the year, the 1-based month and the day |
| DateTimePicker.FormatDateInjective | frontend/src/components/DateTimePicker.jsx:159-166 | two calendar days give the same string iff they are the same day |
| DateTimePicker.HandleDateChange | frontend/src/components/DateTimePicker.jsx:84-94 | a string passes through unchanged; a picked date is formatted |
| DateTimePicker.PickedDaySelected | frontend/src/components/DateTimePicker.jsx:159-166 | after a day is picked, exactly that day is selected |
| DateTimePicker.NothingSelectedInitially | frontend/src/components/DateTimePicker.jsx:160 | with no selected date, no cell is selected |
| DateTimePicker.GetDaysInMonth | frontend/src/components/DateTimePicker.jsx:128-149 | `startingDayOfWeek` empty cells, then days 1 to `daysInMonth` of that month, in order |
| PersonalizedEvents.FilterMatching | frontend/src/components/PersonalizedEvents.jsx:21-28 | the filter never grows the list |
| PersonalizedEvents.PersonalizedListAsWritten | frontend/src/components/PersonalizedEvents.jsx:17-36 | as written, `filter` and `slice` are called on the `ApiResponse` object and throw, so the list is never longer than the intended one (it is always empty) |
| PersonalizedEvents.AsWrittenHidesMatches | frontend/src/components/PersonalizedEvents.jsx:17-36 | a fetched event that matches the user's interests is shown by the intended list and not by the one as written |
| PersonalizedEvents.PersonalizedList | frontend/src/components/PersonalizedEvents.jsx:16-37 | a fetch error yields `[]`; missing or empty interests yield the first at most 6 events; otherwise the events with a related domain, in order |
| PersonalizedEvents.RelatedSymmetric | frontend/src/components/PersonalizedEvents.jsx:23-25 | the match relation is symmetric |
| PersonalizedEvents.SameUpToCaseRelated | frontend/src/components/PersonalizedEvents.jsx:23-25 | a case-insensitive exact match always qualifies |
| PersonalizedEvents.RelatedIgnoresCase | frontend/src/components/PersonalizedEvents.jsx:23-25 | lower-casing either side first does not change the match |
| PersonalizedEvents.EmptyInterestMatchesAll | frontend/src/components/PersonalizedEvents.jsx:23-25 | an empty interest string matches every event that has a domain |
| PersonalizedEvents.NoDomainsNoMatch | frontend/src/components/PersonalizedEvents.jsx:22 | an event with no domains never matches |
| PersonalizedEvents.FilterMatchingMembers | frontend/src/components/PersonalizedEvents.jsx:21-28 | the filter keeps exactly the matching events |
| PersonalizedEvents.FilterMatchingAppend | frontend/src/components/PersonalizedEvents.jsx:21-28 | filtering distributes over concatenation, so the result is a subsequence in order |
| PersonalizedEvents.FilterMatchingAll | frontend/src/components/PersonalizedEvents.jsx:21-28 | when every event matches, the list is unchanged |
| PersonalizedEvents.FallbackIsPrefix | frontend/src/components/PersonalizedEvents.jsx:30-31 | the fallback is a prefix of at most 6 events |
| PersonalizedEvents.ShownEventsMatch | frontend/src/components/PersonalizedEvents.jsx:20-28 | with interests, an event is shown iff it is fetched and matches |
| AppGuards.RequireAuthCheck | frontend/src/App.jsx:33-38 | while the session is being checked, the loading view is shown; afterwards the child |
| AppGuards.CheckingShowsLoading | frontend/src/App.jsx:33-54 | while checking, both guards show the loading view whatever the user is |
| AppGuards.AdminGuard | frontend/src/App.jsx:40-46 | the children render iff the role is admin or superadmin; otherwise a redirect to `/` |
| AppGuards.SuperAdminGuard | frontend/src/App.jsx:48-54 | the children render iff the role is superadmin; otherwise a redirect to `/` |
| AppGuards.SuperAdminIsAdmin | frontend/src/App.jsx:40-54 | passing the superadmin guard implies passing the admin guard |
| Selection.RemoveAll | frontend/src/pages/Register.jsx:31 | the filter never grows the list |
| Selection.RemoveAllMembers | frontend/src/pages/Register.jsx:31 | the filter drops every copy of the value and keeps every other value |
| Selection.RemoveAllAppend | frontend/src/pages/Register.jsx:31 | the filter distributes over concatenation, so the remaining values keep their order |
| Selection.RemoveAbsent | frontend/src/pages/Register.jsx:31 | removing an absent value changes nothing |
| Selection.ToggleMembers | frontend/src/pages/Register.jsx:29-33 | after a toggle, the value is present iff it was absent; every other value is as before |
| Selection.ToggleTwiceAbsent | frontend/src/pages/Register.jsx:30-32 | toggling an absent value twice restores the list |
| Selection.ToggleTwicePresent | frontend/src/pages/CreateEvent.jsx:39-41 | toggling a present value twice moves it to the end |
| Selection.ToggleKeepsDistinct | frontend/src/pages/CreateEvent.jsx:39-41 | a list without repeats keeps none after a toggle |
| Selection.RemoveKeepsDistinct | frontend/src/pages/CreateEvent.jsx:40 | the filter keeps a list free of repeats |
| RegisterForms.ValidateQuickForm | frontend/src/components/Register.jsx:28-34 | passes iff the username and interests are not blank and the password has at least 6 characters; the first failing check decides the message |
| RegisterForms.ShortPasswordMessage | frontend/src/components/Register.jsx:30-31 | a non-empty password shorter than 6 gets the length message |
| RegisterForms.QuickSubmit | frontend/src/components/Register.jsx:36-42 | the form is sent, unchanged, iff validation passes |
| RegisterForms.QuickFormRefusedByServer | frontend/src/components/Register.jsx:36-42 | whatever passes this form's check, registration refuses it with 400, since the form has no email or full name |
| RegisterForms.ToggleInterest | frontend/src/pages/Register.jsx:29-34 | only the interests change, and they are toggled |
| RegisterForms.ToggleInterestTwice | frontend/src/pages/Register.jsx:29-34 | toggling an unticked interest twice restores the form |
| RegisterForms.TickedInterestsDistinct | frontend/src/pages/Register.jsx:9-34 | the ticked interests stay distinct options |
| RegisterForms.Payload | frontend/src/pages/Register.jsx:45 | the payload carries every field but the confirmation, unchanged |
| RegisterForms.PayloadIgnoresConfirmation | frontend/src/pages/Register.jsx:45 | the confirmation does not reach the payload |
| RegisterForms.AccountSubmit | frontend/src/pages/Register.jsx:36-46 | `register` is called iff the passwords match, with the payload |
| RegisterForms.RegistrationError | frontend/src/store/useAuth.js:29-31 | the toast after a refused registration is the server's message, or the non-empty default "Registration failed"; the store swallows the error, so the page's own `catch` at frontend/src/pages/Register.jsx:48-51 never runs |
| RegisterForms.NoInterestRefusedByServer | frontend/src/pages/Register.jsx:36-46 | a form with no interest ticked is sent and registration answers 400 |
| RegisterForms.FilledFormPassesFieldCheck | frontend/src/pages/Register.jsx:36-46 | a filled form with an interest passes the server's field check |
| Signup.UsernameError | src/components/Signup.jsx:73-77 | no error iff the username is not blank and its untrimmed length is at least 3 |
| Signup.PasswordError | src/components/Signup.jsx:79-83 | no error iff the password has at least 6 characters; an empty one is "required" |
| Signup.ConfirmError | src/components/Signup.jsx:85-87 | the mismatch error appears iff the two passwords differ |
| Signup.Errors | src/components/Signup.jsx:70-108 | the stored error object holds a message for exactly the failing username, password and confirmation checks, each that check's message, and never one for interests |
| Signup.FirstError | src/components/Signup.jsx:89-106 | the toast is absent iff the form is valid, and otherwise is the first error in the order username, password, confirmation |
| Signup.UntrimmedLengthCounts | src/components/Signup.jsx:73-77 | `"  a"` passes the username check, since the length is taken before trimming |
| Signup.SignupPage.constructor | src/components/Signup.jsx:54-110 | the page starts with empty fields, no errors and not loading |
| Signup.SignupPage.ValidateForm | src/components/Signup.jsx:70-110 | the error map holds exactly the failing fields' messages, validity is having none, and the toast is `FirstError` |
| Signup.SignupPage.HandleChange | src/components/Signup.jsx:54-68 | the edited field takes the value, the others are unchanged, and only that field's error is blanked, when it had one |
| Signup.SignupOutcome | src/components/Signup.jsx:112-161 | a submission dispatches iff the form is valid, with the username, password and interests; the form is reset and the login page scheduled iff the form is valid and `unwrap` completes; otherwise the form is kept |
| Signup.AsWrittenSignupKeepsForm | src/components/Signup.jsx:122-134 | since `registerUser` is a plain action, a valid form is dispatched but stays filled in and no redirect follows |
| Signup.FulfilledSignupClears | src/components/Signup.jsx:122-158 | with an async thunk, a fulfilled registration resets the form and redirects, and a rejected one keeps the form |
| Signup.SignupPage.Submit | src/components/Signup.jsx:112-161 | the page's new form, the dispatched action and the redirect are `SignupOutcome`'s; loading ends off after a dispatch and is untouched otherwise |
| Signup.SignupPage.HandleSignup | src/components/Signup.jsx:112-161 | as written: dispatches iff the form is valid, with the username, password and interests; the form is never reset and no redirect follows; loading ends off |
| Signup.SignupPage.HandleSignupWithThunk | src/components/Signup.jsx:112-161 | with `registerUser` an async thunk: the form is reset and the login page scheduled iff the form is valid and the thunk is fulfilled |
| AuthSlice.RegisteredKeepsUnique | src/redux/authSlice.js:24-33 | registering keeps usernames unique |
| AuthSlice.FindCredential | src/redux/authSlice.js:36-38 | `find` returns a stored pair equal to the given one, or none when no pair is |
| AuthSlice.RegisterThenFind | src/redux/authSlice.js:24-43 | a name just registered logs in with its password |
| AuthSlice.OtherPasswordRefused | src/redux/authSlice.js:34-43 | with unique names, any other password for a stored user is refused |
| AuthSlice.AuthState.constructor | src/redux/authSlice.js:15-18 | no users and no current user |
| AuthSlice.AuthState.RegisterUser | src/redux/authSlice.js:24-33 | the pair is appended and the user becomes current iff the name is free; otherwise nothing changes; names stay unique |
| AuthSlice.AuthState.LoginUser | src/redux/authSlice.js:34-43 | the user becomes current, holding only the name, iff the pair is stored; otherwise the previous current user remains |
| AuthSlice.AuthState.LogoutUser | src/redux/authSlice.js:44-47 | the current user becomes null and the list is unchanged |
| CreateEventForm.InitialForm | frontend/src/pages/CreateEvent.jsx:21-32 | `club_name` starts as the user's full name or `""`; no domains and no thumbnail |
| CreateEventForm.ToggleDomain | frontend/src/pages/CreateEvent.jsx:36-43 | only the domains change, and they are toggled |
| CreateEventForm.ToggleDomainTwice | frontend/src/pages/CreateEvent.jsx:36-43 | toggling an unselected domain twice restores the form |
| CreateEventForm.DomainEntries | frontend/src/pages/CreateEvent.jsx:68 | one entry per selected domain |
| CreateEventForm.TextEntries | frontend/src/pages/CreateEvent.jsx:72 | one entry per text field |
| CreateEventForm.Serialised | frontend/src/pages/CreateEvent.jsx:65-74 | the FormData has eight text entries, one per domain and one thumbnail |
| CreateEventForm.HandleSubmit | frontend/src/pages/CreateEvent.jsx:57-74 | no request without a thumbnail; otherwise the loop over the form's keys builds exactly `Serialised` |
| CreateEventForm.SerialisedNames | frontend/src/pages/CreateEvent.jsx:65-74 | the entry names, position by position: the text keys in order, then `domains[]`, then `thumbnail` |
| CreateEventForm.SerialisedDomains | frontend/src/pages/CreateEvent.jsx:67-68 | the `domains[]` entries are the selected domains in selection order, and no other entry has that name |
| CreateEventForm.SerialisedOnce | frontend/src/pages/CreateEvent.jsx:66-73 | every other key, the thumbnail included, is appended exactly once, under its own name, with its value |

## Left out

- Database and storage: queries, updates, `deleteMany` and unique indexes are modelled on maps. A document's natural order is taken to be its id order.
- Cloudinary upload, delete and URL parsing: `uploadOnCloudinary`'s result and `getPublicIdFromUrl` are parameters. `getPublicIdFromUrl` and `deleteFromCloudinary` are imported at backend/src/controllers/event.controller.js:5, but backend/src/utils/coudinary.js:32 exports only `uploadOnCloudinary`. The model records which public id would be deleted, as if the two functions existed.
- bcrypt and jsonwebtoken: a digest records the password and the salt, and signing and verification are parameters. Expiry is part of `verify`.
- The clock and locale formatting: `now` is a parameter. `toLocaleTimeString`, `toLocaleDateString`, weekdays and month lengths are left out, so `getDaysInMonth` takes `daysInMonth` and `startingDayOfWeek` as inputs.
- Imports of names that the imported modules do not export. Under the ES module rules the backend uses, each is a link error, so the backend as written does not load, and neither does the manual cleanup script. The handlers are modelled as if the missing exports existed:
  - backend/src/routes/event.route.js:2 imports `deleteEvent`, `getEventById`, `getMyPostedEvents` and `cleanupExpiredEvents`; backend/src/controllers/event.controller.js:311-317 exports only the five modelled handlers;
  - backend/src/routes/auth.route.js:5 imports `googleLogin`, which backend/src/controllers/auth.controller.js:409-420 does not export;
  - backend/src/controllers/event.controller.js:5 imports `deleteFromCloudinary` and `getPublicIdFromUrl`, as in the Cloudinary line above;
  - backend/src/scripts/cleanup.js:6 imports `cleanupOldEvents`, while backend/src/utils/cleanupEvents.js:6 exports only `scheduleOldEventCleanup`.
- Route tables: only the gates in front of the event handlers are modelled (`GuardedUser`). The store's `updateEvent` sends `PATCH /events/admin/:id`, for which no route exists; the model covers its state change after the server accepts.
- The `/interests` route runs `verifyJWT` and then the URL-keyed cache (backend/src/routes/event.route.js:21), so one user's reply is served to other users for three minutes. The cache model shows this through `CachedAt`, which depends only on the URL. This is not stated as a lemma about users.
- `login` selects `-password -refreshToken`, which misspells the field. The returned user therefore still carries `refreshTokens`; `LoginStep` returns `WithoutPassword`, which keeps it.
- EventController.GetAllEvents: its `!events` branch cannot happen, since `find` always returns an array, so the function has no error case.
- EventController.GetEventsByUserInterests: the 400 for missing interests cannot happen for a stored user (`StoredUserHasInterests`); the model keeps it for a request without one.
- `createEvent` uploads the thumbnail before the document is validated, so a rejected event can leave an orphaned upload. The upload is a parameter and no upload state is modelled.
- The `ApiResponse` wrapper and the exact response body shapes: `ApiResponse` is not part of this model, so replies carry the data directly.
- PersonalizedEvents.PersonalizedList: takes the event array inside the response as its input, as intended. As written, the component imports `axiosInstance` from frontend/src/lib/axios.js, which exports only `API`. Under the ES module rules the build uses, that import is a link error and the component never loads. If it did load, it would read the wrapper object instead of its `data` array, which is the Finding below.
- Signup.SignupPage: src/components/Signup.jsx:3 imports `clearAuthError`, which src/redux/authSlice.js:51 does not export. As written, that import is a link error, and otherwise the mount effect at src/components/Signup.jsx:22-25 would throw. The page also reads `error` and `isAuthenticated` from the slice, which holds neither, so the error toast and the redirect effect never fire. The model starts from the constructed page and leaves these effects out.
- Display strings (`display` times, toasts, labels and icons) and navigation, rendering and timers are left out.
- Concurrency: overlapping fetches, concurrent refreshes and the cron schedule (backend/src/utils/cleanupEvents.js:7). Each operation is one atomic step.
- localStorage persistence in src/redux/authSlice.js:4-17 is I/O. The slice starts from an empty state.
- Thin wrappers with no logic of their own: `frontend/src/store/useAuth.js`, `frontend/src/api/*.js` and `frontend/src/lib/axios.js`.
- ResponseCache.Cache.Json: the sweep is modelled as deleting in any key order. `Map` iteration order is not modelled because it does not change the result.
- EventsStore.Store.FetchList: the `loading: true` state between the request and the answer is not observable in a one-step model. The method states only the final state.
- Common.IsSpace: covers the ASCII blanks, U+00A0 and U+FEFF only. JavaScript's `trim` also strips the other Unicode spaces and line terminators (U+2028, U+3000 and more), so `Trim`, `IsBlank` and every setter built on them differ for those characters.
- Common.LowerChar: maps only `A`-`Z`. JavaScript's `toLowerCase` applies the full Unicode case mapping, so `ToLower`, `StoredUsername` and the personalised and search matches differ for letters outside ASCII.
- AuthController: a request field that is missing or not a string is `None`. The source does not check types. A truthy non-string in `login`, such as the object `{"$ne": null}`, passes the field check and reaches `findOne` as a query operator. A repeated query parameter (`?username=a&username=b`) arrives as an array, and `toLowerCase` then throws, giving 500 where the model answers 400.
- EventController.UpdatedEvent: a field given as JSON `null` is treated like an absent one. In the source, `$set` would write the `null` or fail the `required` validator.
- UserModel.SavedPasswordChecks and AuthController.ChangedPasswordChecks: "exactly that password" ignores bcrypt's 72-byte limit. bcrypt reads only the first 72 bytes, so every password sharing those bytes also checks.
- Mongoose behaviour assumed for AuthController.LoginStep, AuthController.RegisterStep, AuthController.SearchUserByUsername, AuthController.LogoutAsWrittenStep, AuthController.UpdateRoleStep and EventController.UpdateEventDetailsStep. No package manifest fixes the Mongoose version, so these rest on the following:
  - query filter values are cast through the schema's setters, so `{ username: q }` matches the stored `StoredUsername(q)`;
  - a filter value that is `undefined` matches no user. Mongoose can instead drop an `undefined` key, and a `$or` branch reduced to `{}` would match the first user;
  - Mongoose 6 and later strip `undefined` keys from `$set`. The logout Finding rests on this, as do the role update (an absent `role` is kept) and the event update (absent fields are kept).
- AuthController.RegisterStep, RegisterForms.ValidateQuickForm, Signup.UsernameError and Signup.PasswordError: lengths are counted in Unicode code points (Dafny's `|s|`), not in the UTF-16 code units of JavaScript's `.length`. A character outside the Basic Multilingual Plane counts once here and twice in the source, so `"😀😀😀"` has length 3 here and 6 there.
- EventController.SortByDate: MongoDB leaves the order of events with equal dates unspecified. This insertion sort reverses them, and no contract states a tie order.
- Json.JNum: JavaScript numbers are modelled as integers. No operation modelled here reads a fraction, `NaN` or an infinity.
- AuthController.ReplayRefused: needs the two issue seconds to differ. `SameSecondReplayAccepted` shows what happens otherwise.

## Findings

| source | as written | input that shows it | evidently intended | confidence | as-written member | corrected member |
|---|---|---|---|---|---|---|
| backend/src/controllers/auth.controller.js:234-240 | `logout` sends `$set: { refreshTokens: undefined }`; Mongoose strips undefined keys from `$set`, so the stored refresh token stays | a user who logs in, logs out, then calls `refreshAccessToken` with the refresh token from the login | logout clears the stored refresh token, so a later refresh with the old token fails the equality check at backend/src/controllers/auth.controller.js:303-305 | not executed | AuthController.LogoutAsWrittenStep, AuthController.RefreshAfterLogoutAsWrittenAccepted | AuthController.LogoutStep, AuthController.RefreshAfterLogoutRefused |
| src/components/Signup.jsx:122-126 | `await dispatch(registerUser({...})).unwrap()`, where `registerUser` is a plain `createSlice` action (src/redux/authSlice.js:24-51). `dispatch` returns the action object, `unwrap` is not a function, and the empty `catch` swallows the error | any valid form, such as username `alice`, password and confirmation `secret1` | `registerUser` is an async thunk, so a fulfilled registration resets the form and redirects to the login page | not executed | Signup.SignupPage.HandleSignup, Signup.AsWrittenSignupKeepsForm | Signup.SignupPage.HandleSignupWithThunk, Signup.FulfilledSignupClears |
| frontend/src/components/PersonalizedEvents.jsx:21-31 | `res.data.filter(...)` and `res.data.slice(0, 6)` on the `ApiResponse` object `GET /events` answers with; an object has neither method, so both throw and the `catch` sets `[]` | one stored event with domain `Tech` and a user with the interest `tech` | the filter runs on `res.data.data`, the event array, as the store reads it | not executed | PersonalizedEvents.PersonalizedListAsWritten, PersonalizedEvents.AsWrittenHidesMatches | PersonalizedEvents.PersonalizedList, PersonalizedEvents.ShownEventsMatch |
