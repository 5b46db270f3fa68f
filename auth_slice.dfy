/** The legacy client-only account list (`src/redux/authSlice.js`): a list
    of username and password pairs, and the signed-in user, which records
    only a username. Persistence to `localStorage` is not modelled. */
module AuthSlice {
  import opened Common

  datatype Credential = Credential(username: string, password: string)

  /** `currentUser`: a username and nothing else. */
  datatype CurrentUser = CurrentUser(username: string)

  /** `state.users.some(user => user.username === username)`. */
  predicate UsernameTaken(users: seq<Credential>, username: string) {
    exists i :: 0 <= i < |users| && users[i].username == username
  }

  /** No two stored accounts share a username. */
  predicate UniqueUsernames(users: seq<Credential>) {
    forall i, j :: 0 <= i < j < |users| ==> users[i].username != users[j].username
  }

  /** The list after `registerUser`: the pair appended when the name is free. */
  function Registered(users: seq<Credential>, username: string, password: string): seq<Credential> {
    if UsernameTaken(users, username) then users else users + [Credential(username, password)]
  }

  /** Registering keeps usernames unique. */
  lemma RegisteredKeepsUnique(users: seq<Credential>, username: string, password: string)
    requires UniqueUsernames(users)
    ensures UniqueUsernames(Registered(users, username, password))
  {
    if !UsernameTaken(users, username) {
      var r := users + [Credential(username, password)];
      forall i, j | 0 <= i < j < |r| ensures r[i].username != r[j].username {
        if j == |users| {
          assert users[i].username != username;
        }
      }
    }
  }

  /** `state.users.find(user => user.username === username && user.password === password)`. */
  function FindCredential(users: seq<Credential>, username: string, password: string): (r: Option<nat>)
    ensures r.Some? ==> r.value < |users| && users[r.value] == Credential(username, password)
    ensures r.None? ==> Credential(username, password) !in users
  {
    if users == [] then None
    else if users[0] == Credential(username, password) then Some(0)
    else match FindCredential(users[1..], username, password)
      case None => None
      case Some(k) => Some(k + 1)
  }

  /** After registering a free name, logging in with the same pair succeeds. */
  lemma RegisterThenFind(users: seq<Credential>, username: string, password: string)
    requires !UsernameTaken(users, username)
    ensures FindCredential(Registered(users, username, password), username, password).Some?
  {
    var r := Registered(users, username, password);
    assert r[|users|] == Credential(username, password);
  }

  /** With unique usernames, a registered name does not accept another
      password. */
  lemma OtherPasswordRefused(users: seq<Credential>, username: string, password: string, other: string)
    requires UniqueUsernames(users) && Credential(username, password) in users && other != password
    ensures FindCredential(users, username, other).None?
  {
    var i :| 0 <= i < |users| && users[i] == Credential(username, password);
    forall k | 0 <= k < |users| ensures users[k] != Credential(username, other) {
      if k < i {
        assert users[k].username != users[i].username;
      } else if k > i {
        assert users[i].username != users[k].username;
      }
    }
  }

  class AuthState {
    var users: seq<Credential>
    var currentUser: Option<CurrentUser>

    /** The slice's invariant. */
    predicate Valid()
      reads this
    {
      UniqueUsernames(users)
    }

    /** The initial state with nothing loaded from storage. */
    constructor ()
      ensures Valid() && users == [] && currentUser.None?
    {
      users, currentUser := [], None;
    }

    /** `registerUser`: a free name is appended and signed in; a taken name
        leaves the state unchanged. */
    method RegisterUser(username: string, password: string)
      requires Valid()
      modifies this
      ensures Valid()
      ensures users == Registered(old(users), username, password)
      ensures !UsernameTaken(old(users), username) ==> currentUser == Some(CurrentUser(username))
      ensures UsernameTaken(old(users), username) ==> currentUser == old(currentUser)
    {
      RegisteredKeepsUnique(users, username, password);
      var userExists := UsernameTaken(users, username);
      if !userExists {
        users := users + [Credential(username, password)];
        currentUser := Some(CurrentUser(username));
      }
    }

    /** `loginUser`: signed in exactly when the pair is stored; otherwise the
        previous user stays. */
    method LoginUser(username: string, password: string)
      requires Valid()
      modifies this
      ensures Valid() && users == old(users)
      ensures Credential(username, password) in users ==> currentUser == Some(CurrentUser(username))
      ensures Credential(username, password) !in users ==> currentUser == old(currentUser)
    {
      var user := FindCredential(users, username, password);
      if user.Some? {
        currentUser := Some(CurrentUser(username));
      }
    }

    /** `logoutUser`. */
    method LogoutUser()
      requires Valid()
      modifies this
      ensures Valid() && users == old(users) && currentUser.None?
    {
      currentUser := None;
    }
  }
}
