/**
 * Users and the find-or-create step that the Google strategy's verify callback
 * runs on every successful login (server.js:66-83).
 */
module Principal {
  import opened Common
  import opened Js
  import opened OrderSchema

  /** A User document; `email` is absent on a record this server did not create. */
  datatype User = User(id: UserId, googleId: string, email: Option<string>, name: string)

  /** What the identity provider hands back: `profile.id`, the `value`s of `profile.emails`, `profile.displayName`. */
  datatype Profile = Profile(id: string, emails: seq<string>, displayName: string)

  /** `profile.emails[0]` does not exist: the callback throws and reports the error to Passport. */
  datatype LoginError = NoProfileEmail

  /** Users are keyed by their own id, and every id is below the next one to hand out. */
  ghost predicate UsersValid(users: map<UserId, User>, nextId: nat)
  {
    forall k :: k in users ==> k < nextId && users[k].id == k
  }

  /** `User.findOne({googleId})`: the first user (in id order, below `n`) with that Google id. */
  function FindByGoogleId(users: map<UserId, User>, googleId: string, n: nat): (r: Option<UserId>)
    ensures r.Some? ==> r.value < n && r.value in users && users[r.value].googleId == googleId
    ensures forall k :: k < n && k in users && users[k].googleId == googleId ==> r.Some? && r.value <= k
    decreases n
  {
    if n == 0 then None
    else match FindByGoogleId(users, googleId, n - 1)
      case Some(k) => Some(k)
      case None =>
        if n - 1 in users && users[n - 1].googleId == googleId then Some(n - 1) else None
  }

  /** Adding a user at an id at or above `n` does not change what is found below `n`. */
  lemma {:induction false} FindByGoogleIdFrame(users: map<UserId, User>, googleId: string, n: nat, k: UserId, u: User)
    requires n <= k
    ensures FindByGoogleId(users[k := u], googleId, n) == FindByGoogleId(users, googleId, n)
    decreases n
  {
    if n > 0 {
      FindByGoogleIdFrame(users, googleId, n - 1, k, u);
    }
  }

  /** The users table after a login and the user (or error) handed to Passport. */
  datatype LoginOutcome = LoginOutcome(result: Result<User, LoginError>, users: map<UserId, User>, nextId: nat)

  /**
   * The verify callback: the e-mail is read (and lower-cased) first, then an existing
   * user with the profile's Google id is returned unchanged, or exactly one user is created.
   */
  function FindOrCreate(users: map<UserId, User>, nextId: nat, profile: Profile): (out: LoginOutcome)
    requires UsersValid(users, nextId)
    ensures UsersValid(out.users, out.nextId)
    ensures profile.emails == [] ==> out == LoginOutcome(Failure(NoProfileEmail), users, nextId)
    ensures profile.emails != [] && (exists k :: k in users && users[k].googleId == profile.id) ==>
              && out.users == users && out.nextId == nextId
              && out.result.Success?
              && out.result.value.googleId == profile.id
              && out.result.value.id in users && users[out.result.value.id] == out.result.value
    ensures profile.emails != [] && (forall k :: k in users ==> users[k].googleId != profile.id) ==>
              && out.result == Success(User(nextId, profile.id, Some(ToLower(profile.emails[0])), profile.displayName))
              && nextId !in users
              && out.users == users[nextId := out.result.value]
              && out.nextId == nextId + 1
  {
    if profile.emails == [] then LoginOutcome(Failure(NoProfileEmail), users, nextId)
    else
      var email := ToLower(profile.emails[0]);
      match FindByGoogleId(users, profile.id, nextId)
      case Some(k) => LoginOutcome(Success(users[k]), users, nextId)
      case None =>
        var u := User(nextId, profile.id, Some(email), profile.displayName);
        LoginOutcome(Success(u), users[nextId := u], nextId + 1)
  }

  /** Logging in again with the same profile returns the same user and changes nothing. */
  lemma {:induction false} FindOrCreateIdempotent(users: map<UserId, User>, nextId: nat, profile: Profile)
    requires UsersValid(users, nextId)
    ensures var first := FindOrCreate(users, nextId, profile);
            FindOrCreate(first.users, first.nextId, profile) == first
  {
    var first := FindOrCreate(users, nextId, profile);
    if profile.emails != [] && FindByGoogleId(users, profile.id, nextId).None? {
      var u := first.result.value;
      FindByGoogleIdFrame(users, profile.id, nextId, nextId, u);
      assert FindByGoogleId(first.users, profile.id, nextId + 1) == Some(nextId);
    }
  }
}
