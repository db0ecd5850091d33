/** `useAuth`: logging in an existing user and enrolling a new one through the
    database store, with the hook's error and progress state. A thrown
    exception is an input (`Fault`): where the code can throw, the model takes
    whether it did. */
module Auth {
  import opened Wrappers
  import opened Schemas
  import opened UserCollection
  import DatabaseStore

  datatype Code = UserNotFound | UsernameTaken | UnknownError

  function CodeText(c: Code): string {
    match c
    case UserNotFound => "AUTH/USER_NOT_FOUND"
    case UsernameTaken => "AUTH/USERNAME_TAKEN"
    case UnknownError => "AUTH/UNKNOWN_ERROR"
  }

  datatype AuthError = AuthError(code: Code, message: string)

  const NotFoundMessage := "User not found. Would you like to join?"
  const TakenMessage := "Username is already taken."
  const UnknownMessage := "An unknown error occurred."
  const EnrolFailedMessage := "An unexpected error occurred while creating the user."

  datatype Processing = LoggingIn | Joining

  /** The hook's own state. */
  datatype Hook = Hook(error: Option<AuthError>, isProcessing: Option<Processing>)

  /** An exception thrown by the lookup; `Error` objects carry a message. */
  datatype Fault = Fault(message: Option<string>)

  /** The state after an operation has settled. */
  datatype Step = Step(hook: Hook, users: seq<User>, store: DatabaseStore.State)

  /** `loginUser(username)`. */
  function LoginUser(store: DatabaseStore.State, users: seq<User>, username: string,
                     fault: Option<Fault>): (r: Step)
    ensures r.hook.isProcessing.None? && r.users == users
    ensures fault.Some? ==>
              && r.hook.error == Some(AuthError(UnknownError, fault.value.message.GetOr(UnknownMessage)))
              && r.store == store
    ensures fault.None? && (forall i :: 0 <= i < |users| ==> users[i].username != username) ==>
              r.hook.error == Some(AuthError(UserNotFound, NotFoundMessage)) && r.store == store
    ensures fault.None? && (exists i :: 0 <= i < |users| && users[i].username == username) ==>
              && r.hook.error.None?
              && r.store.currentUser.Some? && r.store.currentUser.value in users
              && r.store.currentUser.value.username == username
              && r.store == DatabaseStore.Login(store, r.store.currentUser.value)
  {
    match fault
    case Some(f) => Step(Hook(Some(AuthError(UnknownError, f.message.GetOr(UnknownMessage))), None), users, store)
    case None =>
      match FindByUsername(users, username)
      case Some(u) => Step(Hook(None, None), users, DatabaseStore.Login(store, u))
      case None => Step(Hook(Some(AuthError(UserNotFound, NotFoundMessage)), None), users, store)
  }

  /** `enrollUser({ username, userColor })`, the fresh id being an input. */
  function EnrollUser(store: DatabaseStore.State, users: seq<User>, username: string, userColor: string,
                      freshId: string, lookupFails: bool): (r: Step)
    ensures r.hook.isProcessing.None?
    ensures r.users == users || r.users == users + [User(freshId, username, userColor)]
    ensures lookupFails ==>
              r.hook.error == Some(AuthError(UnknownError, EnrolFailedMessage)) && r.users == users && r.store == store
    ensures !lookupFails && (exists i :: 0 <= i < |users| && users[i].username == username) ==>
              r.hook.error == Some(AuthError(UsernameTaken, TakenMessage)) && r.users == users && r.store == store
    ensures r.users != users <==>
              && !lookupFails
              && (forall i :: 0 <= i < |users| ==> users[i].username != username)
              && InsertUser(users, User(freshId, username, userColor)).Ok?
    ensures r.users != users ==>
              r.hook.error.None? && r.store == DatabaseStore.Login(store, User(freshId, username, userColor))
    ensures !lookupFails && FindByUsername(users, username).None? &&
            InsertUser(users, User(freshId, username, userColor)).Err? ==>
              r.hook.error == Some(AuthError(UnknownError, EnrolFailedMessage))
    ensures r.users == users ==> r.store == store
    ensures r.hook.error.None? ==> r.users != users
    ensures UniqueUsernames(users) ==> UniqueUsernames(r.users)
    ensures UniqueUserIds(users) ==> UniqueUserIds(r.users)
  {
    if lookupFails then Step(Hook(Some(AuthError(UnknownError, EnrolFailedMessage)), None), users, store)
    else if FindByUsername(users, username).Some? then
      Step(Hook(Some(AuthError(UsernameTaken, TakenMessage)), None), users, store)
    else
      var u := User(freshId, username, userColor);
      match InsertUser(users, u)
      case Err(_) => Step(Hook(Some(AuthError(UnknownError, EnrolFailedMessage)), None), users, store)
      case Ok(users') =>
        InsertKeepsUnique(users, u);
        Step(Hook(None, None), users', DatabaseStore.Login(store, u))
  }

  /** One enrolment request: the name, the colour, the id the generator
      yields and whether the lookup throws. */
  datatype Request = Request(username: string, userColor: string, freshId: string, lookupFails: bool)

  /** Enrolments performed one after the other. */
  function EnrollAll(store: DatabaseStore.State, users: seq<User>, requests: seq<Request>): Step
    decreases |requests|
  {
    if |requests| == 0 then Step(Hook(None, None), users, store)
    else
      var q := requests[0];
      var s := EnrollUser(store, users, q.username, q.userColor, q.freshId, q.lookupFails);
      EnrollAll(s.store, s.users, requests[1..])
  }

  /** However many enrolments run one after another, no two users ever share
      a username or an id. */
  lemma {:induction false} SequentialEnrolmentsKeepUnique(store: DatabaseStore.State, users: seq<User>,
                                                          requests: seq<Request>)
    requires UniqueUsernames(users) && UniqueUserIds(users)
    ensures UniqueUsernames(EnrollAll(store, users, requests).users)
    ensures UniqueUserIds(EnrollAll(store, users, requests).users)
    decreases |requests|
  {
    if |requests| > 0 {
      var q := requests[0];
      var s := EnrollUser(store, users, q.username, q.userColor, q.freshId, q.lookupFails);
      SequentialEnrolmentsKeepUnique(s.store, s.users, requests[1..]);
    }
  }

  /** Enrolling a name that was just enrolled is refused as taken. */
  lemma EnrolTwiceIsTaken(store: DatabaseStore.State, users: seq<User>, username: string,
                          color1: string, color2: string, id1: string, id2: string)
    requires EnrollUser(store, users, username, color1, id1, false).users != users
    ensures var s := EnrollUser(store, users, username, color1, id1, false);
            var t := EnrollUser(s.store, s.users, username, color2, id2, false);
            t.hook.error == Some(AuthError(UsernameTaken, TakenMessage)) && t.users == s.users
  {
    var s := EnrollUser(store, users, username, color1, id1, false);
    assert s.users[|users|].username == username;
  }
}
