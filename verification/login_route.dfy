/** The login page: logging in by username, and joining with a username and a
    colour. It talks to the user collection directly and records the session
    in the persisted auth state (the `user` entry). A lookup that throws is
    not caught here, so the handler stops where it threw; an insert or
    session write that throws while joining is caught and reported. */
module LoginRoute {
  import opened Wrappers
  import opened Schemas
  import opened UserCollection

  /** The colours offered when joining. */
  const Colors: seq<string> := ["#E53E3E", "#38A169", "#3182CE", "#805AD5", "#D53F8C"]

  const NotFoundMessage := "User not found. Would you like to join?"
  const PickColorMessage := "Please select a color."
  const TakenMessage := "Username is already taken."
  const JoinFailedMessage := "An unexpected error occurred while creating the user."

  /** The form's state. */
  datatype Form = Form(username: string, selectedColor: string, error: Option<string>)

  /** What a handler leaves behind: the form, the user collection, the
      session's user, and whether the handler stopped on an exception it did
      not catch. */
  datatype Outcome = Outcome(form: Form, users: seq<User>, session: Option<User>, rejected: bool)

  /** `handleLogin`. `lookupThrows` and `loginThrows` say whether the
      collection lookup and the session write fail. */
  function HandleLogin(f: Form, users: seq<User>, session: Option<User>,
                       lookupThrows: bool, loginThrows: bool): (r: Outcome)
    ensures r.users == users
    ensures f.username == [] ==> r == Outcome(f, users, session, false)
    ensures f.username != [] ==> r.form.username == f.username && r.form.selectedColor == f.selectedColor
    ensures r.session != session ==>
              && r.session.Some? && r.session.value in users
              && r.session.value.username == f.username != []
    ensures f.username != [] && !lookupThrows ==>
              && (r.form.error == Some(NotFoundMessage) <==> FindByUsername(users, f.username).None?)
              && (FindByUsername(users, f.username).Some? && !loginThrows ==>
                    r.session == FindByUsername(users, f.username) && r.form.error.None? && !r.rejected)
    ensures r.rejected <==> f.username != [] && (lookupThrows || (FindByUsername(users, f.username).Some? && loginThrows))
    ensures r.rejected ==> r.form.error.None? && r.session == session
  {
    if f.username == [] then Outcome(f, users, session, false)
    else
      var f1 := f.(error := None);
      if lookupThrows then Outcome(f1, users, session, true)
      else
        match FindByUsername(users, f.username)
        case Some(u) =>
          if loginThrows then Outcome(f1, users, session, true)
          else Outcome(f1, users, Some(u), false)
        case None => Outcome(f1.(error := Some(NotFoundMessage)), users, session, false)
  }

  /** `handleJoin`, the generated id being an input. `insertThrows` stands for
      a storage failure of the insert beyond the collection's own checks. */
  function HandleJoin(f: Form, users: seq<User>, session: Option<User>, freshId: string,
                      lookupThrows: bool, insertThrows: bool, loginThrows: bool): (r: Outcome)
    ensures f.username == [] ==> r == Outcome(f, users, session, false)
    ensures f.username != [] && f.selectedColor == [] ==>
              r == Outcome(f.(error := Some(PickColorMessage)), users, session, false)
    ensures r.users == users || r.users == users + [User(freshId, f.username, f.selectedColor)]
    ensures r.users != users <==>
              && f.username != [] && f.selectedColor != [] && !lookupThrows
              && FindByUsername(users, f.username).None?
              && !insertThrows && InsertUser(users, User(freshId, f.username, f.selectedColor)).Ok?
    ensures r.session != session ==> r.users != users && r.session == Some(User(freshId, f.username, f.selectedColor))
    ensures r.users != users ==>
              if loginThrows then r.form.error == Some(JoinFailedMessage) && r.session == session
              else r.form.error.None? && r.session == Some(User(freshId, f.username, f.selectedColor))
    ensures f.username != [] && f.selectedColor != [] && !lookupThrows && FindByUsername(users, f.username).Some? ==>
              r.form.error == Some(TakenMessage) && r.users == users && r.session == session
    ensures f.username != [] && f.selectedColor != [] && !lookupThrows && FindByUsername(users, f.username).None? &&
            (insertThrows || InsertUser(users, User(freshId, f.username, f.selectedColor)).Err?) ==>
              r.form.error == Some(JoinFailedMessage) && r.users == users && r.session == session
    ensures r.rejected <==> f.username != [] && f.selectedColor != [] && lookupThrows
    ensures UniqueUsernames(users) ==> UniqueUsernames(r.users)
    ensures UniqueUserIds(users) ==> UniqueUserIds(r.users)
  {
    if f.username == [] then Outcome(f, users, session, false)
    else if f.selectedColor == [] then Outcome(f.(error := Some(PickColorMessage)), users, session, false)
    else
      var f1 := f.(error := None);
      if lookupThrows then Outcome(f1, users, session, true)
      else if FindByUsername(users, f.username).Some? then
        Outcome(f1.(error := Some(TakenMessage)), users, session, false)
      else
        var u := User(freshId, f.username, f.selectedColor);
        var inserted := InsertUser(users, u);
        if insertThrows || inserted.Err? then Outcome(f1.(error := Some(JoinFailedMessage)), users, session, false)
        else
          InsertKeepsUnique(users, u);
          if loginThrows then Outcome(f1.(error := Some(JoinFailedMessage)), inserted.value, session, false)
          else Outcome(f1, inserted.value, Some(u), false)
  }

  /** A user who has just joined can log in with the same name, and is then
      the user that was created. */
  lemma JoinThenLogin(f: Form, users: seq<User>, session: Option<User>, freshId: string)
    requires UniqueUsernames(users)
    requires HandleJoin(f, users, session, freshId, false, false, false).users != users
    ensures var j := HandleJoin(f, users, session, freshId, false, false, false);
            HandleLogin(j.form, j.users, None, false, false).session == Some(User(freshId, f.username, f.selectedColor))
  {
    var j := HandleJoin(f, users, session, freshId, false, false, false);
    var u := User(freshId, f.username, f.selectedColor);
    assert j.users == users + [u];
    assert j.users[|users|] == u;
    FirstMatchIsOnly(j.users, |users|);
  }

  /** With unique usernames, the user at position `k` is the one a lookup of
      its name finds. */
  lemma {:induction false} FirstMatchIsOnly(users: seq<User>, k: nat)
    requires UniqueUsernames(users) && k < |users|
    ensures FindByUsername(users, users[k].username) == Some(users[k])
    decreases k
  {
    if k > 0 && users[0].username != users[k].username {
      assert UniqueUsernames(users[1..]) by {
        forall i, j | 0 <= i < j < |users[1..]| ensures users[1..][i].username != users[1..][j].username {
          assert users[1..][i] == users[i + 1] && users[1..][j] == users[j + 1];
        }
      }
      FirstMatchIsOnly(users[1..], k - 1);
    }
  }

  /** Joining with a name that is taken never adds a user, whatever the
      colour. */
  lemma TakenNameNeverJoins(f: Form, users: seq<User>, session: Option<User>, freshId: string,
                            insertThrows: bool, loginThrows: bool)
    requires FindByUsername(users, f.username).Some?
    ensures HandleJoin(f, users, session, freshId, false, insertThrows, loginThrows).users == users
    ensures HandleJoin(f, users, session, freshId, false, insertThrows, loginThrows).session == session
  {
  }
}
