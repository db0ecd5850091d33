/** The user collection, in storage order: the lookup by username both login
    paths use and the insert enrolment performs. The collection's primary key
    is `userId`; usernames are only indexed, so their uniqueness is up to the
    callers. */
module UserCollection {
  import opened Wrappers
  import opened Schemas

  /** `users.findOne({ selector: { username } })`: the first user with that
      username. */
  function FindByUsername(users: seq<User>, username: string): (r: Option<User>)
    ensures r.Some? <==> exists i :: 0 <= i < |users| && users[i].username == username
    ensures r.Some? ==> r.value in users && r.value.username == username
  {
    if |users| == 0 then None
    else if users[0].username == username then Some(users[0])
    else
      var r := FindByUsername(users[1..], username);
      assert forall i :: 1 <= i < |users| ==> users[i] == users[1..][i - 1];
      r
  }

  /** Why an insert is refused: the id is taken, or the document breaks the
      schema. */
  datatype InsertError = Conflict | SchemaViolation

  /** `users.insert(user)`. */
  function InsertUser(users: seq<User>, u: User): (r: Result<seq<User>, InsertError>)
    ensures r == Err(Conflict) <==> exists i :: 0 <= i < |users| && users[i].userId == u.userId
    ensures r.Ok? <==> (forall i :: 0 <= i < |users| ==> users[i].userId != u.userId) && ValidUser(u)
    ensures r.Ok? ==> r.value == users + [u]
  {
    if exists i :: 0 <= i < |users| && users[i].userId == u.userId then Err(Conflict)
    else if !ValidUser(u) then Err(SchemaViolation)
    else Ok(users + [u])
  }

  /** An insert keeps user ids unique, and keeps usernames unique when the
      new name was not found. */
  lemma InsertKeepsUnique(users: seq<User>, u: User)
    requires InsertUser(users, u).Ok?
    ensures UniqueUserIds(users) ==> UniqueUserIds(InsertUser(users, u).value)
    ensures UniqueUsernames(users) && FindByUsername(users, u.username).None? ==>
              UniqueUsernames(InsertUser(users, u).value)
  {
  }
}
