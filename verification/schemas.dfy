/** The document shapes of the two collections (users and tasks) and the
    checklist status enumeration. The Dafny types already carry the "required
    field" and "enum value" constraints of the JSON schemas; the `Valid*`
    predicates add the remaining ones (maximum lengths, position present). */
module Schemas {
  import opened Wrappers

  /** The five keys of `CHECKLIST_STATUS`. */
  datatype ChecklistStatus =
    | NotStarted
    | InProgress
    | Blocked
    | FinalCheckAwaiting
    | Done

  /** The key under which each status is stored and compared. */
  function StatusKey(s: ChecklistStatus): string {
    match s
    case NotStarted => "NOT_STARTED"
    case InProgress => "IN_PROGRESS"
    case Blocked => "BLOCKED"
    case FinalCheckAwaiting => "FINAL_CHECK_AWAITING"
    case Done => "DONE"
  }

  /** The human-readable label the enumeration maps each key to. */
  function StatusLabel(s: ChecklistStatus): string {
    match s
    case NotStarted => "Not Started"
    case InProgress => "In Progress"
    case Blocked => "Blocked"
    case FinalCheckAwaiting => "Final Check Awaiting"
    case Done => "Done"
  }

  /** Reads a stored key back; anything that is not one of the five keys is
      rejected, which is what the schema's `enum` constraint does. */
  function ParseStatusKey(key: string): (r: Option<ChecklistStatus>)
    ensures r.Some? ==> StatusKey(r.value) == key
    ensures r.None? ==> forall s: ChecklistStatus :: StatusKey(s) != key
  {
    if key == "NOT_STARTED" then Some(NotStarted)
    else if key == "IN_PROGRESS" then Some(InProgress)
    else if key == "BLOCKED" then Some(Blocked)
    else if key == "FINAL_CHECK_AWAITING" then Some(FinalCheckAwaiting)
    else if key == "DONE" then Some(Done)
    else None
  }

  /** The enumeration has exactly five distinct keys, each read back to the
      status it came from. */
  lemma StatusKeysRoundTrip(s: ChecklistStatus, t: ChecklistStatus)
    ensures ParseStatusKey(StatusKey(s)) == Some(s)
    ensures s != t ==> StatusKey(s) != StatusKey(t)
  {
  }

  const MaxIdLength := 100

  datatype Point = Point(x: real, y: real)

  datatype ChecklistItem = ChecklistItem(item: string, status: ChecklistStatus)

  /** A task document. `position` is optional in the type the canvas works
      with, but the schema lists it as required. */
  datatype Task = Task(
    taskId: string,
    title: string,
    checklist: seq<ChecklistItem>,
    timestamp: string,
    position: Option<Point>,
    userId: string)

  datatype User = User(userId: string, username: string, userColor: string)

  /** The constraints the task schema adds to the type. */
  predicate ValidTask(t: Task) {
    && |t.taskId| <= MaxIdLength
    && |t.userId| <= MaxIdLength
    && t.position.Some?
  }

  /** The constraints the user schema adds to the type. */
  predicate ValidUser(u: User) {
    && |u.userId| <= MaxIdLength
    && |u.username| <= MaxIdLength
  }

  /** `taskId` is the primary key of the task collection: kept as the map key,
      every stored document carries its own key. */
  predicate KeyedByTaskId(tasks: map<string, Task>) {
    forall id :: id in tasks ==> tasks[id].taskId == id
  }

  /** `userId` is the primary key of the user collection. */
  predicate UniqueUserIds(users: seq<User>) {
    forall i, j :: 0 <= i < j < |users| ==> users[i].userId != users[j].userId
  }

  /** The property enrolment maintains: no two users share a username. */
  predicate UniqueUsernames(users: seq<User>) {
    forall i, j :: 0 <= i < j < |users| ==> users[i].username != users[j].username
  }
}
