/** The standalone task store: the same task writes as the database store, a
    `taskCount` kept next to the task list, and a lifecycle driven by the
    caller's database handle and user. `connected` stands for the stored
    database handle. */
module TaskStore {
  import opened Wrappers
  import opened Schemas
  import opened Forms
  import opened Subscriptions
  import TaskCollection
  import Text

  datatype State = State(
    tasks: seq<Task>,
    taskCount: int,
    isLoading: bool,
    isInitialized: bool,
    user: Option<User>,
    connected: bool,
    subs: Subs)

  const Initial := State([], 0, true, false, None, false, NoSubs)

  /** `initialize(db, user)`: a no-op when already initialized; otherwise
      stores the handle and the user, starts loading, and subscribes to the
      user's tasks. */
  function Initialize(s: State, user: User): (r: State)
    ensures s.isInitialized ==> r == s
    ensures !s.isInitialized ==>
              && r.isInitialized && r.isLoading && r.connected && r.user == Some(user)
              && r.tasks == s.tasks && r.taskCount == s.taskCount
              && r.subs == Subscribe(s.subs, user.userId)
  {
    if s.isInitialized then s
    else s.(connected := true, user := Some(user), isLoading := true, isInitialized := true,
            subs := Subscribe(s.subs, user.userId))
  }

  /** `cleanup`: closes the tracked subscription and forgets tasks, count,
      user and handle. `isLoading` is left as it was. */
  function Cleanup(s: State): (r: State)
    ensures r.tasks == [] && r.taskCount == 0 && r.user.None? && !r.connected && !r.isInitialized
    ensures r.isLoading == s.isLoading
    ensures r.subs == Unsubscribe(s.subs)
  {
    State([], 0, s.isLoading, false, None, false, Unsubscribe(s.subs))
  }

  /** An emission of a running subscription replaces the list, recounts it
      and ends loading. */
  function Deliver(s: State, userId: string, snapshot: seq<Task>): (r: State)
    ensures Delivers(s.subs, userId) ==> r.tasks == snapshot && r.taskCount == |snapshot| && !r.isLoading
    ensures !Delivers(s.subs, userId) ==> r == s
    ensures r.user == s.user && r.subs == s.subs && r.isInitialized == s.isInitialized
  {
    if Delivers(s.subs, userId) then s.(tasks := snapshot, taskCount := |snapshot|, isLoading := false)
    else s
  }

  /** The owner `addTask` writes for: the user, provided a handle is stored. */
  function Owner(s: State): (r: Option<User>)
    ensures r.Some? <==> s.connected && s.user.Some?
    ensures r.Some? ==> r == s.user
  {
    if s.connected then s.user else None
  }

  /** `addTask`: throws without a handle or a user, otherwise the collection
      insert of the normalised task. */
  function AddTask(s: State, tasks: TaskCollection.Tasks, form: TaskForm, position: Point,
                   freshId: string, timestamp: string): (r: Result<TaskCollection.Tasks, TaskCollection.AddError>)
    ensures !s.connected || s.user.None? ==> r == Err(TaskCollection.NotInitialized)
    ensures r.Ok? <==>
              && s.connected && s.user.Some? && freshId !in tasks
              && |freshId| <= MaxIdLength && |s.user.value.userId| <= MaxIdLength
    ensures r.Ok? ==> r.value.Keys == tasks.Keys + {freshId}
    ensures r.Ok? ==> forall id :: id in tasks ==> r.value[id] == tasks[id]
    ensures r.Ok? ==>
              var t := r.value[freshId];
              && t.taskId == freshId && t.userId == s.user.value.userId
              && t.title == Text.Trim(form.title)
              && t.checklist == TaskCollection.NormalizeChecklist(form.checklist)
              && t.position == Some(position) && t.timestamp == timestamp
  {
    TaskCollection.AddTask(tasks, Owner(s), form, position, freshId, timestamp)
  }

  /** What the store keeps true: the count matches the list, the handle and
      the user are stored and dropped together with the initialized flag, and
      only the tracked subscription runs. */
  predicate Consistent(s: State) {
    && s.taskCount == |s.tasks|
    && (s.isInitialized <==> s.connected)
    && (s.connected <==> s.user.Some?)
    && Tracked(s.subs)
    && (s.isInitialized <==> s.subs.tracked.Some?)
  }

  /** Every operation keeps the store consistent, in particular `taskCount`
      always equals the number of tasks. */
  lemma OperationsKeepConsistent(s: State, user: User, userId: string, snapshot: seq<Task>)
    requires Consistent(s)
    ensures Consistent(Initialize(s, user))
    ensures Consistent(Cleanup(s))
    ensures Consistent(Deliver(s, userId, snapshot))
  {
  }

  lemma InitialConsistent()
    ensures Consistent(Initial)
  {
  }

  /** In a consistent store `addTask` throws exactly when the store is not
      initialized. */
  lemma AddTaskNeedsInitialize(s: State, tasks: TaskCollection.Tasks, form: TaskForm,
                               position: Point, freshId: string, timestamp: string)
    requires Consistent(s)
    ensures AddTask(s, tasks, form, position, freshId, timestamp) == Err(TaskCollection.NotInitialized)
            <==> !s.isInitialized
  {
  }
}
