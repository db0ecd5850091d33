/** The database store the pages use: the logged-in user, the task snapshot the
    user's subscription delivers, and the init/login/cleanup lifecycle. The
    persisted auth state's `currentUser` is always written together with the
    store's own, so the two are one field here. The task writes are those of
    `TaskCollection`, with `currentUser` as the owner and `tasks` as the
    snapshot they look tasks up in. */
module DatabaseStore {
  import opened Wrappers
  import opened Schemas
  import opened Subscriptions

  datatype State = State(
    isInitialized: bool,
    isLoading: bool,
    tasks: seq<Task>,
    currentUser: Option<User>,
    subs: Subs)

  /** The store as created, from the persisted current user. */
  function Create(persisted: Option<User>): (s: State)
    ensures !s.isInitialized && s.isLoading && s.tasks == []
    ensures s.currentUser == persisted && s.subs == NoSubs
  {
    State(false, true, [], persisted, NoSubs)
  }

  /** A user id that counts as present: JavaScript treats "" as false. */
  predicate HasUserId(u: Option<User>) {
    u.Some? && u.value.userId != []
  }

  /** `initialize`: a no-op once initialized; otherwise marks the store
      initialized and loaded, and subscribes to the current user's tasks when
      there is a user with a non-empty id. */
  function Initialize(s: State): (r: State)
    ensures s.isInitialized ==> r == s
    ensures !s.isInitialized ==>
              && r.isInitialized && !r.isLoading
              && r.tasks == s.tasks && r.currentUser == s.currentUser
    ensures !s.isInitialized && HasUserId(s.currentUser) ==>
              r.subs == Subscribe(s.subs, s.currentUser.value.userId)
    ensures !s.isInitialized && !HasUserId(s.currentUser) ==> r.subs == s.subs
  {
    if s.isInitialized then s
    else
      var s' := s.(isLoading := false, isInitialized := true);
      if HasUserId(s.currentUser) then s'.(subs := Subscribe(s.subs, s.currentUser.value.userId))
      else s'
  }

  /** `login`: subscribes to the user's tasks and makes the user current. The
      lifecycle flags and the snapshot are untouched. */
  function Login(s: State, user: User): (r: State)
    ensures r.currentUser == Some(user)
    ensures r.subs.tracked == Some(user.userId) && Delivers(r.subs, user.userId)
    ensures r.isInitialized == s.isInitialized && r.isLoading == s.isLoading && r.tasks == s.tasks
  {
    s.(subs := Subscribe(s.subs, user.userId), currentUser := Some(user))
  }

  /** `cleanup` (and `logout`, which is the same): closes the tracked
      subscription and resets the store to logged out and uninitialized. */
  function Cleanup(s: State): (r: State)
    ensures !r.isInitialized && !r.isLoading && r.tasks == [] && r.currentUser.None?
    ensures r.subs == Unsubscribe(s.subs)
  {
    State(false, false, [], None, Unsubscribe(s.subs))
  }

  function Logout(s: State): State {
    Cleanup(s)
  }

  /** A running subscription for `userId` emits `snapshot`: it becomes the
      store's task list and loading ends. Emissions of closed subscriptions are
      never seen. */
  function Deliver(s: State, userId: string, snapshot: seq<Task>): (r: State)
    ensures Delivers(s.subs, userId) ==> r.tasks == snapshot && !r.isLoading
    ensures !Delivers(s.subs, userId) ==> r == s
    ensures r.currentUser == s.currentUser && r.subs == s.subs && r.isInitialized == s.isInitialized
  {
    if Delivers(s.subs, userId) then s.(tasks := snapshot, isLoading := false) else s
  }

  /** Initializing twice is initializing once. */
  lemma InitializeIdempotent(s: State)
    ensures Initialize(Initialize(s)) == Initialize(s)
  {
  }

  /** Cleaning up twice is cleaning up once. */
  lemma CleanupIdempotent(s: State)
    ensures Cleanup(Cleanup(s)) == Cleanup(s)
  {
  }

  /** The store's reachable states along the intended flow (create, initialize,
      then alternately log out and log in) hold at most the tracked
      subscription. */
  predicate Good(s: State) {
    Tracked(s.subs) && (s.currentUser.None? ==> s.subs.tracked.None?)
  }

  lemma LifecycleKeepsGood(s: State, user: User, userId: string, snapshot: seq<Task>)
    requires Good(s)
    ensures Good(Cleanup(s))
    ensures Good(Deliver(s, userId, snapshot))
    ensures s.subs.tracked.None? ==> Good(Login(s, user))
    ensures s.subs.tracked.None? ==> Good(Initialize(s))
  {
  }

  lemma CreateIsGood(persisted: Option<User>)
    ensures !HasUserId(persisted) ==> Good(Create(persisted))
    ensures HasUserId(persisted) ==> Good(Initialize(Create(persisted)))
  {
  }

  /** After logging out from a good state no subscription is left, so no
      emission reaches the store. */
  lemma LogoutSilencesDeliveries(s: State, userId: string, snapshot: seq<Task>)
    requires Good(s)
    ensures Deliver(Logout(s), userId, snapshot) == Logout(s)
  {
    assert Logout(s).subs.live == multiset{};
  }

  /** `login` does not close an earlier subscription: logging in twice and then
      out leaves the first user's subscription running, and its next emission
      fills the logged-out store's task list. */
  lemma LoginTwiceLeaks(a: User, b: User, snapshot: seq<Task>)
    requires a.userId != b.userId && snapshot != []
    ensures var s := Logout(Login(Login(Create(None), a), b));
            && s.currentUser.None?
            && Deliver(s, a.userId, snapshot).tasks == snapshot
  {
    ResubscribeLeaks(NoSubs, a.userId, b.userId);
  }
}
