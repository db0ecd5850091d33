# cendas-demo core, modelled in Dafny

cendas-demo is a small browser application. A user logs in by username and
places task pins on a construction floor plan. Each task has a title and a
checklist of items, and each item carries one of five statuses. The project
models the application's logic as immutable values and pure functions:

- the document shapes and the status enumeration (`Schemas`);
- the status derived from a checklist (`TaskStatus`);
- the icon colours and the hex darkening (`StatusIcon`);
- the task form validator (`Forms`);
- the task collection and its writes (`TaskCollection`);
- the two stores: the database store with its login and subscription
  lifecycle (`DatabaseStore`, `Subscriptions`), and the task store with its
  `taskCount` (`TaskStore`);
- the task list's filter, progress column and empty state (`TaskList`);
- the user collection, `useAuth` and the login page (`UserCollection`, `Auth`,
  `LoginRoute`);
- the canvas: avatar initials (`Initials`), fitting and wheel zoom
  (`Viewport`), two-finger pinch (`Gestures`), and pins and clicks
  (`CanvasClicks`).

`Wrappers`, `Text` and `Sequences` hold the generic helpers: option and result
types, JavaScript string operations, and an order-preserving filter.

Collections and database effects are plain values:

- The task collection is a map from `taskId` to the task.
- The user collection is a sequence, and a `findOne` by username is the first
  match in it. With unique usernames, which every enrolment path keeps, this
  is the only match (`LoginRoute.FirstMatchIsOnly`).
- A running query subscription is a live entry in a multiset of user ids.
- Exceptions, generated ids, timestamps and the finger distance are inputs.

Coordinates are exact reals.

The database store holds the current user twice: in its state and in the
persisted auth state. `login` and `cleanup` always write the two together,
so they are one field here.

One observation is proved rather than listed as a finding:

- `login` opens a subscription without closing the one it replaces.
- After two logins and a logout, the first user's query is still live.
- Its emissions would still replace the store's task list
  (`DatabaseStore.LoginTwiceLeaks`).
- The intended flow always logs out in between, so this is kept as the code
  has it.

## Model

| member | source | states |
|---|---|---|
| Schemas.ParseStatusKey | src/types/schemas.ts:10-16 | a stored status key reads back as the status it names; a string that is none of the five keys reads back as nothing |
| Schemas.StatusKeysRoundTrip | src/types/schemas.ts:10-16 | the enumeration has five distinct keys, and each reads back as its own status |
| TaskStatus.GetTaskStatus | src/components/TaskStatus.tsx:16-48 | an empty checklist is NOT_STARTED; BLOCKED exactly when some item is blocked; DONE exactly when the list is non-empty and all done; FINAL_CHECK_AWAITING exactly when nothing is blocked, not all are done and some item awaits the final check; IN_PROGRESS exactly in the remaining mixed cases; NOT_STARTED exactly when every item is not started |
| TaskStatus.HasByCount | src/components/TaskStatus.tsx:23-29 | "some item has status s" and "every item has s" depend only on how many items carry s |
| TaskStatus.AllAreByCount | src/components/TaskStatus.tsx:29 | every status equals s exactly when s occurs as often as the list is long |
| TaskStatus.StatusOrderInvariant | src/components/TaskStatus.tsx:23-47 | two checklists whose statuses are permutations of each other get the same derived status |
| TaskStatus.NotStartedDoneMixInProgress | src/components/TaskStatus.tsx:41-44 | a checklist of only NOT_STARTED and DONE items, with at least one of each, is IN_PROGRESS |
| StatusIcon.StripHash | src/components/StatusIcon.tsx:25 | a leading `#` is removed, and any other string is kept as it is |
| StatusIcon.ParseHex | src/components/StatusIcon.tsx:28 | `parseInt(s, 16)` yields NaN exactly when no hex digit follows the leading whitespace, the sign and the `0x` prefix |
| StatusIcon.Byte | src/components/StatusIcon.tsx:29-31 | shifting and masking always gives a byte, 0 for NaN |
| StatusIcon.SixDigitChannels | src/components/StatusIcon.tsx:28-31 | for six hex digits, the red, green and blue bytes are the first, second and third digit pairs |
| StatusIcon.Clamp | src/components/StatusIcon.tsx:40-42 | the result lies in 0..255 and equals the input when the input does |
| StatusIcon.Darken | src/components/StatusIcon.tsx:34-42 | a darkened channel is always a byte |
| StatusIcon.DarkenChannelBound | src/components/StatusIcon.tsx:34-42 | for a percentage in 0..100 a channel never grows |
| StatusIcon.ToHexString | src/components/StatusIcon.tsx:45 | `toString(16)` gives at least one lower-case hex digit |
| StatusIcon.PadStart | src/components/StatusIcon.tsx:45 | the result has the target width (or the input's length when longer), ends with the input and is `0` before it |
| StatusIcon.ToHex2 | src/components/StatusIcon.tsx:45 | a byte is written as two lower-case hex digits that read back as that byte |
| StatusIcon.ToHex2IsPaddedHexString | src/components/StatusIcon.tsx:45 | zero-padding `toString(16)` to width two spells each byte as `ToHex2` |
| StatusIcon.EncodeColor | src/components/StatusIcon.tsx:47 | the output is `#` and six lower-case hex digits whose pairs read back as the three channels |
| StatusIcon.DarkenColor | src/components/StatusIcon.tsx:23-48 | the result is a colour code whose three digit pairs are the input's bytes, each darkened by the percentage |
| StatusIcon.DarkenNeverBrightens | src/components/StatusIcon.tsx:34-47 | for a percentage in 0..100 no channel of the output exceeds the input's |
| StatusIcon.DarkenFullyIsBlack | src/components/StatusIcon.tsx:34-47 | darkening any string by 100 percent gives `#000000` |
| StatusIcon.DarkenByZeroIsLowercase | src/components/StatusIcon.tsx:23-48 | darkening a six-digit colour by 0 percent gives the colour back in lower case |
| StatusIcon.CodeChannels | src/components/StatusIcon.tsx:25-31 | the channels of `#` and six hex digits are its digit pairs |
| StatusIcon.EncodeDigits | src/components/StatusIcon.tsx:45-47 | re-encoding the digit pairs of a colour code gives the code in lower case |
| StatusIcon.StatusColor | src/components/StatusIcon.tsx:9-15 | every status has a fill colour, a `#` and six characters |
| StatusIcon.StrokeColor | src/components/StatusIcon.tsx:51-52 | every status's stroke is a lower-case colour code |
| StatusIcon.StrokeColors | src/components/StatusIcon.tsx:51-52 | every fill is a six-digit code, and the strokes are `#a6a6a6`, `#cc9832`, `#cc4242`, `#328bcc` and `#46b952` |
| Forms.ItemIssues | src/types/forms.ts:6-12 | an item is reported empty exactly when its text is empty, and its status invalid exactly when it is none of the five keys |
| Forms.ParseItems | src/types/forms.ts:8-11 | valid raw items become checklist items with the same text and the status their key names, in order |
| Forms.ValidateTaskForm | src/types/forms.ts:4-14 | the form is accepted exactly when it is valid; accepted values keep the title and items; a rejection lists at least one issue, and each check appears exactly when it fails |
| Forms.IssueMessage | src/types/forms.ts:5-13 | the title, item and checklist checks carry their own message; the status check has none of its own |
| Forms.WhitespaceFormAccepted | src/types/forms.ts:5-13 | a title and an item made only of spaces pass validation |
| TaskCollection.NormalizeChecklist | src/stores/databaseStore.tsx:155 | the kept items are exactly the non-blank ones, each as often as in the input, in their original order |
| TaskCollection.NormalizeStable | src/stores/databaseStore.tsx:155 | a checklist with no blank item is unchanged, and normalising twice is normalising once |
| TaskCollection.Insert | src/stores/databaseStore.tsx:160 | an insert succeeds exactly when the key is free and the document is valid; it fails as a conflict exactly when the key is taken; on success it adds only that document |
| TaskCollection.AddTask | src/stores/databaseStore.tsx:144-161 | no owner gives the not-initialized error; otherwise it succeeds exactly for a fresh id within the length limits, adding one task with the trimmed title, the normalised checklist, the position, the owner's id and the timestamp, and changing nothing else |
| TaskCollection.FindById | src/stores/databaseStore.tsx:164 | a lookup finds a task exactly when the snapshot holds one with that id, and returns such a task |
| TaskCollection.Patch | src/stores/databaseStore.tsx:166-169 | a patch replaces only the patched document, and only when it is stored |
| TaskCollection.UpdateTask | src/stores/databaseStore.tsx:163-171 | an id missing from the snapshot changes nothing; otherwise only that task's title and checklist change, normalised, while id, position, owner and timestamp stay |
| TaskCollection.UpdatePinPosition | src/stores/databaseStore.tsx:177-180 | an id missing from the snapshot changes nothing; otherwise only that task's position changes |
| TaskCollection.DeleteTask | src/stores/databaseStore.tsx:173-175 | exactly the given task's document is removed |
| TaskCollection.WritesPreserveWellFormed | src/stores/databaseStore.tsx:144-180 | every write keeps each document stored under its own id and valid |
| TaskCollection.ResaveIsNoOp | src/stores/databaseStore.tsx:163-171 | saving a task's own stored title and checklist back a second time changes nothing more |
| TaskCollection.WhitespaceFormGivesEmptyTask | src/stores/databaseStore.tsx:152-160 | a form of spaces that passes validation produces a task with an empty title and an empty checklist |
| Subscriptions.Subscribe | src/stores/databaseStore.tsx:111-123 | subscribing adds one live query for the user and tracks its handle, leaving the others alone |
| Subscriptions.Unsubscribe | src/stores/databaseStore.tsx:133 | unsubscribing drops the handle and stops one live query of the tracked user, leaving the others alone |
| Subscriptions.SubscribeUnsubscribe | src/stores/databaseStore.tsx:110-142 | from a state with no handle, subscribing and unsubscribing leaves nothing running |
| Subscriptions.ResubscribeLeaks | src/stores/databaseStore.tsx:111-123 | subscribing twice and unsubscribing leaves the first user's query running |
| DatabaseStore.Create | src/stores/databaseStore.tsx:56-63 | a new store is loading, not initialized and empty, and its current user is the persisted one |
| DatabaseStore.Initialize | src/stores/databaseStore.tsx:65-91 | once initialized, nothing changes; otherwise it marks the store initialized and not loading, and subscribes exactly when the user id is non-empty |
| DatabaseStore.Login | src/stores/databaseStore.tsx:110-126 | the user becomes current and its tasks query is live and tracked; the flags and tasks stay |
| DatabaseStore.Cleanup | src/stores/databaseStore.tsx:132-142 | tasks are emptied, the user is cleared, both flags are false, and the tracked query is closed |
| DatabaseStore.Deliver | src/stores/databaseStore.tsx:83-87 | an emission of a live query replaces the task list and ends loading; one from a closed query changes nothing |
| DatabaseStore.InitializeIdempotent | src/stores/databaseStore.tsx:72-73 | initializing twice equals initializing once |
| DatabaseStore.CleanupIdempotent | src/stores/databaseStore.tsx:132-142 | cleaning up twice equals cleaning up once |
| DatabaseStore.LifecycleKeepsGood | src/stores/databaseStore.tsx:65-142 | along the intended flow, the handle covers every live query, and no user means no handle |
| DatabaseStore.CreateIsGood | src/stores/databaseStore.tsx:56-91 | a new store, initialized when a user is persisted, starts in that good state |
| DatabaseStore.LogoutSilencesDeliveries | src/stores/databaseStore.tsx:128-142 | after logging out from a good state, no emission changes the store |
| DatabaseStore.LoginTwiceLeaks | src/stores/databaseStore.tsx:110-126 | two logins and a logout leave the first user's query live, so its emission refills the task list |
| TaskStore.Initialize | src/stores/taskStore.ts:42-60 | once initialized, nothing changes; otherwise it stores the handle and the user, sets loading and initialized, and subscribes to that user's tasks |
| TaskStore.Cleanup | src/stores/taskStore.ts:62-72 | tasks, count, user and handle are cleared and the store is not initialized, but `isLoading` keeps its value |
| TaskStore.Deliver | src/stores/taskStore.ts:53-57 | an emission of a live query sets the tasks, sets the count to their number and ends loading |
| TaskStore.Owner | src/stores/taskStore.ts:75-77 | there is an owner exactly when both a handle and a user are stored |
| TaskStore.AddTask | src/stores/taskStore.ts:74-88 | without a handle or a user it fails as not initialized; it succeeds exactly when both are stored, the id is new and both ids are within the length limit; then the other tasks are kept and the new task, owned by the store's user, has the trimmed title, the checklist without blank items, the position and the timestamp |
| TaskStore.OperationsKeepConsistent | src/stores/taskStore.ts:42-72 | every operation keeps `taskCount` equal to the number of tasks, keeps handle, user and flag in step, and keeps the subscription tracked |
| TaskStore.InitialConsistent | src/stores/taskStore.ts:33-40 | the initial store is consistent |
| TaskStore.AddTaskNeedsInitialize | src/stores/taskStore.ts:74-77 | in a consistent store, `addTask` fails exactly when the store is not initialized |
| TaskList.FilterTasks | src/components/TaskList.tsx:65-70 | the shown tasks are exactly those matching the filter, each as often as in the list, in their original order |
| TaskList.FilterAllKeepsEverything | src/components/TaskList.tsx:65-68 | "All" keeps the list as it is |
| TaskList.CompletedItems | src/components/TaskList.tsx:97-99 | the count is the number of items whose status is DONE (their multiplicity among the statuses); so it is at most the checklist's length, equals it exactly when all items are done, and is zero exactly when none is |
| TaskList.Progress | src/components/TaskList.tsx:97-100 | the total is the checklist's length and at least the completed count; the two are equal and non-zero exactly when the task's status is DONE |
| TaskList.TableBody | src/components/TaskList.tsx:95-147 | rows are shown exactly when the filtered list is non-empty; otherwise the title is "You have no tasks yet" exactly when there are no tasks at all, and "No tasks found" otherwise |
| TaskList.AllNeverSaysNoMatches | src/components/TaskList.tsx:133-147 | with "All" selected the empty state appears only when there are no tasks |
| UserCollection.FindByUsername | src/stores/databaseStore.tsx:93-103 | a lookup finds a user exactly when one has the name, and returns a stored user with that name |
| UserCollection.InsertUser | src/stores/databaseStore.tsx:105-108 | an insert conflicts exactly when the id is taken, succeeds exactly when the id is free and the user is valid, and then appends the user |
| UserCollection.InsertKeepsUnique | src/types/schemas.ts:22-43 | an insert keeps ids unique, and keeps usernames unique when the name was not found |
| Auth.LoginUser | src/hooks/useAuth.ts:33-54 | a thrown lookup gives AUTH/UNKNOWN_ERROR with its message (or the default one); an unknown name gives AUTH/USER_NOT_FOUND without a login; a known name logs in a stored user with that name and clears the error; processing ends in every case |
| Auth.EnrollUser | src/hooks/useAuth.ts:56-84 | a thrown lookup gives AUTH/UNKNOWN_ERROR; a taken name gives AUTH/USERNAME_TAKEN and changes nothing; a user is added exactly when the lookup worked, the name is free and the insert succeeds, and then the new user is logged in; an insert refused for a free name gives AUTH/UNKNOWN_ERROR with the enrolment message and changes nothing; uniqueness of names and ids is kept |
| Auth.SequentialEnrolmentsKeepUnique | src/hooks/useAuth.ts:56-84 | any run of enrolments one after another keeps usernames and user ids unique |
| Auth.EnrolTwiceIsTaken | src/hooks/useAuth.ts:60-68 | enrolling a name that was just enrolled is refused as taken and adds nobody |
| LoginRoute.HandleLogin | src/components/routes/login.tsx:25-42 | an empty name does nothing; the session only ever changes to a stored user with that name; "User not found. Would you like to join?" is shown exactly when the lookup worked and found nobody; a found user becomes the session |
| LoginRoute.HandleJoin | src/components/routes/login.tsx:44-76 | an empty name does nothing; no colour gives "Please select a color." with no lookup; a taken name gives "Username is already taken." and inserts nothing; a user is added exactly when the name is free and the insert succeeds, and is then logged in, or the generic error is shown if that fails; an insert that throws or is refused shows the generic error and keeps the users and the session |
| LoginRoute.JoinThenLogin | src/components/routes/login.tsx:25-76 | after a successful join, logging in with the same name logs in the user just created |
| LoginRoute.FirstMatchIsOnly | src/components/routes/login.tsx:28-34 | with unique usernames, a lookup of a stored user's name finds that very user |
| LoginRoute.TakenNameNeverJoins | src/components/routes/login.tsx:60-63 | a taken name never adds a user or changes the session, whatever else fails |
| Initials.FirstChar | src/components/layouts/layout.tsx:34 | `word[0]` is present exactly for a non-empty word, and is its first character |
| Initials.Plus | src/components/layouts/layout.tsx:34 | two characters concatenate; a missing one contributes the text "undefined"; two missing ones give NaN, whose `toUpperCase` throws |
| Initials.Prefix2 | src/components/layouts/layout.tsx:36 | the result is the first two characters, or the whole string when it is shorter |
| Initials.GetInitials | src/components/layouts/layout.tsx:31-37 | no name or an empty one gives ""; a name whose second piece is empty gives its first two characters in upper case. Otherwise, when the first and last pieces are both non-empty, their first characters in upper case; when only one is empty, its `undefined` becomes the text "UNDEFINED" next to the other's initial; when both are empty, the call throws |
| Initials.UpperOfPlus | src/components/layouts/layout.tsx:34 | upper-casing the sum of the two initials upper-cases each character, the text "undefined" becoming "UNDEFINED" |
| Initials.InitialsAtMostTwo | src/components/layouts/layout.tsx:31-37 | with upper-casing that maps each character to one character (the ASCII-only case mapping of this model), a name that neither starts nor ends with a space gets at most two initials |
| Initials.TwoWordsExample | src/components/layouts/layout.tsx:32-34 | "Ann Lee" gives "AL" |
| Initials.DoubleSpaceExample | src/components/layouts/layout.tsx:36 | "a  b" gives "A " |
| Initials.TrailingSpaceExample | src/components/InteractiveCanvas.tsx:25-31 | "Ann Lee " gives "AUNDEFINED" |
| Initials.SurroundingSpacesExample | src/components/InteractiveCanvas.tsx:25-31 | " Ann " makes the function throw |
| Initials.Words | src/components/InteractiveCanvas.tsx:26 | the non-empty pieces of a name, in order, each as often as it occurs: a subsequence that keeps every non-empty piece and nothing else, and all the pieces when none is empty |
| Initials.GetInitialsCorrected | src/components/InteractiveCanvas.tsx:25-31 | at most two initials (under the same one-to-one upper-casing), never a space, and none exactly for a name made only of spaces |
| Initials.NoWordsIffAllSpaces | src/components/InteractiveCanvas.tsx:26 | a string has no non-empty piece exactly when it is made of spaces |
| Initials.CorrectionAgrees | src/components/InteractiveCanvas.tsx:25-31 | for a name with no empty piece, the corrected initials are those the code computes |
| Viewport.ToWorld | src/components/InteractiveCanvas.tsx:128-131 | the stage point found for a screen point is mapped back onto that screen point |
| Viewport.WorldScreenRoundTrip | src/components/InteractiveCanvas.tsx:128-131 | mapping a stage point to the screen and back gives the point |
| Viewport.UpdateSize | src/components/InteractiveCanvas.tsx:90-115 | the fit happens exactly when container, image and stage are present; the stage takes the container's size; the scaled image fits on both axes and fills one exactly; the offsets are non-negative and centre it |
| Viewport.FitBounds | src/components/InteractiveCanvas.tsx:98-101 | a scale at most `c / d` makes `d` fit into `c`, exactly at equality |
| Viewport.Wheel | src/components/InteractiveCanvas.tsx:117-163 | the scale is multiplied by 1.02 when zooming in (scrolling down, inverted by ctrl) and divided by it otherwise; it stays non-zero and stays positive; the stage point under the pointer stays under it; every pin gets the reciprocal scale |
| Viewport.AnchorKept | src/components/InteractiveCanvas.tsx:147-151 | placing the stage at `pointer - point * scale` keeps `point` under the pointer |
| Viewport.ZoomInOutRoundTrip | src/components/InteractiveCanvas.tsx:117-163 | one wheel step and the opposite step at the same pointer restore the transform exactly |
| Viewport.SameScaleSameAnchor | src/components/InteractiveCanvas.tsx:147-151 | two transforms with one scale that keep the same point under the pointer are equal |
| Viewport.CtrlInverts | src/components/InteractiveCanvas.tsx:134-143 | scrolling with ctrl held does what the opposite scroll does without it |
| Gestures.Center | src/components/InteractiveCanvas.tsx:215-223 | the centre lies midway between the two touches |
| Gestures.TouchMove | src/components/InteractiveCanvas.tsx:225-293 | one finger resumes a suspended drag; two fingers suspend a running one; the first two-finger event records only the centre and the next only the distance; later events scale the stage by the distance ratio, and the stage point that the touch centre names when read as a container position ends up at the centre shifted once more by how far the centre moved; pins get the reciprocal scale |
| Gestures.TouchEnd | src/components/InteractiveCanvas.tsx:295-298 | the last centre and distance are forgotten and the drag flag stays |
| Gestures.Spread | src/components/InteractiveCanvas.tsx:208-223 | two touches a given distance apart around a centre have that centre and that distance |
| Gestures.PinchSeeding | src/components/InteractiveCanvas.tsx:249-259 | after a touch end, the next two two-finger events leave the stage as it is, recording first the centre and then the distance |
| Gestures.PinchRoundTrip | src/components/InteractiveCanvas.tsx:262-279 | spreading the fingers and bringing them back about a fixed centre restores the stage transform exactly |
| CanvasClicks.PinsShown | src/components/InteractiveCanvas.tsx:81-87 | the pins are exactly the current user's tasks that have a position, in their original order; with nobody logged in there are none |
| CanvasClicks.HandleStageClick | src/components/InteractiveCanvas.tsx:165-189 | the menu is always hidden afterwards; a click creates exactly when no menu was open, it hit the stage or the image, no drag was ending and the pointer is known, and then the dialog opens with the pin placed under the pointer; otherwise the dialog and pending pin stay |
| CanvasClicks.CloseCreateModal | src/components/InteractiveCanvas.tsx:191-194 | the dialog closes and the pending pin is dropped |
| CanvasClicks.HandleCreateTask | src/components/InteractiveCanvas.tsx:196-200 | with no pending pin nothing is written; otherwise the task is added at the pending pin's position |
| CanvasClicks.PinClick | src/components/InteractiveCanvas.tsx:300-318 | the menu opens at the pointer for that task, and the dialog state stays |
| CanvasClicks.PinDragStart | src/components/InteractiveCanvas.tsx:345-349 | dragging a pin hides the menu, and nothing else changes |
| CanvasClicks.ClickThenCreate | src/components/InteractiveCanvas.tsx:165-200 | clicking the plan and submitting creates a task of that user whose pin sits exactly under the click |
| CanvasClicks.MenuSwallowsOneClick | src/components/InteractiveCanvas.tsx:169-173 | with the menu open, a click only closes it, and the next click on the plan creates |
| CanvasClicks.CloseThenCreateWritesNothing | src/components/InteractiveCanvas.tsx:191-200 | submitting after the dialog was closed writes nothing |
| Sequences.Filter | src/components/TaskList.tsx:65-70 | the filter keeps only wanted elements and is an order-preserving subsequence of its input |
| Sequences.FilterCounts | src/components/TaskList.tsx:65-70 | each wanted element is kept as often as it occurs, and each unwanted one is dropped |
| Sequences.FilterIdempotent | src/stores/databaseStore.tsx:155 | filtering twice is filtering once |
| Text.Trim | src/stores/databaseStore.tsx:154 | `trim` removes exactly the leading and trailing whitespace, leaving a slice of the input |
| Text.TrimIdempotent | src/stores/databaseStore.tsx:154 | trimming twice is trimming once |
| Text.Split | src/components/layouts/layout.tsx:32 | `split(" ")` gives at least one piece, none containing a space, and one piece exactly when there is no space |
| Text.JoinSplit | src/components/layouts/layout.tsx:32 | joining the pieces with spaces gives the string back |

## Left out

- Rendering is not modelled. This covers Konva drawing (pin shapes, texts, the layer lookup), all React markup, the dialogs, the filter dropdown and the skeletons. Only the values the handlers compute are kept.
- RxDB, zustand and rxjs plumbing is not modelled: the database singleton, the providers and the initializer hooks. Query sort order by timestamp is not modelled either; an emission is an input sequence.
- `crypto.randomUUID` and `new Date().toISOString()` are inputs (`freshId`, `timestamp`). Freshness of the generated id is not assumed; it shows up as the insert's conflict case.
- Async interleaving is not modelled. Every handler runs to completion before the next starts, so the check-then-insert race between two enrolments is absent.
- Floating point is not modelled: coordinates and scales are exact reals. `Math.sqrt` of the pinch distance is an input constrained to be the Euclidean distance. `Math.round` is rounding half up on exact rationals, as it is for the non-negative values that occur.
- `toUpperCase`/`toLowerCase` map only ASCII letters.
- `handleStageDragEnd`, `handlePinDragEnd`, and the delete, edit and confirm-delete wiring are not modelled separately. They forward stage positions or one task to `updatePinPosition`, `updateTask` and `deleteTask`, which are modelled.
- The auth module's `login`/`logout` helpers are one field write each, modelled as the session value in `LoginRoute`.
- `useAuth`'s `logout`, `clearError` and loading flags are not modelled. They forward to the store or reset the error.
- Viewport.UpdateSize: requires the image to have positive width and height. A loaded image element has them; a zero size would give an infinite scale in the code.
- Viewport.Wheel: requires a non-zero stage scale, since the code divides by it (src/components/InteractiveCanvas.tsx:129-130). A scale of 0 is reachable: `UpdateSize` gives it for a container of zero width or height, and `TouchMove` gives it when the fingers meet. From there the code divides by 0 and writes non-finite positions, which the model does not describe.
- Gestures.TouchMove: requires a non-zero stage scale, like `Wheel`. A new scale of 0 (fingers brought together) leaves the pins' scale absent instead of modelling `1 / 0`.
- Gestures.TouchMove: the touches are `clientX`/`clientY`, which are viewport coordinates (src/components/InteractiveCanvas.tsx:246-247). The stage position they are combined with is relative to the stage's container, which sits below the page header. The model takes the arithmetic as written, so its anchor is the stage point the centre names as a container position. The point actually under the fingers differs from it by the container's page offset divided by the scale, and the container's offset is not modelled.
- CanvasClicks.HandleStageClick: requires a non-zero stage scale, because the pointer's stage position inverts the stage transform. Scale 0 is reachable (see `Viewport.Wheel` above), and `handleStageClick` has no guard for it. The model does not describe what the inversion of a zero-scale transform yields.
- TaskCollection.UpdateTask: the task is looked up in the store's snapshot and patched in the collection. A snapshot entry that is missing from the collection is treated as a no-op; the code would patch a removed document and fail.
- TaskCollection.DeleteTask: takes the task document, as the code does, and removes the document stored under its id.
- UserCollection.FindByUsername: returns the first match in sequence order. RxDB answers a `findOne` without a sort in primary-key order, so with duplicate usernames the user found may differ. Every enrolment path keeps usernames unique (`Auth.SequentialEnrolmentsKeepUnique`), and then there is only one match.
- StatusIcon.ParseHex: the value is the exact integer, not the double `parseInt` returns. Beyond 13 hex digits the code rounds before shifting: "#20000000000001" gives blue 0 in the code and 1 here. The application only passes its five six-digit fill colours, where the two agree (`CodeChannels`).
- StatusIcon.DarkenColor: its bytes come from the exact parse of `ParseHex`, so for inputs of more than 13 hex digits it can differ from the code, as described above.
- Initials.FirstChar: strings are sequences of Unicode characters, while JavaScript indexes UTF-16 code units. For a word starting with a character outside the Basic Multilingual Plane, such as an emoji, `word[0]` is a lone surrogate half; here it is the whole character.
- Initials.Prefix2: likewise, `substring(0, 2)` counts UTF-16 code units and can cut an emoji in half; here it takes two whole characters.
- Initials.InitialsAtMostTwo: requires the name to neither start nor end with a space, because such names break the bound (see Findings).
- Initials.InitialsAtMostTwo: the bound also rests on upper-casing mapping each character to one character, which holds only for the ASCII case mapping modelled here. JavaScript's `toUpperCase` lengthens some characters ('ß' becomes "SS"), so in the program "ßa" gives "SSA" and "Ann ßo" gives "ASS". The bound is a property of the model, not of the program, for such names.
- Initials.GetInitialsCorrected: its `|r| <= 2` holds under the same one-to-one upper-casing; with the runtime's full Unicode `toUpperCase` an initial such as 'ß' would become two characters.
- LoginRoute.HandleLogin: a lookup or session write that throws is a flag (`rejected`). The promise rejection itself, which nothing catches, is not modelled further.

## Findings

| source | as written | input that shows it | evidently intended | confidence | as-written member | corrected member |
|---|---|---|---|---|---|---|
| src/components/InteractiveCanvas.tsx:25-31 | `getInitials` takes the first character of the first and of the last space-separated piece whenever the second piece is non-empty; pieces can be empty, and an empty piece's `[0]` is `undefined` | "Ann Lee " gives "AUNDEFINED"; " Ann " concatenates two `undefined`s into NaN and `toUpperCase` throws (the same code is in src/components/layouts/layout.tsx:31-37) | the initials of the first and last words, at most two letters, never the text "undefined" and never an exception | high, not executed | Initials.GetInitials, with Initials.TrailingSpaceExample and Initials.SurroundingSpacesExample | Initials.GetInitialsCorrected, with Initials.CorrectionAgrees |
