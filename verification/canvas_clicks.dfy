/** The floor-plan canvas's click logic: which pins are drawn, when a click on
    the plan starts creating a task (and where its pin goes), and the pin
    context menu that a click on the plan closes. */
module CanvasClicks {
  import opened Wrappers
  import opened Schemas
  import opened Sequences
  import opened Viewport
  import opened Forms
  import TaskCollection

  /** A pin is drawn for a task of the logged-in user that has a position. */
  predicate HasPin(currentUser: Option<User>, t: Task) {
    currentUser.Some? && t.userId == currentUser.value.userId && t.position.Some?
  }

  /** `tasksWithPins`. */
  function PinsShown(tasks: seq<Task>, currentUser: Option<User>): (r: seq<Task>)
    ensures forall i :: 0 <= i < |r| ==> HasPin(currentUser, r[i])
    ensures forall t :: multiset(r)[t] == if HasPin(currentUser, t) then multiset(tasks)[t] else 0
    ensures IsSubsequence(r, tasks)
    ensures currentUser.None? ==> r == []
  {
    var keep := (t: Task) => HasPin(currentUser, t);
    var r := Filter(tasks, keep);
    assert forall t :: multiset(r)[t] == if HasPin(currentUser, t) then multiset(tasks)[t] else 0 by {
      forall t ensures multiset(r)[t] == if HasPin(currentUser, t) then multiset(tasks)[t] else 0 {
        FilterCounts(tasks, keep, t);
      }
    }
    r
  }

  datatype ContextMenu = ContextMenu(visible: bool, x: real, y: real, taskId: Option<string>)

  /** The canvas's own state: the pin context menu, the create dialog and the
      coordinates the pending pin will get. */
  datatype Ui = Ui(menu: ContextMenu, createOpen: bool, newPinCoords: Option<Point>)

  const InitialUi := Ui(ContextMenu(false, 0.0, 0.0, None), false, None)

  /** The Konva class of the clicked node. */
  datatype NodeKind = StageNode | ImageNode | OtherNode

  datatype ClickTarget = ClickTarget(kind: NodeKind, dragging: bool)

  /** A click that starts creating a task: no menu open, on the bare stage or
      the plan image, not ending a drag, and with a pointer position. */
  predicate Creates(ui: Ui, target: ClickTarget, stage: Option<Transform>, pointer: Option<Point>) {
    && !ui.menu.visible
    && target.kind != OtherNode
    && !target.dragging
    && stage.Some? && pointer.Some?
  }

  /** `handleStageClick` (also for taps). `stage` is the target's stage and
      `pointer` the pointer's screen position, when known. */
  function HandleStageClick(ui: Ui, target: ClickTarget, stage: Option<Transform>, pointer: Option<Point>): (r: Ui)
    requires stage.Some? ==> stage.value.scale != 0.0
    ensures !r.menu.visible
    ensures r.menu == ui.menu.(visible := false)
    ensures Creates(ui, target, stage, pointer) ==>
              && r.createOpen && r.newPinCoords.Some?
              && ToScreen(stage.value, r.newPinCoords.value) == pointer.value
    ensures !Creates(ui, target, stage, pointer) ==>
              r.createOpen == ui.createOpen && r.newPinCoords == ui.newPinCoords
  {
    if ui.menu.visible then ui.(menu := ui.menu.(visible := false))
    else if target.kind != StageNode && target.kind != ImageNode then ui
    else if target.dragging then ui
    else if stage.None? || pointer.None? then ui
    else ui.(newPinCoords := Some(ToWorld(stage.value, pointer.value)), createOpen := true)
  }

  /** `handleCloseCreateModal`: the dialog closes and the pending pin goes. */
  function CloseCreateModal(ui: Ui): (r: Ui)
    ensures !r.createOpen && r.newPinCoords.None? && r.menu == ui.menu
  {
    ui.(createOpen := false, newPinCoords := None)
  }

  /** `handleCreateTask`: adds the task at the pending pin's coordinates; with
      no pending pin nothing is written. */
  function HandleCreateTask(ui: Ui, tasks: TaskCollection.Tasks, owner: Option<User>, form: TaskForm,
                            freshId: string, timestamp: string): (r: Result<TaskCollection.Tasks, TaskCollection.AddError>)
    ensures ui.newPinCoords.None? ==> r == Ok(tasks)
    ensures ui.newPinCoords.Some? && r.Ok? ==> freshId in r.value && r.value[freshId].position == ui.newPinCoords
    ensures ui.newPinCoords.Some? ==> (r.Ok? <==> TaskCollection.AddTask(tasks, owner, form, ui.newPinCoords.value, freshId, timestamp).Ok?)
  {
    match ui.newPinCoords
    case None => Ok(tasks)
    case Some(p) => TaskCollection.AddTask(tasks, owner, form, p, freshId, timestamp)
  }

  /** `handlePinClick`: the context menu opens at the pointer for that task. */
  function PinClick(ui: Ui, pointer: Option<Point>, taskId: string): (r: Ui)
    ensures pointer.None? ==> r == ui
    ensures pointer.Some? ==> r.menu == ContextMenu(true, pointer.value.x, pointer.value.y, Some(taskId))
    ensures r.createOpen == ui.createOpen && r.newPinCoords == ui.newPinCoords
  {
    match pointer
    case None => ui
    case Some(p) => ui.(menu := ContextMenu(true, p.x, p.y, Some(taskId)))
  }

  /** `handlePinDragStart`: dragging a pin hides its menu. */
  function PinDragStart(ui: Ui): (r: Ui)
    ensures !r.menu.visible && r.menu == ui.menu.(visible := false)
    ensures r.createOpen == ui.createOpen && r.newPinCoords == ui.newPinCoords
  {
    if ui.menu.visible then ui.(menu := ui.menu.(visible := false)) else ui
  }

  /** Clicking the plan and submitting the dialog creates a task whose pin
      sits exactly under the click. */
  lemma ClickThenCreate(tasks: TaskCollection.Tasks, owner: User, form: TaskForm, t: Transform,
                        p: Point, kind: NodeKind, freshId: string, timestamp: string)
    requires t.scale != 0.0 && kind != OtherNode
    requires freshId !in tasks && |freshId| <= MaxIdLength && |owner.userId| <= MaxIdLength
    ensures var ui := HandleStageClick(InitialUi, ClickTarget(kind, false), Some(t), Some(p));
            var r := HandleCreateTask(ui, tasks, Some(owner), form, freshId, timestamp);
            && r.Ok? && freshId in r.value
            && ToScreen(t, r.value[freshId].position.value) == p
            && r.value[freshId].userId == owner.userId
  {
  }

  /** A click while the menu is open only closes it; the next click on the
      plan creates. */
  lemma MenuSwallowsOneClick(ui: Ui, target: ClickTarget, t: Transform, p: Point)
    requires ui.menu.visible && t.scale != 0.0
    requires target.kind != OtherNode && !target.dragging
    ensures var once := HandleStageClick(ui, target, Some(t), Some(p));
            && once.createOpen == ui.createOpen && once.newPinCoords == ui.newPinCoords
            && HandleStageClick(once, target, Some(t), Some(p)).createOpen
  {
  }

  /** Once the dialog is closed, submitting writes nothing. */
  lemma CloseThenCreateWritesNothing(ui: Ui, tasks: TaskCollection.Tasks, owner: Option<User>,
                                     form: TaskForm, freshId: string, timestamp: string)
    ensures HandleCreateTask(CloseCreateModal(ui), tasks, owner, form, freshId, timestamp) == Ok(tasks)
  {
  }
}
