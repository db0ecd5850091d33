/** The task collection and the four writes both stores perform on it: insert
    a new task, patch a task's title and checklist, patch its position, and
    remove it. The collection is a map from `taskId` (the primary key) to the
    stored document. The stores look a task up in their own snapshot of the
    collection (the last query result they received) before patching the
    stored document with that id. */
module TaskCollection {
  import opened Wrappers
  import opened Text
  import opened Schemas
  import opened Forms
  import opened Sequences

  type Tasks = map<string, Task>

  /** Why an insert is refused by the collection. */
  datatype InsertError = Conflict | SchemaViolation

  /** Why `addTask` fails: the guard at its start, or the insert itself. */
  datatype AddError = NotInitialized | Rejected(reason: InsertError)

  /** An item is kept when its text is not blank once trimmed. */
  predicate Kept(item: ChecklistItem) {
    Trim(item.item) != []
  }

  /** The checklist filter both stores apply: blank items dropped, the rest
      kept untouched, as often as they occur and in order. */
  function NormalizeChecklist(items: seq<ChecklistItem>): (r: seq<ChecklistItem>)
    ensures forall i :: 0 <= i < |r| ==> Kept(r[i])
    ensures forall x :: multiset(r)[x] == if Kept(x) then multiset(items)[x] else 0
    ensures IsSubsequence(r, items)
  {
    var r := Filter(items, Kept);
    assert forall x :: multiset(r)[x] == if Kept(x) then multiset(items)[x] else 0 by {
      forall x ensures multiset(r)[x] == if Kept(x) then multiset(items)[x] else 0 {
        FilterCounts(items, Kept, x);
      }
    }
    r
  }

  /** Normalising a checklist with no blank item changes nothing, and
      normalising twice is normalising once. */
  lemma NormalizeStable(items: seq<ChecklistItem>)
    ensures (forall i :: 0 <= i < |items| ==> Kept(items[i])) ==> NormalizeChecklist(items) == items
    ensures NormalizeChecklist(NormalizeChecklist(items)) == NormalizeChecklist(items)
  {
    if forall i :: 0 <= i < |items| ==> Kept(items[i]) {
      FilterKeepsAll(items, Kept);
    }
    FilterIdempotent(items, Kept);
  }

  /** The collection's insert: a document with a taken key or one the schema
      rejects is refused, and nothing is written. */
  function Insert(tasks: Tasks, t: Task): (r: Result<Tasks, InsertError>)
    ensures r.Ok? <==> t.taskId !in tasks && ValidTask(t)
    ensures r == Err(Conflict) <==> t.taskId in tasks
    ensures r.Ok? ==> r.value.Keys == tasks.Keys + {t.taskId}
    ensures r.Ok? ==> r.value[t.taskId] == t
    ensures r.Ok? ==> forall id :: id in tasks ==> r.value[id] == tasks[id]
  {
    if t.taskId in tasks then Err(Conflict)
    else if !ValidTask(t) then Err(SchemaViolation)
    else Ok(tasks[t.taskId := t])
  }

  /** `addTask`: with a logged-in owner, inserts a task under the fresh id, with
      the trimmed title, the normalised checklist, the pin position and the
      owner's id. The id and the timestamp are inputs. */
  function AddTask(tasks: Tasks, owner: Option<User>, form: TaskForm, position: Point,
                   freshId: string, timestamp: string): (r: Result<Tasks, AddError>)
    ensures owner.None? ==> r == Err(NotInitialized)
    ensures r.Ok? <==>
              && owner.Some? && freshId !in tasks
              && |freshId| <= MaxIdLength && |owner.value.userId| <= MaxIdLength
    ensures r.Ok? ==> r.value.Keys == tasks.Keys + {freshId}
    ensures r.Ok? ==> forall id :: id in tasks ==> r.value[id] == tasks[id]
    ensures r.Ok? ==>
              var t := r.value[freshId];
              && t.taskId == freshId && t.userId == owner.value.userId
              && t.title == Trim(form.title)
              && t.checklist == NormalizeChecklist(form.checklist)
              && t.position == Some(position) && t.timestamp == timestamp
  {
    match owner
    case None => Err(NotInitialized)
    case Some(user) =>
      var t := Task(freshId, Trim(form.title), NormalizeChecklist(form.checklist),
                    timestamp, Some(position), user.userId);
      match Insert(tasks, t)
      case Ok(tasks') => Ok(tasks')
      case Err(e) => Err(Rejected(e))
  }

  /** `tasks.find(t => t.taskId === id)` on a store's snapshot. */
  function FindById(snapshot: seq<Task>, id: string): (r: Option<Task>)
    ensures r.Some? <==> exists i :: 0 <= i < |snapshot| && snapshot[i].taskId == id
    ensures r.Some? ==> r.value in snapshot && r.value.taskId == id
  {
    if |snapshot| == 0 then None
    else if snapshot[0].taskId == id then Some(snapshot[0])
    else
      var r := FindById(snapshot[1..], id);
      assert forall i :: 1 <= i < |snapshot| ==> snapshot[i] == snapshot[1..][i - 1];
      r
  }

  /** The stored document with id `id` after `patch` replaces some of its
      fields; a document that is no longer stored is left alone. */
  function Patch(tasks: Tasks, id: string, patch: Task -> Task): (r: Tasks)
    ensures r.Keys == tasks.Keys
    ensures forall k :: k in tasks && k != id ==> r[k] == tasks[k]
    ensures id in tasks ==> r[id] == patch(tasks[id])
  {
    if id in tasks then tasks[id := patch(tasks[id])] else tasks
  }

  /** `updateTask`: when the snapshot holds the task, its title and checklist
      are replaced by the normalised form values; nothing else changes. */
  function UpdateTask(tasks: Tasks, snapshot: seq<Task>, id: string, form: TaskForm): (r: Tasks)
    ensures FindById(snapshot, id).None? ==> r == tasks
    ensures r.Keys == tasks.Keys
    ensures forall k :: k in tasks && k != id ==> r[k] == tasks[k]
    ensures FindById(snapshot, id).Some? && id in tasks ==>
              && r[id].title == Trim(form.title)
              && r[id].checklist == NormalizeChecklist(form.checklist)
              && r[id].taskId == tasks[id].taskId
              && r[id].timestamp == tasks[id].timestamp
              && r[id].position == tasks[id].position
              && r[id].userId == tasks[id].userId
  {
    if FindById(snapshot, id).Some? then
      Patch(tasks, id, (t: Task) => t.(title := Trim(form.title),
                                checklist := NormalizeChecklist(form.checklist)))
    else tasks
  }

  /** `updatePinPosition`: only the position of the task changes. */
  function UpdatePinPosition(tasks: Tasks, snapshot: seq<Task>, id: string, p: Point): (r: Tasks)
    ensures FindById(snapshot, id).None? ==> r == tasks
    ensures r.Keys == tasks.Keys
    ensures forall k :: k in tasks && k != id ==> r[k] == tasks[k]
    ensures FindById(snapshot, id).Some? && id in tasks ==>
              r[id] == tasks[id].(position := Some(p))
  {
    if FindById(snapshot, id).Some? then Patch(tasks, id, (t: Task) => t.(position := Some(p)))
    else tasks
  }

  /** `deleteTask`: exactly the given task's document goes. */
  function DeleteTask(tasks: Tasks, task: Task): (r: Tasks)
    ensures r.Keys == tasks.Keys - {task.taskId}
    ensures forall k :: k in r ==> r[k] == tasks[k]
  {
    tasks - {task.taskId}
  }

  /** What every write keeps: keys match the documents' ids and every
      document satisfies the task schema. */
  predicate WellFormed(tasks: Tasks) {
    KeyedByTaskId(tasks) && forall id :: id in tasks ==> ValidTask(tasks[id])
  }

  lemma WritesPreserveWellFormed(tasks: Tasks, snapshot: seq<Task>, owner: Option<User>,
                                 form: TaskForm, id: string, p: Point, freshId: string,
                                 timestamp: string, victim: Task)
    requires WellFormed(tasks)
    ensures var r := AddTask(tasks, owner, form, p, freshId, timestamp);
            r.Ok? ==> WellFormed(r.value)
    ensures WellFormed(UpdateTask(tasks, snapshot, id, form))
    ensures WellFormed(UpdatePinPosition(tasks, snapshot, id, p))
    ensures WellFormed(DeleteTask(tasks, victim))
  {
    AddKeepsWellFormed(tasks, owner, form, p, freshId, timestamp);
    UpdateKeepsWellFormed(tasks, snapshot, id, form);
    MoveKeepsWellFormed(tasks, snapshot, id, p);
  }

  lemma AddKeepsWellFormed(tasks: Tasks, owner: Option<User>, form: TaskForm, p: Point,
                           freshId: string, timestamp: string)
    requires WellFormed(tasks)
    ensures var r := AddTask(tasks, owner, form, p, freshId, timestamp);
            r.Ok? ==> WellFormed(r.value)
  {
    var r := AddTask(tasks, owner, form, p, freshId, timestamp);
    if r.Ok? {
      forall k | k in r.value ensures r.value[k].taskId == k && ValidTask(r.value[k]) {
        if k != freshId {
          assert r.value[k] == tasks[k];
        }
      }
    }
  }

  lemma UpdateKeepsWellFormed(tasks: Tasks, snapshot: seq<Task>, id: string, form: TaskForm)
    requires WellFormed(tasks)
    ensures WellFormed(UpdateTask(tasks, snapshot, id, form))
  {
    var r := UpdateTask(tasks, snapshot, id, form);
    forall k | k in r ensures r[k].taskId == k && ValidTask(r[k]) {
      if k != id || FindById(snapshot, id).None? {
        assert r[k] == tasks[k];
      }
    }
  }

  lemma MoveKeepsWellFormed(tasks: Tasks, snapshot: seq<Task>, id: string, p: Point)
    requires WellFormed(tasks)
    ensures WellFormed(UpdatePinPosition(tasks, snapshot, id, p))
  {
    var r := UpdatePinPosition(tasks, snapshot, id, p);
    forall k | k in r ensures r[k].taskId == k && ValidTask(r[k]) {
      if k != id || FindById(snapshot, id).None? {
        assert r[k] == tasks[k];
      }
    }
  }

  /** Saving a task's stored title and checklist back through `updateTask`
      changes nothing, once that task was last written by this application. */
  lemma ResaveIsNoOp(tasks: Tasks, snapshot: seq<Task>, id: string, form: TaskForm)
    requires FindById(snapshot, id).Some? && id in tasks
    ensures var once := UpdateTask(tasks, snapshot, id, form);
            var stored := TaskForm(once[id].title, once[id].checklist);
            UpdateTask(once, snapshot, id, stored) == once
  {
    var once := UpdateTask(tasks, snapshot, id, form);
    TrimIdempotent(form.title);
    NormalizeStable(form.checklist);
    var twice := UpdateTask(once, snapshot, id, TaskForm(once[id].title, once[id].checklist));
    assert twice[id] == once[id];
  }

  /** A form the schema accepts can still produce a task with an empty title
      and an empty checklist: its lengths are checked before trimming. */
  lemma WhitespaceFormGivesEmptyTask(owner: User, p: Point, freshId: string, timestamp: string)
    requires |freshId| <= MaxIdLength && |owner.userId| <= MaxIdLength
    ensures var raw := RawTaskForm(" ", [RawItem(" ", "DONE")]);
            var v := ValidateTaskForm(raw);
            && v.Ok?
            && var r := AddTask(map[], Some(owner), v.value, p, freshId, timestamp);
               r.Ok? && r.value[freshId].title == [] && r.value[freshId].checklist == []
  {
    WhitespaceFormAccepted();
    var v := ValidateTaskForm(RawTaskForm(" ", [RawItem(" ", "DONE")]));
    var c := v.value.checklist[0];
    assert v.value.checklist == [c] && c.item == " ";
    BlankItemDropped(c);
    assert AllWhitespace(v.value.title);
    var r := AddTask(map[], Some(owner), v.value, p, freshId, timestamp);
    assert r.Ok?;
    assert r.value[freshId].title == Trim(v.value.title) == [];
  }

  /** A checklist of one blank item normalises to nothing. */
  lemma BlankItemDropped(c: ChecklistItem)
    requires c.item == " "
    ensures NormalizeChecklist([c]) == []
  {
    assert AllWhitespace(c.item);
    assert !Kept(c);
  }
}
