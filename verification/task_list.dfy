/** The task list page: the status filter, the per-task progress count and the
    choice of empty-state text. */
module TaskList {
  import opened Schemas
  import opened TaskStatus
  import opened Sequences

  /** The filter dropdown: every task, or the tasks of one derived status. */
  datatype StatusFilter = All | Only(status: ChecklistStatus)

  predicate Matches(f: StatusFilter, t: Task) {
    f.All? || GetTaskStatus(t.checklist) == f.status
  }

  /** `filteredTasks`. */
  function FilterTasks(tasks: seq<Task>, f: StatusFilter): (r: seq<Task>)
    ensures forall i :: 0 <= i < |r| ==> Matches(f, r[i])
    ensures forall t :: multiset(r)[t] == if Matches(f, t) then multiset(tasks)[t] else 0
    ensures IsSubsequence(r, tasks)
  {
    var keep := (t: Task) => Matches(f, t);
    var r := Filter(tasks, keep);
    assert forall t :: multiset(r)[t] == if Matches(f, t) then multiset(tasks)[t] else 0 by {
      forall t ensures multiset(r)[t] == if Matches(f, t) then multiset(tasks)[t] else 0 {
        FilterCounts(tasks, keep, t);
      }
    }
    r
  }

  /** The "All" filter keeps every task in order. */
  lemma FilterAllKeepsEverything(tasks: seq<Task>)
    ensures FilterTasks(tasks, All) == tasks
  {
    FilterKeepsAll(tasks, (t: Task) => Matches(All, t));
  }

  /** `completedItems`: the DONE items of a checklist. */
  function CompletedItems(checklist: seq<ChecklistItem>): (n: nat)
    ensures n <= |checklist|
    ensures n == |checklist| <==> AllAre(checklist, Done)
    ensures n == 0 <==> !Has(checklist, Done)
    ensures n == multiset(Statuses(checklist))[Done]
  {
    if |checklist| == 0 then 0
    else
      var rest := CompletedItems(checklist[1..]);
      DoneStep(checklist);
      (if checklist[0].status == Done then 1 else 0) + rest
  }

  /** How the first item and the rest of a checklist decide whether it has,
      or consists of, DONE items, and how many. */
  lemma DoneStep(checklist: seq<ChecklistItem>)
    requires |checklist| > 0
    ensures AllAre(checklist, Done) <==> checklist[0].status == Done && AllAre(checklist[1..], Done)
    ensures Has(checklist, Done) <==> checklist[0].status == Done || Has(checklist[1..], Done)
    ensures multiset(Statuses(checklist))[Done] ==
              (if checklist[0].status == Done then 1 else 0) + multiset(Statuses(checklist[1..]))[Done]
  {
    assert forall i :: 1 <= i < |checklist| ==> checklist[i] == checklist[1..][i - 1];
    assert Statuses(checklist) == [checklist[0].status] + Statuses(checklist[1..]);
  }

  /** The progress column "completed / total". */
  function Progress(t: Task): (r: (nat, nat))
    ensures r.1 == |t.checklist| && r.0 <= r.1
    ensures r.0 == r.1 && r.1 > 0 <==> GetTaskStatus(t.checklist) == Done
  {
    (CompletedItems(t.checklist), |t.checklist|)
  }

  /** What the table body shows. */
  datatype Body = Rows(shown: seq<Task>) | EmptyState(title: string, description: string)

  const NoTasksTitle := "You have no tasks yet"
  const NoTasksDescription := "Create a new task to get started."
  const NoMatchesTitle := "No tasks found"
  const NoMatchesDescription := "Try adjusting your filters to find what you're looking for."

  function TableBody(tasks: seq<Task>, f: StatusFilter): (r: Body)
    ensures r.Rows? <==> FilterTasks(tasks, f) != []
    ensures r.Rows? ==> r.shown == FilterTasks(tasks, f)
    ensures r.EmptyState? ==> (r.title == NoTasksTitle <==> tasks == [])
    ensures r.EmptyState? ==> (r.title == NoMatchesTitle <==> tasks != [])
  {
    var shown := FilterTasks(tasks, f);
    if |shown| > 0 then Rows(shown)
    else if |tasks| == 0 then EmptyState(NoTasksTitle, NoTasksDescription)
    else EmptyState(NoMatchesTitle, NoMatchesDescription)
  }

  /** With "All" selected the "no tasks found" text never shows: the empty
      state appears only for an empty collection. */
  lemma AllNeverSaysNoMatches(tasks: seq<Task>)
    ensures TableBody(tasks, All).EmptyState? <==> tasks == []
  {
    FilterAllKeepsEverything(tasks);
  }
}
