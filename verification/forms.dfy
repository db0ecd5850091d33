/** The task form schema: a non-empty title, at least one checklist item,
    every item with a non-empty text and a status that is one of the five
    enumeration keys. Lengths are checked on the raw strings, so a title or
    item made only of spaces passes. */
module Forms {
  import opened Wrappers
  import opened Schemas

  /** What the form submits before validation: statuses are plain strings. */
  datatype RawItem = RawItem(item: string, status: string)
  datatype RawTaskForm = RawTaskForm(title: string, checklist: seq<RawItem>)

  /** The validated form values (`TaskFormValues`). */
  datatype TaskForm = TaskForm(title: string, checklist: seq<ChecklistItem>)

  /** One validation issue, located where the schema reports it. */
  datatype FormIssue =
    | TitleRequired
    | ChecklistEmpty
    | ItemEmpty(index: nat)
    | InvalidStatus(index: nat)

  /** The custom message attached to each check. An invalid status carries the
      schema library's own enum message, which is not modelled (`None`). */
  function IssueMessage(issue: FormIssue): (m: Option<string>)
    ensures m.None? <==> issue.InvalidStatus?
  {
    match issue
    case TitleRequired => Some("Title is required.")
    case ChecklistEmpty => Some("At least one checklist item is required.")
    case ItemEmpty(_) => Some("Checklist item cannot be empty.")
    case InvalidStatus(_) => None
  }

  predicate ValidItem(i: RawItem) {
    |i.item| >= 1 && ParseStatusKey(i.status).Some?
  }

  /** The schema's acceptance condition. */
  predicate ValidForm(f: RawTaskForm) {
    && |f.title| >= 1
    && |f.checklist| >= 1
    && forall i :: 0 <= i < |f.checklist| ==> ValidItem(f.checklist[i])
  }

  /** The issues of the items `items`, the first of which sits at `offset`
      in the checklist; per item, the text before the status. */
  function ItemIssues(items: seq<RawItem>, offset: nat): (r: seq<FormIssue>)
    ensures forall k: nat :: ItemEmpty(k) in r <==>
              offset <= k < offset + |items| && |items[k - offset].item| == 0
    ensures forall k: nat :: InvalidStatus(k) in r <==>
              offset <= k < offset + |items| && ParseStatusKey(items[k - offset].status).None?
    ensures forall x :: x in r ==> x.ItemEmpty? || x.InvalidStatus?
  {
    if |items| == 0 then []
    else
      var here :=
        (if |items[0].item| == 0 then [ItemEmpty(offset)] else [])
        + (if ParseStatusKey(items[0].status).None? then [InvalidStatus(offset)] else []);
      var rest := ItemIssues(items[1..], offset + 1);
      here + rest
  }

  function ParseItems(items: seq<RawItem>): (r: seq<ChecklistItem>)
    requires forall i :: 0 <= i < |items| ==> ValidItem(items[i])
    ensures |r| == |items|
    ensures forall i :: 0 <= i < |items| ==>
              r[i].item == items[i].item && StatusKey(r[i].status) == items[i].status
  {
    if |items| == 0 then []
    else
      assert ValidItem(items[0]);
      [ChecklistItem(items[0].item, ParseStatusKey(items[0].status).value)] + ParseItems(items[1..])
  }

  /** Every issue of the form, in the order the schema reports them: the
      title, the checklist's length, then item by item. There are none
      exactly when the form is valid. */
  function Issues(f: RawTaskForm): (r: seq<FormIssue>)
    ensures TitleRequired in r <==> |f.title| == 0
    ensures ChecklistEmpty in r <==> |f.checklist| == 0
    ensures forall k: nat :: ItemEmpty(k) in r <==>
              k < |f.checklist| && |f.checklist[k].item| == 0
    ensures forall k: nat :: InvalidStatus(k) in r <==>
              k < |f.checklist| && ParseStatusKey(f.checklist[k].status).None?
    ensures r == [] <==> ValidForm(f)
  {
    var head := FormIssues(f);
    var items := ItemIssues(f.checklist, 0);
    NoIssuesIffValid(f);
    head + items
  }

  /** The issues of the form as a whole: the title, then the checklist's
      length. */
  function FormIssues(f: RawTaskForm): (r: seq<FormIssue>)
    ensures TitleRequired in r <==> |f.title| == 0
    ensures ChecklistEmpty in r <==> |f.checklist| == 0
    ensures forall x :: x in r ==> x == TitleRequired || x == ChecklistEmpty
  {
    (if |f.title| == 0 then [TitleRequired] else [])
    + (if |f.checklist| == 0 then [ChecklistEmpty] else [])
  }

  /** A form has no issue exactly when it is valid. */
  lemma NoIssuesIffValid(f: RawTaskForm)
    ensures FormIssues(f) + ItemIssues(f.checklist, 0) == [] <==> ValidForm(f)
  {
    var head := FormIssues(f);
    var items := ItemIssues(f.checklist, 0);
    if head + items == [] {
      forall i | 0 <= i < |f.checklist| ensures ValidItem(f.checklist[i]) {
        assert ItemEmpty(i) !in items && InvalidStatus(i) !in items;
      }
    } else if head == [] {
      assert items[0] in items;
      assert !ValidItem(f.checklist[items[0].index]);
    }
  }

  /** `taskFormSchema.safeParse`: the parsed values, or every issue found. */
  function ValidateTaskForm(f: RawTaskForm): (r: Result<TaskForm, seq<FormIssue>>)
    ensures r.Ok? <==> ValidForm(f)
    ensures r.Ok? ==> r.value.title == f.title && |r.value.checklist| == |f.checklist|
    ensures r.Ok? ==> forall i :: 0 <= i < |f.checklist| ==>
              && r.value.checklist[i].item == f.checklist[i].item
              && StatusKey(r.value.checklist[i].status) == f.checklist[i].status
    ensures r.Err? ==> |r.error| > 0
    ensures r.Err? ==> (TitleRequired in r.error <==> |f.title| == 0)
    ensures r.Err? ==> (ChecklistEmpty in r.error <==> |f.checklist| == 0)
    ensures r.Err? ==> forall k: nat :: ItemEmpty(k) in r.error <==>
              k < |f.checklist| && |f.checklist[k].item| == 0
    ensures r.Err? ==> forall k: nat :: InvalidStatus(k) in r.error <==>
              k < |f.checklist| && ParseStatusKey(f.checklist[k].status).None?
  {
    var issues := Issues(f);
    if issues == [] then Ok(TaskForm(f.title, ParseItems(f.checklist)))
    else Err(issues)
  }

  /** A title and an item made only of spaces are accepted. */
  lemma WhitespaceFormAccepted()
    ensures ValidateTaskForm(RawTaskForm(" ", [RawItem(" ", "DONE")])).Ok?
  {
    assert ValidItem(RawItem(" ", "DONE"));
  }
}
