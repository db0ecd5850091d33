/** The overall status of a task, derived from the statuses of its checklist
    items by a fixed order of precedence: BLOCKED, then all-DONE, then
    FINAL_CHECK_AWAITING, then IN_PROGRESS (also for a NOT_STARTED/DONE mix),
    and NOT_STARTED last. */
module TaskStatus {
  import opened Schemas

  function Statuses(checklist: seq<ChecklistItem>): (r: seq<ChecklistStatus>)
    ensures |r| == |checklist|
    ensures forall i :: 0 <= i < |r| ==> r[i] == checklist[i].status
  {
    seq(|checklist|, i requires 0 <= i < |checklist| => checklist[i].status)
  }

  /** Some item of the checklist has status `s`. */
  predicate Has(checklist: seq<ChecklistItem>, s: ChecklistStatus) {
    exists i :: 0 <= i < |checklist| && checklist[i].status == s
  }

  /** Every item of the checklist has status `s` (vacuously for none). */
  predicate AllAre(checklist: seq<ChecklistItem>, s: ChecklistStatus) {
    forall i :: 0 <= i < |checklist| ==> checklist[i].status == s
  }

  /** `getTaskStatus`. Each `ensures` states exactly when one of the five
      results is returned, so together they pin the result down. */
  function GetTaskStatus(checklist: seq<ChecklistItem>): (r: ChecklistStatus)
    ensures |checklist| == 0 ==> r == NotStarted
    ensures r == Blocked <==> Has(checklist, Blocked)
    ensures r == Done <==> |checklist| > 0 && AllAre(checklist, Done)
    ensures r == FinalCheckAwaiting <==>
              !Has(checklist, Blocked) && Has(checklist, FinalCheckAwaiting)
    ensures r == InProgress <==>
              && !Has(checklist, Blocked) && !Has(checklist, FinalCheckAwaiting)
              && (Has(checklist, InProgress) || Has(checklist, Done))
              && !AllAre(checklist, Done)
    ensures r == NotStarted <==> AllAre(checklist, NotStarted)
  {
    if |checklist| == 0 then NotStarted
    else
      var statuses := Statuses(checklist);
      if Blocked in statuses then Blocked
      else if forall i | 0 <= i < |statuses| :: statuses[i] == Done then
        assert statuses[0] == checklist[0].status;
        Done
      else if FinalCheckAwaiting in statuses then FinalCheckAwaiting
      else if InProgress in statuses then InProgress
      else if Done in statuses then InProgress
      else NotStarted
  }

  /** `Has` and `AllAre` only look at how many items carry each status. */
  lemma HasByCount(checklist: seq<ChecklistStatus>, items: seq<ChecklistItem>, s: ChecklistStatus)
    requires checklist == Statuses(items)
    ensures Has(items, s) <==> multiset(checklist)[s] > 0
    ensures AllAre(items, s) <==> multiset(checklist)[s] == |items|
  {
    assert Has(items, s) <==> s in checklist by {
      if s in checklist {
        var i :| 0 <= i < |checklist| && checklist[i] == s;
        assert items[i].status == s;
      }
    }
    AllAreByCount(checklist, s);
    assert AllAre(items, s) <==> forall i :: 0 <= i < |checklist| ==> checklist[i] == s;
  }

  lemma {:induction false} AllAreByCount(statuses: seq<ChecklistStatus>, s: ChecklistStatus)
    ensures (forall i :: 0 <= i < |statuses| ==> statuses[i] == s) <==> multiset(statuses)[s] == |statuses|
  {
    if |statuses| > 0 {
      var last := |statuses| - 1;
      AllAreByCount(statuses[..last], s);
      assert statuses == statuses[..last] + [statuses[last]];
      assert multiset(statuses) == multiset(statuses[..last]) + multiset{statuses[last]};
      assert multiset(statuses[..last])[s] <= |statuses[..last]|;
      if forall i :: 0 <= i < last ==> statuses[..last][i] == s {
        assert forall i :: 0 <= i < last ==> statuses[i] == s;
      }
    }
  }

  /** The derived status does not depend on the order of the checklist: any
      reordering of the items (any two checklists with the same multiset of
      statuses) yields the same status. */
  lemma StatusOrderInvariant(a: seq<ChecklistItem>, b: seq<ChecklistItem>)
    requires multiset(Statuses(a)) == multiset(Statuses(b))
    ensures GetTaskStatus(a) == GetTaskStatus(b)
  {
    assert |a| == |Statuses(a)| == |multiset(Statuses(a))| == |multiset(Statuses(b))| == |b|;
    forall s: ChecklistStatus
      ensures Has(a, s) <==> Has(b, s)
      ensures AllAre(a, s) <==> AllAre(b, s)
    {
      HasByCount(Statuses(a), a, s);
      HasByCount(Statuses(b), b, s);
    }
  }

  /** A mix of NOT_STARTED and DONE items with at least one of each is in
      progress. */
  lemma NotStartedDoneMixInProgress(checklist: seq<ChecklistItem>)
    requires forall i :: 0 <= i < |checklist| ==> checklist[i].status in {NotStarted, Done}
    requires Has(checklist, NotStarted) && Has(checklist, Done)
    ensures GetTaskStatus(checklist) == InProgress
  {
    var i :| 0 <= i < |checklist| && checklist[i].status == NotStarted;
    assert !AllAre(checklist, Done);
  }
}
