/** Moving a freshly created issue into the workflow state that mirrors its
    test case's status: the status map, the choice of a transition among the
    ones the backend offers, and the outcome of the attempt. */
module Workflow {
  import opened Wrappers
  import opened Text
  import opened Search

  /** The workflow-state name fragment each known status aims for. */
  const Workflows: map<string, string> :=
    map[ "Not Started" := "To Do",
         "In Progress" := "In Progress",
         "Passed" := "Done",
         "Failed" := "Blocked" ]

  /** The fragment aimed for when the status is not one of the four known ones. */
  const FallbackTarget := "To Do"

  /** `workflows.get(current_status, 'To Do')`. */
  function TargetFragment(status: string): string {
    if status in Workflows then Workflows[status] else FallbackTarget
  }

  /** The four known statuses aim for their own fragments. */
  lemma KnownStatusTargets()
    ensures TargetFragment("Not Started") == "To Do"
    ensures TargetFragment("In Progress") == "In Progress"
    ensures TargetFragment("Passed") == "Done"
    ensures TargetFragment("Failed") == "Blocked"
  {
  }

  /** Every status, known or not, resolves to exactly one of the four
      fragments; only the statuses other than "In Progress", "Passed" and
      "Failed" resolve to "To Do". */
  lemma TargetIsTotal(status: string)
    ensures TargetFragment(status) in {"To Do", "In Progress", "Done", "Blocked"}
    ensures TargetFragment(status) == "To Do" <==> status !in {"In Progress", "Passed", "Failed"}
  {
  }

  /** A transition the backend offers for an issue: its identifier and display name. */
  datatype Transition = Transition(id: string, name: string)

  /** `target.lower() in t['name'].lower()`. */
  predicate Matches(target: string, t: Transition) {
    Contains(Lower(t.name), Lower(target))
  }

  /** The transition the program executes: the first one, in the order the
      backend lists them, whose name contains the target, ignoring case. */
  function SelectTransition(transitions: seq<Transition>, target: string): (r: Option<Transition>)
    ensures r.Some? <==> exists i :: 0 <= i < |transitions| && Matches(target, transitions[i])
    ensures r.Some? ==>
      exists i :: 0 <= i < |transitions| && transitions[i] == r.value && Matches(target, r.value)
        && forall j :: 0 <= j < i ==> !Matches(target, transitions[j])
  {
    match FirstIndex(transitions, t => Matches(target, t))
    case None => None
    case Some(i) => Some(transitions[i])
  }

  /** The search loop: walk the transitions in order and stop at the first
      whose lower-cased name contains the lower-cased target. */
  method FindTransition(transitions: seq<Transition>, target: string) returns (chosen: Option<Transition>)
    ensures chosen == SelectTransition(transitions, target)
  {
    var wanted := Lower(target);
    chosen := None;
    var i := 0;
    while i < |transitions|
      invariant 0 <= i <= |transitions|
      invariant chosen == None
      invariant forall j :: 0 <= j < i ==> !Matches(target, transitions[j])
    {
      if Contains(Lower(transitions[i].name), wanted) {
        chosen := Some(transitions[i]);
        break;
      }
      i := i + 1;
    }
  }

  /** What happened when the program tried to move an issue. */
  datatype Attempt =
    | Moved(transition: Transition)                       // the matching transition was executed
    | NoMatch                                             // nothing matched; nothing executed
    | LookupFailed(reason: string)                        // listing the transitions raised
    | MoveFailed(transition: Transition, reason: string)  // executing the match raised

  /** The transition executed by an attempt, if any was. */
  function Executed(a: Attempt): Option<Transition> {
    match a
    case Moved(t) => Some(t)
    case MoveFailed(t, _) => Some(t)
    case _ => None
  }

  /** The attempt to move an issue towards `target`, given the backend's
      answer to the listing of transitions and to the execution of the
      chosen one. Every failure is caught here. */
  function AttemptTransition(target: string, listing: Result<seq<Transition>>, execution: Outcome): (a: Attempt)
    ensures Executed(a).Some? <==>
      listing.Ok? && exists i :: 0 <= i < |listing.value| && Matches(target, listing.value[i])
    ensures Executed(a).Some? ==> Executed(a) == SelectTransition(listing.value, target)
    ensures a.LookupFailed? <==> listing.Err?
    ensures a.MoveFailed? <==> Executed(a).Some? && execution.Fail?
  {
    match listing
    case Err(e) => LookupFailed(e)
    case Ok(transitions) =>
      match SelectTransition(transitions, target)
      case None => NoMatch
      case Some(t) =>
        match execution
        case Pass => Moved(t)
        case Fail(e) => MoveFailed(t, e)
  }

  /** Neither the spelling of the target nor that of the transition names
      matters: two listings whose names differ only in letter case, searched
      for two targets that differ only in letter case, lead to the
      transition at the same position. */
  lemma SelectIgnoresCase(transitions: seq<Transition>, others: seq<Transition>, target: string, other: string)
    requires |others| == |transitions| && |other| == |target|
    requires forall i :: 0 <= i < |target| ==> SameIgnoringCase(target[i], other[i])
    requires forall i :: 0 <= i < |transitions| ==>
      |others[i].name| == |transitions[i].name|
      && forall k :: 0 <= k < |transitions[i].name| ==> SameIgnoringCase(transitions[i].name[k], others[i].name[k])
    ensures SelectTransition(transitions, target).None? <==> SelectTransition(others, other).None?
    ensures SelectTransition(transitions, target).Some? ==>
      exists i :: 0 <= i < |transitions|
        && SelectTransition(transitions, target).value == transitions[i]
        && SelectTransition(others, other).value == others[i]
  {
    LowerIgnoresCase(target, other);
    forall i | 0 <= i < |transitions| ensures Matches(target, transitions[i]) == Matches(other, others[i]) {
      LowerIgnoresCase(transitions[i].name, others[i].name);
    }
    var r, q := SelectTransition(transitions, target), SelectTransition(others, other);
    if r.Some? {
      var i :| 0 <= i < |transitions| && transitions[i] == r.value && Matches(target, r.value)
        && forall j :: 0 <= j < i ==> !Matches(target, transitions[j]);
      var k :| 0 <= k < |others| && others[k] == q.value && Matches(other, q.value)
        && forall j :: 0 <= j < k ==> !Matches(other, others[j]);
      assert Matches(other, others[i]);
      assert Matches(target, transitions[k]);
      assert i == k;
    }
  }

  /** A test case that passed is moved along the backend's "Done"
      transition even when an earlier transition is listed first and the
      names differ in case. */
  lemma PassedPicksDone()
    ensures SelectTransition([Transition("11", "To Do"), Transition("31", "DONE")], TargetFragment("Passed"))
      == Some(Transition("31", "DONE"))
  {
    var ts := [Transition("11", "To Do"), Transition("31", "DONE")];
    assert Lower("DONE") == "done" && Lower("Done") == "done";
    assert OccursAt("done", "done", 0);
    assert Matches("Done", ts[1]);
    assert !Matches("Done", ts[0]) by {
      assert Lower("To Do") == "to do";
      forall i ensures !OccursAt("to do", "done", i) {
        if 0 <= i && i + 4 <= 5 {
          assert "to do"[i..i + 4] != "done" by {
            assert "to do"[i + 1] != 'o' || "to do"[i] != 'd';
          }
        }
      }
    }
  }
}
