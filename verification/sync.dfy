/** One run of the synchronisation: resolve the issue type, create the
    grouping issue, then for every test case create a child issue, try to
    move it into the state matching its status, and record it. The backend
    is not called: each of its answers is an input, and every call the
    program makes is written to a trace. */
module Sync {
  import opened Wrappers
  import opened OrderedDict
  import opened Render
  import opened Workflow
  import opened IssueTypes

  /** The fields of an issue-creation request. */
  datatype IssueRequest = IssueRequest(
    project: string,
    summary: string,
    description: string,
    issueType: string,
    parent: Option<string>)

  /** One call the program makes to the backend. */
  datatype Call =
    | ListIssueTypes
    | CreateIssue(request: IssueRequest)
    | ListTransitions(issueKey: string)
    | TransitionIssue(issueKey: string, transitionId: string)

  /** The backend's answers for one test case: to the creation of its issue
      (the new key, or the exception), to the listing of the issue's
      transitions, and to the execution of the chosen transition. */
  datatype ChildReply = ChildReply(
    created: Result<string>,
    listing: Result<seq<Transition>>,
    execution: Outcome)

  /** The value stored under an issue key in `created_issues`. */
  datatype CreatedIssue = CreatedIssue(name: string, initialStatus: string)

  /** What every child issue shares: the project, the resolved issue type
      and the key of the grouping issue. */
  datatype Context = Context(project: string, issueType: string, epicKey: string)

  /** The grouping issue: fixed summary, description and type. */
  function EpicRequest(project: string): IssueRequest {
    IssueRequest(project, "Test Case Collection",
                 "Tracking and managing all test cases for the project", "Epic", None)
  }

  /** The child issue for a test case called `name`. */
  function ChildRequest(ctx: Context, name: string, tc: TestCase): IssueRequest {
    IssueRequest(ctx.project, SummaryFor(name), DescriptionFor(tc), ctx.issueType, Some(ctx.epicKey))
  }

  /** The calls made while trying to move the issue `key`. */
  function TransitionCalls(key: string, a: Attempt): seq<Call> {
    [ListTransitions(key)] +
    match Executed(a)
    case Some(t) => [TransitionIssue(key, t.id)]
    case None => []
  }

  /** The result of processing one test case: either it was recorded under
      the key the backend gave its issue, or the run stops here. */
  datatype RecordOutcome =
    | Recorded(key: string, entry: CreatedIssue, calls: seq<Call>)
    | Aborted(calls: seq<Call>, reason: string)

  /** A test case without a name (the summary cannot be formatted) or whose
      issue the backend refuses to create stops the run. */
  predicate CreationFails(tc: TestCase, reply: ChildReply) {
    tc.name.None? || reply.created.Err?
  }

  /** One iteration of the per-test-case loop. */
  function ProcessRecord(ctx: Context, tc: TestCase, reply: ChildReply): RecordOutcome {
    match tc.name
    case None => Aborted([], "test case has no name")
    case Some(name) =>
      var request := ChildRequest(ctx, name, tc);
      match reply.created
      case Err(e) => Aborted([CreateIssue(request)], e)
      case Ok(key) =>
        var status := StatusOf(tc);
        var attempt := AttemptTransition(TargetFragment(status), reply.listing, reply.execution);
        Recorded(key, CreatedIssue(name, status), [CreateIssue(request)] + TransitionCalls(key, attempt))
  }

  /** The state after a prefix of the loop: the dictionary so far, the calls
      made, and whether the run has stopped. */
  datatype Progress = Progress(created: Dict<string, CreatedIssue>, calls: seq<Call>, aborted: bool)

  /** One iteration's effect: `created_issues[issue.key] = entry`, or the
      exception that ends the loop. */
  function Advance(p: Progress, o: RecordOutcome): Progress {
    match o
    case Aborted(calls, _) => Progress(p.created, p.calls + calls, true)
    case Recorded(key, entry, calls) => Progress(Put(p.created, key, entry), p.calls + calls, false)
  }

  /** The loop over the test cases' outcomes, in input order, stopping at
      the first one that aborts. */
  function Accumulate(outcomes: seq<RecordOutcome>): Progress
    decreases |outcomes|
  {
    if |outcomes| == 0 then Progress([], [], false)
    else
      var p := Accumulate(outcomes[..|outcomes| - 1]);
      if p.aborted then p else Advance(p, outcomes[|outcomes| - 1])
  }

  /** What each test case would lead to, given the backend's answers for it. */
  function Outcomes(ctx: Context, records: seq<TestCase>, replies: seq<ChildReply>): seq<RecordOutcome>
    requires |replies| == |records|
  {
    seq(|records|, i requires 0 <= i < |records| => ProcessRecord(ctx, records[i], replies[i]))
  }

  /** What a successful run returns: the grouping issue's key and the
      created issues in creation order. */
  datatype RunSummary = RunSummary(epicKey: string, created: Dict<string, CreatedIssue>)

  /** A run's return value (None when an exception reached the outer
      handler) and the calls it made. */
  datatype RunOutcome = RunOutcome(result: Option<RunSummary>, calls: seq<Call>)

  /** The whole run, given the backend's answers. */
  function Run(project: string, issueTypes: Result<seq<string>>, epicReply: Result<string>,
               records: seq<TestCase>, replies: seq<ChildReply>): RunOutcome
    requires |replies| == |records|
  {
    var head := [ListIssueTypes, CreateIssue(EpicRequest(project))];
    match epicReply
    case Err(_) => RunOutcome(None, head)
    case Ok(epicKey) =>
      var p := Accumulate(Outcomes(Context(project, IssueTypeFor(issueTypes), epicKey), records, replies));
      RunOutcome(if p.aborted then None else Some(RunSummary(epicKey, p.created)), head + p.calls)
  }

  /** One more iteration of a loop that has not stopped. */
  lemma AccumulateNext(outcomes: seq<RecordOutcome>, i: nat)
    requires i < |outcomes| && !Accumulate(outcomes[..i]).aborted
    ensures Accumulate(outcomes[..i + 1]) == Advance(Accumulate(outcomes[..i]), outcomes[i])
  {
    assert outcomes[..i + 1][..i] == outcomes[..i];
  }

  /** Once the loop has stopped, the later test cases change nothing. */
  lemma {:induction false} AbortIsFinal(outcomes: seq<RecordOutcome>, k: nat)
    requires k <= |outcomes| && Accumulate(outcomes[..k]).aborted
    ensures Accumulate(outcomes) == Accumulate(outcomes[..k])
    decreases |outcomes|
  {
    if k < |outcomes| {
      var n := |outcomes| - 1;
      assert outcomes[..n][..k] == outcomes[..k];
      AbortIsFinal(outcomes[..n], k);
    } else {
      assert outcomes[..k] == outcomes;
    }
  }

  /** The loop stops exactly when some test case aborts. */
  lemma {:induction false} AbortedIff(outcomes: seq<RecordOutcome>)
    ensures Accumulate(outcomes).aborted <==> exists i :: 0 <= i < |outcomes| && outcomes[i].Aborted?
    decreases |outcomes|
  {
    if |outcomes| > 0 {
      var n := |outcomes| - 1;
      AbortedIff(outcomes[..n]);
      assert forall i :: 0 <= i < n ==> outcomes[..n][i] == outcomes[i];
    }
  }

  /** When every test case is recorded under a fresh key, the dictionary
      holds one pair per test case, in input order, and the loop does not
      stop. */
  lemma {:induction false} AllRecorded(outcomes: seq<RecordOutcome>)
    requires forall i :: 0 <= i < |outcomes| ==> outcomes[i].Recorded?
    requires forall i, j :: 0 <= i < j < |outcomes| ==> outcomes[i].key != outcomes[j].key
    ensures !Accumulate(outcomes).aborted
    ensures |Accumulate(outcomes).created| == |outcomes|
    ensures forall i :: 0 <= i < |outcomes| ==>
      Accumulate(outcomes).created[i] == (outcomes[i].key, outcomes[i].entry)
    decreases |outcomes|
  {
    if |outcomes| > 0 {
      var n := |outcomes| - 1;
      var prefix := outcomes[..n];
      AllRecorded(prefix);
      var d := Accumulate(prefix).created;
      assert DistinctKeys(d);
      forall i | 0 <= i < |d| ensures Keys(d)[i] != outcomes[n].key {
        assert d[i].0 == outcomes[i].key;
      }
      PutSpec(d, outcomes[n].key, outcomes[n].entry);
    }
  }

  /** The guarded transition block: list the transitions, execute the
      first match, and catch whatever the backend raises. */
  method TryTransition(target: string, listing: Result<seq<Transition>>, execution: Outcome)
    returns (attempt: Attempt)
    ensures attempt == AttemptTransition(target, listing, execution)
  {
    if listing.Err? {
      return LookupFailed(listing.error);
    }
    var chosen := FindTransition(listing.value, target);
    if chosen.None? {
      attempt := NoMatch;
    } else if execution.Fail? {
      attempt := MoveFailed(chosen.value, execution.error);
    } else {
      attempt := Moved(chosen.value);
    }
  }

  /** One iteration's body: format the summary (which fails without a
      name), create the issue, try to move it, and report what to record. */
  method CreateChildIssue(ctx: Context, tc: TestCase, reply: ChildReply) returns (outcome: RecordOutcome)
    ensures outcome == ProcessRecord(ctx, tc, reply)
  {
    if tc.name.None? {
      return Aborted([], "test case has no name");
    }
    var name := tc.name.value;
    var request := ChildRequest(ctx, name, tc);
    if reply.created.Err? {
      return Aborted([CreateIssue(request)], reply.created.error);
    }
    var key := reply.created.value;
    var status := StatusOf(tc);
    var attempt := TryTransition(TargetFragment(status), reply.listing, reply.execution);
    outcome := Recorded(key, CreatedIssue(name, status), [CreateIssue(request)] + TransitionCalls(key, attempt));
  }

  /** The imperative loop of the program: `created_issues` is a dictionary
      that each iteration updates in place. */
  method CreateTestCaseTrackingIssues(project: string, issueTypes: Result<seq<string>>, epicReply: Result<string>,
                                      records: seq<TestCase>, replies: seq<ChildReply>)
    returns (result: Option<RunSummary>, calls: seq<Call>)
    requires |replies| == |records|
    ensures RunOutcome(result, calls) == Run(project, issueTypes, epicReply, records, replies)
  {
    var issueType := ResolveIssueType(issueTypes);
    calls := [ListIssueTypes, CreateIssue(EpicRequest(project))];
    if epicReply.Err? {
      return None, calls;
    }
    var epicKey := epicReply.value;
    var ctx := Context(project, issueType, epicKey);
    ghost var outcomes := Outcomes(ctx, records, replies);
    var created: Dict<string, CreatedIssue> := [];
    var trace: seq<Call> := [];
    var i := 0;
    while i < |records|
      invariant 0 <= i <= |records|
      invariant Accumulate(outcomes[..i]) == Progress(created, trace, false)
    {
      var outcome := CreateChildIssue(ctx, records[i], replies[i]);
      AccumulateNext(outcomes, i);
      trace := trace + outcome.calls;
      if outcome.Aborted? {
        AbortIsFinal(outcomes, i + 1);
        return None, calls + trace;
      }
      created := Put(created, outcome.key, outcome.entry);
      i := i + 1;
    }
    assert outcomes[..i] == outcomes;
    return Some(RunSummary(epicKey, created)), calls + trace;
  }

  /** A recorded test case makes exactly these calls: create its issue, list
      the issue's transitions, and execute the first transition whose name
      contains the status's fragment, if the listing succeeded and one
      does. A test case without a status aims for "To Do". */
  lemma RecordCalls(ctx: Context, tc: TestCase, reply: ChildReply)
    requires !CreationFails(tc, reply)
    ensures var o := ProcessRecord(ctx, tc, reply);
      var key := reply.created.value;
      var target := TargetFragment(StatusOf(tc));
      o.Recorded? && o.key == key
      && o.entry == CreatedIssue(tc.name.value, StatusOf(tc))
      && o.calls == [CreateIssue(ChildRequest(ctx, tc.name.value, tc)), ListTransitions(key)] +
           (if reply.listing.Ok? && SelectTransition(reply.listing.value, target).Some?
            then [TransitionIssue(key, SelectTransition(reply.listing.value, target).value.id)]
            else [])
    ensures tc.status.None? ==> TargetFragment(StatusOf(tc)) == "To Do"
  {
    var target := TargetFragment(StatusOf(tc));
    var a := AttemptTransition(target, reply.listing, reply.execution);
    if reply.listing.Ok? {
      var sel := SelectTransition(reply.listing.value, target);
      assert Executed(a) == sel;
    }
  }

  /** A test case stops the run exactly when it has no name or its issue
      cannot be created. */
  lemma AbortsIffCreationFails(ctx: Context, records: seq<TestCase>, replies: seq<ChildReply>, i: nat)
    requires |replies| == |records| && i < |records|
    ensures Outcomes(ctx, records, replies)[i].Aborted? <==> CreationFails(records[i], replies[i])
  {
  }

  /** The run returns a summary exactly when the grouping issue was created
      and every test case has a name and had its issue created; otherwise
      it returns None. */
  lemma RunResultIff(project: string, issueTypes: Result<seq<string>>, epicReply: Result<string>,
                     records: seq<TestCase>, replies: seq<ChildReply>)
    requires |replies| == |records|
    ensures Run(project, issueTypes, epicReply, records, replies).result.Some? <==>
      epicReply.Ok? && forall i :: 0 <= i < |records| ==> !CreationFails(records[i], replies[i])
  {
    if epicReply.Ok? {
      var ctx := Context(project, IssueTypeFor(issueTypes), epicReply.value);
      var outcomes := Outcomes(ctx, records, replies);
      AbortedIff(outcomes);
      forall i | 0 <= i < |records|
        ensures outcomes[i].Aborted? <==> CreationFails(records[i], replies[i])
      {
        AbortsIffCreationFails(ctx, records, replies, i);
      }
    }
  }

  /** When everything is created and the backend hands out distinct keys,
      the summary maps each key to its test case's name and initial status,
      with the issues in input order and one entry per test case. */
  lemma RunRecordsEveryIssue(project: string, issueTypes: Result<seq<string>>, epicReply: Result<string>,
                             records: seq<TestCase>, replies: seq<ChildReply>, keys: seq<string>)
    requires |replies| == |records| && |keys| == |records| && epicReply.Ok?
    requires forall i :: 0 <= i < |records| ==> records[i].name.Some? && replies[i].created == Ok(keys[i])
    requires forall i, j :: 0 <= i < j < |keys| ==> keys[i] != keys[j]
    ensures var r := Run(project, issueTypes, epicReply, records, replies).result;
      r.Some? && r.value.epicKey == epicReply.value
      && |r.value.created| == |records| && |ToMap(r.value.created)| == |records|
      && forall i :: 0 <= i < |records| ==>
           var entry := CreatedIssue(records[i].name.value, StatusOf(records[i]));
           r.value.created[i] == (keys[i], entry)
           && keys[i] in ToMap(r.value.created)
           && ToMap(r.value.created)[keys[i]] == entry
  {
    var ctx := Context(project, IssueTypeFor(issueTypes), epicReply.value);
    var outcomes := Outcomes(ctx, records, replies);
    forall i | 0 <= i < |records|
      ensures outcomes[i].Recorded? && outcomes[i].key == keys[i]
      ensures outcomes[i].entry == CreatedIssue(records[i].name.value, StatusOf(records[i]))
    {
      RecordCalls(ctx, records[i], replies[i]);
    }
    AllRecorded(outcomes);
    var d := Accumulate(outcomes).created;
    assert DistinctKeys(d) by {
      forall i, j | 0 <= i < j < |d| ensures d[i].0 != d[j].0 {
        assert d[i].0 == keys[i] && d[j].0 == keys[j];
      }
    }
    ToMapOfDistinct(d);
  }

  /** Two runs' loops agree on the dictionary and on whether they stop when
      their outcomes agree on which ones abort and on what the others
      record; the calls they make may differ. */
  lemma {:induction false} AccumulateIgnoresCalls(xs: seq<RecordOutcome>, ys: seq<RecordOutcome>)
    requires |xs| == |ys|
    requires forall i :: 0 <= i < |xs| ==>
      xs[i].Aborted? == ys[i].Aborted? && (xs[i].Recorded? ==> xs[i].key == ys[i].key && xs[i].entry == ys[i].entry)
    ensures Accumulate(xs).created == Accumulate(ys).created
    ensures Accumulate(xs).aborted == Accumulate(ys).aborted
    decreases |xs|
  {
    if |xs| > 0 {
      var n := |xs| - 1;
      AccumulateIgnoresCalls(xs[..n], ys[..n]);
    }
  }

  /** What the run returns depends on the creation answers alone: the
      listing of transitions and the execution of one may fail or succeed
      without changing the summary, since both are caught per issue. */
  lemma TransitionRepliesIrrelevant(project: string, issueTypes: Result<seq<string>>, epicReply: Result<string>,
                                    records: seq<TestCase>, replies: seq<ChildReply>, others: seq<ChildReply>)
    requires |replies| == |records| && |others| == |records|
    requires forall i :: 0 <= i < |records| ==> replies[i].created == others[i].created
    ensures Run(project, issueTypes, epicReply, records, replies).result ==
            Run(project, issueTypes, epicReply, records, others).result
  {
    if epicReply.Ok? {
      var ctx := Context(project, IssueTypeFor(issueTypes), epicReply.value);
      AccumulateIgnoresCalls(Outcomes(ctx, records, replies), Outcomes(ctx, records, others));
    }
  }
}
