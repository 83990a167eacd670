/** The test-case record as read from the data file, and the summary and
    description text of the issue created for it. */
module Render {
  import opened Wrappers
  import opened Text

  /** One element of the data file. Every key may be absent; `name` is the
      only one the program reads without a default. */
  datatype TestCase = TestCase(
    name: Option<string>,
    testId: Option<string>,
    description: Option<string>,
    expectedOutcome: Option<string>,
    priority: Option<string>,
    moduleName: Option<string>,
    status: Option<string>,
    testSteps: Option<seq<string>>)

  const NoTestId := "N/A"
  const NoDescription := "No description"
  const NoExpectedOutcome := "N/A"
  const DefaultPriority := "Medium"
  const DefaultModule := "Unassigned"
  const DefaultStatus := "Not Started"

  /** `test_case.get('status', 'Not Started')`. */
  function StatusOf(tc: TestCase): string {
    tc.status.GetOr(DefaultStatus)
  }

  /** `test_case.get('test_steps', [])`. */
  function StepsOf(tc: TestCase): seq<string> {
    tc.testSteps.GetOr([])
  }

  const SummaryPrefix := "Test Case: "

  /** The summary of the issue created for a test case called `name`. */
  function SummaryFor(name: string): string {
    SummaryPrefix + name
  }

  /** Reads the test-case name back out of a summary. */
  function NameInSummary(summary: string): Option<string> {
    if |SummaryPrefix| <= |summary| && summary[..|SummaryPrefix|] == SummaryPrefix
    then Some(summary[|SummaryPrefix|..])
    else None
  }

  /** The summary is the fixed prefix followed by the name, and nothing else. */
  lemma SummaryRoundTrip(name: string)
    ensures NameInSummary(SummaryFor(name)) == Some(name)
    ensures |SummaryFor(name)| == |SummaryPrefix| + |name|
  {
    assert (SummaryPrefix + name)[..|SummaryPrefix|] == SummaryPrefix;
  }

  /** Each step as a bullet: `'- ' + step`. */
  function StepLines(steps: seq<string>): seq<string> {
    seq(|steps|, i requires 0 <= i < |steps| => "- " + steps[i])
  }

  /** The detail lines of the description, one per field, each field's
      default in place of a missing value. */
  function DetailLines(tc: TestCase): seq<string> {
    [ "Test Case Details:",
      "- Test ID: " + tc.testId.GetOr(NoTestId),
      "- Description: " + tc.description.GetOr(NoDescription),
      "- Expected Outcome: " + tc.expectedOutcome.GetOr(NoExpectedOutcome),
      "- Priority: " + tc.priority.GetOr(DefaultPriority),
      "- Module: " + tc.moduleName.GetOr(DefaultModule),
      "- Actual Status: " + StatusOf(tc) ]
  }

  /** The description body of the issue: the multi-line template, its lines
      joined by newlines, with the bulleted steps (themselves joined by
      newlines) in the place of the steps section, and a final newline. */
  function DescriptionFor(tc: TestCase): string {
    JoinLines(DetailLines(tc) + ["", "Test Steps:", JoinLines(StepLines(StepsOf(tc))), ""])
  }

  /** No field value of the record spans several lines. */
  predicate SingleLineFields(tc: TestCase) {
    && (forall i :: 0 <= i < |DetailLines(tc)| ==> '\n' !in DetailLines(tc)[i])
    && (forall i :: 0 <= i < |StepsOf(tc)| ==> '\n' !in StepsOf(tc)[i])
  }

  /** Read line by line, the description is the seven detail lines, a blank
      line, the "Test Steps:" heading, one bullet per step in input order (a
      single empty line when there are no steps), and a final empty line. */
  lemma DescriptionLines(tc: TestCase)
    requires SingleLineFields(tc)
    ensures SplitLines(DescriptionFor(tc)) ==
      DetailLines(tc) + ["", "Test Steps:"]
      + (if StepsOf(tc) == [] then [""] else StepLines(StepsOf(tc)))
      + [""]
  {
    var steps := StepsOf(tc);
    var head := DetailLines(tc) + ["", "Test Steps:"];
    var bullets := StepLines(steps);
    var text := JoinLines(bullets);
    assert DetailLines(tc) + ["", "Test Steps:", text, ""] == head + [text, ""];
    if steps == [] {
      SplitJoin(head + ["", ""]);
    } else {
      forall i | 0 <= i < |steps| ensures '\n' !in bullets[i] {
        assert bullets[i] == "- " + steps[i];
      }
      JoinAppend(head, [text, ""]);
      assert JoinLines([text, ""]) == text + "\n" + "";
      SplitAfterLines(head, text + "\n" + "");
      SplitAfterLines(bullets, "");
      assert head + (bullets + [""]) == head + bullets + [""];
    }
  }
}
