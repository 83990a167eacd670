# Jira-Sync test-case tracking, modelled in Dafny

Jira-Sync reads a list of test-case records and files them in a Jira
project. It works in five steps:

1. It picks the issue type to file them under: the first type named "Test
   Case" or "Test" in any letter case, else "Task".
2. It creates an Epic that groups them.
3. For every record it creates a child issue. The summary and description
   come from the record's fields, with a default for each field that is
   missing.
4. It tries to move each new issue into the workflow state that matches
   the record's status. It executes the first offered transition whose
   name contains the target fragment, ignoring case.
5. It records `key ↦ {name, initial_status}` in a dictionary and returns
   that dictionary with the Epic's key. If an exception reaches the outer
   handler, it returns nothing.

Jira is not part of this model. Each of its answers is an input:

- the list of issue-type names, or the exception the query raised;
- the key of the new Epic, or an exception;
- for each record, a `ChildReply`: the created issue's key or an exception,
  the listed transitions or an exception, and whether executing the chosen
  transition succeeded.

Every call the program would make to the backend is returned as a trace of
`Call` values. This lets the model state which calls happen: at most one
transition per issue, and none when nothing matches.

Modules:

- `Wrappers`: `Option`, `Result` and `Outcome`.
- `Text`: ASCII `lower()`, substring `in`, `"\n".join` and a line splitter.
- `Search`: first-match search.
- `OrderedDict`: the insertion-ordered Python `dict`.
- `Render`: the test-case record, its summary and its description.
- `Workflow`: the status map, and the choice and outcome of a transition.
- `IssueTypes`: issue-type resolution.
- `Sync`: one record's processing, the loop over the records and the whole
  run.

## Model

| member | source | states |
|---|---|---|
| Text.Lower | main.py:19 | lower-casing keeps the length, turns each capital A-Z into the small letter 32 code points above it, and leaves every other character unchanged |
| Text.LowerIgnoresCase | main.py:19 | two texts that differ only in the case of ASCII letters lower-case to the same text |
| Text.Contains | main.py:111 | `a in b` on strings holds exactly when `a` occurs at some position of `b` |
| Search.FirstIndex | main.py:18-20 | the index found satisfies the test and no earlier element does; nothing is found exactly when no element satisfies it |
| IssueTypes.TestTypeIgnoresCase | main.py:19 | whether a type counts as a test-case type does not depend on the letter case of its name; "Test Case", "TEST" and "test" all count |
| IssueTypes.IssueTypeFor | main.py:13-28 | if some listed type lower-cases to "test case" or "test", the result is the first such type in listed order, in its original spelling; if none does, or the query raised, the result is "Task" |
| IssueTypes.ResolveIssueType | main.py:13-28 | the scanning loop with early return computes exactly `IssueTypeFor`, including the error case |
| Workflow.KnownStatusTargets | main.py:70-75 | "Not Started", "In Progress", "Passed" and "Failed" aim for "To Do", "In Progress", "Done" and "Blocked" |
| Workflow.TargetIsTotal | main.py:103 | every status string aims for one of the four fragments; it aims for "To Do" exactly when it is not "In Progress", "Passed" or "Failed" |
| Workflow.SelectTransition | main.py:110-113 | a transition is chosen exactly when some listed name contains the target, ignoring case; the chosen one is listed, matches, and no earlier one matches |
| Workflow.FindTransition | main.py:110-113 | the loop that breaks at the first match chooses exactly `SelectTransition` |
| Workflow.AttemptTransition | main.py:105-115 | a transition is executed exactly when the listing succeeded and some name matches, and it is the one `SelectTransition` picks; a lookup failure is exactly a listing error; an execution failure is caught and reported |
| Workflow.SelectIgnoresCase | main.py:110-113 | the letter case of the target and of the transition names does not change which position is chosen, or whether one is |
| Workflow.PassedPicksDone | main.py:73 | a "Passed" record takes the "DONE" transition even when "To Do" is listed first |
| Render.SummaryRoundTrip | main.py:81 | the summary is "Test Case: " followed by the name and nothing else, so the name can be read back from it |
| Render.DescriptionLines | main.py:82-92 | read line by line, the description is the heading, the six fields with their defaults ("N/A", "No description", "N/A", "Medium", "Unassigned", "Not Started"), a blank line, "Test Steps:", one "- step" line per step in input order (one empty line when there are no steps), and a final empty line |
| OrderedDict.PutSpec | main.py:118-121 | `created_issues[key] = entry` keeps the keys distinct and changes the mapping at `key` alone; a new key is appended at the end, and a present key keeps the order |
| OrderedDict.ToMapOfDistinct | main.py:118-121 | a dictionary with distinct keys has one entry per pair, and each key looks up its own value |
| Sync.TryTransition | main.py:105-115 | the guarded transition block computes exactly `AttemptTransition`: no exception in it escapes |
| Sync.CreateChildIssue | main.py:79-115 | one iteration of the loop body computes exactly `ProcessRecord`: it aborts before any call when the name is missing, aborts after the create call when creation raises, and otherwise records the issue whatever the transition attempt did |
| Sync.RecordCalls | main.py:98-121 | a record that has a name and whose issue was created makes exactly these calls: create, list transitions, then execute the chosen transition only if the listing succeeded and something matched. It is recorded under its key with its name and status. A missing status aims for "To Do" |
| Sync.AbortedIff | main.py:78-99 | the loop stops exactly when some record aborts it |
| Sync.AbortIsFinal | main.py:78-132 | once the loop has stopped, the later records change nothing |
| Sync.AllRecorded | main.py:117-121 | when every record is recorded under a distinct key, the dictionary has one pair per record, in input order |
| Sync.RunResultIff | main.py:52-132 | the run returns a result exactly when the Epic was created and every record has a name and had its issue created |
| Sync.RunRecordsEveryIssue | main.py:117-128 | when every record is created under a distinct key, the result holds the Epic's key and exactly N entries, each mapping a record's key to its name and initial status |
| Sync.TransitionRepliesIrrelevant | main.py:105-115 | the result does not depend on the transition listing or execution answers: an entry is recorded whether or not the transition succeeded |
| Sync.CreateTestCaseTrackingIssues | main.py:52-132 | the imperative run, with its in-place dictionary and early exits, returns exactly the result and the calls of `Run` |

## Left out

- Loading the configuration and the data file is file I/O and is not modelled. The records are already-parsed values whose fields may be absent.
- The fixed file paths are not modelled.
- Authentication and the client constructor are not modelled: they belong to a foreign network client.
- The four backend calls are replaced by the inputs described above. The model assumes one `ChildReply` per record.
- All console output and `main()` are not modelled. This includes the report loop that prints `created_issues` in insertion order. The order itself is kept by `OrderedDict`.
- Text.Lower: lower-cases ASCII letters only, because full Unicode `str.lower()` is not modelled.
- Record fields are strings, and `test_steps` is a list of strings. Other JSON values are not modelled. Among them:
  - A scalar non-string value in `name` or in one of the six detail fields would be formatted with `str()`.
  - A list or object in `name`, or in a detail field other than `status`, would be formatted too.
  - A string or object `test_steps` would be iterated, giving one bullet per character or per key.
  - Three kinds of value raise, and the whole run then returns nothing. A non-string step raises. So does a `null` or non-iterable `test_steps`, both of them before the issue is created. An unhashable `status`, such as a list or an object, raises only after its issue has been created.
- The Epic's parameters are modelled only as the constant request `Sync.EpicRequest`.
- Render.DescriptionLines: holds only for records whose fields contain no newline. A field with an embedded newline would split into several lines.
- A record that is not a mapping, or that raises on key access in some other way, is not modelled. The only failure in reading a record that is modelled is the missing `name`, which raises while the summary is being formatted. That happens before the issue is created and makes the whole run return nothing.
