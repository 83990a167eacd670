/** Choosing the issue type under which test cases are filed. */
module IssueTypes {
  import opened Wrappers
  import opened Text
  import opened Search

  /** The type used when no test-case type exists or the query fails. */
  const FallbackIssueType := "Task"

  /** An issue-type name that, lower-cased, is exactly "test case" or "test". */
  predicate IsTestType(name: string) {
    Lower(name) == "test case" || Lower(name) == "test"
  }

  /** Whether a type counts as a test-case type does not depend on the
      letter case of its name: "Test Case", "TEST" and "test" all count. */
  lemma TestTypeIgnoresCase(name: string, other: string)
    requires |other| == |name|
    requires forall i :: 0 <= i < |name| ==> SameIgnoringCase(name[i], other[i])
    ensures IsTestType(name) <==> IsTestType(other)
    ensures IsTestType("Test Case") && IsTestType("TEST") && IsTestType("test")
  {
    LowerIgnoresCase(name, other);
    assert Lower("Test Case") == "test case";
    assert Lower("TEST") == "test";
  }

  /** The issue type chosen from the backend's answer to the issue-type query:
      the first test-case type in listed order, under its original spelling;
      "Task" when there is none or the query raised. */
  function IssueTypeFor(query: Result<seq<string>>): (r: string)
    ensures query.Ok? && (exists i :: 0 <= i < |query.value| && IsTestType(query.value[i])) ==>
      exists i :: 0 <= i < |query.value| && r == query.value[i] && IsTestType(r)
        && forall j :: 0 <= j < i ==> !IsTestType(query.value[j])
    ensures (query.Err? || forall i :: 0 <= i < |query.value| ==> !IsTestType(query.value[i])) ==>
      r == FallbackIssueType
  {
    match query
    case Err(_) => FallbackIssueType
    case Ok(names) =>
      match FirstIndex(names, IsTestType)
      case Some(i) => names[i]
      case None => FallbackIssueType
  }

  /** The resolver: scan the listed types in order and return the first
      test-case type, falling back to "Task"; an error never escapes. */
  method ResolveIssueType(query: Result<seq<string>>) returns (name: string)
    ensures name == IssueTypeFor(query)
  {
    if query.Err? {
      return FallbackIssueType;
    }
    var types := query.value;
    var i := 0;
    while i < |types|
      invariant 0 <= i <= |types|
      invariant forall j :: 0 <= j < i ==> !IsTestType(types[j])
    {
      var lowered := Lower(types[i]);
      if lowered == "test case" || lowered == "test" {
        return types[i];
      }
      i := i + 1;
    }
    return FallbackIssueType;
  }
}
