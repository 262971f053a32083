/** GitHub issues offered for branch creation: display formatting, branch naming,
    title filtering and the most-recently-updated-first order. */
module GitIssue {
  import opened Common

  /** An issue as `gh issue list` reports it; `updatedAt` is an ISO-8601 timestamp. */
  datatype Issue = Issue(number: nat, title: string, updatedAt: string)

  function NumberPrefix(issue: Issue): string
  {
    "#" + NatToString(issue.number) + ": "
  }

  /** "#42: Fix login bug". */
  function Display(issue: Issue): (r: string)
    ensures StartsWith(r, NumberPrefix(issue)) && r[|NumberPrefix(issue)|..] == issue.title
  {
    NumberPrefix(issue) + issue.title
  }

  /** The display cut to `maxWidth` as the source writes it: a prefix that fills the width
      leaves "#N"; a title that does not fit is cut and followed by "...". */
  function DisplayTruncatedAsWritten(issue: Issue, maxWidth: nat): string
  {
    var prefix := NumberPrefix(issue);
    if |prefix| >= maxWidth then "#" + NatToString(issue.number)
    else
      var available := maxWidth - |prefix|;
      if |issue.title| <= available then prefix + issue.title
      else if available <= 3 then prefix + "..."
      else prefix + issue.title[..available - 3] + "..."
  }

  /** The shape of the as-written display: "#N" when the prefix fills the width, the whole
      display when the title fits, and otherwise the prefix followed by a cut title and "...",
      exactly `maxWidth` long when more than three columns remain for the title. */
  lemma DisplayTruncatedAsWrittenShape(issue: Issue, maxWidth: nat)
    ensures |NumberPrefix(issue)| >= maxWidth ==>
              DisplayTruncatedAsWritten(issue, maxWidth) == "#" + NatToString(issue.number)
    ensures |NumberPrefix(issue)| < maxWidth && |Display(issue)| <= maxWidth ==>
              DisplayTruncatedAsWritten(issue, maxWidth) == Display(issue)
    ensures |NumberPrefix(issue)| < maxWidth && |Display(issue)| > maxWidth ==>
              StartsWith(DisplayTruncatedAsWritten(issue, maxWidth), NumberPrefix(issue))
              && EndsWith(DisplayTruncatedAsWritten(issue, maxWidth), "...")
    ensures |NumberPrefix(issue)| + 3 < maxWidth && |Display(issue)| > maxWidth ==>
              |DisplayTruncatedAsWritten(issue, maxWidth)| == maxWidth
  {
    var prefix := NumberPrefix(issue);
    var r := DisplayTruncatedAsWritten(issue, maxWidth);
    if |prefix| < maxWidth && |Display(issue)| > maxWidth {
      var available := maxWidth - |prefix|;
      if available <= 3 {
        assert r == prefix + "...";
      } else {
        assert r == prefix + (issue.title[..available - 3] + "...");
      }
      assert r[..|prefix|] == prefix;
      assert r[|r| - 3..] == "...";
    }
  }

  /** With one or two columns left for the title, the as-written display is longer than
      `maxWidth`: issue 42 titled "Hello" in 6 columns gives "#42: ...", 8 long. */
  lemma DisplayTruncatedOverflowAsWritten()
    ensures |DisplayTruncatedAsWritten(Issue(42, "Hello", ""), 6)| == 8
  {
    assert NatToString(4) == "4";
    assert NatToString(42) == NatToString(4) + [DigitChar(2)];
    assert NumberPrefix(Issue(42, "Hello", "")) == "#42: ";
  }

  /** The display cut to `maxWidth`, with "..." itself cut when fewer than three columns
      remain, so that the result never exceeds the width once the prefix fits. */
  function DisplayTruncated(issue: Issue, maxWidth: nat): (r: string)
    ensures |NumberPrefix(issue)| >= maxWidth ==> r == "#" + NatToString(issue.number)
    ensures |NumberPrefix(issue)| < maxWidth ==>
              StartsWith(r, NumberPrefix(issue)) && |r| == Min(|Display(issue)|, maxWidth)
    ensures |NumberPrefix(issue)| < maxWidth && |Display(issue)| <= maxWidth ==> r == Display(issue)
    ensures |NumberPrefix(issue)| + 3 <= maxWidth && |Display(issue)| > maxWidth ==> EndsWith(r, "...")
  {
    var prefix := NumberPrefix(issue);
    if |prefix| >= maxWidth then "#" + NatToString(issue.number)
    else
      var available := maxWidth - |prefix|;
      if |issue.title| <= available then prefix + issue.title
      else if available <= 3 then prefix + "..."[..available]
      else
        var r := prefix + (issue.title[..available - 3] + "...");
        assert r[..|prefix|] == prefix && r[|r| - 3..] == "...";
        r
  }

  /** The suffix a branch for the issue carries: "issue-42". */
  function BranchNameSuffix(issue: Issue): (r: string)
    ensures |r| > 6 && r[..6] == "issue-" && AllDigits(r[6..]) && DigitsValue(r[6..]) == issue.number
  {
    NatToStringValue(issue.number);
    "issue-" + NatToString(issue.number)
  }

  /** "{typePrefix}issue-{number}", e.g. "feature/issue-42". */
  function GenerateBranchName(typePrefix: string, issueNumber: nat): (r: string)
    ensures |r| > |typePrefix| + 6 && r[..|typePrefix|] == typePrefix
    ensures r[|typePrefix|..|typePrefix| + 6] == "issue-"
    ensures AllDigits(r[|typePrefix| + 6..]) && DigitsValue(r[|typePrefix| + 6..]) == issueNumber
  {
    NatToStringValue(issueNumber);
    var r := typePrefix + "issue-" + NatToString(issueNumber);
    assert r[|typePrefix| + 6..] == NatToString(issueNumber);
    r
  }

  /** A generated branch name is the type prefix followed by the issue's suffix, and the
      issue number can be read back from what follows "issue-". */
  lemma GenerateBranchNameParts(typePrefix: string, issue: Issue)
    requires issue.number <= U64_MAX
    ensures GenerateBranchName(typePrefix, issue.number) == typePrefix + BranchNameSuffix(issue)
    ensures var name := GenerateBranchName(typePrefix, issue.number);
            StartsWith(name, typePrefix)
            && ParseUnsigned(name[|typePrefix| + 6..], U64_MAX) == Some(issue.number)
  {
    var name := GenerateBranchName(typePrefix, issue.number);
    assert name == typePrefix + ("issue-" + NatToString(issue.number));
    assert name[..|typePrefix|] == typePrefix;
    assert name[|typePrefix| + 6..] == NatToString(issue.number);
    ParseNatToString(issue.number, U64_MAX);
  }

  // ---------------------------------------------------------------------
  // Filtering

  /** The issue's title contains the query, ignoring ASCII case. */
  predicate TitleMatches(issue: Issue, query: string)
  {
    Contains(ToLower(issue.title), ToLower(query))
  }

  function FilterMatching(issues: seq<Issue>, query: string): (r: seq<Issue>)
    ensures |r| <= |issues|
    ensures forall k :: 0 <= k < |r| ==> TitleMatches(r[k], query)
    ensures forall x :: x in r <==> x in issues && TitleMatches(x, query)
  {
    if issues == [] then []
    else if TitleMatches(issues[0], query) then [issues[0]] + FilterMatching(issues[1..], query)
    else FilterMatching(issues[1..], query)
  }

  /** All issues for an empty query, otherwise those whose title contains the query
      ignoring case, in their original order. */
  function FilterByTitle(issues: seq<Issue>, query: string): (r: seq<Issue>)
    ensures query == [] ==> r == issues
    ensures query != [] ==> forall x :: x in r <==> x in issues && TitleMatches(x, query)
  {
    if query == [] then issues else FilterMatching(issues, query)
  }

  /** The filtered issues keep their relative order: each is a subsequence of the input. */
  predicate IsSubsequence(a: seq<Issue>, b: seq<Issue>)
  {
    a == [] || (b != [] && ((a[0] == b[0] && IsSubsequence(a[1..], b[1..])) || IsSubsequence(a, b[1..])))
  }

  lemma {:induction false} FilterKeepsOrder(issues: seq<Issue>, query: string)
    ensures IsSubsequence(FilterByTitle(issues, query), issues)
  {
    if query == [] {
      SubsequenceOfSelf(issues);
    } else {
      FilterMatchingOrder(issues, query);
    }
  }

  lemma {:induction false} FilterMatchingOrder(issues: seq<Issue>, query: string)
    ensures IsSubsequence(FilterMatching(issues, query), issues)
  {
    if issues != [] {
      FilterMatchingOrder(issues[1..], query);
      if TitleMatches(issues[0], query) {
        assert ([issues[0]] + FilterMatching(issues[1..], query))[1..] == FilterMatching(issues[1..], query);
      }
    }
  }

  lemma {:induction false} SubsequenceOfSelf(s: seq<Issue>)
    ensures IsSubsequence(s, s)
  {
    if s != [] {
      SubsequenceOfSelf(s[1..]);
    }
  }

  // ---------------------------------------------------------------------
  // Most recently updated first

  /** `a` was updated no earlier than `b`, comparing the timestamps as strings. */
  predicate NotOlder(a: Issue, b: Issue)
  {
    CompareStr(a.updatedAt, b.updatedAt) != Less
  }

  /** "Not older" relates every pair of issues one way or the other, transitively. */
  lemma NotOlderPreorder()
    ensures Total(NotOlder) && Transitive(NotOlder)
  {
    forall a: Issue, b: Issue
      ensures NotOlder(a, b) || NotOlder(b, a)
    {
      CompareStrReverse(a.updatedAt, b.updatedAt);
    }
    forall a: Issue, b: Issue, c: Issue | NotOlder(a, b) && NotOlder(b, c)
      ensures NotOlder(a, c)
    {
      NotOlderTransitive(a.updatedAt, b.updatedAt, c.updatedAt);
    }
  }

  lemma NotOlderTransitive(a: string, b: string, c: string)
    requires CompareStr(a, b) != Less && CompareStr(b, c) != Less
    ensures CompareStr(a, c) != Less
  {
    CompareStrReverse(a, b);
    CompareStrReverse(b, c);
    CompareStrReverse(a, c);
    if a != b && b != c {
      assert CompareStr(b, a) == Less && CompareStr(c, b) == Less;
      CompareStrTransitive(c, b, a);
    }
  }

  /** The issues ordered most recently updated first, ties in input order. */
  function SortByUpdatedDesc(issues: seq<Issue>): (r: seq<Issue>)
    ensures multiset(r) == multiset(issues)
    ensures forall i, j :: 0 <= i < j < |r| ==> NotOlder(r[i], r[j])
  {
    NotOlderPreorder();
    var r := SortBy(issues, NotOlder);
    forall i, j | 0 <= i < j < |r|
      ensures NotOlder(r[i], r[j])
    {
      SortedByGlobal(r, NotOlder, i, j);
    }
    r
  }
}
