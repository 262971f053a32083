/** Repository helpers: the header line shown for the directory gwt runs
    in, and the reading of `git worktree list --porcelain`. The git call is
    a parameter: whether it succeeded and what it printed. */
module GitRepository {
  import opened Common

  datatype RepoType = Normal | Bare | Worktree | Empty | NonRepo

  /** What the header shows; the working directory is its display text. */
  datatype HeaderContext = HeaderContext(
    workingDir: string,
    branchName: Option<string>,
    repoType: RepoType,
    bareName: Option<string>)

  /** `HeaderContext::format_display`: the path, then the branch in
      brackets (`bare` for a bare repository), then the bare repository's
      name in parentheses for a worktree of one. */
  function FormatDisplay(h: HeaderContext): (r: string)
    ensures StartsWith(r, h.workingDir + " [")
    ensures h.repoType == Bare ==> r == h.workingDir + " [bare]"
    ensures h.repoType != Bare ==> |r| >= |h.workingDir| + 3 + |h.branchName.GetOr("")|
    ensures h.repoType == Worktree && h.bareName.Some? ==> EndsWith(r, " (" + h.bareName.value + ")")
    ensures !(h.repoType == Worktree && h.bareName.Some?) ==> r[|r| - 1] == ']'
  {
    var head := h.workingDir + " [";
    if h.repoType == Bare then head + "bare]"
    else
      var branch := h.branchName.GetOr("");
      if h.repoType == Worktree && h.bareName.Some? then
        var tail := " (" + h.bareName.value + ")";
        var r := (head + branch + "]") + tail;
        assert r[..|head|] == head;
        r
      else head + branch + "]"
  }

  // ---------------------------------------------------------------------
  // `git worktree list --porcelain`
  // ---------------------------------------------------------------------

  datatype WorktreeInfo = WorktreeInfo(
    path: string,
    head: string,
    branch: Option<string>,
    isBare: bool,
    isDetached: bool,
    isLocked: bool,
    isPrunable: bool)

  /** A record as a `worktree <path>` line opens it. */
  function NewWorktree(path: string): (wt: WorktreeInfo)
    ensures wt.path == path && wt.head == [] && wt.branch.None?
    ensures !wt.isBare && !wt.isDetached && !wt.isLocked && !wt.isPrunable
  {
    WorktreeInfo(path, [], None, false, false, false, false)
  }

  /** A branch attribute's value without `refs/heads/`. */
  function ShortBranch(branch: string): (r: string)
    ensures StartsWith(branch, "refs/heads/") ==> branch == "refs/heads/" + r
    ensures !StartsWith(branch, "refs/heads/") ==> r == branch
  {
    StripPrefix(branch, "refs/heads/").GetOr(branch)
  }

  /** One attribute line applied to the open record; unknown lines are
      ignored. */
  function ApplyAttribute(wt: WorktreeInfo, line: string): (r: WorktreeInfo)
    ensures r.path == wt.path
    ensures StartsWith(line, "HEAD ") ==> r == wt.(head := line[5..])
    ensures !StartsWith(line, "HEAD ") && StartsWith(line, "branch ") ==>
      r == wt.(branch := Some(ShortBranch(line[7..])))
  {
    match StripPrefix(line, "HEAD ")
    case Some(head) => wt.(head := head)
    case None =>
      match StripPrefix(line, "branch ")
      case Some(branch) => wt.(branch := Some(ShortBranch(branch)))
      case None =>
        if line == "bare" then wt.(isBare := true)
        else if line == "detached" then wt.(isDetached := true)
        else if line == "locked" then wt.(isLocked := true)
        else if line == "prunable" then wt.(isPrunable := true)
        else wt
  }

  /** Records read so far and the one still open. */
  datatype ParseState = ParseState(done: seq<WorktreeInfo>, current: Option<WorktreeInfo>)

  const START: ParseState := ParseState([], None)

  predicate IsWorktreeLine(line: string) { StartsWith(line, "worktree ") }

  /** One line of the loop in `list_worktrees`: a `worktree` line closes
      the open record and opens a new one; other lines go to the open
      record, and are dropped when there is none. */
  function ParseStep(st: ParseState, line: string): (r: ParseState)
    ensures IsWorktreeLine(line) ==> r.current == Some(NewWorktree(line[9..]))
    ensures !IsWorktreeLine(line) ==> r.done == st.done && r.current.Some? == st.current.Some?
  {
    match StripPrefix(line, "worktree ")
    case Some(path) =>
      ParseState(st.done + (if st.current.Some? then [st.current.value] else []), Some(NewWorktree(path)))
    case None =>
      if st.current.Some? then st.(current := Some(ApplyAttribute(st.current.value, line))) else st
  }

  /** The state after the given lines. */
  function ParseFrom(st: ParseState, lines: seq<string>): ParseState
  {
    if lines == [] then st else ParseStep(ParseFrom(st, lines[..|lines| - 1]), lines[|lines| - 1])
  }

  /** The records: those closed, then the open one. */
  function Finish(st: ParseState): (r: seq<WorktreeInfo>)
    ensures |r| == |st.done| + (if st.current.Some? then 1 else 0)
  {
    st.done + (if st.current.Some? then [st.current.value] else [])
  }

  /** How many lines open a record. */
  function CountWorktreeLines(lines: seq<string>): nat
  {
    if lines == [] then 0
    else CountWorktreeLines(lines[..|lines| - 1]) + (if IsWorktreeLine(lines[|lines| - 1]) then 1 else 0)
  }

  /** Reading on from where earlier lines left off. */
  lemma {:induction false} ParseFromAppend(st: ParseState, a: seq<string>, b: seq<string>)
    ensures ParseFrom(st, a + b) == ParseFrom(ParseFrom(st, a), b)
    decreases |b|
  {
    if b == [] {
      assert a + b == a;
    } else {
      assert (a + b)[..|a + b| - 1] == a + b[..|b| - 1];
      ParseFromAppend(st, a, b[..|b| - 1]);
    }
  }

  /** Every `worktree` line gives exactly one record. */
  lemma {:induction false} RecordPerWorktreeLine(lines: seq<string>)
    ensures |Finish(ParseFrom(START, lines))| == CountWorktreeLines(lines)
    ensures CountWorktreeLines(lines) > 0 ==> ParseFrom(START, lines).current.Some?
  {
    if lines != [] {
      RecordPerWorktreeLine(lines[..|lines| - 1]);
    }
  }

  /** Lines before the first `worktree` line change nothing. */
  lemma {:induction false} LeadingAttributesIgnored(attrs: seq<string>)
    requires forall i :: 0 <= i < |attrs| ==> !IsWorktreeLine(attrs[i])
    ensures ParseFrom(START, attrs) == START
  {
    if attrs != [] {
      LeadingAttributesIgnored(attrs[..|attrs| - 1]);
    }
  }

  lemma LeadingAttributesDropped(attrs: seq<string>, rest: seq<string>)
    requires forall i :: 0 <= i < |attrs| ==> !IsWorktreeLine(attrs[i])
    ensures Finish(ParseFrom(START, attrs + rest)) == Finish(ParseFrom(START, rest))
  {
    ParseFromAppend(START, attrs, rest);
    LeadingAttributesIgnored(attrs);
  }

  /** What the git call returned. */
  datatype GitOutput = GitOutput(success: bool, stdout: string, stderr: string)

  /** `list_worktrees` after running git: a failed call reports its error
      output; otherwise each porcelain record becomes one entry. */
  method ListWorktrees(out: GitOutput) returns (r: Result<seq<WorktreeInfo>, string>)
    ensures !out.success ==> r == Err(out.stderr)
    ensures out.success ==> r == Ok(Finish(ParseFrom(START, Lines(out.stdout))))
    ensures out.success ==> |r.value| == CountWorktreeLines(Lines(out.stdout))
  {
    if !out.success {
      return Err(out.stderr);
    }
    var worktrees := ParseWorktreeLines(Lines(out.stdout));
    return Ok(worktrees);
  }

  /** The loop of `list_worktrees` over the porcelain lines. */
  method ParseWorktreeLines(lines: seq<string>) returns (worktrees: seq<WorktreeInfo>)
    ensures worktrees == Finish(ParseFrom(START, lines))
    ensures |worktrees| == CountWorktreeLines(lines)
  {
    worktrees := [];
    var current: Option<WorktreeInfo> := None;
    var i := 0;
    while i < |lines|
      invariant i <= |lines|
      invariant ParseState(worktrees, current) == ParseFrom(START, lines[..i])
    {
      var line := lines[i];
      assert lines[..i + 1][..i] == lines[..i];
      var path := StripPrefix(line, "worktree ");
      if path.Some? {
        if current.Some? {
          worktrees := worktrees + [current.value];
        }
        current := Some(NewWorktree(path.value));
      } else if current.Some? {
        current := Some(ApplyAttribute(current.value, line));
      }
      i := i + 1;
    }
    assert lines[..i] == lines;
    if current.Some? {
      worktrees := worktrees + [current.value];
    }
    RecordPerWorktreeLine(lines);
  }
}
