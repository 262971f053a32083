/** Reading the output of `git status --porcelain`, `git diff --numstat`
    and `git diff --name-status` for the git view, and the cut of a file
    diff at 1000 lines. Each git call is a parameter: whether it succeeded
    and what it printed. `usize` is taken to be 64 bits wide. */
module GitDiff {
  import opened Common

  /** Lines of a file diff shown before it is cut. */
  const DIFF_LINE_LIMIT: nat := 1000

  datatype FileChangeKind = Added | Modified | Deleted | Renamed

  datatype FileChange = FileChange(path: string, kind: FileChangeKind, additions: nat, deletions: nat, isBinary: bool)

  datatype FileDiff = FileDiff(content: string, truncated: bool)

  datatype WorkingTreeEntry = WorkingTreeEntry(path: string, status: FileChangeKind, isStaged: bool)

  /** What a git call returned. */
  datatype GitOutput = GitOutput(success: bool, stdout: string, stderr: string)

  // ---------------------------------------------------------------------
  // The base branch
  // ---------------------------------------------------------------------

  /** `detect_base_branch` on the answer of `git rev-parse --abbrev-ref
      <branch>@{upstream}`: the upstream without its remote (the text after
      its first '/'), or `main` when there is no upstream. */
  function BaseBranch(upstream: GitOutput): (r: string)
    ensures !upstream.success ==> r == "main"
    ensures upstream.success && '/' !in Trim(upstream.stdout) ==> r == Trim(upstream.stdout)
    ensures upstream.success && '/' in Trim(upstream.stdout) ==>
      exists pos :: (0 <= pos < |Trim(upstream.stdout)| && Trim(upstream.stdout)[pos] == '/'
                     && '/' !in Trim(upstream.stdout)[..pos] && r == Trim(upstream.stdout)[pos + 1..])
  {
    if !upstream.success then "main"
    else
      var u := Trim(upstream.stdout);
      match FindChar(u, '/')
      case Some(pos) =>
        assert '/' !in u[..pos] by {
          forall j | 0 <= j < pos ensures u[..pos][j] != '/' { }
        }
        u[pos + 1..]
      case None => u
  }

  /** The branches `list_base_branch_candidates` tries, in order. */
  const CANDIDATES: seq<string> := ["main", "master", "develop"]

  /** `list_base_branch_candidates`: the candidates that exist as local
      branches, in the order tried; `exists` answers for each. */
  method BaseBranchCandidates(exists_: string -> bool) returns (result: seq<string>)
    ensures forall b :: b in result <==> b in CANDIDATES && exists_(b)
    ensures forall i, j :: 0 <= i < j < |result| ==> result[i] != result[j]
    ensures |result| <= |CANDIDATES|
  {
    result := [];
    var i := 0;
    while i < |CANDIDATES|
      invariant i <= |CANDIDATES|
      invariant forall b :: b in result <==> b in CANDIDATES[..i] && exists_(b)
      invariant forall k, l :: 0 <= k < l < |result| ==> result[k] != result[l]
      invariant |result| <= i
    {
      var name := CANDIDATES[i];
      assert name !in CANDIDATES[..i];
      if exists_(name) {
        result := result + [name];
      }
      assert CANDIDATES[..i + 1] == CANDIDATES[..i] + [name];
      i := i + 1;
    }
    assert CANDIDATES[..i] == CANDIDATES;
  }

  // ---------------------------------------------------------------------
  // `git status --porcelain`
  // ---------------------------------------------------------------------

  /** The kind a staged status letter stands for. */
  function StagedKind(c: char): FileChangeKind
  {
    if c == 'A' then Added else if c == 'D' then Deleted else if c == 'R' then Renamed else Modified
  }

  /** The entries one porcelain line gives: none for a line shorter than
      three characters; one unstaged addition for an untracked file;
      otherwise a staged entry when the index column is not blank and an
      unstaged one when the worktree column is not blank, in that order. */
  function LineEntries(line: string): (r: seq<WorkingTreeEntry>)
    ensures |line| < 3 ==> r == []
    ensures |line| >= 3 && line[0] == '?' ==> r == [WorkingTreeEntry(line[3..], Added, false)]
    ensures |line| >= 3 && line[0] != '?' ==>
      |r| == (if line[0] != ' ' then 1 else 0) + (if line[1] != ' ' then 1 else 0)
      && (forall k :: 0 <= k < |r| ==> r[k].path == line[3..])
      && (line[0] != ' ' ==> r[0] == WorkingTreeEntry(line[3..], StagedKind(line[0]), true))
      && (line[1] != ' ' ==> r[|r| - 1].isStaged == false
                             && r[|r| - 1].status == (if line[1] == 'D' then Deleted else Modified))
  {
    if |line| < 3 then []
    else
      var index, worktree, path := line[0], line[1], line[3..];
      if index == '?' then [WorkingTreeEntry(path, Added, false)]
      else
        var staged := if index != ' ' then [WorkingTreeEntry(path, StagedKind(index), true)] else [];
        var unstaged := if worktree != ' ' then [WorkingTreeEntry(path, if worktree == 'D' then Deleted else Modified, false)] else [];
        staged + unstaged
  }

  /** A porcelain line has a staged entry exactly when its index column is
      neither blank nor '?', and an unstaged one exactly when it is
      untracked or its worktree column is not blank. */
  lemma StagedIffIndexMarked(line: string)
    requires |line| >= 3
    ensures (exists k :: 0 <= k < |LineEntries(line)| && LineEntries(line)[k].isStaged)
            <==> line[0] != ' ' && line[0] != '?'
    ensures (exists k :: 0 <= k < |LineEntries(line)| && !LineEntries(line)[k].isStaged)
            <==> line[0] == '?' || line[1] != ' '
  {
    var r := LineEntries(line);
    if line[0] != '?' && line[0] != ' ' {
      assert r[0].isStaged;
    }
    if line[0] != '?' && line[1] != ' ' {
      assert !r[|r| - 1].isStaged;
    }
    if line[0] == '?' {
      assert !r[0].isStaged;
    }
  }

  /** The entries of all the lines, in order. */
  function StatusEntries(lines: seq<string>): seq<WorkingTreeEntry>
  {
    if lines == [] then [] else StatusEntries(lines[..|lines| - 1]) + LineEntries(lines[|lines| - 1])
  }

  /** Each line gives at most two entries. */
  lemma {:induction false} StatusEntriesBound(lines: seq<string>)
    ensures |StatusEntries(lines)| <= 2 * |lines|
  {
    if lines != [] {
      StatusEntriesBound(lines[..|lines| - 1]);
    }
  }

  /** One more line adds its entries at the end. */
  lemma StatusEntriesStep(lines: seq<string>, i: nat)
    requires i < |lines|
    ensures StatusEntries(lines[..i + 1]) == StatusEntries(lines[..i]) + LineEntries(lines[i])
  {
    assert lines[..i + 1][..i] == lines[..i];
  }

  /** The loop of `get_working_tree_status`. */
  method WorkingTreeEntries(lines: seq<string>) returns (entries: seq<WorkingTreeEntry>)
    ensures entries == StatusEntries(lines)
    ensures |entries| <= 2 * |lines|
  {
    entries := [];
    var i := 0;
    assert lines[..0] == [];
    while i < |lines|
      invariant i <= |lines|
      invariant entries == StatusEntries(lines[..i])
    {
      var line := lines[i];
      StatusEntriesStep(lines, i);
      if |line| >= 3 {
        var index, worktree, path := line[0], line[1], line[3..];
        if index == '?' {
          entries := entries + [WorkingTreeEntry(path, Added, false)];
        } else {
          if index != ' ' {
            entries := entries + [WorkingTreeEntry(path, StagedKind(index), true)];
          }
          if worktree != ' ' {
            entries := entries + [WorkingTreeEntry(path, if worktree == 'D' then Deleted else Modified, false)];
          }
        }
      }
      i := i + 1;
    }
    assert lines[..i] == lines;
    StatusEntriesBound(lines);
  }

  /** `get_working_tree_status` after running git. */
  method WorkingTreeStatus(out: GitOutput) returns (r: Result<seq<WorkingTreeEntry>, string>)
    ensures !out.success ==> r == Err(out.stderr)
    ensures out.success ==> r == Ok(StatusEntries(Lines(out.stdout)))
  {
    if !out.success {
      return Err(out.stderr);
    }
    var entries := WorkingTreeEntries(Lines(out.stdout));
    return Ok(entries);
  }

  // ---------------------------------------------------------------------
  // `git diff --numstat` and `--name-status`
  // ---------------------------------------------------------------------

  /** Additions, deletions and whether the file is binary. */
  datatype Stat = Stat(additions: nat, deletions: nat, isBinary: bool)

  /** The statistics one numstat line gives, for lines of three or more
      tab-separated fields: a count that does not parse is 0, and the file
      is binary exactly when both counts are "-". */
  function NumstatLine(line: string): (r: Option<(string, Stat)>)
    ensures var parts := Split(line, '\t');
      (r.Some? <==> |parts| >= 3)
      && (r.Some? ==> r.value.0 == parts[2]
                      && (r.value.1.isBinary <==> parts[0] == "-" && parts[1] == "-")
                      && r.value.1.additions == ParseUnsigned(parts[0], U64_MAX).GetOr(0)
                      && r.value.1.deletions == ParseUnsigned(parts[1], U64_MAX).GetOr(0))
  {
    var parts := Split(line, '\t');
    if |parts| >= 3 then
      Some((parts[2], Stat(ParseUnsigned(parts[0], U64_MAX).GetOr(0), ParseUnsigned(parts[1], U64_MAX).GetOr(0),
                           parts[0] == "-" && parts[1] == "-")))
    else None
  }

  /** A binary file's counts are both zero: "-" is not a number. */
  lemma BinaryHasNoCounts(line: string)
    requires NumstatLine(line).Some? && NumstatLine(line).value.1.isBinary
    ensures NumstatLine(line).value.1.additions == 0 && NumstatLine(line).value.1.deletions == 0
  {
    var parts := Split(line, '\t');
    assert parts[0] == "-" && parts[1] == "-";
    assert !AllDigits(parts[0]) by { assert !IsDigit(parts[0][0]); }
  }

  /** The statistics map after the given lines; a later line for the same
      path wins. */
  function StatsOf(lines: seq<string>): map<string, Stat>
  {
    if lines == [] then map[]
    else
      var m := StatsOf(lines[..|lines| - 1]);
      match NumstatLine(lines[|lines| - 1])
      case Some(e) => m[e.0 := e.1]
      case None => m
  }

  /** Every path in the map comes from some line, with that line's
      statistics for the last such line. */
  lemma {:induction false} StatsFromLines(lines: seq<string>, path: string)
    requires path in StatsOf(lines)
    ensures exists k :: (0 <= k < |lines| && NumstatLine(lines[k]).Some?
                         && NumstatLine(lines[k]).value == (path, StatsOf(lines)[path]))
  {
    var init := lines[..|lines| - 1];
    var e := NumstatLine(lines[|lines| - 1]);
    if e.Some? && e.value.0 == path {
    } else {
      StatsFromLines(init, path);
      var k :| 0 <= k < |init| && NumstatLine(init[k]).Some? && NumstatLine(init[k]).value == (path, StatsOf(init)[path]);
      assert lines[k] == init[k];
    }
  }

  /** The numstat loop of `get_branch_diff_files`. */
  method ParseNumstat(lines: seq<string>) returns (stats: map<string, Stat>)
    ensures stats == StatsOf(lines)
  {
    stats := map[];
    var i := 0;
    while i < |lines|
      invariant i <= |lines|
      invariant stats == StatsOf(lines[..i])
    {
      assert lines[..i + 1][..i] == lines[..i];
      var e := NumstatLine(lines[i]);
      if e.Some? {
        stats := stats[e.value.0 := e.value.1];
      }
      i := i + 1;
    }
    assert lines[..i] == lines;
  }

  /** The change kind a name-status letter stands for. */
  function KindOf(status: string): FileChangeKind
  {
    if status == [] then Modified
    else if status[0] == 'A' then Added
    else if status[0] == 'D' then Deleted
    else if status[0] == 'R' then Renamed
    else Modified
  }

  /** The change one name-status line gives: none with fewer than two
      fields; a rename takes the new path; the statistics come from the
      numstat map, zero when the path is missing. */
  function NameStatusLine(line: string, stats: map<string, Stat>): (r: Option<FileChange>)
    ensures var parts := Split(line, '\t');
      (r.Some? <==> |parts| >= 2)
      && (r.Some? ==>
            r.value.kind == KindOf(parts[0])
            && r.value.path == (if |parts| >= 3 && StartsWith(parts[0], "R") then parts[2] else parts[1])
            && (r.value.path in stats ==> (r.value.additions == stats[r.value.path].additions
                                           && r.value.deletions == stats[r.value.path].deletions
                                           && r.value.isBinary == stats[r.value.path].isBinary))
            && (r.value.path !in stats ==> r.value.additions == 0 && r.value.deletions == 0 && !r.value.isBinary))
  {
    var parts := Split(line, '\t');
    if |parts| < 2 then None
    else
      var path := if |parts| >= 3 && StartsWith(parts[0], "R") then parts[2] else parts[1];
      var st := if path in stats then stats[path] else Stat(0, 0, false);
      Some(FileChange(path, KindOf(parts[0]), st.additions, st.deletions, st.isBinary))
  }

  /** The changes of all the lines, in order. */
  function ChangesOf(lines: seq<string>, stats: map<string, Stat>): (r: seq<FileChange>)
    ensures |r| <= |lines|
  {
    if lines == [] then []
    else
      var rest := ChangesOf(lines[..|lines| - 1], stats);
      match NameStatusLine(lines[|lines| - 1], stats)
      case Some(c) => rest + [c]
      case None => rest
  }

  /** The name-status loop of `get_branch_diff_files`. */
  method ParseNameStatus(lines: seq<string>, stats: map<string, Stat>) returns (files: seq<FileChange>)
    ensures files == ChangesOf(lines, stats)
  {
    files := [];
    var i := 0;
    while i < |lines|
      invariant i <= |lines|
      invariant files == ChangesOf(lines[..i], stats)
    {
      assert lines[..i + 1][..i] == lines[..i];
      var c := NameStatusLine(lines[i], stats);
      if c.Some? {
        files := files + [c.value];
      }
      i := i + 1;
    }
    assert lines[..i] == lines;
  }

  /** `get_branch_diff_files` after the two git calls: the numstat call's
      failure is reported first, then the name-status call's. */
  method BranchDiffFiles(numstat: GitOutput, nameStatus: GitOutput) returns (r: Result<seq<FileChange>, string>)
    ensures !numstat.success ==> r == Err(numstat.stderr)
    ensures numstat.success && !nameStatus.success ==> r == Err(nameStatus.stderr)
    ensures numstat.success && nameStatus.success ==>
      r == Ok(ChangesOf(Lines(nameStatus.stdout), StatsOf(Lines(numstat.stdout))))
  {
    if !numstat.success {
      return Err(numstat.stderr);
    }
    if !nameStatus.success {
      return Err(nameStatus.stderr);
    }
    var stats := ParseNumstat(Lines(numstat.stdout));
    var files := ParseNameStatus(Lines(nameStatus.stdout), stats);
    return Ok(files);
  }

  // ---------------------------------------------------------------------
  // A file's diff
  // ---------------------------------------------------------------------

  /** `get_file_diff` on the diff text: a binary notice for binary files,
      the first 1000 lines when there are more, otherwise the text as is. */
  function FileDiffOf(content: string): (r: FileDiff)
    ensures Contains(content, "Binary files") && Contains(content, "differ") ==>
      r == FileDiff("Binary file changed", false)
    ensures !(Contains(content, "Binary files") && Contains(content, "differ")) ==>
      (r.truncated <==> |Lines(content)| > DIFF_LINE_LIMIT)
      && (r.truncated ==> r.content == Join(Lines(content)[..DIFF_LINE_LIMIT], "\n"))
      && (!r.truncated ==> r.content == content)
  {
    if Contains(content, "Binary files") && Contains(content, "differ") then FileDiff("Binary file changed", false)
    else
      var lines := Lines(content);
      if |lines| > DIFF_LINE_LIMIT then FileDiff(Join(lines[..DIFF_LINE_LIMIT], "\n"), true)
      else FileDiff(content, false)
  }

  /** Joined lines are separated by one newline each: a cut diff of
      lines without newlines has exactly 999 of them. */
  lemma {:induction false} JoinNewlines(parts: seq<string>)
    requires |parts| >= 1
    requires forall k :: 0 <= k < |parts| ==> '\n' !in parts[k]
    ensures Count(Join(parts, "\n"), '\n') == |parts| - 1
  {
    if |parts| > 1 {
      JoinNewlines(parts[1..]);
      CountAppend(parts[0], "\n" + Join(parts[1..], "\n"), '\n');
      CountAppend("\n", Join(parts[1..], "\n"), '\n');
      NoNewlineCount(parts[0]);
      assert parts[0] + "\n" + Join(parts[1..], "\n") == parts[0] + ("\n" + Join(parts[1..], "\n"));
    } else {
      NoNewlineCount(parts[0]);
    }
  }

  lemma {:induction false} NoNewlineCount(s: string)
    requires '\n' !in s
    ensures Count(s, '\n') == 0
  {
    if s != [] {
      assert '\n' !in s[1..];
      NoNewlineCount(s[1..]);
    }
  }

  /** No line of a text holds a newline. */
  lemma LinesHaveNoNewline(content: string)
    ensures forall k :: 0 <= k < |Lines(content)| ==> '\n' !in Lines(content)[k]
  {
    var pieces := Split(content, '\n');
    var kept := if pieces[|pieces| - 1] == [] then pieces[..|pieces| - 1] else pieces;
    forall k | 0 <= k < |kept|
      ensures '\n' !in DropCr(kept[k])
    {
      assert '\n' !in kept[k];
      var d := DropCr(kept[k]);
      assert d == kept[k] || d == kept[k][..|kept[k]| - 1];
      assert forall j :: 0 <= j < |d| ==> d[j] == kept[k][j];
    }
  }

  /** A cut diff holds exactly the first 1000 lines: 999 newlines. */
  lemma CutDiffHasLimitLines(content: string)
    requires FileDiffOf(content).truncated
    ensures Count(FileDiffOf(content).content, '\n') == DIFF_LINE_LIMIT - 1
  {
    var lines := Lines(content);
    LinesHaveNoNewline(content);
    JoinNewlines(lines[..DIFF_LINE_LIMIT]);
  }

  /** `get_file_diff` after running git. */
  method FileDiffFrom(out: GitOutput) returns (r: Result<FileDiff, string>)
    ensures !out.success ==> r == Err(out.stderr)
    ensures out.success ==> r == Ok(FileDiffOf(out.stdout))
  {
    if !out.success {
      return Err(out.stderr);
    }
    return Ok(FileDiffOf(out.stdout));
  }
}
