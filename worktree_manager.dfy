/** The pure helpers of the worktree manager: protected branch names, remote
    reference normalisation and splitting, the order in which remotes are
    tried, and which removal errors mean the worktree is already gone. */
module WorktreeManager {
  import opened Common

  /** Branches the manager refuses to delete. */
  const PROTECTED_BRANCHES: seq<string> := ["main", "master", "develop", "release"]

  /** `WorktreeManager::is_protected`: membership in the protected list. */
  function IsProtected(branchName: string): (r: bool)
    ensures r <==> branchName == "main" || branchName == "master" || branchName == "develop" || branchName == "release"
  {
    branchName in PROTECTED_BRANCHES
  }

  /** A branch name with a '/' in it, such as a feature branch, is never protected. */
  lemma SlashedNotProtected(branchName: string)
    requires '/' in branchName
    ensures !IsProtected(branchName)
  {
    assert '/' !in "main" && '/' !in "master" && '/' !in "develop" && '/' !in "release";
  }

  const REMOTES_PREFIX: string := "remotes/"

  /** `normalize_remote_ref`: drops one leading "remotes/". */
  function NormalizeRemoteRef(name: string): (r: string)
    ensures StartsWith(name, REMOTES_PREFIX) ==> name == REMOTES_PREFIX + r
    ensures !StartsWith(name, REMOTES_PREFIX) ==> r == name
  {
    StripPrefix(name, REMOTES_PREFIX).GetOr(name)
  }

  /** Prefixing "remotes/" and normalising gives the name back, even when the
      name itself starts with "remotes/": only one prefix is removed. */
  lemma NormalizeRemoteRefOnce(name: string)
    ensures NormalizeRemoteRef(REMOTES_PREFIX + name) == name
  {
    var s := REMOTES_PREFIX + name;
    assert s[..|REMOTES_PREFIX|] == REMOTES_PREFIX;
    assert s[|REMOTES_PREFIX|..] == name;
  }

  /** `split_remote_ref`: the parts before and after the first '/'. */
  function SplitRemoteRef(name: string): (r: Option<(string, string)>)
    ensures r.None? <==> '/' !in name
    ensures r.Some? ==> name == r.value.0 + "/" + r.value.1 && '/' !in r.value.0
  {
    match FindChar(name, '/')
    case None => None
    case Some(i) =>
      assert name == name[..i] + "/" + name[i + 1..];
      Some((name[..i], name[i + 1..]))
  }

  /** A remote name without '/' joined to any branch splits back into the two. */
  lemma SplitRemoteRefJoin(remote: string, branch: string)
    requires '/' !in remote
    ensures SplitRemoteRef(remote + "/" + branch) == Some((remote, branch))
  {
    FindCharAfter(remote, '/', branch);
    var s := remote + "/" + branch;
    assert s[..|remote|] == remote;
    assert s[|remote| + 1..] == branch;
  }

  /** The comparator of `ordered_remote_names` as a "not after" relation:
      "origin" goes before every other name, the rest by byte order. */
  predicate RemoteLe(a: string, b: string)
  {
    a == "origin" || (b != "origin" && StrLe(a, b))
  }

  lemma RemoteLePreorder()
    ensures Total(RemoteLe) && Transitive(RemoteLe)
  {
    forall a: string, b: string
      ensures RemoteLe(a, b) || RemoteLe(b, a)
    {
      StrLeTotal(a, b);
    }
    forall a: string, b: string, c: string | RemoteLe(a, b) && RemoteLe(b, c)
      ensures RemoteLe(a, c)
    {
      if a != "origin" {
        StrLeTransitive(a, b, c);
      }
    }
  }

  /** `ordered_remote_names`: the remote names, "origin" first, the rest in
      lexicographic order. */
  function OrderedRemoteNames(names: seq<string>): (r: seq<string>)
    ensures multiset(r) == multiset(names)
    ensures forall i, j :: 0 <= i < j < |r| ==> RemoteLe(r[i], r[j])
  {
    RemoteLePreorder();
    var r := SortBy(names, RemoteLe);
    forall i, j | 0 <= i < j < |r|
      ensures RemoteLe(r[i], r[j])
    {
      SortedByGlobal(r, RemoteLe, i, j);
    }
    r
  }

  /** When there is an "origin" remote it is tried first, and the other
      remotes follow in byte order. */
  lemma OriginFirst(names: seq<string>)
    ensures var r := OrderedRemoteNames(names);
            ("origin" in names ==> r[0] == "origin")
            && (forall i, j :: 0 <= i < j < |r| && r[i] != "origin" ==> r[j] != "origin" && StrLe(r[i], r[j]))
  {
    var r := OrderedRemoteNames(names);
    if "origin" in names {
      assert "origin" in multiset(names);
      assert "origin" in r;
      var k :| 0 <= k < |r| && r[k] == "origin";
      if k > 0 {
        assert RemoteLe(r[0], r[k]);
      }
    }
  }

  /** The errors a worktree removal may report. */
  datatype GwtError =
    | WorktreeNotFound(path: string)
    | WorktreeRemoveFailed(reason: string)
    | GitOperationFailed(operation: string, details: string)
    | OtherError(message: string)

  const MISSING_MARKERS: seq<string> := ["not a working tree", "not a worktree", "not a work tree", "no such file or directory"]

  predicate MentionsMissing(lowered: string)
  {
    Contains(lowered, "not a working tree") || Contains(lowered, "not a worktree")
    || Contains(lowered, "not a work tree") || Contains(lowered, "no such file or directory")
  }

  /** `WorktreeManager::is_missing_worktree_error`: the worktree is already gone. */
  function IsMissingWorktreeError(err: GwtError): (r: bool)
    ensures err.WorktreeNotFound? || err.WorktreeRemoveFailed? ==> r
    ensures err.OtherError? ==> !r
    ensures err.GitOperationFailed? && err.operation != "worktree remove" ==> !r
    ensures err.GitOperationFailed? && err.operation == "worktree remove" ==>
              (r <==> exists m :: m in MISSING_MARKERS && Contains(ToLower(err.details), m))
  {
    match err
    case WorktreeNotFound(_) => true
    case WorktreeRemoveFailed(_) => true
    case GitOperationFailed(operation, details) =>
      operation == "worktree remove" && MentionsMissing(ToLower(details))
    case OtherError(_) => false
  }

  /** The message test ignores letter case: an upper-cased message is judged
      like the original. */
  lemma MissingErrorIgnoresCase(operation: string, details: string)
    ensures IsMissingWorktreeError(GitOperationFailed(operation, ToUpper(details)))
            == IsMissingWorktreeError(GitOperationFailed(operation, details))
  {
    LowerUpper(details);
  }

  lemma LowerUpper(s: string)
    ensures ToLower(ToUpper(s)) == ToLower(s)
  {
    var a := ToLower(ToUpper(s));
    var b := ToLower(s);
    assert |a| == |b|;
    forall i | 0 <= i < |s|
      ensures a[i] == b[i]
    {
      assert ToUpper(s)[i] == Upper(s[i]);
    }
  }
}
