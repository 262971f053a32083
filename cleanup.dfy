/** Worktree cleanup: the safety level of removing a worktree, and the
    worktree list shown for cleanup, safest first. */
module Cleanup {
  import opened Common
  import WorktreeManager

  /** Declared in this order, so the derived ordering is Safe < Warning <
      Danger < Disabled. */
  datatype SafetyLevel = Safe | Warning | Danger | Disabled

  /** The position of a level in the derived ordering. */
  function Rank(l: SafetyLevel): nat
  {
    match l
    case Safe => 0
    case Warning => 1
    case Danger => 2
    case Disabled => 3
  }

  predicate LevelLe(a: SafetyLevel, b: SafetyLevel) { Rank(a) <= Rank(b) }

  /** `compute_safety_level`: a protected, current or busy worktree cannot be
      removed; otherwise each kind of unsaved work raises the level. */
  function ComputeSafetyLevel(isProtected: bool, isCurrent: bool, isAgentRunning: bool, hasChanges: bool, hasUnpushed: bool): (r: SafetyLevel)
    ensures r == Disabled <==> isProtected || isCurrent || isAgentRunning
    ensures r == Safe <==> !(isProtected || isCurrent || isAgentRunning) && !hasChanges && !hasUnpushed
    ensures r == Warning <==> !(isProtected || isCurrent || isAgentRunning) && hasChanges != hasUnpushed
    ensures r == Danger <==> !(isProtected || isCurrent || isAgentRunning) && hasChanges && hasUnpushed
  {
    if isProtected || isCurrent || isAgentRunning then Disabled
    else if !hasChanges && !hasUnpushed then Safe
    else if hasChanges && hasUnpushed then Danger
    else Warning
  }

  /** More risk never lowers the level: setting any flag keeps or raises it. */
  lemma SafetyMonotone(p1: bool, c1: bool, a1: bool, h1: bool, u1: bool, p2: bool, c2: bool, a2: bool, h2: bool, u2: bool)
    requires (p1 ==> p2) && (c1 ==> c2) && (a1 ==> a2) && (h1 ==> h2) && (u1 ==> u2)
    ensures LevelLe(ComputeSafetyLevel(p1, c1, a1, h1, u1), ComputeSafetyLevel(p2, c2, a2, h2, u2))
  {
  }

  /** A worktree as listed by the manager: its branch, if any, and its state. */
  datatype Worktree = Worktree(path: string, branch: Option<string>, hasChanges: bool, hasUnpushed: bool)

  /** The row shown for a worktree with a branch. */
  datatype WorktreeInfo = WorktreeInfo(
    path: string,
    branch: string,
    hasChanges: bool,
    hasUnpushed: bool,
    isCurrent: bool,
    isProtected: bool,
    isAgentRunning: bool,
    safetyLevel: SafetyLevel)

  /** The flags and level of one worktree on branch `branch`. */
  function InfoOf(wt: Worktree, branch: string, current: Option<string>, agentBranches: set<string>): (r: WorktreeInfo)
  {
    var isCurrent := current == Some(branch);
    var isProtected := WorktreeManager.IsProtected(branch);
    var isAgentRunning := branch in agentBranches;
    WorktreeInfo(wt.path, branch, wt.hasChanges, wt.hasUnpushed, isCurrent, isProtected, isAgentRunning,
                 ComputeSafetyLevel(isProtected, isCurrent, isAgentRunning, wt.hasChanges, wt.hasUnpushed))
  }

  /** A row's level is the one its own flags call for. */
  predicate Consistent(i: WorktreeInfo)
  {
    i.safetyLevel == ComputeSafetyLevel(i.isProtected, i.isCurrent, i.isAgentRunning, i.hasChanges, i.hasUnpushed)
    && i.isProtected == WorktreeManager.IsProtected(i.branch)
  }

  /** Worktrees without a branch (detached or bare) are dropped. */
  function Infos(wts: seq<Worktree>, current: Option<string>, agentBranches: set<string>): (r: seq<WorktreeInfo>)
    ensures |r| <= |wts|
    ensures forall i :: 0 <= i < |r| ==> Consistent(r[i])
    ensures forall i :: 0 <= i < |r| ==> (r[i].isCurrent <==> current == Some(r[i].branch))
    ensures forall i :: 0 <= i < |r| ==> (r[i].isAgentRunning <==> r[i].branch in agentBranches)
  {
    if wts == [] then []
    else
      var rest := Infos(wts[1..], current, agentBranches);
      match wts[0].branch
      case None => rest
      case Some(b) => [InfoOf(wts[0], b, current, agentBranches)] + rest
  }

  /** Every worktree with a branch gets a row, with its own path and branch. */
  lemma {:induction false} BranchedWorktreeListed(wts: seq<Worktree>, current: Option<string>, agentBranches: set<string>, k: nat)
    requires k < |wts| && wts[k].branch.Some?
    ensures exists i :: 0 <= i < |Infos(wts, current, agentBranches)|
              && Infos(wts, current, agentBranches)[i].path == wts[k].path
              && Infos(wts, current, agentBranches)[i].branch == wts[k].branch.value
  {
    var r := Infos(wts, current, agentBranches);
    if k == 0 {
      assert r[0].path == wts[0].path;
    } else {
      BranchedWorktreeListed(wts[1..], current, agentBranches, k - 1);
      var rest := Infos(wts[1..], current, agentBranches);
      var i :| 0 <= i < |rest| && rest[i].path == wts[k].path && rest[i].branch == wts[k].branch.value;
      if wts[0].branch.Some? {
        assert r[i + 1] == rest[i];
      } else {
        assert r[i] == rest[i];
      }
    }
  }

  predicate InfoLe(a: WorktreeInfo, b: WorktreeInfo) { LevelLe(a.safetyLevel, b.safetyLevel) }

  lemma InfoLePreorder()
    ensures Total(InfoLe) && Transitive(InfoLe)
  {
  }

  /** `list_worktrees` after the git queries: the rows sorted by safety level,
      safe first. */
  function ListWorktrees(wts: seq<Worktree>, current: Option<string>, agentBranches: set<string>): (r: seq<WorktreeInfo>)
    ensures multiset(r) == multiset(Infos(wts, current, agentBranches))
    ensures forall i, j :: 0 <= i < j < |r| ==> Rank(r[i].safetyLevel) <= Rank(r[j].safetyLevel)
    ensures forall i :: 0 <= i < |r| ==> Consistent(r[i])
  {
    var infos := Infos(wts, current, agentBranches);
    InfoLePreorder();
    var r := SortBy(infos, InfoLe);
    forall i, j | 0 <= i < j < |r|
      ensures Rank(r[i].safetyLevel) <= Rank(r[j].safetyLevel)
    {
      SortedByGlobal(r, InfoLe, i, j);
    }
    forall i | 0 <= i < |r|
      ensures Consistent(r[i])
    {
      assert r[i] in multiset(infos);
    }
    r
  }

  /** A worktree on a protected branch is always listed as Disabled. */
  lemma ProtectedIsDisabled(wts: seq<Worktree>, current: Option<string>, agentBranches: set<string>, i: nat)
    requires i < |ListWorktrees(wts, current, agentBranches)|
    requires WorktreeManager.IsProtected(ListWorktrees(wts, current, agentBranches)[i].branch)
    ensures ListWorktrees(wts, current, agentBranches)[i].safetyLevel == Disabled
  {
  }
}
