/** The git status view of one branch: a single list of rows (the pull
    request link, the visible changed files, a "show more" row, the recent
    commits) with one selected row and a set of expanded rows, and the
    per-branch cache of the data behind it. Diff text, sizes and the git
    commands that produce the data are not modelled. */
module GitView {
  import opened Common

  datatype FileStatus = Staged | Unstaged | Untracked

  datatype FileEntry = FileEntry(path: string, status: FileStatus, isBinary: bool, diffLineCount: nat)

  datatype CommitEntry = CommitEntry(hash: string, subject: string, author: string, changedFiles: seq<string>)

  datatype GitViewData = GitViewData(files: seq<FileEntry>, commits: seq<CommitEntry>)

  /** Files listed before the "show more" row. */
  const MAX_VISIBLE_FILES: nat := 20

  // ---------------------------------------------------------------------
  // The row layout

  /** What a row of the view shows. */
  datatype Item = PrLink | FileItem(k: nat) | ShowMore | CommitItem(k: nat)

  function FileItems(n: nat): (r: seq<Item>)
    ensures |r| == n && forall k :: 0 <= k < n ==> r[k] == FileItem(k)
  {
    if n == 0 then [] else FileItems(n - 1) + [FileItem(n - 1)]
  }

  function CommitItems(n: nat): (r: seq<Item>)
    ensures |r| == n && forall k :: 0 <= k < n ==> r[k] == CommitItem(k)
  {
    if n == 0 then [] else CommitItems(n - 1) + [CommitItem(n - 1)]
  }

  /** The rows in display order: the reference the index arithmetic of the
      view is checked against. */
  function Layout(hasPr: bool, fileCount: nat, visible: nat, commitCount: nat): seq<Item>
  {
    (if hasPr then [PrLink] else [])
      + FileItems(Min(visible, fileCount))
      + (if fileCount > visible then [ShowMore] else [])
      + CommitItems(commitCount)
  }

  /** Adding the pull request link shifts every other row down by one. */
  lemma LayoutWithPr(fileCount: nat, visible: nat, commitCount: nat)
    ensures Layout(true, fileCount, visible, commitCount) == [PrLink] + Layout(false, fileCount, visible, commitCount)
  {
  }

  /** The rows taken by the PR link: one when there is a PR URL. */
  function PrItems(hasPr: bool): nat
  {
    if hasPr then 1 else 0
  }

  /** `total_item_count`: PR row, visible files, "show more", commits. */
  function TotalItems(hasPr: bool, fileCount: nat, visible: nat, commitCount: nat): (r: nat)
    ensures r == |Layout(hasPr, fileCount, visible, commitCount)|
  {
    var prItems := if hasPr then 1 else 0;
    var fileItems := Min(visible, fileCount);
    var showMore := if fileCount > visible then 1 else 0;
    prItems + fileItems + showMore + commitCount
  }

  /** `files_section_end_index`: the first row after the files section. */
  function FilesSectionEnd(hasPr: bool, fileCount: nat, visible: nat): (r: nat)
    ensures r == |Layout(hasPr, fileCount, visible, 0)|
    ensures forall i :: 0 <= i < r ==> !Layout(hasPr, fileCount, visible, 0)[i].CommitItem?
  {
    var prItems := if hasPr then 1 else 0;
    var fileItems := Min(visible, fileCount);
    var showMore := if fileCount > visible then 1 else 0;
    prItems + fileItems + showMore
  }

  /** `is_expandable`. */
  function IsExpandableAt(hasPr: bool, fileCount: nat, visible: nat, commitCount: nat, index: nat): bool
  {
    var prItems := if hasPr then 1 else 0;
    if index < prItems then false
    else
      var fileStart := prItems;
      var fileEnd := fileStart + Min(visible, fileCount);
      if fileStart <= index < fileEnd then true
      else
        var showMore := if fileCount > visible then 1 else 0;
        if showMore > 0 && index == fileEnd then false
        else
          var commitStart := fileEnd + showMore;
          commitStart <= index < commitStart + commitCount
  }

  /** Exactly the file and commit rows are expandable; the PR link and
      "show more" never are. */
  lemma ExpandableIffFileOrCommit(hasPr: bool, fileCount: nat, visible: nat, commitCount: nat, index: nat)
    ensures var l := Layout(hasPr, fileCount, visible, commitCount);
      IsExpandableAt(hasPr, fileCount, visible, commitCount, index) <==>
        index < |l| && (l[index].FileItem? || l[index].CommitItem?)
  {
  }

  /** `selected_file_index`. */
  function FileIndexAt(hasPr: bool, fileCount: nat, visible: nat, index: nat): (r: Option<nat>)
  {
    var fileStart := if hasPr then 1 else 0;
    var fileEnd := fileStart + Min(visible, fileCount);
    if fileStart <= index < fileEnd then Some(index - fileStart) else None
  }

  /** `selected_commit_index`. */
  function CommitIndexAt(hasPr: bool, fileCount: nat, visible: nat, commitCount: nat, index: nat): (r: Option<nat>)
  {
    var prItems := if hasPr then 1 else 0;
    var showMore := if fileCount > visible then 1 else 0;
    var commitStart := prItems + Min(visible, fileCount) + showMore;
    if commitStart <= index < commitStart + commitCount then Some(index - commitStart) else None
  }

  /** The file index of a row is the file that row shows. */
  lemma FileIndexIsRow(hasPr: bool, fileCount: nat, visible: nat, commitCount: nat, index: nat, k: nat)
    ensures var l := Layout(hasPr, fileCount, visible, commitCount);
      FileIndexAt(hasPr, fileCount, visible, index) == Some(k) <==> index < |l| && l[index] == FileItem(k)
  {
  }

  /** The commit index of a row is the commit that row shows. */
  lemma CommitIndexIsRow(hasPr: bool, fileCount: nat, visible: nat, commitCount: nat, index: nat, k: nat)
    ensures var l := Layout(hasPr, fileCount, visible, commitCount);
      CommitIndexAt(hasPr, fileCount, visible, commitCount, index) == Some(k) <==> index < |l| && l[index] == CommitItem(k)
  {
  }

  /** No row is both a file and a commit. */
  lemma FileAndCommitExclusive(hasPr: bool, fileCount: nat, visible: nat, commitCount: nat, index: nat)
    ensures FileIndexAt(hasPr, fileCount, visible, index).None?
         || CommitIndexAt(hasPr, fileCount, visible, commitCount, index).None?
  {
    var l := Layout(hasPr, fileCount, visible, commitCount);
    var f := FileIndexAt(hasPr, fileCount, visible, index);
    if f.Some? {
      FileIndexIsRow(hasPr, fileCount, visible, commitCount, index, f.value);
      var c := CommitIndexAt(hasPr, fileCount, visible, commitCount, index);
      if c.Some? {
        CommitIndexIsRow(hasPr, fileCount, visible, commitCount, index, c.value);
        assert false;
      }
    }
  }

  /** `is_show_more_selected`. */
  function IsShowMoreAt(hasPr: bool, fileCount: nat, visible: nat, index: nat): bool
  {
    if fileCount <= visible then false
    else
      var prItems := if hasPr then 1 else 0;
      index == prItems + Min(visible, fileCount)
  }

  lemma ShowMoreIsRow(hasPr: bool, fileCount: nat, visible: nat, commitCount: nat, index: nat)
    ensures var l := Layout(hasPr, fileCount, visible, commitCount);
      IsShowMoreAt(hasPr, fileCount, visible, index) <==> index < |l| && l[index] == ShowMore
  {
  }

  // ---------------------------------------------------------------------
  // Expansion

  /** The expanded set after toggling `index`, when that row is expandable. */
  function Toggled(expanded: set<nat>, index: nat, expandable: bool): (r: set<nat>)
    ensures !expandable ==> r == expanded
    ensures expandable ==> (index in r <==> index !in expanded)
    ensures forall i :: i != index ==> (i in r <==> i in expanded)
  {
    if !expandable then expanded
    else if index in expanded then expanded - {index}
    else expanded + {index}
  }

  /** Toggling twice restores the expanded set. */
  lemma ToggleInvolution(expanded: set<nat>, index: nat, expandable: bool)
    ensures Toggled(Toggled(expanded, index, expandable), index, expandable) == expanded
  {
    var once := Toggled(expanded, index, expandable);
    var twice := Toggled(once, index, expandable);
    assert forall i :: i in twice <==> i in expanded;
  }

  /** The rows an expanded set denotes in a layout. */
  function ExpandedItems(l: seq<Item>, expanded: set<nat>): set<Item>
  {
    set i | i in expanded && i < |l| :: l[i]
  }

  /** The expanded set with every index moved one row down. */
  function ShiftDown(expanded: set<nat>): (r: set<nat>)
    ensures forall i :: i in expanded <==> i + 1 in r
    ensures 0 !in r
  {
    set i | i in expanded :: i + 1
  }

  /** The expanded set with every index moved one row up, row 0 dropped. */
  function ShiftUp(expanded: set<nat>): set<nat>
  {
    set j | j in expanded && j > 0 :: j - 1
  }

  lemma ShiftUpMembers(expanded: set<nat>)
    ensures forall i: nat :: i in ShiftUp(expanded) <==> i + 1 in expanded
  {
    forall i: nat ensures i in ShiftUp(expanded) <==> i + 1 in expanded {
      if i + 1 in expanded {
        assert (i + 1) - 1 == i;
      }
      if i in ShiftUp(expanded) {
        var j :| j in expanded && j > 0 && j - 1 == i;
      }
    }
  }

  /** Shifting the expanded set with the rows keeps the same rows expanded
      when the PR link appears. */
  lemma ShiftDownKeepsItems(fileCount: nat, visible: nat, commitCount: nat, expanded: set<nat>)
    ensures ExpandedItems(Layout(true, fileCount, visible, commitCount), ShiftDown(expanded))
         == ExpandedItems(Layout(false, fileCount, visible, commitCount), expanded)
  {
    LayoutWithPr(fileCount, visible, commitCount);
    ShiftDownItems(Layout(false, fileCount, visible, commitCount), expanded);
  }

  /** Shifting the expanded set with the rows keeps the same rows expanded
      when the PR link goes away (the link itself is never expanded). */
  lemma ShiftUpKeepsItems(fileCount: nat, visible: nat, commitCount: nat, expanded: set<nat>)
    requires 0 !in expanded
    ensures ExpandedItems(Layout(false, fileCount, visible, commitCount), ShiftUp(expanded))
         == ExpandedItems(Layout(true, fileCount, visible, commitCount), expanded)
  {
    LayoutWithPr(fileCount, visible, commitCount);
    ShiftUpItems(Layout(false, fileCount, visible, commitCount), expanded);
  }

  /** A row put in front: the shifted indices name the same rows. */
  lemma ShiftDownItems(without: seq<Item>, expanded: set<nat>)
    ensures ExpandedItems([PrLink] + without, ShiftDown(expanded)) == ExpandedItems(without, expanded)
  {
    var with := [PrLink] + without;
    var a := ExpandedItems(with, ShiftDown(expanded));
    var b := ExpandedItems(without, expanded);
    forall x | x in a ensures x in b {
      var i :| i in ShiftDown(expanded) && i < |with| && with[i] == x;
      assert i - 1 in expanded && with[i] == without[i - 1];
    }
    forall x | x in b ensures x in a {
      var i :| i in expanded && i < |without| && without[i] == x;
      assert with[i + 1] == x;
    }
  }

  /** The front row taken away: the indices shifted back name the same rows. */
  lemma ShiftUpItems(without: seq<Item>, expanded: set<nat>)
    requires 0 !in expanded
    ensures ExpandedItems(without, ShiftUp(expanded)) == ExpandedItems([PrLink] + without, expanded)
  {
    var with := [PrLink] + without;
    ShiftUpMembers(expanded);
    var a := ExpandedItems(without, ShiftUp(expanded));
    var b := ExpandedItems(with, expanded);
    forall x | x in a ensures x in b {
      var i :| i in ShiftUp(expanded) && i < |without| && without[i] == x;
      assert with[i + 1] == x;
    }
    forall x | x in b ensures x in a {
      var i :| i in expanded && i < |with| && with[i] == x;
      assert i - 1 in ShiftUp(expanded) && without[i - 1] == x;
    }
  }

  /** As written, the expanded set keeps its indices when the PR link
      appears: an expanded first file then names the PR link instead. */
  lemma ExpansionGoesStale()
    ensures ExpandedItems(Layout(false, 1, MAX_VISIBLE_FILES, 0), {0}) == {FileItem(0)}
    ensures ExpandedItems(Layout(true, 1, MAX_VISIBLE_FILES, 0), {0}) == {PrLink}
  {
    var without := Layout(false, 1, MAX_VISIBLE_FILES, 0);
    var with := Layout(true, 1, MAX_VISIBLE_FILES, 0);
    assert without == [FileItem(0)];
    assert with == [PrLink, FileItem(0)];
    assert without[0] in ExpandedItems(without, {0});
    assert with[0] in ExpandedItems(with, {0});
  }

  /** Where `update_pr_info` moves the selection: one row down when the PR
      link appears, one row up (saturating) when it goes, provided the view
      had rows. */
  function ShiftedSelection(hadPr: bool, hasPr: bool, hadItems: nat, selected: nat): nat
  {
    if hadPr == hasPr || hadItems == 0 then selected
    else if hasPr then selected + 1
    else SatSub(selected, 1)
  }

  /** The shifted selection stays on the row it was on (unless that row was
      the PR link that went away). */
  lemma SelectionFollowsRow(hadPr: bool, hasPr: bool, fileCount: nat, visible: nat, commitCount: nat, selected: nat)
    requires selected < |Layout(hadPr, fileCount, visible, commitCount)|
    requires Layout(hadPr, fileCount, visible, commitCount)[selected] != PrLink
    ensures var s := ShiftedSelection(hadPr, hasPr, TotalItems(hadPr, fileCount, visible, commitCount), selected);
      s < |Layout(hasPr, fileCount, visible, commitCount)|
      && Layout(hasPr, fileCount, visible, commitCount)[s] == Layout(hadPr, fileCount, visible, commitCount)[selected]
  {
    LayoutWithPr(fileCount, visible, commitCount);
    SelectionFollows(hadPr, hasPr, Layout(false, fileCount, visible, commitCount), selected);
  }

  /** The same, for any rows behind the optional PR link. */
  lemma SelectionFollows(hadPr: bool, hasPr: bool, without: seq<Item>, selected: nat)
    requires var before := if hadPr then [PrLink] + without else without;
      selected < |before| && before[selected] != PrLink
    ensures var before := if hadPr then [PrLink] + without else without;
      var after := if hasPr then [PrLink] + without else without;
      var s := ShiftedSelection(hadPr, hasPr, |before|, selected);
      s < |after| && after[s] == before[selected]
  {
  }

  // ---------------------------------------------------------------------
  // The view state

  class GitViewState {
    var branchName: string
    var hasWorktree: bool
    var prUrl: Option<string>
    var prTitle: Option<string>
    var prNumber: Option<nat>
    var files: seq<FileEntry>
    var visibleFileCount: nat
    var commits: seq<CommitEntry>
    var selectedIndex: nat
    var expanded: set<nat>
    var isLoading: bool

    /** The selection is on a row, or at 0 when there are no rows. */
    predicate Valid()
      reads this
    {
      selectedIndex == 0 || selectedIndex < TotalItemCount()
    }

    function Rows(): seq<Item>
      reads this
    {
      Layout(prUrl.Some?, |files|, visibleFileCount, |commits|)
    }

    function TotalItemCount(): (r: nat)
      reads this
      ensures r == |Rows()|
    {
      TotalItems(prUrl.Some?, |files|, visibleFileCount, |commits|)
    }

    function IsExpandable(index: nat): (r: bool)
      reads this
      ensures r <==> index < |Rows()| && (Rows()[index].FileItem? || Rows()[index].CommitItem?)
    {
      ExpandableIffFileOrCommit(prUrl.Some?, |files|, visibleFileCount, |commits|, index);
      IsExpandableAt(prUrl.Some?, |files|, visibleFileCount, |commits|, index)
    }

    /** `GitViewState::default`. */
    constructor Default()
      ensures branchName == [] && !hasWorktree && prUrl.None? && prTitle.None? && prNumber.None?
      ensures files == [] && commits == [] && visibleFileCount == MAX_VISIBLE_FILES
      ensures selectedIndex == 0 && expanded == {} && !isLoading
      ensures Valid()
    {
      branchName, hasWorktree := [], false;
      prUrl, prTitle, prNumber := None, None, None;
      files, commits, visibleFileCount := [], [], MAX_VISIBLE_FILES;
      selectedIndex, expanded, isLoading := 0, {}, false;
    }

    /** `GitViewState::new`: loading, nothing listed, the first row selected. */
    constructor (branch: string, worktreePath: Option<string>, number: Option<nat>,
                 url: Option<string>, title: Option<string>)
      ensures branchName == branch && hasWorktree == worktreePath.Some?
      ensures prUrl == url && prTitle == title && prNumber == number
      ensures files == [] && commits == [] && visibleFileCount == MAX_VISIBLE_FILES
      ensures selectedIndex == 0 && expanded == {} && isLoading
      ensures Valid()
      ensures IsPrLinkSelected() <==> url.Some?
    {
      branchName, hasWorktree := branch, worktreePath.Some?;
      prUrl, prTitle, prNumber := url, title, number;
      files, commits, visibleFileCount := [], [], MAX_VISIBLE_FILES;
      selectedIndex, expanded, isLoading := 0, {}, true;
    }

    /** `load_from_cache`: every branch of its selection rule lands on row 0,
        the first row whichever section it belongs to. */
    method LoadFromCache(data: GitViewData)
      modifies this
      ensures files == data.files && commits == data.commits && !isLoading
      ensures selectedIndex == 0 && Valid()
      ensures branchName == old(branchName) && hasWorktree == old(hasWorktree)
      ensures prUrl == old(prUrl) && prTitle == old(prTitle) && prNumber == old(prNumber)
      ensures visibleFileCount == old(visibleFileCount) && expanded == old(expanded)
    {
      files := data.files;
      commits := data.commits;
      isLoading := false;
      if prUrl.Some? {
        selectedIndex := 0;
      } else if files != [] {
        selectedIndex := PrItems(prUrl.Some?);
      } else if commits != [] {
        selectedIndex := FilesSectionEnd(prUrl.Some?, |files|, visibleFileCount);
      } else {
        selectedIndex := 0;
      }
    }

    /** `select_next`: one row down, never past the last row. */
    method SelectNext()
      modifies this`selectedIndex
      ensures selectedIndex == if old(selectedIndex) + 1 < TotalItemCount() then old(selectedIndex) + 1 else old(selectedIndex)
      ensures old(Valid()) ==> Valid()
    {
      var maxIndex := TotalItemCount();
      if maxIndex > 0 && selectedIndex < maxIndex - 1 {
        selectedIndex := selectedIndex + 1;
      }
    }

    /** `select_prev`: one row up, never below 0. */
    method SelectPrev()
      modifies this`selectedIndex
      ensures selectedIndex == if old(selectedIndex) > 0 then old(selectedIndex) - 1 else 0
      ensures old(Valid()) ==> Valid()
    {
      if selectedIndex > 0 {
        selectedIndex := selectedIndex - 1;
      }
    }

    /** `toggle_expand`: flips the selected row when it is a file or a commit. */
    method ToggleExpand()
      modifies this`expanded
      ensures expanded == Toggled(old(expanded), selectedIndex, IsExpandable(selectedIndex))
    {
      if IsExpandable(selectedIndex) {
        if selectedIndex in expanded {
          expanded := expanded - {selectedIndex};
        } else {
          expanded := expanded + {selectedIndex};
        }
      }
    }

    /** `show_more_files`: every file becomes visible and "show more" goes. */
    method ShowMoreFiles()
      modifies this`visibleFileCount
      ensures visibleFileCount == |files|
      ensures ShowMore !in Rows()
      ensures old(Valid()) ==> Valid()
    {
      visibleFileCount := |files|;
    }

    /** `update_pr_info` as written: the selection moves with the rows when
        the PR link appears or disappears, so it stays on the same row; the
        expanded set keeps its indices. */
    method UpdatePrInfo(number: Option<nat>, title: Option<string>, url: Option<string>)
      modifies this`prNumber, this`prTitle, this`prUrl, this`selectedIndex
      ensures prNumber == number && prTitle == title && prUrl == url
      ensures selectedIndex == ShiftedSelection(old(prUrl).Some?, url.Some?, old(TotalItemCount()), old(selectedIndex))
      ensures old(Valid()) ==> Valid()
    {
      var hadPr := prUrl.Some?;
      var hadItems := TotalItemCount();
      var hasPr := url.Some?;
      prNumber, prTitle, prUrl := number, title, url;
      if hadPr != hasPr && hadItems > 0 {
        if hasPr {
          selectedIndex := selectedIndex + 1;
        } else {
          selectedIndex := SatSub(selectedIndex, 1);
        }
      }
    }

    /** `update_pr_info` with the expanded set moved along with the rows, so
        that the same files and commits stay expanded. */
    method UpdatePrInfoKeepingExpansion(number: Option<nat>, title: Option<string>, url: Option<string>)
      modifies this`prNumber, this`prTitle, this`prUrl, this`selectedIndex, this`expanded
      ensures prNumber == number && prTitle == title && prUrl == url
      ensures selectedIndex == ShiftedSelection(old(prUrl).Some?, url.Some?, old(TotalItemCount()), old(selectedIndex))
      ensures (old(prUrl).Some? ==> 0 !in old(expanded)) ==>
        ExpandedItems(Rows(), expanded) == ExpandedItems(old(Rows()), old(expanded)) && (prUrl.Some? ==> 0 !in expanded)
      ensures old(Valid()) ==> Valid()
    {
      var hadPr := prUrl.Some?;
      var hasPr := url.Some?;
      UpdatePrInfo(number, title, url);
      if hadPr && !hasPr {
        if 0 !in expanded {
          ShiftUpKeepsItems(|files|, visibleFileCount, |commits|, expanded);
        }
        expanded := ShiftUp(expanded);
      } else if !hadPr && hasPr {
        ShiftDownKeepsItems(|files|, visibleFileCount, |commits|, expanded);
        expanded := ShiftDown(expanded);
      }
    }

    /** `is_pr_link_selected`. */
    function IsPrLinkSelected(): (r: bool)
      reads this
      ensures r <==> selectedIndex < |Rows()| && Rows()[selectedIndex] == PrLink
    {
      prUrl.Some? && selectedIndex == 0
    }

    function SelectedFileIndex(): (r: Option<nat>)
      reads this
      ensures r.Some? ==> selectedIndex < |Rows()| && Rows()[selectedIndex] == FileItem(r.value)
      ensures r.None? ==> !(selectedIndex < |Rows()| && Rows()[selectedIndex].FileItem?)
      ensures r.Some? ==> r.value < |files|
    {
      var r := FileIndexAt(prUrl.Some?, |files|, visibleFileCount, selectedIndex);
      if r.Some? then
        FileIndexIsRow(prUrl.Some?, |files|, visibleFileCount, |commits|, selectedIndex, r.value); r
      else r
    }

    function SelectedCommitIndex(): (r: Option<nat>)
      reads this
      ensures r.Some? ==> selectedIndex < |Rows()| && Rows()[selectedIndex] == CommitItem(r.value)
      ensures r.Some? ==> r.value < |commits|
    {
      var r := CommitIndexAt(prUrl.Some?, |files|, visibleFileCount, |commits|, selectedIndex);
      if r.Some? then
        CommitIndexIsRow(prUrl.Some?, |files|, visibleFileCount, |commits|, selectedIndex, r.value); r
      else r
    }
  }

  // ---------------------------------------------------------------------
  // The per-branch cache

  class GitViewCache {
    var data: map<string, GitViewData>

    constructor ()
      ensures data == map[]
    {
      data := map[];
    }

    function Get(branch: string): (r: Option<GitViewData>)
      reads this
      ensures r.Some? <==> branch in data
      ensures r.Some? ==> r.value == data[branch]
    {
      if branch in data then Some(data[branch]) else None
    }

    method Insert(branch: string, d: GitViewData)
      modifies this
      ensures data == old(data)[branch := d]
      ensures Get(branch) == Some(d)
    {
      data := data[branch := d];
    }

    method Clear()
      modifies this
      ensures data == map[]
      ensures forall b :: !Contains(b)
    {
      data := map[];
    }

    predicate Contains(branch: string)
      reads this
    {
      branch in data
    }
  }
}
