/** The branch list screen: which branches the current view mode and text
    filter show, the seven-level order they are listed in, and the list's
    selection, scrolling window and multi-selection. Worktree lookup, icons,
    colours, clocks and rendering are not modelled. */
module BranchList {
  import opened Common

  // ---------------------------------------------------------------------
  // View mode

  datatype ViewMode = All | Local | Remote
  {
    /** `ViewMode::cycle`: All, Local, Remote, back to All. */
    function Cycle(): (r: ViewMode)
      ensures r != this
    {
      match this
      case All => Local
      case Local => Remote
      case Remote => All
    }

    function Label(): string
    {
      match this
      case All => "All"
      case Local => "Local"
      case Remote => "Remote"
    }
  }

  /** Cycling three times returns to the starting mode. */
  lemma CyclePeriodThree(m: ViewMode)
    ensures m.Cycle().Cycle().Cycle() == m
    ensures m.Cycle().Cycle() != m
  {
  }

  datatype BranchType = LocalBranch | RemoteBranch

  /** The parts of a branch entry the list's filter and order look at. */
  datatype BranchItem = BranchItem(
    name: string,
    branchType: BranchType,
    isCurrent: bool,
    hasWorktree: bool,
    hasChanges: bool,
    hasRemoteCounterpart: bool,
    lastCommitTimestamp: Option<int>)

  // ---------------------------------------------------------------------
  // Filtering

  /** Whether the view mode shows a branch: Local shows local branches,
      Remote shows remote branches and local ones with a remote counterpart. */
  predicate InView(mode: ViewMode, b: BranchItem)
  {
    match mode
    case All => true
    case Local => b.branchType == LocalBranch
    case Remote => b.branchType == RemoteBranch || b.hasRemoteCounterpart
  }

  function ViewFilter(bs: seq<BranchItem>, mode: ViewMode): (r: seq<BranchItem>)
    ensures |r| <= |bs|
    ensures forall b :: b in r <==> b in bs && InView(mode, b)
  {
    if bs == [] then []
    else
      var rest := ViewFilter(bs[1..], mode);
      assert bs == [bs[0]] + bs[1..];
      if InView(mode, bs[0]) then [bs[0]] + rest else rest
  }

  /** The text filter: a case-insensitive substring of the name. */
  predicate MatchesText(filter: string, b: BranchItem)
  {
    Contains(ToLower(b.name), ToLower(filter))
  }

  function TextFilter(bs: seq<BranchItem>, filter: string): (r: seq<BranchItem>)
    ensures |r| <= |bs|
    ensures forall b :: b in r <==> b in bs && MatchesText(filter, b)
  {
    if bs == [] then []
    else
      var rest := TextFilter(bs[1..], filter);
      assert bs == [bs[0]] + bs[1..];
      if MatchesText(filter, bs[0]) then [bs[0]] + rest else rest
  }

  /** The text filter applies only when it is non-empty. */
  function ApplyTextFilter(bs: seq<BranchItem>, filter: string): (r: seq<BranchItem>)
    ensures forall b :: b in r <==> b in bs && (filter == [] || MatchesText(filter, b))
  {
    if filter == [] then bs else TextFilter(bs, filter)
  }

  /** An empty text filter would match every branch anyway. */
  lemma EmptyFilterMatchesAll(b: BranchItem)
    ensures MatchesText([], b)
  {
    assert OccursAt(ToLower(b.name), ToLower([]), 0);
  }

  // ---------------------------------------------------------------------
  // Order

  datatype NameType = Main | Develop | Feature | Bugfix | Hotfix | Release | Other

  /** `get_branch_name_type`: main/master and develop/dev are judged on the
      last '/' segment of the lower-cased name, the prefixes anywhere in it. */
  function GetBranchNameType(name: string): (r: NameType)
    ensures r == Feature ==> Contains(ToLower(name), "feature/")
    ensures r == Bugfix ==> Contains(ToLower(name), "bugfix/") || Contains(ToLower(name), "bug/")
    ensures r == Hotfix ==> Contains(ToLower(name), "hotfix/")
    ensures r == Release ==> Contains(ToLower(name), "release/")
  {
    var lower := ToLower(name);
    var pieces := Split(lower, '/');
    var namePart := pieces[|pieces| - 1];
    if namePart == "main" || namePart == "master" then Main
    else if namePart == "develop" || namePart == "dev" then Develop
    else if Contains(lower, "feature/") then Feature
    else if Contains(lower, "bugfix/") || Contains(lower, "bug/") then Bugfix
    else if Contains(lower, "hotfix/") then Hotfix
    else if Contains(lower, "release/") then Release
    else Other
  }

  /** The comparator of `filtered_branches`, level by level. */
  function BranchCmp(hasMain: bool, a: BranchItem, b: BranchItem): (r: Ordering)
    ensures a.isCurrent && !b.isCurrent ==> r == Less
    ensures !a.isCurrent && b.isCurrent ==> r == Greater
  {
    TypedCmp(hasMain, a, b, GetBranchNameType(a.name), GetBranchNameType(b.name))
  }

  /** The comparator once both branches' name types are known. */
  function TypedCmp(hasMain: bool, a: BranchItem, b: BranchItem, aType: NameType, bType: NameType): Ordering
  {
    if a.isCurrent && !b.isCurrent then Less
    else if !a.isCurrent && b.isCurrent then Greater
    else if aType == Main && bType != Main then Less
    else if aType != Main && bType == Main then Greater
    else if hasMain && aType == Develop && bType != Develop then Less
    else if hasMain && aType != Develop && bType == Develop then Greater
    else if a.hasWorktree && !b.hasWorktree then Less
    else if !a.hasWorktree && b.hasWorktree then Greater
    else if a.lastCommitTimestamp.Some? && b.lastCommitTimestamp.Some?
         && a.lastCommitTimestamp.value != b.lastCommitTimestamp.value
    then CompareInt(b.lastCommitTimestamp.value, a.lastCommitTimestamp.value)
    else if a.lastCommitTimestamp.Some? && b.lastCommitTimestamp.None? then Less
    else if a.lastCommitTimestamp.None? && b.lastCommitTimestamp.Some? then Greater
    else if a.branchType == LocalBranch && b.branchType == RemoteBranch then Less
    else if a.branchType == RemoteBranch && b.branchType == LocalBranch then Greater
    else CompareStr(ToLower(a.name), ToLower(b.name))
  }

  function Flag(b: bool): int { if b then 0 else 1 }

  /** The priority levels as numbers, smaller first: current, main, develop
      (only when a main branch is listed), worktree, having a timestamp, the
      timestamp newest first, local. */
  function SortKey(hasMain: bool, b: BranchItem): (r: seq<int>)
    ensures |r| == 7
  {
    TypedKey(hasMain, b, GetBranchNameType(b.name))
  }

  function TypedKey(hasMain: bool, b: BranchItem, t: NameType): (r: seq<int>)
    ensures |r| == 7
  {
    var ts := b.lastCommitTimestamp;
    [Flag(b.isCurrent), Flag(t == Main), Flag(hasMain && t == Develop), Flag(b.hasWorktree),
     Flag(ts.Some?), if ts.Some? then -ts.value else 0, Flag(b.branchType == LocalBranch)]
  }

  function LexCompare(x: seq<int>, y: seq<int>): Ordering
    requires |x| == |y|
  {
    if x == [] then Equal
    else if x[0] < y[0] then Less
    else if x[0] > y[0] then Greater
    else LexCompare(x[1..], y[1..])
  }

  /** The reference order: the keys lexicographically, then the lower-cased name. */
  function KeyedCmp(hasMain: bool, a: BranchItem, b: BranchItem): Ordering
  {
    var o := LexCompare(SortKey(hasMain, a), SortKey(hasMain, b));
    if o == Equal then CompareStr(ToLower(a.name), ToLower(b.name)) else o
  }

  /** The level-by-level comparator is the keyed lexicographic order. */
  lemma BranchCmpIsKeyed(hasMain: bool, a: BranchItem, b: BranchItem)
    ensures BranchCmp(hasMain, a, b) == KeyedCmp(hasMain, a, b)
  {
    var ka, kb := SortKey(hasMain, a), SortKey(hasMain, b);
    LexSeven(ka, kb);
    TypedCmpIsKeyed(hasMain, a, b, GetBranchNameType(a.name), GetBranchNameType(b.name));
  }

  lemma TypedCmpIsKeyed(hasMain: bool, a: BranchItem, b: BranchItem, aType: NameType, bType: NameType)
    ensures var o := LexSevenCmp(TypedKey(hasMain, a, aType), TypedKey(hasMain, b, bType));
      TypedCmp(hasMain, a, b, aType, bType) ==
        if o == Equal then CompareStr(ToLower(a.name), ToLower(b.name)) else o
  {
  }

  /** The lexicographic comparison of two seven-entry keys, written out. */
  function LexSevenCmp(x: seq<int>, y: seq<int>): Ordering
    requires |x| == |y| == 7
  {
    if x[0] != y[0] then CompareInt(x[0], y[0])
    else if x[1] != y[1] then CompareInt(x[1], y[1])
    else if x[2] != y[2] then CompareInt(x[2], y[2])
    else if x[3] != y[3] then CompareInt(x[3], y[3])
    else if x[4] != y[4] then CompareInt(x[4], y[4])
    else if x[5] != y[5] then CompareInt(x[5], y[5])
    else if x[6] != y[6] then CompareInt(x[6], y[6])
    else Equal
  }

  lemma LexSeven(x: seq<int>, y: seq<int>)
    requires |x| == |y| == 7
    ensures LexCompare(x, y) == LexSevenCmp(x, y)
  {
    LexStep(x, y);
    LexStep(x[1..], y[1..]);
    assert x[1..][1..] == x[2..] && y[1..][1..] == y[2..];
    LexStep(x[2..], y[2..]);
    assert x[2..][1..] == x[3..] && y[2..][1..] == y[3..];
    LexStep(x[3..], y[3..]);
    assert x[3..][1..] == x[4..] && y[3..][1..] == y[4..];
    LexStep(x[4..], y[4..]);
    assert x[4..][1..] == x[5..] && y[4..][1..] == y[5..];
    LexStep(x[5..], y[5..]);
    assert x[5..][1..] == x[6..] && y[5..][1..] == y[6..];
    LexStep(x[6..], y[6..]);
    assert x[6..][1..] == [] && y[6..][1..] == [];
  }

  /** One step of the lexicographic comparison. */
  lemma LexStep(x: seq<int>, y: seq<int>)
    requires |x| == |y| > 0
    ensures LexCompare(x, y) ==
      if x[0] < y[0] then Less else if x[0] > y[0] then Greater else LexCompare(x[1..], y[1..])
  {
  }

  lemma {:induction false} LexReverse(x: seq<int>, y: seq<int>)
    requires |x| == |y|
    ensures LexCompare(y, x) == LexCompare(x, y).Reverse()
    ensures LexCompare(x, y) == Equal <==> x == y
  {
    if x != [] {
      LexReverse(x[1..], y[1..]);
      assert x == [x[0]] + x[1..] && y == [y[0]] + y[1..];
    }
  }

  lemma {:induction false} LexTransitive(x: seq<int>, y: seq<int>, z: seq<int>)
    requires |x| == |y| == |z|
    requires LexCompare(x, y) == Less && LexCompare(y, z) == Less
    ensures LexCompare(x, z) == Less
  {
    if x[0] == y[0] && y[0] == z[0] {
      LexTransitive(x[1..], y[1..], z[1..]);
    }
  }

  lemma KeyedReverse(hasMain: bool, a: BranchItem, b: BranchItem)
    ensures KeyedCmp(hasMain, b, a) == KeyedCmp(hasMain, a, b).Reverse()
    ensures KeyedCmp(hasMain, a, b) == Equal <==>
      SortKey(hasMain, a) == SortKey(hasMain, b) && ToLower(a.name) == ToLower(b.name)
  {
    LexReverse(SortKey(hasMain, a), SortKey(hasMain, b));
    CompareStrReverse(ToLower(a.name), ToLower(b.name));
  }

  lemma KeyedTransitive(hasMain: bool, a: BranchItem, b: BranchItem, c: BranchItem)
    requires KeyedCmp(hasMain, a, b) == Less && KeyedCmp(hasMain, b, c) == Less
    ensures KeyedCmp(hasMain, a, c) == Less
  {
    var ka, kb, kc := SortKey(hasMain, a), SortKey(hasMain, b), SortKey(hasMain, c);
    LexReverse(ka, kb);
    LexReverse(kb, kc);
    LexReverse(ka, kc);
    var la, lb, lc := ToLower(a.name), ToLower(b.name), ToLower(c.name);
    if LexCompare(ka, kb) == Less && LexCompare(kb, kc) == Less {
      LexTransitive(ka, kb, kc);
    } else if LexCompare(ka, kb) == Equal && LexCompare(kb, kc) == Equal {
      CompareStrTransitive(la, lb, lc);
    }
  }

  /** "Sorts no later than" under the list's order. */
  predicate BranchLe(hasMain: bool, a: BranchItem, b: BranchItem)
  {
    BranchCmp(hasMain, a, b) != Greater
  }

  predicate LeWithMain(a: BranchItem, b: BranchItem) { BranchLe(true, a, b) }
  predicate LeWithoutMain(a: BranchItem, b: BranchItem) { BranchLe(false, a, b) }

  function LeFor(hasMain: bool): (BranchItem, BranchItem) -> bool
  {
    if hasMain then LeWithMain else LeWithoutMain
  }

  lemma BranchLeTransitive(hasMain: bool, a: BranchItem, b: BranchItem, c: BranchItem)
    requires BranchLe(hasMain, a, b) && BranchLe(hasMain, b, c)
    ensures BranchLe(hasMain, a, c)
  {
    BranchCmpIsKeyed(hasMain, a, b);
    BranchCmpIsKeyed(hasMain, b, c);
    BranchCmpIsKeyed(hasMain, a, c);
    KeyedReverse(hasMain, a, b);
    KeyedReverse(hasMain, b, c);
    KeyedReverse(hasMain, a, c);
    if KeyedCmp(hasMain, a, b) == Less && KeyedCmp(hasMain, b, c) == Less {
      KeyedTransitive(hasMain, a, b, c);
    }
  }

  /** The list's order is a total preorder, so sorting by it is well defined. */
  lemma BranchLePreorder(hasMain: bool)
    ensures Total(LeFor(hasMain)) && Transitive(LeFor(hasMain))
  {
    var le := LeFor(hasMain);
    forall a: BranchItem, b: BranchItem
      ensures le(a, b) || le(b, a)
    {
      BranchCmpIsKeyed(hasMain, a, b);
      BranchCmpIsKeyed(hasMain, b, a);
      KeyedReverse(hasMain, a, b);
    }
    forall a: BranchItem, b: BranchItem, c: BranchItem | le(a, b) && le(b, c)
      ensures le(a, c)
    {
      BranchLeTransitive(hasMain, a, b, c);
    }
  }

  /** Whether any listed branch is a main branch. */
  predicate HasMain(bs: seq<BranchItem>)
  {
    exists k :: 0 <= k < |bs| && GetBranchNameType(bs[k].name) == Main
  }

  /** `filtered_branches`: the view mode, then the text filter, then the
      seven-level order (a stable sort). */
  function FilteredBranches(bs: seq<BranchItem>, mode: ViewMode, filter: string): (r: seq<BranchItem>)
    ensures forall b :: b in r <==> b in bs && InView(mode, b) && (filter == [] || MatchesText(filter, b))
    ensures |r| == |ApplyTextFilter(ViewFilter(bs, mode), filter)|
  {
    var shown := ApplyTextFilter(ViewFilter(bs, mode), filter);
    BranchLePreorder(HasMain(shown));
    var r := SortBy(shown, LeFor(HasMain(shown)));
    assert forall b :: b in r <==> b in shown by {
      forall b ensures b in r <==> b in shown {
        assert b in r <==> b in multiset(r);
        assert b in shown <==> b in multiset(shown);
      }
    }
    r
  }

  /** The listed branches are the shown ones, each as often, in the list's order. */
  lemma FilteredIsSortedPermutation(bs: seq<BranchItem>, mode: ViewMode, filter: string)
    ensures var shown := ApplyTextFilter(ViewFilter(bs, mode), filter);
      var r := FilteredBranches(bs, mode, filter);
      multiset(r) == multiset(shown) && SortedBy(r, LeFor(HasMain(shown)))
  {
    var shown := ApplyTextFilter(ViewFilter(bs, mode), filter);
    BranchLePreorder(HasMain(shown));
  }

  /** In a sorted list every branch sorts no later than every later one. */
  lemma SortedPairs(s: seq<BranchItem>, hasMain: bool, i: nat, j: nat)
    requires SortedBy(s, LeFor(hasMain)) && i < j < |s|
    ensures BranchLe(hasMain, s[i], s[j])
  {
    BranchLePreorder(hasMain);
    SortedByGlobal(s, LeFor(hasMain), i, j);
  }

  /** The current branch is listed before every other branch. */
  lemma CurrentFirst(bs: seq<BranchItem>, mode: ViewMode, filter: string, i: nat, j: nat)
    requires var r := FilteredBranches(bs, mode, filter); i < j < |r| && r[j].isCurrent
    ensures FilteredBranches(bs, mode, filter)[i].isCurrent
  {
    var shown := ApplyTextFilter(ViewFilter(bs, mode), filter);
    FilteredIsSortedPermutation(bs, mode, filter);
    SortedPairs(FilteredBranches(bs, mode, filter), HasMain(shown), i, j);
  }

  /** Among branches equally current, main branches come first. */
  lemma MainBeforeOthers(bs: seq<BranchItem>, mode: ViewMode, filter: string, i: nat, j: nat)
    requires var r := FilteredBranches(bs, mode, filter);
      i < j < |r| && r[i].isCurrent == r[j].isCurrent && GetBranchNameType(r[j].name) == Main
    ensures GetBranchNameType(FilteredBranches(bs, mode, filter)[i].name) == Main
  {
    var shown := ApplyTextFilter(ViewFilter(bs, mode), filter);
    FilteredIsSortedPermutation(bs, mode, filter);
    SortedPairs(FilteredBranches(bs, mode, filter), HasMain(shown), i, j);
  }

  /** Without a main branch in the list, develop gets no priority: two
      branches differing only in being develop are ordered by name. */
  lemma DevelopNeedsMain(a: BranchItem, b: BranchItem)
    requires GetBranchNameType(a.name) == Develop && GetBranchNameType(b.name) == Other
    requires a.isCurrent == b.isCurrent && a.hasWorktree == b.hasWorktree
    requires a.lastCommitTimestamp == b.lastCommitTimestamp && a.branchType == b.branchType
    ensures BranchCmp(true, a, b) == Less
    ensures BranchCmp(false, a, b) == CompareStr(ToLower(a.name), ToLower(b.name))
  {
  }

  /** Among otherwise equal branches, the newer commit comes first. */
  lemma NewerFirst(hasMain: bool, a: BranchItem, b: BranchItem, ta: int, tb: int)
    requires a.isCurrent == b.isCurrent && a.hasWorktree == b.hasWorktree
    requires GetBranchNameType(a.name) == GetBranchNameType(b.name)
    requires a.lastCommitTimestamp == Some(ta) && b.lastCommitTimestamp == Some(tb) && ta > tb
    ensures BranchCmp(hasMain, a, b) == Less
  {
  }

  // ---------------------------------------------------------------------
  // Selection

  /** Rows the list shows at once. */
  const VISIBLE_WINDOW: nat := 15

  /** The multi-selection after toggling `name`. */
  function ToggledName(selected: set<string>, name: Option<string>): (r: set<string>)
    ensures name.None? ==> r == selected
    ensures name.Some? ==> (name.value in r <==> name.value !in selected)
    ensures forall n :: name != Some(n) ==> (n in r <==> n in selected)
  {
    match name
    case None => selected
    case Some(n) => if n in selected then selected - {n} else selected + {n}
  }

  /** Toggling the same branch twice restores the multi-selection. */
  lemma ToggleNameTwice(selected: set<string>, name: Option<string>)
    ensures ToggledName(ToggledName(selected, name), name) == selected
  {
    var twice := ToggledName(ToggledName(selected, name), name);
    assert forall n :: n in twice <==> n in selected;
  }

  /** The scroll offset after `ensure_visible`. */
  function VisibleOffset(selected: nat, offset: nat): (r: nat)
    ensures r <= selected < r + VISIBLE_WINDOW
    ensures offset <= selected < offset + VISIBLE_WINDOW ==> r == offset
  {
    if selected < offset then selected
    else if selected >= offset + VISIBLE_WINDOW then SatSub(selected, VISIBLE_WINDOW - 1)
    else offset
  }

  datatype Statistics = Statistics(localCount: nat, remoteCount: nat, worktreeCount: nat, changesCount: nat)

  function CountWhere(bs: seq<BranchItem>, p: BranchItem -> bool): (n: nat)
    ensures n <= |bs|
  {
    if bs == [] then 0 else (if p(bs[0]) then 1 else 0) + CountWhere(bs[1..], p)
  }

  const SPINNER_FRAMES: seq<char> := ['|', '/', '-', '\\']

  class BranchListState {
    var branches: seq<BranchItem>
    var selected: nat
    var offset: nat
    var filter: string
    var filterMode: bool
    var viewMode: ViewMode
    var selectedBranches: set<string>
    var stats: Statistics
    var isLoading: bool
    var spinnerFrame: nat

    /** The selected row lies in the window that starts at the offset. */
    predicate Valid()
      reads this
    {
      offset <= selected < offset + VISIBLE_WINDOW && spinnerFrame < |SPINNER_FRAMES|
    }

    function Filtered(): seq<BranchItem>
      reads this`branches, this`viewMode, this`filter
    {
      FilteredBranches(branches, viewMode, filter)
    }

    constructor ()
      ensures branches == [] && selected == 0 && offset == 0 && filter == [] && !filterMode
      ensures viewMode == All && selectedBranches == {} && stats == Statistics(0, 0, 0, 0)
      ensures !isLoading && spinnerFrame == 0
      ensures Valid()
    {
      branches, selected, offset, filter, filterMode := [], 0, 0, [], false;
      viewMode, selectedBranches, stats := All, {}, Statistics(0, 0, 0, 0);
      isLoading, spinnerFrame := false, 0;
    }

    /** `with_branches`: the list and its counts. */
    method WithBranches(bs: seq<BranchItem>)
      modifies this`branches, this`stats
      ensures branches == bs
      ensures stats.localCount == CountWhere(bs, (b: BranchItem) => b.branchType == LocalBranch)
      ensures stats.remoteCount == CountWhere(bs, (b: BranchItem) => b.branchType == RemoteBranch || b.hasRemoteCounterpart)
      ensures stats.worktreeCount == CountWhere(bs, (b: BranchItem) => b.hasWorktree)
      ensures stats.changesCount == CountWhere(bs, (b: BranchItem) => b.hasChanges)
    {
      stats := Statistics(
        CountWhere(bs, (b: BranchItem) => b.branchType == LocalBranch),
        CountWhere(bs, (b: BranchItem) => b.branchType == RemoteBranch || b.hasRemoteCounterpart),
        CountWhere(bs, (b: BranchItem) => b.hasWorktree),
        CountWhere(bs, (b: BranchItem) => b.hasChanges));
      branches := bs;
    }

    /** `cycle_view_mode`: the next mode, back at the top. */
    method CycleViewMode()
      modifies this`viewMode, this`selected, this`offset
      ensures viewMode == old(viewMode).Cycle() && selected == 0 && offset == 0
      ensures old(Valid()) ==> Valid()
    {
      viewMode := viewMode.Cycle();
      selected := 0;
      offset := 0;
    }

    method ToggleFilterMode()
      modifies this`filterMode
      ensures filterMode == !old(filterMode)
    {
      filterMode := !filterMode;
    }

    method EnterFilterMode()
      modifies this`filterMode
      ensures filterMode
    {
      filterMode := true;
    }

    method ExitFilterMode()
      modifies this`filterMode
      ensures !filterMode
    {
      filterMode := false;
    }

    /** `clear_filter`: no text filter, back at the top. */
    method ClearFilter()
      modifies this`filter, this`selected, this`offset
      ensures filter == [] && selected == 0 && offset == 0
      ensures old(Valid()) ==> Valid()
    {
      filter := [];
      selected := 0;
      offset := 0;
    }

    /** `filter_push`: one more character, back at the top. */
    method FilterPush(c: char)
      modifies this`filter, this`selected, this`offset
      ensures filter == old(filter) + [c] && selected == 0 && offset == 0
      ensures old(Valid()) ==> Valid()
    {
      filter := filter + [c];
      selected := 0;
      offset := 0;
    }

    /** `filter_pop`: drops the last character; the selection stays. */
    method FilterPop()
      modifies this`filter
      ensures filter == if old(filter) == [] then [] else old(filter)[..|old(filter)| - 1]
    {
      if filter != [] {
        filter := filter[..|filter| - 1];
      }
    }

    /** `set_filter`: the new text, back at the top. */
    method SetFilter(f: string)
      modifies this`filter, this`selected, this`offset
      ensures filter == f && selected == 0 && offset == 0
      ensures old(Valid()) ==> Valid()
    {
      filter := f;
      selected := 0;
      offset := 0;
    }

    /** `selected_branch`. */
    function SelectedBranch(): (r: Option<BranchItem>)
      reads this`branches, this`viewMode, this`filter, this`selected
      ensures r.Some? <==> selected < |Filtered()|
      ensures r.Some? ==> r.value == Filtered()[selected]
    {
      var f := Filtered();
      if selected < |f| then Some(f[selected]) else None
    }

    /** `toggle_selection`: flips the selected branch's name in the multi-selection. */
    method ToggleSelection()
      modifies this`selectedBranches
      ensures selectedBranches == ToggledName(old(selectedBranches),
        if SelectedBranch().Some? then Some(SelectedBranch().value.name) else None)
    {
      var current := SelectedBranch();
      if current.Some? {
        var name := current.value.name;
        if name in selectedBranches {
          selectedBranches := selectedBranches - {name};
        } else {
          selectedBranches := selectedBranches + {name};
        }
      }
    }

    /** `ensure_visible`. */
    method EnsureVisible()
      modifies this`offset
      ensures offset == VisibleOffset(selected, old(offset))
      ensures offset <= selected < offset + VISIBLE_WINDOW
    {
      if selected < offset {
        offset := selected;
      } else if selected >= offset + VISIBLE_WINDOW {
        offset := SatSub(selected, VISIBLE_WINDOW - 1);
      }
    }

    /** `select_prev`: one row up when there is a row above. */
    method SelectPrev()
      modifies this`selected, this`offset
      ensures var moved := old(|Filtered()|) > 0 && old(selected) > 0;
        selected == (if moved then old(selected) - 1 else old(selected))
        && offset == (if moved then VisibleOffset(selected, old(offset)) else old(offset))
      ensures old(Valid()) ==> Valid()
    {
      var count := |Filtered()|;
      if count > 0 && selected > 0 {
        selected := selected - 1;
        EnsureVisible();
      }
    }

    /** `select_next`: one row down, never past the last listed branch. */
    method SelectNext()
      modifies this`selected, this`offset
      ensures var moved := old(selected) + 1 < old(|Filtered()|);
        selected == (if moved then old(selected) + 1 else old(selected))
        && offset == (if moved then VisibleOffset(selected, old(offset)) else old(offset))
      ensures old(Valid()) ==> Valid()
    {
      var count := |Filtered()|;
      if selected + 1 < count {
        selected := selected + 1;
        EnsureVisible();
      }
    }

    /** `page_up`: a page up, saturating at the top. */
    method PageUp(pageSize: nat)
      modifies this`selected, this`offset
      ensures selected == SatSub(old(selected), pageSize)
      ensures offset == VisibleOffset(selected, old(offset))
      ensures Valid() <==> spinnerFrame < |SPINNER_FRAMES|
    {
      selected := SatSub(selected, pageSize);
      EnsureVisible();
    }

    /** `page_down`: a page down, clamped to the last listed branch. */
    method PageDown(pageSize: nat)
      modifies this`selected, this`offset
      ensures |Filtered()| > 0 ==>
        (selected == Min(old(selected) + pageSize, |Filtered()| - 1) && offset == VisibleOffset(selected, old(offset)))
      ensures |Filtered()| == 0 ==> selected == old(selected) && offset == old(offset)
      ensures |Filtered()| > 0 ==> selected < |Filtered()|
      ensures old(Valid()) ==> Valid()
    {
      var count := |Filtered()|;
      if count > 0 {
        selected := Min(selected + pageSize, count - 1);
        EnsureVisible();
      }
    }

    method GoHome()
      modifies this`selected, this`offset
      ensures selected == 0 && offset == 0
      ensures old(Valid()) ==> Valid()
    {
      selected := 0;
      offset := 0;
    }

    /** `go_end`: the last listed branch, scrolled into view. */
    method GoEnd()
      modifies this`selected, this`offset
      ensures selected == if |Filtered()| > 0 then |Filtered()| - 1 else old(selected)
      ensures offset == VisibleOffset(selected, old(offset))
      ensures Valid() <==> spinnerFrame < |SPINNER_FRAMES|
    {
      var count := |Filtered()|;
      if count > 0 {
        selected := count - 1;
      }
      EnsureVisible();
    }

    /** `tick_spinner`: the next of the four frames. */
    method TickSpinner()
      modifies this`spinnerFrame
      ensures spinnerFrame == (old(spinnerFrame) + 1) % |SPINNER_FRAMES|
      ensures spinnerFrame < |SPINNER_FRAMES|
    {
      spinnerFrame := (spinnerFrame + 1) % |SPINNER_FRAMES|;
    }

    function SpinnerChar(): (r: char)
      reads this
      requires spinnerFrame < |SPINNER_FRAMES|
      ensures r in SPINNER_FRAMES
    {
      SPINNER_FRAMES[spinnerFrame]
    }

    method SetLoading(loading: bool)
      modifies this`isLoading
      ensures isLoading == loading
    {
      isLoading := loading;
    }
  }
}
