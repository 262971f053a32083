/** The pane manager: an ordered list of terminal panes with one active tab.
    A pane is abstracted to its identity and branch; its PTY is not modelled. */
module TerminalManager {
  import opened Common

  datatype Pane = Pane(paneId: string, branchName: string)

  /** The tab after `i` among `n` tabs, wrapping to the first. */
  function NextIndex(i: nat, n: nat): (r: nat)
    requires i < n
    ensures r < n
    ensures i + 1 < n ==> r == i + 1
    ensures i + 1 == n ==> r == 0
  {
    (i + 1) % n
  }

  /** The tab before `i` among `n` tabs, wrapping to the last. */
  function PrevIndex(i: nat, n: nat): (r: nat)
    requires i < n
    ensures r < n
    ensures i > 0 ==> r == i - 1
    ensures i == 0 ==> r == n - 1
  {
    (i + n - 1) % n
  }

  /** Going forward and back, or back and forward, returns to the same tab. */
  lemma NextPrevInverse(i: nat, n: nat)
    requires i < n
    ensures PrevIndex(NextIndex(i, n), n) == i
    ensures NextIndex(PrevIndex(i, n), n) == i
  {
  }

  /** The position of the first pane running `branch`. */
  function FindPaneIndexByBranch(panes: seq<Pane>, branch: string): (r: Option<nat>)
    ensures r.Some? ==> r.value < |panes| && panes[r.value].branchName == branch
    ensures r.Some? ==> forall j :: 0 <= j < r.value ==> panes[j].branchName != branch
    ensures r.None? ==> forall j :: 0 <= j < |panes| ==> panes[j].branchName != branch
  {
    if panes == [] then None
    else if panes[0].branchName == branch then Some(0)
    else match FindPaneIndexByBranch(panes[1..], branch)
      case None => None
      case Some(k) => Some(k + 1)
  }

  /** Where the active index lands after a pane is removed and `remaining` are left. */
  function ClampedActive(active: nat, remaining: nat): (r: nat)
    ensures remaining == 0 ==> r == 0
    ensures remaining > 0 ==> r < remaining
    ensures active < remaining ==> r == active
  {
    if remaining == 0 then 0 else if active >= remaining then remaining - 1 else active
  }

  class PaneManager {
    var panes: seq<Pane>
    var activeIndex: nat
    var isFullscreen: bool

    /** The active index points at a pane, or is 0 when there are none. */
    ghost predicate Valid()
      reads this
    {
      if panes == [] then activeIndex == 0 else activeIndex < |panes|
    }

    constructor ()
      ensures Valid() && panes == [] && activeIndex == 0 && !isFullscreen
    {
      panes := [];
      activeIndex := 0;
      isFullscreen := false;
    }

    /** The newly added pane becomes the active one. */
    method AddPane(pane: Pane)
      requires Valid()
      modifies this
      ensures Valid()
      ensures panes == old(panes) + [pane]
      ensures activeIndex == |panes| - 1
      ensures isFullscreen == old(isFullscreen)
    {
      panes := panes + [pane];
      activeIndex := |panes| - 1;
    }

    /** Removes the pane at `index`; out of range, nothing changes. The active
        index is clamped to the shorter list but not shifted down. */
    method ClosePane(index: nat) returns (removed: Option<Pane>)
      requires Valid()
      modifies this
      ensures Valid()
      ensures isFullscreen == old(isFullscreen)
      ensures index >= |old(panes)| ==> removed.None? && panes == old(panes) && activeIndex == old(activeIndex)
      ensures index < |old(panes)| ==>
                removed == Some(old(panes)[index])
                && panes == old(panes)[..index] + old(panes)[index + 1..]
                && activeIndex == ClampedActive(old(activeIndex), |panes|)
    {
      if index >= |panes| {
        return None;
      }
      var pane := panes[index];
      panes := panes[..index] + panes[index + 1..];
      activeIndex := ClampedActive(activeIndex, |panes|);
      return Some(pane);
    }

    method CloseActivePane() returns (removed: Option<Pane>)
      requires Valid()
      modifies this
      ensures Valid()
      ensures old(panes) == [] ==> removed.None? && panes == [] && activeIndex == 0
      ensures old(panes) != [] ==>
                removed == Some(old(panes)[old(activeIndex)])
                && panes == old(panes)[..old(activeIndex)] + old(panes)[old(activeIndex) + 1..]
    {
      if panes == [] {
        return None;
      }
      removed := ClosePane(activeIndex);
    }

    method NextTab()
      requires Valid()
      modifies this`activeIndex
      ensures Valid()
      ensures panes == [] ==> activeIndex == old(activeIndex)
      ensures panes != [] ==> activeIndex == NextIndex(old(activeIndex), |panes|)
    {
      if panes == [] {
        return;
      }
      activeIndex := (activeIndex + 1) % |panes|;
    }

    method PrevTab()
      requires Valid()
      modifies this`activeIndex
      ensures Valid()
      ensures panes == [] ==> activeIndex == old(activeIndex)
      ensures panes != [] ==> activeIndex == PrevIndex(old(activeIndex), |panes|)
    {
      if panes == [] {
        return;
      }
      activeIndex := (activeIndex + |panes| - 1) % |panes|;
    }

    function ActivePane(): (r: Option<Pane>)
      reads this
      requires Valid()
      ensures r.None? <==> panes == []
      ensures r.Some? ==> r.value == panes[activeIndex]
    {
      if activeIndex < |panes| then Some(panes[activeIndex]) else None
    }

    /** Out-of-range indices are ignored. */
    method SetActiveIndex(index: nat)
      requires Valid()
      modifies this`activeIndex
      ensures Valid()
      ensures activeIndex == if index < |panes| then index else old(activeIndex)
    {
      if index < |panes| {
        activeIndex := index;
      }
    }

    method ToggleFullscreen()
      modifies this`isFullscreen
      ensures isFullscreen == !old(isFullscreen)
    {
      isFullscreen := !isFullscreen;
    }
  }

  /** Closing the pane before the active one keeps the index, so the active
      tab moves on to the pane that followed the previously active one. */
  lemma CloseBeforeActiveShiftsFocus()
    ensures var panes := [Pane("p0", "a"), Pane("p1", "b"), Pane("p2", "c"), Pane("p3", "d")];
            var rest := panes[..0] + panes[1..];
            rest[ClampedActive(2, |rest|)] == Pane("p3", "d") && panes[2] == Pane("p2", "c")
  {
  }
}
