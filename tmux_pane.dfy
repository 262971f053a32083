/** tmux pane bookkeeping: parsing `list-panes` output, grouping pane geometry
    into columns, equal split sizes, duplicate-launch detection and agent-name
    detection from a pane's command. */
module TmuxPane {
  import opened Common

  datatype PaneInfo = PaneInfo(paneId: string, panePid: nat, currentCommand: string, currentPath: Option<string>)

  datatype PaneGeometry = PaneGeometry(paneId: string, left: nat, top: nat, width: nat, height: nat)

  datatype PaneColumn = PaneColumn(left: nat, width: nat, paneIds: seq<string>, totalHeight: nat)

  /** An agent running in a pane; the start time is not modelled. */
  datatype AgentPane = AgentPane(paneId: string, branchName: string, agentName: string, pid: nat,
                                 isBackground: bool, backgroundWindow: Option<string>)

  // ---------------------------------------------------------------------
  // list-panes output: pane_id:pane_pid:current_command[:current_path]

  /** One line of the pane list; lines with fewer than three fields are dropped,
      and an unparsable pid reads as 0. */
  function ParsePaneLine(line: string): (r: Option<PaneInfo>)
    ensures r.Some? <==> |SplitN(line, ':', 4)| >= 3
  {
    var parts := SplitN(line, ':', 4);
    if |parts| >= 3 then
      Some(PaneInfo(parts[0], ParseUnsigned(parts[1], U32_MAX).GetOr(0), parts[2],
                    if |parts| == 4 then Some(parts[3]) else None))
    else None
  }

  function ParsePaneLines(lines: seq<string>): (r: seq<PaneInfo>)
    ensures |r| <= |lines|
  {
    if lines == [] then []
    else
      var rest := ParsePaneLines(lines[1..]);
      if lines[0] == [] then rest
      else match ParsePaneLine(lines[0])
        case Some(p) => [p] + rest
        case None => rest
  }

  function ParsePaneList(output: string): seq<PaneInfo> { ParsePaneLines(Lines(output)) }

  /** A line with a path field keeps every ':' of the path. */
  lemma PaneLineWithPath(id: string, pid: nat, cmd: string, path: string)
    requires ':' !in id && ':' !in cmd && pid <= U32_MAX
    ensures ParsePaneLine(id + ":" + NatToString(pid) + ":" + cmd + ":" + path)
         == Some(PaneInfo(id, pid, cmd, Some(path)))
  {
    var p := NatToString(pid);
    assert ':' !in p by { assert AllDigits(p); }
    var line := id + ":" + p + ":" + cmd + ":" + path;
    assert line == id + [':'] + (p + [':'] + (cmd + [':'] + path));
    SplitNCons(id, ':', p + [':'] + (cmd + [':'] + path), 4);
    SplitNCons(p, ':', cmd + [':'] + path, 3);
    SplitNCons(cmd, ':', path, 2);
    ParseNatToString(pid, U32_MAX);
  }

  /** A line with only two ':' separators has no path. */
  lemma PaneLineWithoutPath(id: string, pid: nat, cmd: string)
    requires ':' !in id && ':' !in cmd && pid <= U32_MAX
    ensures ParsePaneLine(id + ":" + NatToString(pid) + ":" + cmd)
         == Some(PaneInfo(id, pid, cmd, None))
  {
    var p := NatToString(pid);
    assert ':' !in p by { assert AllDigits(p); }
    var line := id + ":" + p + ":" + cmd;
    assert line == id + [':'] + (p + [':'] + cmd);
    SplitNCons(id, ':', p + [':'] + cmd, 4);
    SplitNCons(p, ':', cmd, 3);
    assert FindChar(cmd, ':').None?;
    ParseNatToString(pid, U32_MAX);
  }

  /** A line with fewer than two ':' is dropped. */
  lemma PaneLineTooShort(a: string, b: string)
    requires ':' !in a && ':' !in b
    ensures ParsePaneLine(a).None? && ParsePaneLine(a + ":" + b).None?
  {
    assert FindChar(a, ':').None?;
    assert a + ":" + b == a + [':'] + b;
    SplitNCons(a, ':', b, 4);
    assert FindChar(b, ':').None?;
  }

  // ---------------------------------------------------------------------
  // Geometry output: pane_id:left:top:width:height

  /** A geometry line counts only with exactly five fields and four u16 numbers. */
  function ParseGeometryLine(line: string): (r: Option<PaneGeometry>)
    ensures r.Some? ==> |SplitN(line, ':', 5)| == 5
    ensures r.Some? ==> (r.value.left <= U16_MAX && r.value.top <= U16_MAX
                         && r.value.width <= U16_MAX && r.value.height <= U16_MAX)
  {
    var parts := SplitN(line, ':', 5);
    if |parts| != 5 then None
    else
      var l := ParseUnsigned(parts[1], U16_MAX);
      var t := ParseUnsigned(parts[2], U16_MAX);
      var w := ParseUnsigned(parts[3], U16_MAX);
      var h := ParseUnsigned(parts[4], U16_MAX);
      if l.Some? && t.Some? && w.Some? && h.Some? then
        Some(PaneGeometry(parts[0], l.value, t.value, w.value, h.value))
      else None
  }

  function ParseGeometryLines(lines: seq<string>): (r: seq<PaneGeometry>)
    ensures |r| <= |lines|
  {
    if lines == [] then []
    else
      var rest := ParseGeometryLines(lines[1..]);
      if lines[0] == [] then rest
      else match ParseGeometryLine(lines[0])
        case Some(g) => [g] + rest
        case None => rest
  }

  function ParseGeometryList(output: string): seq<PaneGeometry> { ParseGeometryLines(Lines(output)) }

  /** Splitting id:a:b:c:d into at most five pieces, where only the last may hold ':'. */
  lemma SplitFiveFields(id: string, a: string, b: string, c: string, d: string)
    requires ':' !in id && ':' !in a && ':' !in b && ':' !in c
    ensures SplitN(id + ":" + a + ":" + b + ":" + c + ":" + d, ':', 5) == [id, a, b, c, d]
  {
    var fields := [id, a, b, c, d];
    assert [c, d][1..] == [d];
    assert JoinChar([c, d], ':') == c + [':'] + d;
    assert [b, c, d][1..] == [c, d];
    assert JoinChar([b, c, d], ':') == b + [':'] + (c + [':'] + d);
    assert [a, b, c, d][1..] == [b, c, d];
    assert JoinChar([a, b, c, d], ':') == a + [':'] + (b + [':'] + (c + [':'] + d));
    assert fields[1..] == [a, b, c, d];
    assert JoinChar(fields, ':') == id + ":" + a + ":" + b + ":" + c + ":" + d;
    SplitNJoinChar(fields, ':');
  }

  /** The printed form of a geometry record parses back to it. */
  lemma GeometryLineRoundTrip(g: PaneGeometry)
    requires ':' !in g.paneId
    requires g.left <= U16_MAX && g.top <= U16_MAX && g.width <= U16_MAX && g.height <= U16_MAX
    ensures ParseGeometryLine(g.paneId + ":" + NatToString(g.left) + ":" + NatToString(g.top) + ":"
                              + NatToString(g.width) + ":" + NatToString(g.height)) == Some(g)
  {
    var l, t, w, h := NatToString(g.left), NatToString(g.top), NatToString(g.width), NatToString(g.height);
    assert ':' !in l by { assert AllDigits(l); }
    assert ':' !in t by { assert AllDigits(t); }
    assert ':' !in w by { assert AllDigits(w); }
    SplitFiveFields(g.paneId, l, t, w, h);
    ParseNatToString(g.left, U16_MAX);
    ParseNatToString(g.top, U16_MAX);
    ParseNatToString(g.width, U16_MAX);
    ParseNatToString(g.height, U16_MAX);
  }

  /** A sixth field ends up inside the height field, which then does not parse. */
  lemma GeometryLineExtraFieldRejected(id: string, l: string, t: string, w: string, h: string, extra: string)
    requires ':' !in id && ':' !in l && ':' !in t && ':' !in w
    ensures ParseGeometryLine(id + ":" + l + ":" + t + ":" + w + ":" + h + ":" + extra).None?
  {
    var hx := h + ":" + extra;
    assert id + ":" + l + ":" + t + ":" + w + ":" + h + ":" + extra == id + ":" + l + ":" + t + ":" + w + ":" + hx;
    SplitFiveFields(id, l, t, w, hx);
    assert ParseUnsigned(hx, U16_MAX).None? by {
      assert hx[|h|] == ':';
      if hx != [] && hx[0] == '+' {
        assert hx[1..][|h| - 1] == ':';
      }
    }
  }

  // ---------------------------------------------------------------------
  // Grouping panes into columns

  /** The panes sharing one `left`, in the order they were met. */
  datatype Group = Group(left: nat, panes: seq<PaneGeometry>)

  predicate GroupsSorted(gs: seq<Group>) { forall i, j :: 0 <= i < j < |gs| ==> gs[i].left < gs[j].left }

  /** A group is non-empty and all its panes share its `left`. */
  predicate GroupOk(g: Group) { g.panes != [] && forall k :: 0 <= k < |g.panes| ==> g.panes[k].left == g.left }

  predicate GroupsWellFormed(gs: seq<Group>) { forall i :: 0 <= i < |gs| ==> GroupOk(gs[i]) }

  function AllPanes(gs: seq<Group>): seq<PaneGeometry>
  {
    if gs == [] then [] else gs[0].panes + AllPanes(gs[1..])
  }

  /** `columns.entry(pane.left).or_default().push(pane)` on a map kept ordered by key. */
  function AddToGroups(gs: seq<Group>, p: PaneGeometry): (r: seq<Group>)
    ensures |r| >= 1
  {
    if gs == [] || p.left < gs[0].left then [Group(p.left, [p])] + gs
    else if p.left == gs[0].left then [Group(gs[0].left, gs[0].panes + [p])] + gs[1..]
    else [gs[0]] + AddToGroups(gs[1..], p)
  }

  /** Adding a pane introduces no key below both the pane's and the existing ones. */
  lemma {:induction false} AddToGroupsAbove(gs: seq<Group>, p: PaneGeometry, lo: int)
    requires p.left > lo && forall i :: 0 <= i < |gs| ==> gs[i].left > lo
    ensures forall i :: 0 <= i < |AddToGroups(gs, p)| ==> AddToGroups(gs, p)[i].left > lo
  {
    if gs != [] && p.left > gs[0].left {
      AddToGroupsAbove(gs[1..], p, lo);
      var rest := AddToGroups(gs[1..], p);
      assert forall i :: 0 < i < |rest| + 1 ==> ([gs[0]] + rest)[i] == rest[i - 1];
    }
  }

  lemma AllPanesCons(g: Group, gs: seq<Group>)
    ensures AllPanes([g] + gs) == g.panes + AllPanes(gs)
  {
    assert ([g] + gs)[1..] == gs;
  }

  lemma {:induction false} AddToGroupsKeepsShape(gs: seq<Group>, p: PaneGeometry)
    requires GroupsSorted(gs) && GroupsWellFormed(gs)
    ensures GroupsSorted(AddToGroups(gs, p)) && GroupsWellFormed(AddToGroups(gs, p))
    ensures multiset(AllPanes(AddToGroups(gs, p))) == multiset(AllPanes(gs)) + multiset{p}
  {
    AddToGroupsSorted(gs, p);
    AddToGroupsWellFormed(gs, p);
    AddToGroupsPanes(gs, p);
  }

  lemma {:induction false} AddToGroupsSorted(gs: seq<Group>, p: PaneGeometry)
    requires GroupsSorted(gs)
    ensures GroupsSorted(AddToGroups(gs, p))
  {
    if gs != [] && p.left > gs[0].left {
      AddToGroupsSorted(gs[1..], p);
      AddToGroupsAbove(gs[1..], p, gs[0].left);
      var rest := AddToGroups(gs[1..], p);
      var r := [gs[0]] + rest;
      assert forall i :: 0 < i < |r| ==> r[i] == rest[i - 1];
    }
  }

  lemma {:induction false} AddToGroupsWellFormed(gs: seq<Group>, p: PaneGeometry)
    requires GroupsWellFormed(gs)
    ensures GroupsWellFormed(AddToGroups(gs, p))
  {
    if gs != [] && p.left > gs[0].left {
      AddToGroupsWellFormed(gs[1..], p);
    }
  }

  lemma {:induction false} AddToGroupsPanes(gs: seq<Group>, p: PaneGeometry)
    ensures multiset(AllPanes(AddToGroups(gs, p))) == multiset(AllPanes(gs)) + multiset{p}
  {
    if gs == [] || p.left < gs[0].left {
      AllPanesCons(Group(p.left, [p]), gs);
    } else {
      assert gs == [gs[0]] + gs[1..];
      AllPanesCons(gs[0], gs[1..]);
      if p.left == gs[0].left {
        AllPanesCons(Group(gs[0].left, gs[0].panes + [p]), gs[1..]);
      } else {
        AddToGroupsPanes(gs[1..], p);
        AllPanesCons(gs[0], AddToGroups(gs[1..], p));
      }
    }
  }

  /** Stable sort of a column's panes by `top`: a pane goes after every pane whose top is not larger. */
  function InsertByTop(ps: seq<PaneGeometry>, p: PaneGeometry): (r: seq<PaneGeometry>)
    ensures multiset(r) == multiset(ps) + multiset{p}
    ensures |r| == |ps| + 1
  {
    if ps == [] || p.top < ps[0].top then [p] + ps
    else
      assert ps == [ps[0]] + ps[1..];
      [ps[0]] + InsertByTop(ps[1..], p)
  }

  function SortByTop(ps: seq<PaneGeometry>): (r: seq<PaneGeometry>)
    ensures multiset(r) == multiset(ps)
    ensures |r| == |ps|
  {
    if ps == [] then []
    else
      assert ps == ps[..|ps| - 1] + [ps[|ps| - 1]];
      InsertByTop(SortByTop(ps[..|ps| - 1]), ps[|ps| - 1])
  }

  predicate SortedByTop(ps: seq<PaneGeometry>) { forall i, j :: 0 <= i < j < |ps| ==> ps[i].top <= ps[j].top }

  lemma {:induction false} InsertByTopSorted(ps: seq<PaneGeometry>, p: PaneGeometry)
    requires SortedByTop(ps)
    ensures SortedByTop(InsertByTop(ps, p))
  {
    if ps != [] && p.top >= ps[0].top {
      InsertByTopSorted(ps[1..], p);
      var r := InsertByTop(ps, p);
      forall k | 0 < k < |r| ensures ps[0].top <= r[k].top {
        assert r[k] in multiset(InsertByTop(ps[1..], p));
        assert r[k] in multiset(ps[1..]) + multiset{p};
        if r[k] in ps[1..] {
          var m :| 0 <= m < |ps[1..]| && ps[1..][m] == r[k];
          assert ps[1 + m] == r[k];
        }
      }
    }
  }

  lemma {:induction false} SortByTopSorted(ps: seq<PaneGeometry>)
    ensures SortedByTop(SortByTop(ps))
  {
    if ps != [] {
      SortByTopSorted(ps[..|ps| - 1]);
      InsertByTopSorted(SortByTop(ps[..|ps| - 1]), ps[|ps| - 1]);
    }
  }

  function Ids(ps: seq<PaneGeometry>): (r: seq<string>)
    ensures |r| == |ps| && forall k :: 0 <= k < |ps| ==> r[k] == ps[k].paneId
  {
    if ps == [] then [] else [ps[0].paneId] + Ids(ps[1..])
  }

  function MaxWidth(ps: seq<PaneGeometry>): (w: nat)
    ensures forall k :: 0 <= k < |ps| ==> ps[k].width <= w
    ensures ps == [] ==> w == 0
    ensures ps != [] ==> exists k :: 0 <= k < |ps| && ps[k].width == w
  {
    if ps == [] then 0
    else
      var m := MaxWidth(ps[1..]);
      if ps[0].width >= m then ps[0].width
      else
        assert exists k :: 0 <= k < |ps[1..]| && ps[1..][k].width == m;
        m
  }

  function SumHeight(ps: seq<PaneGeometry>): nat
  {
    if ps == [] then 0 else ps[0].height + SumHeight(ps[1..])
  }

  function ToColumn(g: Group): (c: PaneColumn)
  {
    var sorted := SortByTop(g.panes);
    PaneColumn(g.left, MaxWidth(sorted), Ids(sorted), AsU16(SumHeight(sorted)))
  }

  /** The groups hold exactly the panes of `done`, keyed in increasing order. */
  predicate GroupsOf(gs: seq<Group>, done: seq<PaneGeometry>)
  {
    GroupsSorted(gs) && GroupsWellFormed(gs) && multiset(AllPanes(gs)) == multiset(done)
  }

  lemma GroupsOfStep(gs: seq<Group>, done: seq<PaneGeometry>, p: PaneGeometry)
    requires GroupsOf(gs, done)
    ensures GroupsOf(AddToGroups(gs, p), done + [p])
  {
    AddToGroupsKeepsShape(gs, p);
  }

  /** Fills the ordered map pane by pane: `columns.entry(pane.left).or_default().push(pane)`. */
  method CollectGroups(panes: seq<PaneGeometry>) returns (groups: seq<Group>)
    ensures GroupsOf(groups, panes)
  {
    groups := [];
    var i := 0;
    while i < |panes|
      invariant 0 <= i <= |panes|
      invariant GroupsOf(groups, panes[..i])
    {
      var pane := panes[i];
      GroupsOfStep(groups, panes[..i], pane);
      groups := AddToGroups(groups, pane);
      assert panes[..i + 1] == panes[..i] + [pane];
      i := i + 1;
    }
    assert panes[..i] == panes;
  }

  /** Groups the panes by `left` and turns each group into a column; see
      `ColumnFacts` for what a column holds. */
  method GroupPanesByLeft(panes: seq<PaneGeometry>) returns (columns: seq<PaneColumn>, groups: seq<Group>)
    ensures GroupsOf(groups, panes)
    ensures |columns| == |groups| && forall i :: 0 <= i < |groups| ==> columns[i] == ToColumn(groups[i])
  {
    groups := CollectGroups(panes);
    columns := seq(|groups|, k requires 0 <= k < |groups| => ToColumn(groups[k]));
  }

  /** A column lists its panes top to bottom and is as wide as its widest
      pane; see `ColumnHeight` for its height. */
  /** A column is as tall as its panes together. `total_height` is a `u16`
      sum, so a taller column wraps, as a release build does. */
  lemma ColumnHeight(g: Group)
    ensures ToColumn(g).totalHeight == AsU16(SumHeight(g.panes))
    ensures SumHeight(g.panes) <= U16_MAX ==> ToColumn(g).totalHeight == SumHeight(g.panes)
  {
    SumHeightSorted(g.panes);
  }

  lemma ColumnFacts(g: Group)
    ensures SortedByTop(SortByTop(g.panes)) && multiset(SortByTop(g.panes)) == multiset(g.panes)
    ensures ToColumn(g).left == g.left
    ensures ToColumn(g).paneIds == Ids(SortByTop(g.panes))
    ensures forall k :: 0 <= k < |g.panes| ==> g.panes[k].width <= ToColumn(g).width
    ensures g.panes != [] ==> exists k :: 0 <= k < |g.panes| && g.panes[k].width == ToColumn(g).width
  {
    var ps := g.panes;
    var sorted := SortByTop(ps);
    SortByTopSorted(ps);
    forall k | 0 <= k < |ps| ensures ps[k].width <= MaxWidth(sorted) {
      assert ps[k] in multiset(sorted);
    }
    if ps != [] {
      var m :| 0 <= m < |sorted| && sorted[m].width == MaxWidth(sorted);
      assert sorted[m] in multiset(ps);
    }
  }

  lemma {:induction false} SumHeightInsert(ps: seq<PaneGeometry>, p: PaneGeometry)
    ensures SumHeight(InsertByTop(ps, p)) == SumHeight(ps) + p.height
  {
    if ps != [] && p.top >= ps[0].top {
      SumHeightInsert(ps[1..], p);
    }
  }

  lemma {:induction false} SumHeightSorted(ps: seq<PaneGeometry>)
    ensures SumHeight(SortByTop(ps)) == SumHeight(ps)
  {
    if ps != [] {
      var init, last := ps[..|ps| - 1], ps[|ps| - 1];
      SumHeightSorted(init);
      SumHeightInsert(SortByTop(init), last);
      SumHeightSnoc(ps);
    }
  }

  /** The last pane's height comes on top of the others'. */
  lemma SumHeightSnoc(ps: seq<PaneGeometry>)
    requires ps != []
    ensures SumHeight(ps) == SumHeight(ps[..|ps| - 1]) + ps[|ps| - 1].height
  {
    assert ps == ps[..|ps| - 1] + [ps[|ps| - 1]];
    SumHeightConcat(ps[..|ps| - 1], [ps[|ps| - 1]]);
  }

  lemma {:induction false} SumHeightConcat(x: seq<PaneGeometry>, y: seq<PaneGeometry>)
    ensures SumHeight(x + y) == SumHeight(x) + SumHeight(y)
  {
    if x == [] {
      assert x + y == y;
    } else {
      assert (x + y)[1..] == x[1..] + y;
      SumHeightConcat(x[1..], y);
    }
  }

  // ---------------------------------------------------------------------
  // Equal splits

  /** The sizes that divide `total` cells among `parts` panes. The source casts
      `parts` to u16 first, so a multiple of 65536 divides by zero and panics. */
  method ComputeEqualSplits(total: nat, parts: nat) returns (splits: seq<nat>)
    requires total <= U16_MAX
    requires parts == 0 || parts % 65536 != 0
    ensures |splits| == parts
    ensures parts == 0 ==> splits == []
    ensures 0 < parts <= U16_MAX ==> IsEqualSplit(splits, total)
  {
    if parts == 0 {
      return [];
    }
    var partsU16 := AsU16(parts);
    var base := total / partsU16;
    var remainder := total % partsU16;
    assert remainder < partsU16 <= parts;
    splits := seq(parts, _ => base);
    var idx := 0;
    while idx < remainder
      invariant 0 <= idx <= remainder <= parts
      invariant |splits| == parts
      invariant forall k :: 0 <= k < parts ==> splits[k] == base + (if k < idx then 1 else 0)
    {
      splits := splits[idx := splits[idx] + 1];
      idx := idx + 1;
    }
  }

  /** The `as u16` cast: the low 16 bits, which leave a value that fits unchanged. */
  function AsU16(n: nat): (r: nat)
    ensures r <= n && r <= U16_MAX
    ensures n <= U16_MAX ==> r == n
  {
    n % 65536
  }

  /** `splits` shares `total` out evenly: the first `total % n` entries get one more. */
  predicate IsEqualSplit(splits: seq<nat>, total: nat)
    requires |splits| > 0
  {
    forall k :: 0 <= k < |splits| ==> splits[k] == total / |splits| + (if k < total % |splits| then 1 else 0)
  }

  /** An equal split sums to the total, and no two entries differ by more than one. */
  lemma EqualSplitSumsToTotal(splits: seq<nat>, total: nat)
    requires |splits| > 0 && IsEqualSplit(splits, total)
    ensures Sum(splits) == total
    ensures forall i, j :: 0 <= i < |splits| && 0 <= j < |splits| ==> splits[i] <= splits[j] + 1
  {
    var n := |splits|;
    var base, rem := total / n, total % n;
    assert base * n + rem == total && rem < n;
    SplitSum(splits, base, rem);
    SplitSpread(splits, base, rem);
  }

  lemma SplitSpread(s: seq<nat>, base: nat, rem: nat)
    requires forall k :: 0 <= k < |s| ==> s[k] == base + (if k < rem then 1 else 0)
    ensures forall i, j :: 0 <= i < |s| && 0 <= j < |s| ==> s[i] <= s[j] + 1
  {
    forall i, j | 0 <= i < |s| && 0 <= j < |s|
      ensures s[i] <= s[j] + 1
    {
      assert s[i] <= base + 1 && base <= s[j];
    }
  }

  lemma {:induction false} SplitSum(s: seq<nat>, base: nat, rem: nat)
    requires rem <= |s|
    requires forall k :: 0 <= k < |s| ==> s[k] == base + (if k < rem then 1 else 0)
    ensures Sum(s) == base * |s| + rem
  {
    if s != [] {
      var rem' := if rem > 0 then rem - 1 else 0;
      SplitSum(s[1..], base, rem');
      assert s[0] == base + rem - rem';
      assert base * |s| == base * |s[1..]| + base;
    }
  }

  // ---------------------------------------------------------------------
  // Agents in panes

  /** A launch is a duplicate when a running pane has the same branch and agent. */
  function IsDuplicateLaunch(branch: string, agent: string, running: seq<AgentPane>): (r: bool)
    ensures r <==> exists k :: 0 <= k < |running| && running[k].branchName == branch && running[k].agentName == agent
  {
    if running == [] then false
    else if running[0].branchName == branch && running[0].agentName == agent then true
    else
      var r := IsDuplicateLaunch(branch, agent, running[1..]);
      assert r ==> exists k :: 0 <= k < |running[1..]| && running[1..][k].branchName == branch && running[1..][k].agentName == agent;
      assert (exists k :: 0 <= k < |running| && running[k].branchName == branch && running[k].agentName == agent) ==>
             (exists k :: 0 <= k < |running[1..]| && running[1..][k].branchName == branch && running[1..][k].agentName == agent);
      r
  }

  /** Known agent commands in the order they are tried. */
  const KnownAgents: seq<string> := ["claude", "codex", "aider", "cursor", "cline", "copilot", "gemini", "gpt"]

  /** The first of `names` that occurs in `text`. */
  function FirstContained(text: string, names: seq<string>): (r: Option<string>)
    ensures r.Some? ==> exists k :: (0 <= k < |names| && names[k] == r.value && Contains(text, names[k])
                                     && forall j :: 0 <= j < k ==> !Contains(text, names[j]))
    ensures r.None? ==> forall k :: 0 <= k < |names| ==> !Contains(text, names[k])
  {
    if names == [] then None
    else if Contains(text, names[0]) then Some(names[0])
    else
      var r := FirstContained(text, names[1..]);
      if r.Some? then
        var k :| 0 <= k < |names[1..]| && names[1..][k] == r.value && Contains(text, names[1..][k])
                 && forall j :: 0 <= j < k ==> !Contains(text, names[1..][j]);
        assert names[k + 1] == r.value;
        r
      else r
  }

  /** The agent a pane's command belongs to, by case-insensitive substring, first match wins. */
  function DetectAgentName(command: string): (r: Option<string>)
    ensures r.Some? ==> exists k :: (0 <= k < |KnownAgents| && KnownAgents[k] == r.value
                                     && Contains(ToLower(command), KnownAgents[k])
                                     && forall j :: 0 <= j < k ==> !Contains(ToLower(command), KnownAgents[j]))
    ensures r.None? ==> forall k :: 0 <= k < |KnownAgents| ==> !Contains(ToLower(command), KnownAgents[k])
  {
    FirstContained(ToLower(command), KnownAgents)
  }
}
