/** Menu ids of the desktop menubar and the names shown for project
    windows. A window's entry carries the id `window-focus::<label>`, an
    agent tab's `window-tab-focus::<id>` and a recent project's
    `recent-project::<path>`; clicking the entry hands the id back, and the
    parsers recover what follows the prefix. Windows whose projects share a
    directory name are told apart by their paths. Paths are split on '/'
    only. */
module Menu {
  import opened Common

  const RECENT_PROJECT_PREFIX: string := "recent-project::"
  const WINDOW_FOCUS_MENU_PREFIX: string := "window-focus::"
  const WINDOW_TAB_FOCUS_MENU_PREFIX: string := "window-tab-focus::"

  // ---------------------------------------------------------------------
  // Menu ids
  // ---------------------------------------------------------------------

  /** The id of a window's entry in the Window menu. */
  function WindowFocusMenuId(windowLabel: string): (id: string)
    ensures StartsWith(id, WINDOW_FOCUS_MENU_PREFIX)
    ensures |id| == |WINDOW_FOCUS_MENU_PREFIX| + |windowLabel|
  {
    WINDOW_FOCUS_MENU_PREFIX + windowLabel
  }

  /** The id of an agent tab's entry. */
  function WindowTabFocusMenuId(tabId: string): (id: string)
    ensures StartsWith(id, WINDOW_TAB_FOCUS_MENU_PREFIX)
    ensures |id| == |WINDOW_TAB_FOCUS_MENU_PREFIX| + |tabId|
  {
    WINDOW_TAB_FOCUS_MENU_PREFIX + tabId
  }

  /** What follows `prefix` in `id`, trimmed; nothing when the prefix is
      missing or only whitespace follows it. */
  function ParseWithPrefix(id: string, prefix: string): (r: Option<string>)
    ensures r.Some? <==> StartsWith(id, prefix) && !IsBlank(id[|prefix|..])
    ensures r.Some? ==> r.value == Trim(id[|prefix|..]) && r.value != []
  {
    match StripPrefix(id, prefix)
    case None => None
    case Some(rest) => if Trim(rest) == [] then None else Some(Trim(rest))
  }

  function ParseRecentProjectMenuId(id: string): (r: Option<string>)
    ensures r == ParseWithPrefix(id, RECENT_PROJECT_PREFIX)
    ensures r.Some? ==> StartsWith(id, RECENT_PROJECT_PREFIX) && r.value != []
  {
    ParseWithPrefix(id, RECENT_PROJECT_PREFIX)
  }

  function ParseWindowFocusMenuId(id: string): (r: Option<string>)
    ensures r == ParseWithPrefix(id, WINDOW_FOCUS_MENU_PREFIX)
    ensures r.Some? ==> StartsWith(id, WINDOW_FOCUS_MENU_PREFIX) && r.value != []
  {
    ParseWithPrefix(id, WINDOW_FOCUS_MENU_PREFIX)
  }

  function ParseWindowTabFocusMenuId(id: string): (r: Option<string>)
    ensures r == ParseWithPrefix(id, WINDOW_TAB_FOCUS_MENU_PREFIX)
    ensures r.Some? ==> StartsWith(id, WINDOW_TAB_FOCUS_MENU_PREFIX) && r.value != []
  {
    ParseWithPrefix(id, WINDOW_TAB_FOCUS_MENU_PREFIX)
  }

  /** A trimmed, non-blank window label survives its menu id. */
  lemma WindowFocusRoundTrip(windowLabel: string)
    requires Trim(windowLabel) == windowLabel && windowLabel != []
    ensures ParseWindowFocusMenuId(WindowFocusMenuId(windowLabel)) == Some(windowLabel)
  {
    var id := WindowFocusMenuId(windowLabel);
    assert id[|WINDOW_FOCUS_MENU_PREFIX|..] == windowLabel;
  }

  /** A trimmed, non-blank tab id survives its menu id. */
  lemma WindowTabFocusRoundTrip(tabId: string)
    requires Trim(tabId) == tabId && tabId != []
    ensures ParseWindowTabFocusMenuId(WindowTabFocusMenuId(tabId)) == Some(tabId)
  {
    var id := WindowTabFocusMenuId(tabId);
    assert id[|WINDOW_TAB_FOCUS_MENU_PREFIX|..] == tabId;
  }

  /** Surrounding whitespace in a label is lost on the way back. */
  lemma WindowFocusTrimsLabel(windowLabel: string)
    requires !IsBlank(windowLabel)
    ensures ParseWindowFocusMenuId(WindowFocusMenuId(windowLabel)) == Some(Trim(windowLabel))
  {
    var id := WindowFocusMenuId(windowLabel);
    assert id[|WINDOW_FOCUS_MENU_PREFIX|..] == windowLabel;
  }

  /** The two window prefixes never mistake each other's ids. */
  lemma FocusIdsAreDistinct(windowLabel: string, tabId: string)
    ensures ParseWindowTabFocusMenuId(WindowFocusMenuId(windowLabel)).None?
    ensures ParseWindowFocusMenuId(WindowTabFocusMenuId(tabId)).None?
  {
    var a := WindowFocusMenuId(windowLabel);
    var b := WindowTabFocusMenuId(tabId);
    assert |a| >= |WINDOW_TAB_FOCUS_MENU_PREFIX| ==> a[7] != WINDOW_TAB_FOCUS_MENU_PREFIX[7];
    assert b[7] != WINDOW_FOCUS_MENU_PREFIX[7];
  }

  // ---------------------------------------------------------------------
  // Window display names
  // ---------------------------------------------------------------------

  /** The pieces of a path that name something: not empty and not ".". */
  function NormalPieces(pieces: seq<string>): (r: seq<string>)
    ensures forall k :: 0 <= k < |r| ==> r[k] != [] && r[k] != "."
    ensures |r| <= |pieces|
  {
    if pieces == [] then []
    else
      var last := pieces[|pieces| - 1];
      NormalPieces(pieces[..|pieces| - 1]) + (if last != [] && last != "." then [last] else [])
  }

  /** `Path::file_name` for '/'-separated paths: the last component, or
      nothing when there is none or it is "..". */
  function FileName(path: string): (r: Option<string>)
    ensures r.Some? ==> r.value != [] && r.value != "." && r.value != ".." && '/' !in r.value
  {
    var pieces := Split(path, '/');
    var normal := NormalPieces(pieces);
    if normal == [] || normal[|normal| - 1] == ".." then None
    else
      assert normal[|normal| - 1] in pieces by { NormalPiecesFrom(pieces, |normal| - 1); }
      Some(normal[|normal| - 1])
  }

  lemma {:induction false} NormalPiecesFrom(pieces: seq<string>, k: nat)
    requires k < |NormalPieces(pieces)|
    ensures NormalPieces(pieces)[k] in pieces
  {
    var init := pieces[..|pieces| - 1];
    if k < |NormalPieces(init)| {
      NormalPiecesFrom(init, k);
    }
  }

  /** `fallback_display_from_path`: the path's last component unless that
      is missing or blank, in which case the whole path. */
  function FallbackDisplay(path: string): (r: string)
    ensures r == path || (FileName(path) == Some(r) && !IsBlank(r))
    ensures FileName(path).None? ==> r == path
  {
    match FileName(path)
    case Some(name) => if IsBlank(name) then path else name
    case None => path
  }

  /** A path ending in a plain name is shown by that name. */
  lemma FallbackIsLastName(dir: string, name: string)
    requires '/' !in name && name != "." && name != ".." && !IsBlank(name)
    ensures FallbackDisplay(dir + "/" + name) == name
  {
    SplitLast(dir, '/', name);
    var pieces := Split(dir + "/" + name, '/');
    assert pieces == pieces[..|pieces| - 1] + [name];
  }

  /** A bare name without '/' is its own display. */
  lemma FallbackOfPlainName(name: string)
    requires '/' !in name && name != "." && name != ".." && !IsBlank(name)
    ensures FallbackDisplay(name) == name
  {
    assert FindChar(name, '/').None?;
    assert Split(name, '/') == [name];
    assert NormalPieces([name]) == NormalPieces([]) + [name];
  }

  // ---------------------------------------------------------------------
  // `disambiguate_project_displays`
  // ---------------------------------------------------------------------

  /** A window label and its project path. */
  type Entry = (string, string)

  /** How many entries share each base name, as the first loop counts
      them. */
  function CountsOf(entries: seq<Entry>): map<string, nat>
  {
    if entries == [] then map[]
    else
      var m := CountsOf(entries[..|entries| - 1]);
      var base := FallbackDisplay(entries[|entries| - 1].1);
      m[base := (if base in m then m[base] else 0) + 1]
  }

  /** The map a loop builds by inserting `f(e)` under each entry's label
      in turn: a later entry with the same label wins. */
  function LabelMap<V>(entries: seq<Entry>, f: Entry -> V): map<string, V>
  {
    if entries == [] then map[]
    else
      var e := entries[|entries| - 1];
      LabelMap(entries[..|entries| - 1], f)[e.0 := f(e)]
  }

  /** The base name of each window label, as the first loop records them. */
  function BasesOf(entries: seq<Entry>): map<string, string>
  {
    LabelMap(entries, BaseOfEntry)
  }

  /** The base name of an entry's path. */
  function BaseOfEntry(e: Entry): string
  {
    FallbackDisplay(e.1)
  }

  /** One entry's display given the recorded bases and counts. */
  function DisplayOf(e: Entry, bases: map<string, string>, counts: map<string, nat>): string
  {
    var base := if e.0 in bases then bases[e.0] else FallbackDisplay(e.1);
    var count := if base in counts then counts[base] else 1;
    if count <= 1 then base else base + " - " + e.1
  }

  /** How many entries have the given base name. */
  function BaseCount(entries: seq<Entry>, base: string): nat
  {
    if entries == [] then 0
    else BaseCount(entries[..|entries| - 1], base) + (if FallbackDisplay(entries[|entries| - 1].1) == base then 1 else 0)
  }

  /** The labels of the entries. */
  function LabelsOf(entries: seq<Entry>): set<string>
  {
    set k | 0 <= k < |entries| :: entries[k].0
  }

  /** The entry is the last one with its label. */
  predicate LastWithLabel(entries: seq<Entry>, k: nat)
  {
    k < |entries| && forall j :: k < j < |entries| ==> entries[j].0 != entries[k].0
  }

  /** The counting map holds exactly the base names seen, with how many
      entries have each. */
  lemma {:induction false} CountsAreBaseCounts(entries: seq<Entry>, base: string)
    ensures base in CountsOf(entries) <==> BaseCount(entries, base) > 0
    ensures base in CountsOf(entries) ==> CountsOf(entries)[base] == BaseCount(entries, base)
  {
    if entries != [] {
      CountsAreBaseCounts(entries[..|entries| - 1], base);
    }
  }

  /** A label maps to the value of its last entry. */
  lemma {:induction false} LabelMapLast<V>(entries: seq<Entry>, k: nat, f: Entry -> V)
    requires LastWithLabel(entries, k)
    ensures entries[k].0 in LabelMap(entries, f)
    ensures LabelMap(entries, f)[entries[k].0] == f(entries[k])
  {
    var n := |entries| - 1;
    if k < n {
      var init := entries[..n];
      assert LastWithLabel(init, k) by {
        forall j | k < j < |init| ensures init[j].0 != init[k].0 {
          assert init[j] == entries[j];
        }
      }
      LabelMapLast(init, k, f);
      assert entries[n].0 != entries[k].0;
      assert init[k] == entries[k];
    }
  }

  /** The map has exactly the labels of the entries. */
  lemma {:induction false} LabelMapKeys<V>(entries: seq<Entry>, f: Entry -> V)
    ensures LabelMap(entries, f).Keys == LabelsOf(entries)
  {
    if entries != [] {
      var init := entries[..|entries| - 1];
      LabelMapKeys(init, f);
      assert LabelsOf(entries) == LabelsOf(init) + {entries[|entries| - 1].0} by {
        forall l | l in LabelsOf(entries) ensures l in LabelsOf(init) + {entries[|entries| - 1].0} {
          var k :| 0 <= k < |entries| && entries[k].0 == l;
          if k < |init| { assert init[k] == entries[k]; }
        }
        forall l | l in LabelsOf(init) ensures l in LabelsOf(entries) {
          var k :| 0 <= k < |init| && init[k].0 == l;
          assert entries[k] == init[k];
        }
      }
    }
  }

  /** The displays `disambiguate_project_displays` returns. */
  function Disambiguated(entries: seq<Entry>): map<string, string>
  {
    DisplaysWith(entries, BasesOf(entries), CountsOf(entries))
  }

  /** Each label's display under given bases and counts. */
  function DisplaysWith(entries: seq<Entry>, bases: map<string, string>, counts: map<string, nat>): map<string, string>
  {
    LabelMap(entries, (e: Entry) => DisplayOf(e, bases, counts))
  }

  /** One more entry: its label now maps to its display. */
  lemma DisplaysWithStep(entries: seq<Entry>, i: nat, bases: map<string, string>, counts: map<string, nat>)
    requires i < |entries|
    ensures DisplaysWith(entries[..i + 1], bases, counts)
         == DisplaysWith(entries[..i], bases, counts)[entries[i].0 := DisplayOf(entries[i], bases, counts)]
  {
    assert entries[..i + 1][..i] == entries[..i];
  }

  /** Every window is listed; a window whose base name no other entry
      shares is shown by that name, and one whose base name is shared is
      shown as "base - path". */
  lemma DisambiguatedMeaning(entries: seq<Entry>, k: nat)
    requires LastWithLabel(entries, k)
    ensures Disambiguated(entries).Keys == LabelsOf(entries)
    ensures var base := FallbackDisplay(entries[k].1);
      Disambiguated(entries)[entries[k].0]
        == if BaseCount(entries, base) <= 1 then base else base + " - " + entries[k].1
  {
    var bases, counts := BasesOf(entries), CountsOf(entries);
    var f := (e: Entry) => DisplayOf(e, bases, counts);
    LabelMapKeys(entries, f);
    LabelMapLast(entries, k, f);
    LabelMapLast(entries, k, BaseOfEntry);
    CountsAreBaseCounts(entries, FallbackDisplay(entries[k].1));
  }

  /** The two loops of `disambiguate_project_displays`. */
  method DisambiguateProjectDisplays(entries: seq<Entry>) returns (out: map<string, string>)
    ensures out == Disambiguated(entries)
    ensures out.Keys == LabelsOf(entries)
  {
    var baseCounts, bases := CountBases(entries);
    out := DisplaysLoop(entries, bases, baseCounts);
    LabelMapKeys(entries, (e: Entry) => DisplayOf(e, bases, baseCounts));
  }

  /** The first loop: how many entries share each base name, and each
      label's base name. */
  method CountBases(entries: seq<Entry>) returns (baseCounts: map<string, nat>, bases: map<string, string>)
    ensures baseCounts == CountsOf(entries)
    ensures bases == BasesOf(entries)
  {
    baseCounts := map[];
    bases := map[];
    var i := 0;
    assert entries[..0] == [];
    while i < |entries|
      invariant i <= |entries|
      invariant baseCounts == CountsOf(entries[..i])
      invariant bases == LabelMap(entries[..i], BaseOfEntry)
    {
      CountBasesStep(entries, i, baseCounts, bases);
      var windowLabel, path := entries[i].0, entries[i].1;
      var base := FallbackDisplay(path);
      baseCounts := baseCounts[base := (if base in baseCounts then baseCounts[base] else 0) + 1];
      bases := bases[windowLabel := base];
      i := i + 1;
    }
    assert entries[..i] == entries;
  }

  /** One more entry: its base name is counted once more and recorded for its label. */
  lemma CountBasesStep(entries: seq<Entry>, i: nat, counts: map<string, nat>, bases: map<string, string>)
    requires i < |entries|
    requires counts == CountsOf(entries[..i]) && bases == LabelMap(entries[..i], BaseOfEntry)
    ensures var base := FallbackDisplay(entries[i].1);
      CountsOf(entries[..i + 1]) == counts[base := (if base in counts then counts[base] else 0) + 1]
      && LabelMap(entries[..i + 1], BaseOfEntry) == bases[entries[i].0 := base]
  {
    assert entries[..i + 1][..i] == entries[..i];
  }

  /** The second loop: each entry's display under the recorded bases and
      counts. */
  method DisplaysLoop(entries: seq<Entry>, bases: map<string, string>, counts: map<string, nat>)
    returns (out: map<string, string>)
    ensures out == DisplaysWith(entries, bases, counts)
    ensures out.Keys == LabelsOf(entries)
  {
    out := map[];
    var i := 0;
    while i < |entries|
      invariant i <= |entries|
      invariant out == DisplaysWith(entries[..i], bases, counts)
    {
      DisplaysWithStep(entries, i, bases, counts);
      out := out[entries[i].0 := DisplayOf(entries[i], bases, counts)];
      i := i + 1;
    }
    assert entries[..i] == entries;
    LabelMapKeys(entries, (e: Entry) => DisplayOf(e, bases, counts));
  }
}
