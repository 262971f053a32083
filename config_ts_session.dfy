/** The session history file shared with the TypeScript front end: recording
    a launch, the latest launch per branch, and the latest launch per tool on
    one branch. Reading and writing the JSON file are left to the caller: the
    loaded data (or its absence) is a parameter. Timestamps are milliseconds. */
module ConfigTsSession {
  import opened Common
  import ConfigSession

  /** One recorded agent launch. */
  datatype ToolSessionEntry = ToolSessionEntry(
    branch: string,
    worktreePath: Option<string>,
    toolId: string,
    toolLabel: string,
    sessionId: Option<string>,
    mode: Option<string>,
    model: Option<string>,
    reasoningLevel: Option<string>,
    skipPermissions: Option<bool>,
    toolVersion: Option<string>,
    timestamp: int)

  /** `ToolSessionEntry::format_tool_usage`: the short tool label, "@", and
      the version or "latest". The label rule is the one sessions use. */
  function FormatToolUsage(e: ToolSessionEntry): (r: string)
    ensures EndsWith(r, "@" + e.toolVersion.GetOr("latest"))
    ensures r == ConfigSession.ShortToolLabel(Some(e.toolId), e.toolLabel) + "@" + e.toolVersion.GetOr("latest")
  {
    var v := "@" + e.toolVersion.GetOr("latest");
    var r := ConfigSession.ShortToolLabel(Some(e.toolId), e.toolLabel) + v;
    assert r[|r| - |v|..] == v;
    r
  }

  /** The whole file. */
  datatype TsSessionData = TsSessionData(
    lastWorktreePath: Option<string>,
    lastBranch: Option<string>,
    lastUsedTool: Option<string>,
    lastSessionId: Option<string>,
    toolLabel: Option<string>,
    toolVersion: Option<string>,
    model: Option<string>,
    timestamp: int,
    repositoryRoot: string,
    history: seq<ToolSessionEntry>)

  /** `save_session_entry` without the file: the loaded data, or a fresh
      record for `mainRoot` created at `now`, with the last-used fields taken
      from the entry and the entry appended to the history. */
  function SaveSessionEntry(loaded: Option<TsSessionData>, mainRoot: string, now: int, entry: ToolSessionEntry): (r: TsSessionData)
    ensures r.history == (if loaded.Some? then loaded.value.history else []) + [entry]
    ensures r.repositoryRoot == (if loaded.Some? then loaded.value.repositoryRoot else mainRoot)
    ensures r.lastBranch == Some(entry.branch) && r.lastWorktreePath == entry.worktreePath
    ensures r.lastUsedTool == Some(entry.toolId) && r.toolLabel == Some(entry.toolLabel)
    ensures r.lastSessionId == entry.sessionId && r.toolVersion == entry.toolVersion
    ensures r.model == entry.model && r.timestamp == entry.timestamp
  {
    var base := loaded.GetOr(TsSessionData(None, None, None, None, None, None, None, now, mainRoot, []));
    base.(lastWorktreePath := entry.worktreePath, lastBranch := Some(entry.branch),
          lastUsedTool := Some(entry.toolId), lastSessionId := entry.sessionId,
          toolLabel := Some(entry.toolLabel), toolVersion := entry.toolVersion,
          model := entry.model, timestamp := entry.timestamp,
          history := base.history + [entry])
  }

  // ---------------------------------------------------------------------
  // Latest entry per key

  function BranchOf(e: ToolSessionEntry): string { e.branch }
  function ToolOf(e: ToolSessionEntry): string { e.toolId }

  /** One step of the reductions: the entry replaces the one kept for its key
      only when it is strictly newer. */
  function Upsert(m: map<string, ToolSessionEntry>, k: string, e: ToolSessionEntry): map<string, ToolSessionEntry>
  {
    if k !in m || m[k].timestamp < e.timestamp then m[k := e] else m
  }

  /** The history folded from the front with `Upsert`. */
  function Latest(h: seq<ToolSessionEntry>, key: ToolSessionEntry -> string): map<string, ToolSessionEntry>
  {
    if h == [] then map[]
    else Upsert(Latest(h[..|h| - 1], key), key(h[|h| - 1]), h[|h| - 1])
  }

  /** Exactly the keys of the history are kept, each with an entry of that key. */
  lemma {:induction false} LatestKeys(h: seq<ToolSessionEntry>, key: ToolSessionEntry -> string, k: string)
    ensures k in Latest(h, key) <==> exists i :: 0 <= i < |h| && key(h[i]) == k
    ensures k in Latest(h, key) ==> key(Latest(h, key)[k]) == k
  {
    if h != [] {
      var p := h[..|h| - 1];
      LatestKeys(p, key, k);
      if k in Latest(p, key) {
        var i :| 0 <= i < |p| && key(p[i]) == k;
        assert h[i] == p[i];
      }
      if exists i :: 0 <= i < |h| && key(h[i]) == k {
        var i :| 0 <= i < |h| && key(h[i]) == k;
        if i < |p| {
          assert p[i] == h[i];
        }
      }
    }
  }

  /** The kept entry is at least as new as every entry of its key. */
  lemma {:induction false} LatestMax(h: seq<ToolSessionEntry>, key: ToolSessionEntry -> string, i: nat)
    requires i < |h|
    ensures key(h[i]) in Latest(h, key)
    ensures h[i].timestamp <= Latest(h, key)[key(h[i])].timestamp
  {
    LatestKeys(h, key, key(h[i]));
    var p := h[..|h| - 1];
    var e := h[|h| - 1];
    if i < |p| {
      assert p[i] == h[i];
      LatestMax(p, key, i);
    }
  }

  /** The kept entry occurs in the history, and every earlier entry of its
      key is strictly older: among equally new entries the first one stays. */
  lemma {:induction false} LatestFirst(h: seq<ToolSessionEntry>, key: ToolSessionEntry -> string, k: string)
    requires k in Latest(h, key)
    ensures exists j :: 0 <= j < |h| && h[j] == Latest(h, key)[k]
              && (forall i :: 0 <= i < j && key(h[i]) == k ==> h[i].timestamp < h[j].timestamp)
  {
    var p := h[..|h| - 1];
    var e := h[|h| - 1];
    var mp := Latest(p, key);
    if key(e) == k && (k !in mp || mp[k].timestamp < e.timestamp) {
      var j := |h| - 1;
      forall i | 0 <= i < j && key(h[i]) == k
        ensures h[i].timestamp < h[j].timestamp
      {
        assert p[i] == h[i];
        LatestMax(p, key, i);
      }
    } else {
      LatestFirst(p, key, k);
      var j :| 0 <= j < |p| && p[j] == mp[k] && (forall i :: 0 <= i < j && key(p[i]) == k ==> p[i].timestamp < p[j].timestamp);
      assert h[j] == p[j];
      forall i | 0 <= i < j && key(h[i]) == k
        ensures h[i].timestamp < h[j].timestamp
      {
        assert h[i] == p[i];
      }
    }
  }

  /** The entry built from the last-used fields when the history is empty. */
  function FallbackEntry(s: TsSessionData, branch: string, worktreePath: string): ToolSessionEntry
  {
    ToolSessionEntry(branch, Some(worktreePath), s.lastUsedTool.GetOr(""),
                     s.toolLabel.GetOr(s.lastUsedTool.GetOr("Custom")),
                     s.lastSessionId, None, s.model, None, None, s.toolVersion, s.timestamp)
  }

  /** `get_last_tool_usage_map` on the loaded data: the latest entry per
      branch, or the single entry rebuilt from the last-used fields when
      there is no history. */
  function LastToolUsage(loaded: Option<TsSessionData>): map<string, ToolSessionEntry>
  {
    match loaded
    case None => map[]
    case Some(s) =>
      var m := Latest(s.history, BranchOf);
      if m == map[] && s.lastBranch.Some? && s.lastWorktreePath.Some?
      then map[s.lastBranch.value := FallbackEntry(s, s.lastBranch.value, s.lastWorktreePath.value)]
      else m
  }

  /** The loop of `get_last_tool_usage_map`. */
  method GetLastToolUsageMap(loaded: Option<TsSessionData>) returns (m: map<string, ToolSessionEntry>)
    ensures m == LastToolUsage(loaded)
  {
    m := map[];
    if loaded.None? {
      return;
    }
    var s := loaded.value;
    var i := 0;
    while i < |s.history|
      invariant 0 <= i <= |s.history|
      invariant m == Latest(s.history[..i], BranchOf)
    {
      var entry := s.history[i];
      assert s.history[..i + 1][..i] == s.history[..i];
      if entry.branch !in m || m[entry.branch].timestamp < entry.timestamp {
        m := m[entry.branch := entry];
      }
      i := i + 1;
    }
    assert s.history[..i] == s.history;
    if m == map[] {
      if s.lastBranch.Some? && s.lastWorktreePath.Some? {
        m := m[s.lastBranch.value := FallbackEntry(s, s.lastBranch.value, s.lastWorktreePath.value)];
      }
    }
  }

  /** The rebuilt entry is used only for a file without history. */
  lemma FallbackOnlyWithoutHistory(s: TsSessionData)
    ensures s.history != [] ==> LastToolUsage(Some(s)) == Latest(s.history, BranchOf)
    ensures s.history == [] ==> (LastToolUsage(Some(s)) == map[] <==> s.lastBranch.None? || s.lastWorktreePath.None?)
  {
    if s.history != [] {
      LatestKeys(s.history, BranchOf, s.history[0].branch);
    } else if s.lastBranch.Some? && s.lastWorktreePath.Some? {
      assert s.lastBranch.value in LastToolUsage(Some(s));
    }
  }

  /** A launch saved with a timestamp newer than every earlier launch on its
      branch is the branch's last tool usage afterwards. */
  lemma SavedEntryIsLatest(loaded: Option<TsSessionData>, mainRoot: string, now: int, entry: ToolSessionEntry)
    requires loaded.Some? ==> forall e :: e in loaded.value.history && e.branch == entry.branch ==> e.timestamp < entry.timestamp
    ensures var m := LastToolUsage(Some(SaveSessionEntry(loaded, mainRoot, now, entry)));
            entry.branch in m && m[entry.branch] == entry
  {
    var s := SaveSessionEntry(loaded, mainRoot, now, entry);
    var h := s.history;
    var p := h[..|h| - 1];
    assert p == (if loaded.Some? then loaded.value.history else []);
    LatestKeys(h, BranchOf, entry.branch);
    assert h[|h| - 1] == entry;
    if entry.branch in Latest(p, BranchOf) {
      LatestKeys(p, BranchOf, entry.branch);
      LatestFirst(p, BranchOf, entry.branch);
    }
  }

  // ---------------------------------------------------------------------
  // Per-tool history of one branch

  function OnBranch(h: seq<ToolSessionEntry>, branch: string): (r: seq<ToolSessionEntry>)
    ensures forall e :: e in r <==> e in h && e.branch == branch
  {
    if h == [] then []
    else OnBranch(h[..|h| - 1], branch) + (if h[|h| - 1].branch == branch then [h[|h| - 1]] else [])
  }

  predicate NotOlder(a: ToolSessionEntry, b: ToolSessionEntry) { a.timestamp >= b.timestamp }

  lemma NotOlderPreorder()
    ensures Total(NotOlder) && Transitive(NotOlder)
  {
  }

  /** `get_branch_tool_history`: for the branch, the latest entry of each
      tool, most recent first. The source collects them out of a hash map,
      whose order is unspecified; the model takes them in an arbitrary order
      before the stable sort, so equally new entries may come in any order. */
  method GetBranchToolHistory(loaded: Option<TsSessionData>, branch: string) returns (entries: seq<ToolSessionEntry>)
    ensures loaded.None? ==> entries == []
    ensures loaded.Some? ==> (forall e :: e in entries <==> e in Latest(OnBranch(loaded.value.history, branch), ToolOf).Values)
    ensures loaded.Some? ==> |entries| == |Latest(OnBranch(loaded.value.history, branch), ToolOf)|
    ensures forall i, j :: 0 <= i < j < |entries| ==> entries[i].timestamp >= entries[j].timestamp
  {
    if loaded.None? {
      return [];
    }
    var toolMap := LatestPerTool(loaded.value.history, branch);
    forall k | k in toolMap
      ensures toolMap[k].toolId == k
    {
      LatestKeys(OnBranch(loaded.value.history, branch), ToolOf, k);
    }
    var values := MapValues(toolMap);
    NotOlderPreorder();
    entries := SortBy(values, NotOlder);
    forall a, b | 0 <= a < b < |entries|
      ensures entries[a].timestamp >= entries[b].timestamp
    {
      SortedByGlobal(entries, NotOlder, a, b);
    }
    assert forall e :: e in entries <==> e in multiset(values);
  }

  /** The loop of `get_branch_tool_history`: the branch's entries reduced to
      the latest per tool. */
  method LatestPerTool(h: seq<ToolSessionEntry>, branch: string) returns (toolMap: map<string, ToolSessionEntry>)
    ensures toolMap == Latest(OnBranch(h, branch), ToolOf)
  {
    toolMap := map[];
    var i := 0;
    while i < |h|
      invariant 0 <= i <= |h|
      invariant toolMap == Latest(OnBranch(h[..i], branch), ToolOf)
    {
      LatestPerToolStep(h, i, branch);
      if h[i].branch == branch {
        var entry := h[i];
        if entry.toolId !in toolMap || toolMap[entry.toolId].timestamp < entry.timestamp {
          toolMap := toolMap[entry.toolId := entry];
        }
      }
      i := i + 1;
    }
    assert h[..i] == h;
  }

  /** One more entry of the history: upserted when it is on the branch, skipped otherwise. */
  lemma LatestPerToolStep(h: seq<ToolSessionEntry>, i: nat, branch: string)
    requires i < |h|
    ensures var before := Latest(OnBranch(h[..i], branch), ToolOf);
      Latest(OnBranch(h[..i + 1], branch), ToolOf) ==
        if h[i].branch == branch then Upsert(before, h[i].toolId, h[i]) else before
  {
    assert h[..i + 1][..i] == h[..i];
    if h[i].branch == branch {
      assert OnBranch(h[..i + 1], branch) == OnBranch(h[..i], branch) + [h[i]];
    } else {
      assert OnBranch(h[..i + 1], branch) == OnBranch(h[..i], branch);
    }
  }

  /** `HashMap::into_values` in some order: each key's value once. Values of
      distinct keys differ, because each entry carries its own key. */
  method MapValues(m: map<string, ToolSessionEntry>) returns (vs: seq<ToolSessionEntry>)
    requires forall k :: k in m ==> m[k].toolId == k
    ensures forall e :: e in vs <==> e in m.Values
    ensures |vs| == |m|
  {
    vs := [];
    var rest := m;
    while rest != map[]
      invariant rest.Keys <= m.Keys
      invariant forall k :: k in rest ==> rest[k] == m[k]
      invariant forall e :: e in vs <==> e in m.Values && e.toolId !in rest
      invariant |vs| + |rest| == |m|
      decreases |rest|
    {
      var k :| k in rest;
      vs := vs + [rest[k]];
      rest := rest - {k};
    }
  }
}
