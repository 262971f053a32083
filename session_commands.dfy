/** The agent sidebar's text handling: tasks read from a tasks.md checklist,
    the latest recorded launch per tool and branch, the normalised tool and
    branch names they are keyed by, and the status and order of each task. */
module SessionCommands {
  import opened Common
  import ConfigTsSession

  // ---------------------------------------------------------------------
  // Task identifiers

  /** `looks_like_task_id`: 'T' followed by one or more ASCII digits. */
  predicate LooksLikeTaskId(token: string)
    ensures LooksLikeTaskId(token) ==> |token| >= 2 && IsDigit(token[|token| - 1]) && 'T' !in token[1..]
  {
    |token| >= 2 && token[0] == 'T' && AllDigits(token[1..])
  }

  lemma TaskIdShape(digits: string)
    ensures LooksLikeTaskId("T" + digits) <==> digits != [] && AllDigits(digits)
  {
    assert ("T" + digits)[1..] == digits;
  }

  /** A task id is already upper case. */
  lemma TaskIdUpper(token: string)
    requires LooksLikeTaskId(token)
    ensures ToUpper(token) == token
  {
    forall i | 0 <= i < |token|
      ensures Upper(token[i]) == token[i]
    {
      if i > 0 {
        assert token[i] == token[1..][i - 1];
      }
    }
  }

  function TrimNonAlnumStart(s: string): (r: string)
    ensures |r| <= |s| && r == s[|s| - |r|..]
    ensures r == [] || IsAlnum(r[0])
    ensures forall i :: 0 <= i < |s| - |r| ==> !IsAlnum(s[i])
  {
    if s != [] && !IsAlnum(s[0]) then
      var r := TrimNonAlnumStart(s[1..]);
      assert s[1..][|s| - 1 - |r|..] == s[|s| - |r|..];
      assert forall i :: 1 <= i < |s| - |r| ==> s[i] == s[1..][i - 1];
      r
    else s
  }

  function TrimNonAlnumEnd(s: string): (r: string)
    ensures |r| <= |s| && r == s[..|r|]
    ensures r == [] || IsAlnum(r[|r| - 1])
    ensures forall i :: |r| <= i < |s| ==> !IsAlnum(s[i])
  {
    if s != [] && !IsAlnum(s[|s| - 1]) then
      var r := TrimNonAlnumEnd(s[..|s| - 1]);
      assert s[..|s| - 1][..|r|] == s[..|r|];
      r
    else s
  }

  /** `trim_matches(|c| !c.is_ascii_alphanumeric())`: both ends start and finish at a letter or digit. */
  function TrimNonAlnum(s: string): (r: string)
    ensures r == [] || (IsAlnum(r[0]) && IsAlnum(r[|r| - 1]))
    ensures |r| <= |s|
  {
    var t := TrimNonAlnumStart(s);
    var r := TrimNonAlnumEnd(t);
    assert r != [] ==> r[0] == t[0];
    r
  }

  /** A whitespace-separated token that names a task once its punctuation is trimmed. */
  predicate IdToken(token: string)
  {
    LooksLikeTaskId(TrimNonAlnum(token))
  }

  /** The position of the first element satisfying `p`, if any. */
  function FirstWhere<T>(s: seq<T>, p: T -> bool): (r: Option<nat>)
    ensures r.Some? ==> r.value < |s| && p(s[r.value]) && forall m :: 0 <= m < r.value ==> !p(s[m])
    ensures r.None? ==> forall m :: 0 <= m < |s| ==> !p(s[m])
  {
    if s == [] then None
    else if p(s[0]) then Some(0)
    else
      var r := FirstWhere(s[1..], p);
      assert forall m :: 1 <= m < |s| ==> s[m] == s[1..][m - 1];
      if r.Some? then Some(r.value + 1) else None
  }

  /** The id the token loop of `parse_tasks_markdown` finds, upper-cased. */
  function FirstTaskId(tokens: seq<string>): (r: Option<string>)
    ensures r.Some? <==> exists k :: 0 <= k < |tokens| && IdToken(tokens[k])
    ensures r.Some? ==> LooksLikeTaskId(r.value)
  {
    match FirstWhere(tokens, IdToken)
    case None => None
    case Some(k) =>
      TaskIdUpper(TrimNonAlnum(tokens[k]));
      Some(ToUpper(TrimNonAlnum(tokens[k])))
  }

  /** The id found is the first id token itself, already upper case. */
  lemma FirstTaskIdAt(tokens: seq<string>, k: nat)
    requires k < |tokens| && IdToken(tokens[k]) && forall m :: 0 <= m < k ==> !IdToken(tokens[m])
    ensures FirstTaskId(tokens) == Some(TrimNonAlnum(tokens[k]))
  {
    var j := FirstWhere(tokens, IdToken).value;
    assert j == k;
    TaskIdUpper(TrimNonAlnum(tokens[k]));
  }

  /** One more token that is not an id keeps the prefix free of ids. */
  lemma NoIdTokenStep(tokens: seq<string>, i: nat)
    requires i < |tokens|
    requires forall m :: 0 <= m < i ==> !IdToken(tokens[m])
    requires !LooksLikeTaskId(TrimNonAlnum(tokens[i]))
    ensures forall m :: 0 <= m < i + 1 ==> !IdToken(tokens[m])
  {
  }

  /** The token loop: the first whitespace-separated token that trims to a task id. */
  method FindTaskId(body: string) returns (id: Option<string>)
    ensures id == FirstTaskId(Words(body))
  {
    var tokens := Words(body);
    var i := 0;
    while i < |tokens|
      invariant 0 <= i <= |tokens|
      invariant forall m :: 0 <= m < i ==> !IdToken(tokens[m])
    {
      var normalized := TrimNonAlnum(tokens[i]);
      if LooksLikeTaskId(normalized) {
        FirstTaskIdAt(tokens, i);
        TaskIdUpper(normalized);
        return Some(ToUpper(normalized));
      }
      NoIdTokenStep(tokens, i);
      i := i + 1;
    }
    return None;
  }

  // ---------------------------------------------------------------------
  // tasks.md

  datatype ParsedTask = ParsedTask(id: string, title: string, baseStatus: string)

  const OPEN_BOX: string := "- [ ]"
  const DONE_BOX: string := "- [x]"
  const DONE_BOX_UPPER: string := "- [X]"

  /**
   * A checklist line: whether it is ticked and its trimmed text; None for
   * any other line and for an item with no text.
   */
  function TaskLine(line: string): (r: Option<(bool, string)>)
    ensures r.Some? ==> r.value.1 != [] && Trim(r.value.1) == r.value.1
    ensures r.Some? ==> (!r.value.0 <==> StartsWith(TrimStart(line), OPEN_BOX))
    ensures r.Some? ==>
      (StartsWith(TrimStart(line), OPEN_BOX) || StartsWith(TrimStart(line), DONE_BOX)
       || StartsWith(TrimStart(line), DONE_BOX_UPPER))
  {
    var t := TrimStart(line);
    var marked :=
      if StartsWith(t, OPEN_BOX) then Some((false, t[5..]))
      else if StartsWith(t, DONE_BOX) then Some((true, t[5..]))
      else if StartsWith(t, DONE_BOX_UPPER) then Some((true, t[5..]))
      else None;
    if marked.None? then None
    else
      var body := Trim(marked.value.1);
      TrimIdempotent(marked.value.1);
      if body == [] then None else Some((marked.value.0, body))
  }

  /** A ticked box in either case and an empty box are read as such, with the text trimmed. */
  lemma TaskLineOf(marker: string, text: string)
    requires marker == OPEN_BOX || marker == DONE_BOX || marker == DONE_BOX_UPPER
    requires !IsBlank(text)
    ensures TaskLine(marker + text) == Some((marker != OPEN_BOX, Trim(text)))
  {
    var line := marker + text;
    assert TrimStart(line) == line;
    assert line[..5] == marker && line[5..] == text;
    if marker != OPEN_BOX {
      assert line[3] != ' ';
    }
    if marker == DONE_BOX_UPPER {
      assert line[3] != 'x';
    }
  }

  /** The id of the task with this text: its own id, or "TASK-<count + 1>". */
  function TaskId(body: string, count: nat): string
  {
    match FirstTaskId(Words(body))
    case Some(id) => id
    case None => "TASK-" + NatToString(count + 1)
  }

  /** What every parsed task satisfies: trimmed non-empty text and one of the two checklist states. */
  predicate WellFormedTask(t: ParsedTask)
  {
    t.title != [] && Trim(t.title) == t.title && (t.baseStatus == "completed" || t.baseStatus == "pending")
  }

  /** The task one line contributes, given how many came before it. */
  function LineTask(line: string, count: nat): (r: seq<ParsedTask>)
    ensures |r| == 1 <==> TaskLine(line).Some?
    ensures |r| <= 1
    ensures forall t :: t in r ==> WellFormedTask(t)
  {
    match TaskLine(line)
    case None => []
    case Some((done, body)) => [ParsedTask(TaskId(body, count), body, if done then "completed" else "pending")]
  }

  lemma LineTaskOf(line: string, count: nat)
    ensures TaskLine(line).None? ==> LineTask(line, count) == []
    ensures TaskLine(line).Some? ==> LineTask(line, count) == [ParsedTask(TaskId(TaskLine(line).value.1, count),
      TaskLine(line).value.1, if TaskLine(line).value.0 then "completed" else "pending")]
  {
  }

  /** The id found in the text, or the numbered fallback. */
  method AssignTaskId(body: string, count: nat) returns (id: string)
    ensures id == TaskId(body, count)
  {
    var found := FindTaskId(body);
    id := if found.Some? then found.value else "TASK-" + NatToString(count + 1);
  }

  /** The tasks of the lines so far, as `parse_tasks_markdown` accumulates them. */
  function TasksOf(lines: seq<string>): (r: seq<ParsedTask>)
    ensures |r| <= |lines|
    ensures forall k :: 0 <= k < |r| ==> WellFormedTask(r[k])
  {
    if lines == [] then []
    else
      var prev := TasksOf(lines[..|lines| - 1]);
      var next := LineTask(lines[|lines| - 1], |prev|);
      assert forall k :: |prev| <= k < |prev + next| ==> (prev + next)[k] in next;
      prev + next
  }

  /** One more line appends what that line contributes. */
  lemma TasksOfStep(lines: seq<string>, i: nat)
    requires i < |lines|
    ensures TasksOf(lines[..i + 1]) == TasksOf(lines[..i]) + LineTask(lines[i], |TasksOf(lines[..i])|)
  {
    assert lines[..i + 1][..i] == lines[..i];
  }

  /** The number of lines that are checklist items with text. */
  function TaskLineCount(lines: seq<string>): nat
  {
    if lines == [] then 0
    else TaskLineCount(lines[..|lines| - 1]) + (if TaskLine(lines[|lines| - 1]).Some? then 1 else 0)
  }

  /** There is one task per checklist line with text. */
  lemma {:induction false} TasksOfCount(lines: seq<string>)
    ensures |TasksOf(lines)| == TaskLineCount(lines)
  {
    if lines != [] {
      TasksOfCount(lines[..|lines| - 1]);
    }
  }

  /** `parse_tasks_markdown`: one task per checklist line with text, in order. */
  method ParseTasksMarkdown(content: string) returns (out: seq<ParsedTask>)
    ensures out == TasksOf(Lines(content))
  {
    var lines := Lines(content);
    out := [];
    var i := 0;
    while i < |lines|
      invariant 0 <= i <= |lines|
      invariant out == TasksOf(lines[..i])
    {
      TasksOfStep(lines, i);
      LineTaskOf(lines[i], |out|);
      var item := TaskLine(lines[i]);
      if item.Some? {
        var done := item.value.0;
        var body := item.value.1;
        var id := AssignTaskId(body, |out|);
        out := out + [ParsedTask(id, body, if done then "completed" else "pending")];
      }
      i := i + 1;
    }
    assert lines[..i] == lines;
  }

  // ---------------------------------------------------------------------
  // Tool and branch names

  /** The canonical id for each accepted spelling of a built-in agent. */
  function CanonicalToolId(id: string): (r: string)
    ensures r == id || r in CANONICAL_TOOL_IDS
  {
    if id == "claude" || id == "claude-code" then "claude-code"
    else if id == "codex" || id == "codex-cli" then "codex-cli"
    else if id == "gemini" || id == "gemini-cli" then "gemini-cli"
    else if id == "opencode" || id == "open-code" then "opencode"
    else id
  }

  const CANONICAL_TOOL_IDS: seq<string> := ["claude-code", "codex-cli", "gemini-cli", "opencode"]

  /** `normalize_tool_id`: trimmed, lower case, and aliases mapped to the canonical id. */
  function NormalizeToolId(toolId: string): (r: string)
    ensures r in CANONICAL_TOOL_IDS || r == ToLower(Trim(toolId))
    ensures Trim(r) == r && ToLower(r) == r
  {
    TrimmedEnds(Trim(toolId));
    LowerKeepsTrim(Trim(toolId));
    ToLowerIdempotent(Trim(toolId));
    var c := CanonicalToolId(ToLower(Trim(toolId)));
    if c in CANONICAL_TOOL_IDS then CanonicalLower(c); c else c
  }

  /** Lower-casing keeps text trimmed. */
  lemma LowerKeepsTrim(s: string)
    requires Trim(s) == s
    ensures Trim(ToLower(s)) == ToLower(s)
  {
    TrimmedEnds(ToLower(s));
  }

  /** Each canonical id is trimmed and lower case. */
  lemma CanonicalLower(id: string)
    requires id in CANONICAL_TOOL_IDS
    ensures Trim(id) == id && ToLower(id) == id
  {
    TrimmedEnds(id);
    if id == "claude-code" {
      assert forall i :: 0 <= i < |"claude-code"| ==> !IsUpper("claude-code"[i]);
    } else if id == "codex-cli" {
      assert forall i :: 0 <= i < |"codex-cli"| ==> !IsUpper("codex-cli"[i]);
    } else if id == "gemini-cli" {
      assert forall i :: 0 <= i < |"gemini-cli"| ==> !IsUpper("gemini-cli"[i]);
    } else {
      assert forall i :: 0 <= i < |"opencode"| ==> !IsUpper("opencode"[i]);
    }
    LowercaseUnchanged(id);
  }

  /** Each canonical id is its own canonical form. */
  lemma CanonicalSelf(id: string)
    requires id in CANONICAL_TOOL_IDS
    ensures CanonicalToolId(id) == id
  {
  }

  /** Text that is trimmed, lower case and canonical is a normal form. */
  lemma NormalFormFixed(id: string)
    requires Trim(id) == id && ToLower(id) == id && CanonicalToolId(id) == id
    ensures NormalizeToolId(id) == id
  {
  }

  /** Normalising a normalised tool id changes nothing. */
  lemma NormalizeToolIdIdempotent(toolId: string)
    ensures NormalizeToolId(NormalizeToolId(toolId)) == NormalizeToolId(toolId)
  {
    var id := ToLower(Trim(toolId));
    var r := CanonicalToolId(id);
    if r in CANONICAL_TOOL_IDS {
      CanonicalLower(r);
      CanonicalSelf(r);
      NormalFormFixed(r);
    } else {
      TrimIdempotent(toolId);
      LowerKeepsTrim(Trim(toolId));
      LowercaseUnchanged(id);
    }
  }

  /** Every spelling of a built-in agent, in any case and spacing, maps to its canonical id. */
  lemma AliasesAgree(a: string, b: string)
    requires ToLower(Trim(a)) in ["claude", "claude-code"] && ToLower(Trim(b)) in ["claude", "claude-code"]
    ensures NormalizeToolId(a) == NormalizeToolId(b) == "claude-code"
  {
    assert CanonicalToolId(ToLower(Trim(a))) == "claude-code";
    assert CanonicalToolId(ToLower(Trim(b))) == "claude-code";
  }

  const ORIGIN: string := "origin/"

  /** `normalize_branch_name`: trimmed, with one leading "origin/" removed. */
  function NormalizeBranchName(branch: string): (r: string)
    ensures |r| <= |branch|
    ensures StartsWith(Trim(branch), ORIGIN) ==> Trim(branch) == ORIGIN + r
    ensures !StartsWith(Trim(branch), ORIGIN) ==> r == Trim(branch)
  {
    var trimmed := Trim(branch);
    TrimStartIsSuffix(branch);
    TrimEndIsPrefix(TrimStart(branch));
    if StartsWith(trimmed, ORIGIN) then trimmed[7..] else trimmed
  }

  /** A result that is trimmed and does not start with "origin/" is kept as it is. */
  lemma NormalizeBranchStable(branch: string)
    requires var r := NormalizeBranchName(branch); Trim(r) == r && !StartsWith(r, ORIGIN)
    ensures NormalizeBranchName(NormalizeBranchName(branch)) == NormalizeBranchName(branch)
  {
  }

  /** Only one "origin/" is removed, so normalising is not idempotent in general. */
  lemma NormalizeBranchTwice(name: string)
    requires name != [] && !IsSpace(name[|name| - 1])
    ensures NormalizeBranchName(ORIGIN + ORIGIN + name) == ORIGIN + name
    ensures NormalizeBranchName(ORIGIN + name) == name
  {
    var once := ORIGIN + name;
    var twice := ORIGIN + ORIGIN + name;
    assert TrimStart(once) == once && TrimEnd(once) == once;
    assert TrimStart(twice) == twice && TrimEnd(twice) == twice;
    assert once[..7] == ORIGIN && once[7..] == name;
    assert twice[..7] == ORIGIN && twice[7..] == once;
  }

  // ---------------------------------------------------------------------
  // Latest launch per tool and branch

  type Entry = ConfigTsSession.ToolSessionEntry

  /** The key a launch is de-duplicated by: normalised tool, "::", normalised branch. */
  function Key(e: Entry): string
  {
    NormalizeToolId(e.toolId) + "::" + NormalizeBranchName(e.branch)
  }

  /** Some element of `s` has key `k`. */
  predicate HasKey<T, K(==,!new)>(s: seq<T>, key: T -> K, k: K)
  {
    exists m :: 0 <= m < |s| && key(s[m]) == k
  }

  lemma HasKeySnoc<T, K(!new)>(s: seq<T>, key: T -> K, e: T)
    ensures forall k :: HasKey(s + [e], key, k) <==> HasKey(s, key, k) || k == key(e)
  {
    forall k | HasKey(s + [e], key, k)
      ensures HasKey(s, key, k) || k == key(e)
    {
      var m :| 0 <= m < |s + [e]| && key((s + [e])[m]) == k;
      if m < |s| {
        assert (s + [e])[m] == s[m];
      }
    }
    forall k | HasKey(s, key, k)
      ensures HasKey(s + [e], key, k)
    {
      var m :| 0 <= m < |s| && key(s[m]) == k;
      assert (s + [e])[m] == s[m];
    }
    assert (s + [e])[|s|] == e;
  }

  /** The first element of each key, in order, as a `seen` set of keys keeps them. */
  function FirstPerKey<T, K(==,!new)>(s: seq<T>, key: T -> K): (r: seq<T>)
    ensures forall x :: x in r ==> x in s
    ensures forall i, j :: 0 <= i < j < |r| ==> key(r[i]) != key(r[j])
    ensures forall k :: HasKey(r, key, k) <==> HasKey(s, key, k)
  {
    if s == [] then []
    else
      var prev := FirstPerKey(s[..|s| - 1], key);
      var e := s[|s| - 1];
      HasKeySnoc(s[..|s| - 1], key, e);
      assert s == s[..|s| - 1] + [e];
      if HasKey(prev, key, key(e)) then prev
      else
        HasKeySnoc(prev, key, e);
        prev + [e]
  }

  /** Every kept element is at least as new as every element with its key. */
  ghost predicate KeptAreLatest<T, K(!new)>(s: seq<T>, key: T -> K, stamp: T -> int)
  {
    forall x, e :: x in FirstPerKey(s, key) && e in s && key(e) == key(x) ==> stamp(e) <= stamp(x)
  }

  lemma FirstPerKeySnoc<T, K(!new)>(s: seq<T>, key: T -> K, e: T)
    ensures FirstPerKey(s + [e], key) == if HasKey(s, key, key(e)) then FirstPerKey(s, key) else FirstPerKey(s, key) + [e]
  {
    assert (s + [e])[..|s|] == s;
  }

  lemma LatestSnoc<T, K(!new)>(init: seq<T>, key: T -> K, stamp: T -> int, last: T)
    requires KeptAreLatest(init, key, stamp)
    requires forall y :: y in init ==> stamp(y) >= stamp(last)
    ensures KeptAreLatest(init + [last], key, stamp)
  {
    var prev := FirstPerKey(init, key);
    FirstPerKeySnoc(init, key, last);
    forall x, e | x in FirstPerKey(init + [last], key) && e in init + [last] && key(e) == key(x)
      ensures stamp(e) <= stamp(x)
    {
      if x in prev {
        assert x in init;
      } else {
        assert x == last && !HasKey(init, key, key(x));
      }
    }
  }

  /** When `s` runs from newest to oldest, each kept element is at least as new as every element with its key. */
  lemma {:induction false} FirstPerKeyLatest<T, K(!new)>(s: seq<T>, key: T -> K, stamp: T -> int)
    requires forall i, j :: 0 <= i < j < |s| ==> stamp(s[i]) >= stamp(s[j])
    ensures KeptAreLatest(s, key, stamp)
  {
    if s != [] {
      var init := s[..|s| - 1];
      FirstPerKeyLatest(init, key, stamp);
      forall y | y in init
        ensures stamp(y) >= stamp(s[|s| - 1])
      {
        var p :| 0 <= p < |init| && init[p] == y;
        assert s[p] == y;
      }
      LatestSnoc(init, key, stamp, s[|s| - 1]);
      assert s == init + [s[|s| - 1]];
    }
  }

  /** `dedupe_current_sub_agents`: newest first, then the first entry of each key. */
  method DedupeCurrentSubAgents(entries: seq<Entry>) returns (deduped: seq<Entry>)
    ensures deduped == FirstPerKey(SortBy(entries, ConfigTsSession.NotOlder), Key)
    ensures forall x :: x in deduped ==> x in entries
    ensures forall i, j :: 0 <= i < j < |deduped| ==> Key(deduped[i]) != Key(deduped[j])
    ensures forall k :: HasKey(deduped, Key, k) <==> HasKey(entries, Key, k)
    ensures forall x, e :: x in deduped && e in entries && Key(e) == Key(x) ==> e.timestamp <= x.timestamp
  {
    ConfigTsSession.NotOlderPreorder();
    var sorted := SortBy(entries, ConfigTsSession.NotOlder);
    NewestFirst(entries, sorted);
    deduped := KeepFirstPerKey(sorted);
  }

  /** The `seen`-set loop of `dedupe_current_sub_agents` over the sorted entries. */
  method KeepFirstPerKey(sorted: seq<Entry>) returns (deduped: seq<Entry>)
    ensures deduped == FirstPerKey(sorted, Key)
  {
    deduped := [];
    var seen: set<string> := {};
    var i := 0;
    while i < |sorted|
      invariant 0 <= i <= |sorted|
      invariant deduped == FirstPerKey(sorted[..i], Key)
      invariant forall k :: k in seen <==> HasKey(sorted[..i], Key, k)
    {
      DedupeStep(sorted, i);
      var key := Key(sorted[i]);
      if key !in seen {
        seen := seen + {key};
        deduped := deduped + [sorted[i]];
      }
      i := i + 1;
    }
    assert sorted[..i] == sorted;
  }

  /** What sorting newest first gives the de-duplication: the same entries, in timestamp order. */
  lemma NewestFirst(entries: seq<Entry>, sorted: seq<Entry>)
    requires Total(ConfigTsSession.NotOlder) && Transitive(ConfigTsSession.NotOlder)
    requires sorted == SortBy(entries, ConfigTsSession.NotOlder)
    ensures forall x, e :: x in FirstPerKey(sorted, Key) && e in entries && Key(e) == Key(x) ==> e.timestamp <= x.timestamp
    ensures forall x :: x in FirstPerKey(sorted, Key) ==> x in entries
    ensures forall k :: HasKey(FirstPerKey(sorted, Key), Key, k) <==> HasKey(entries, Key, k)
  {
    assert forall x :: x in sorted <==> x in entries by {
      assert forall x :: x in sorted <==> x in multiset(sorted);
      assert forall x :: x in entries <==> x in multiset(entries);
    }
    NewestFirstOrder(sorted);
    FirstPerKeyNewest(entries, sorted, Key, (e: Entry) => e.timestamp);
  }

  /** The first entry per key of a list ordered newest first is the newest of
      its key among the same entries in any order. */
  lemma FirstPerKeyNewest<T, K(!new)>(entries: seq<T>, sorted: seq<T>, key: T -> K, stamp: T -> int)
    requires forall x :: x in sorted <==> x in entries
    requires forall i, j :: 0 <= i < j < |sorted| ==> stamp(sorted[i]) >= stamp(sorted[j])
    ensures forall x, e :: x in FirstPerKey(sorted, key) && e in entries && key(e) == key(x) ==> stamp(e) <= stamp(x)
    ensures forall x :: x in FirstPerKey(sorted, key) ==> x in entries
    ensures forall k :: HasKey(FirstPerKey(sorted, key), key, k) <==> HasKey(entries, key, k)
  {
    FirstPerKeyLatest(sorted, key, stamp);
    SameKeys(sorted, entries, key);
  }

  lemma NewestFirstOrder(sorted: seq<Entry>)
    requires Total(ConfigTsSession.NotOlder) && Transitive(ConfigTsSession.NotOlder)
    requires SortedBy(sorted, ConfigTsSession.NotOlder)
    ensures forall i, j :: 0 <= i < j < |sorted| ==> sorted[i].timestamp >= sorted[j].timestamp
  {
    forall i, j | 0 <= i < j < |sorted|
      ensures sorted[i].timestamp >= sorted[j].timestamp
    {
      SortedByGlobal(sorted, ConfigTsSession.NotOlder, i, j);
    }
  }

  /** One loop step: the next entry is kept exactly when its key is new. */
  lemma DedupeStep(sorted: seq<Entry>, i: nat)
    requires i < |sorted|
    ensures FirstPerKey(sorted[..i + 1], Key) == if HasKey(sorted[..i], Key, Key(sorted[i]))
      then FirstPerKey(sorted[..i], Key) else FirstPerKey(sorted[..i], Key) + [sorted[i]]
    ensures forall k :: HasKey(sorted[..i + 1], Key, k) <==> HasKey(sorted[..i], Key, k) || k == Key(sorted[i])
  {
    assert sorted[..i + 1] == sorted[..i] + [sorted[i]];
    FirstPerKeySnoc(sorted[..i], Key, sorted[i]);
    HasKeySnoc(sorted[..i], Key, sorted[i]);
  }

  lemma SameKeys<T, K(!new)>(a: seq<T>, b: seq<T>, key: T -> K)
    requires forall x :: x in a <==> x in b
    ensures forall k :: HasKey(a, key, k) <==> HasKey(b, key, k)
  {
    forall k | HasKey(a, key, k)
      ensures HasKey(b, key, k)
    {
      var m :| 0 <= m < |a| && key(a[m]) == k;
      assert a[m] in b;
      var n :| 0 <= n < |b| && b[n] == a[m];
    }
    forall k | HasKey(b, key, k)
      ensures HasKey(a, key, k)
    {
      var m :| 0 <= m < |b| && key(b[m]) == k;
      assert b[m] in a;
      var n :| 0 <= n < |a| && a[n] == b[m];
    }
  }

  // ---------------------------------------------------------------------
  // Task status and order

  /**
   * The status a task shows given its sub-agents' statuses: running if any
   * runs, else completed if the checklist says so, else failed if any
   * failed, else pending.
   */
  function TaskStatus(subStatuses: seq<string>, baseStatus: string): (r: string)
    ensures r == "running" <==> "running" in subStatuses
    ensures r == "completed" <==> "running" !in subStatuses && baseStatus == "completed"
    ensures r == "failed" <==> "running" !in subStatuses && baseStatus != "completed" && "failed" in subStatuses
    ensures r in ["running", "completed", "failed", "pending"]
  {
    if "running" in subStatuses then "running"
    else if baseStatus == "completed" then "completed"
    else if "failed" in subStatuses then "failed"
    else "pending"
  }

  /** `task_status_rank`: running, pending, failed, completed, then anything else. */
  function TaskStatusRank(status: string): (r: nat)
    ensures r <= 4
    ensures r < 4 <==> status in ["running", "pending", "failed", "completed"]
  {
    if status == "running" then 0
    else if status == "pending" then 1
    else if status == "failed" then 2
    else if status == "completed" then 3
    else 4
  }

  lemma RankOrder()
    ensures TaskStatusRank("running") < TaskStatusRank("pending") < TaskStatusRank("failed") < TaskStatusRank("completed")
  {
  }

  /** Every status a task can get ranks before unknown statuses. */
  lemma TaskStatusRanked(subStatuses: seq<string>, baseStatus: string)
    ensures TaskStatusRank(TaskStatus(subStatuses, baseStatus)) < 4
  {
  }

  datatype SidebarTask = SidebarTask(id: string, status: string)

  /** The sidebar order: by status rank, then by id. */
  predicate TaskLe(a: SidebarTask, b: SidebarTask)
  {
    TaskStatusRank(a.status) < TaskStatusRank(b.status)
    || (TaskStatusRank(a.status) == TaskStatusRank(b.status) && StrLe(a.id, b.id))
  }

  lemma TaskLePreorder()
    ensures Total(TaskLe) && Transitive(TaskLe)
  {
    forall a, b
      ensures TaskLe(a, b) || TaskLe(b, a)
    {
      StrLeTotal(a.id, b.id);
    }
    forall a, b, c | TaskLe(a, b) && TaskLe(b, c)
      ensures TaskLe(a, c)
    {
      if TaskStatusRank(a.status) == TaskStatusRank(b.status) == TaskStatusRank(c.status) {
        StrLeTransitive(a.id, b.id, c.id);
      }
    }
  }

  /** The sort at the end of `get_agent_sidebar_view`. */
  function SortTasks(tasks: seq<SidebarTask>): (r: seq<SidebarTask>)
    ensures multiset(r) == multiset(tasks)
    ensures forall i, j :: 0 <= i < j < |r| ==> TaskStatusRank(r[i].status) <= TaskStatusRank(r[j].status)
    ensures forall i, j :: 0 <= i < j < |r| && r[i].status == r[j].status ==> StrLe(r[i].id, r[j].id)
  {
    TaskLePreorder();
    var r := SortBy(tasks, TaskLe);
    forall i, j | 0 <= i < j < |r|
      ensures TaskLe(r[i], r[j])
    {
      SortedByGlobal(r, TaskLe, i, j);
    }
    r
  }
}
