/** Helpers of the terminal application: naming an agent whose session was
    orphaned, canonical tool ids, the shell command line sent to a tmux pane
    (environment removals and exports in front of the agent command), the
    GitHub owner/repo slug of a remote URL, and the environment variables the
    active profile removes. */
module TuiApp {
  import opened Common

  // ---------------------------------------------------------------------
  // Agent names and tool ids

  const UNKNOWN_AGENT: string := "unknown"

  /** `resolve_orphaned_agent_name`: the session entry's tool id when it is
      not blank, else the trimmed fallback, else "unknown". */
  function ResolveOrphanedAgentName(fallbackName: string, sessionToolId: Option<string>): (r: string)
    ensures sessionToolId.Some? && !IsBlank(sessionToolId.value) ==> r == sessionToolId.value
    ensures (sessionToolId.None? || IsBlank(sessionToolId.value)) && !IsBlank(fallbackName) ==> r == Trim(fallbackName)
    ensures (sessionToolId.None? || IsBlank(sessionToolId.value)) && IsBlank(fallbackName) ==> r == UNKNOWN_AGENT
    ensures !IsBlank(r)
  {
    if sessionToolId.Some? && !IsBlank(sessionToolId.value) then sessionToolId.value
    else
      var trimmed := Trim(fallbackName);
      TrimIdempotent(fallbackName);
      if trimmed == [] then
        assert TrimStart(UNKNOWN_AGENT) == UNKNOWN_AGENT;
        assert TrimEnd(UNKNOWN_AGENT) == UNKNOWN_AGENT;
        UNKNOWN_AGENT
      else trimmed
  }

  /** `canonical_tool_id`: known agents by a case-insensitive substring of
      the trimmed id, in the order claude, codex, gemini, opencode;
      anything else is the trimmed id. */
  function CanonicalToolId(toolId: string): (r: string)
    ensures r in ["claude-code", "codex-cli", "gemini-cli", "opencode"] || r == Trim(toolId)
    ensures Contains(ToLower(Trim(toolId)), "claude") ==> r == "claude-code"
  {
    var lower := ToLower(Trim(toolId));
    if Contains(lower, "claude") then "claude-code"
    else if Contains(lower, "codex") then "codex-cli"
    else if Contains(lower, "gemini") then "gemini-cli"
    else if Contains(lower, "opencode") || Contains(lower, "open-code") then "opencode"
    else Trim(toolId)
  }

  /** An id of lower-case letters and hyphens is its own trimmed,
      lower-cased form. */
  lemma PlainId(id: string)
    requires id != [] && forall i :: 0 <= i < |id| ==> IsLowerAlpha(id[i]) || id[i] == '-'
    ensures Trim(id) == id && ToLower(id) == id
  {
    TrimmedEnds(id);
    LowercaseUnchanged(id);
  }

  /** The four canonical ids are their own canonical form. */
  lemma CanonicalIdsFixed(id: string)
    requires id == "claude-code" || id == "codex-cli" || id == "gemini-cli" || id == "opencode"
    ensures CanonicalToolId(id) == id
  {
    if id == "claude-code" {
      CanonicalClaude(id);
    } else if id == "codex-cli" {
      CanonicalCodex(id);
    } else if id == "gemini-cli" {
      CanonicalGemini(id);
    } else {
      CanonicalOpenCode(id);
    }
  }

  /** On a trimmed, lower-case id only the substring tests decide. */
  lemma CanonicalPlain(id: string)
    requires Trim(id) == id && ToLower(id) == id
    ensures CanonicalToolId(id) ==
      if Contains(id, "claude") then "claude-code"
      else if Contains(id, "codex") then "codex-cli"
      else if Contains(id, "gemini") then "gemini-cli"
      else if Contains(id, "opencode") || Contains(id, "open-code") then "opencode"
      else id
  {
  }

  lemma CanonicalClaude(id: string)
    requires id == "claude-code"
    ensures CanonicalToolId(id) == id
  {
    assert OccursAt(id, "claude", 0);
    PlainId(id);
    CanonicalPlain(id);
  }

  lemma CanonicalCodex(id: string)
    requires id == "codex-cli"
    ensures CanonicalToolId(id) == id
  {
    assert OccursAt(id, "codex", 0);
    MissingCharNotContains(id, "claude", 2);
    PlainId(id);
    CanonicalPlain(id);
  }

  lemma CanonicalGemini(id: string)
    requires id == "gemini-cli"
    ensures CanonicalToolId(id) == id
  {
    assert OccursAt(id, "gemini", 0);
    MissingCharNotContains(id, "claude", 2);
    MissingCharNotContains(id, "codex", 1);
    PlainId(id);
    CanonicalPlain(id);
  }

  lemma CanonicalOpenCode(id: string)
    requires id == "opencode"
    ensures CanonicalToolId(id) == id
  {
    assert OccursAt(id, "opencode", 0);
    MissingCharNotContains(id, "claude", 2);
    MissingCharNotContains(id, "codex", 4);
    MissingCharNotContains(id, "gemini", 0);
    PlainId(id);
    CanonicalPlain(id);
  }

  /** Canonicalising twice is canonicalising once. */
  lemma CanonicalIdempotent(toolId: string)
    ensures CanonicalToolId(CanonicalToolId(toolId)) == CanonicalToolId(toolId)
  {
    var lower := ToLower(Trim(toolId));
    if Contains(lower, "claude") || Contains(lower, "codex") || Contains(lower, "gemini")
       || Contains(lower, "opencode") || Contains(lower, "open-code") {
      CanonicalIdsFixed(CanonicalToolId(toolId));
    } else {
      TrimIdempotent(toolId);
    }
  }

  // ---------------------------------------------------------------------
  // Environment variable names

  /** `is_valid_env_name`: an ASCII letter or '_' first, then ASCII letters,
      digits and '_'; the empty name is invalid. */
  predicate IsValidEnvName(name: string)
    ensures IsValidEnvName(name) ==>
              ' ' !in name && '=' !in name && ';' !in name && '\'' !in name && '$' !in name && |name| > 0 && !IsDigit(name[0])
  {
    |name| > 0 && (IsAlpha(name[0]) || name[0] == '_')
    && forall i :: 1 <= i < |name| ==> IsAlnum(name[i]) || name[i] == '_'
  }

  // ---------------------------------------------------------------------
  // The tmux command line

  /** An `unset` for each valid name, in order. */
  function UnsetParts(keys: seq<string>): (r: seq<string>)
    ensures |r| <= |keys|
    ensures forall p :: p in r ==> exists k :: k in keys && IsValidEnvName(k) && p == "unset " + k
  {
    if keys == [] then []
    else
      var before := UnsetParts(keys[..|keys| - 1]);
      var k := keys[|keys| - 1];
      if IsValidEnvName(k) then before + ["unset " + k] else before
  }

  /** An `export NAME='value'` for each valid name, in order. */
  function ExportParts(vars: seq<(string, string)>): (r: seq<string>)
    ensures |r| <= |vars|
    ensures forall p :: p in r ==> exists kv :: kv in vars && IsValidEnvName(kv.0) && p == "export " + kv.0 + "=" + Quoted(kv.1)
  {
    if vars == [] then []
    else
      var before := ExportParts(vars[..|vars| - 1]);
      var kv := vars[|vars| - 1];
      if IsValidEnvName(kv.0) then before + ["export " + kv.0 + "=" + Quoted(kv.1)] else before
  }

  /** The command line `build_tmux_command` produces. */
  function TmuxCommand(envVars: seq<(string, string)>, envRemove: seq<string>, command: string): (r: string)
    ensures EndsWith(r, command)
  {
    var parts := UnsetParts(envRemove) + ExportParts(envVars);
    if parts == [] then command else JoinLast(parts + [command], "; "); Join(parts + [command], "; ")
  }

  lemma {:induction false} UnsetPartsEmpty(keys: seq<string>)
    ensures UnsetParts(keys) == [] <==> forall k :: k in keys ==> !IsValidEnvName(k)
  {
    if keys != [] {
      UnsetPartsEmpty(keys[..|keys| - 1]);
      assert forall k :: k in keys <==> k in keys[..|keys| - 1] || k == keys[|keys| - 1];
    }
  }

  lemma {:induction false} ExportPartsEmpty(vars: seq<(string, string)>)
    ensures ExportParts(vars) == [] <==> forall kv :: kv in vars ==> !IsValidEnvName(kv.0)
  {
    if vars != [] {
      ExportPartsEmpty(vars[..|vars| - 1]);
      assert forall kv :: kv in vars <==> kv in vars[..|vars| - 1] || kv == vars[|vars| - 1];
    }
  }

  lemma JoinLast(parts: seq<string>, sep: string)
    requires parts != []
    ensures EndsWith(Join(parts, sep), parts[|parts| - 1])
  {
    if |parts| > 1 {
      JoinLast(parts[1..], sep);
    }
  }

  /** With no valid name to remove or export, the agent command runs as
      is. */
  lemma TmuxCommandBare(envVars: seq<(string, string)>, envRemove: seq<string>, command: string)
    requires forall k :: k in envRemove ==> !IsValidEnvName(k)
    requires forall kv :: kv in envVars ==> !IsValidEnvName(kv.0)
    ensures TmuxCommand(envVars, envRemove, command) == command
  {
    UnsetPartsEmpty(envRemove);
    ExportPartsEmpty(envVars);
  }

  /** A valid name to remove or export puts a prefix in front of the
      command, which still comes last. */
  lemma TmuxCommandPrefixed(envVars: seq<(string, string)>, envRemove: seq<string>, command: string)
    requires (exists k :: k in envRemove && IsValidEnvName(k)) || (exists kv :: kv in envVars && IsValidEnvName(kv.0))
    ensures var parts := UnsetParts(envRemove) + ExportParts(envVars);
            parts != [] && TmuxCommand(envVars, envRemove, command) == Join(parts + [command], "; ")
  {
    UnsetPartsEmpty(envRemove);
    ExportPartsEmpty(envVars);
  }

  /** `build_tmux_command`: unsets for the valid names to remove, then
      exports for the valid variables, then the command, joined by "; ". */
  method BuildTmuxCommand(envVars: seq<(string, string)>, envRemove: seq<string>, command: string) returns (r: string)
    ensures r == TmuxCommand(envVars, envRemove, command)
  {
    var parts: seq<string> := [];
    for i := 0 to |envRemove|
      invariant parts == UnsetParts(envRemove[..i])
    {
      assert envRemove[..i + 1][..i] == envRemove[..i];
      var key := envRemove[i];
      if !IsValidEnvName(key) {
        continue;
      }
      parts := parts + ["unset " + key];
    }
    assert envRemove[..|envRemove|] == envRemove;
    for i := 0 to |envVars|
      invariant parts == UnsetParts(envRemove) + ExportParts(envVars[..i])
    {
      assert envVars[..i + 1][..i] == envVars[..i];
      var (key, value) := envVars[i];
      if !IsValidEnvName(key) {
        continue;
      }
      parts := parts + ["export " + key + "=" + Quoted(value)];
    }
    assert envVars[..|envVars|] == envVars;
    if parts == [] {
      r := command;
    } else {
      parts := parts + [command];
      r := Join(parts, "; ");
    }
  }

  // ---------------------------------------------------------------------
  // GitHub slugs

  const GITHUB_PREFIXES: seq<string> :=
    ["git@github.com:", "ssh://git@github.com/", "https://github.com/", "http://github.com/", "git://github.com/"]

  /** `url` starts with the `j`-th prefix and with none listed before it. */
  predicate FirstPrefix(url: string, j: nat)
  {
    j < |GITHUB_PREFIXES| && StartsWith(url, GITHUB_PREFIXES[j])
    && forall i :: 0 <= i < j ==> !StartsWith(url, GITHUB_PREFIXES[i])
  }

  /** The remainder after the first listed prefix the URL starts with. */
  function StripGithubPrefix(url: string, k: nat): (r: Option<string>)
    requires k <= |GITHUB_PREFIXES|
    ensures r.Some? ==> exists j :: k <= j < |GITHUB_PREFIXES| && url == GITHUB_PREFIXES[j] + r.value
                                    && forall i :: k <= i < j ==> !StartsWith(url, GITHUB_PREFIXES[i])
    ensures r.None? ==> forall j :: k <= j < |GITHUB_PREFIXES| ==> !StartsWith(url, GITHUB_PREFIXES[j])
    decreases |GITHUB_PREFIXES| - k
  {
    if k == |GITHUB_PREFIXES| then None
    else match StripPrefix(url, GITHUB_PREFIXES[k])
      case Some(rest) => Some(rest)
      case None => StripGithubPrefix(url, k + 1)
  }

  /** `trim_end_matches(".git")`: every trailing ".git" removed. */
  function TrimGitSuffixes(s: string): (r: string)
    ensures !EndsWith(r, ".git")
    ensures |r| <= |s| && r == s[..|r|]
  {
    if EndsWith(s, ".git") then TrimGitSuffixes(s[..|s| - 4]) else s
  }

  /** `trim_end_matches('/')`. */
  function TrimSlashes(s: string): (r: string)
    ensures r == [] || r[|r| - 1] != '/'
    ensures |r| <= |s| && r == s[..|r|]
  {
    if s != [] && s[|s| - 1] == '/' then TrimSlashes(s[..|s| - 1]) else s
  }

  /** `github_repo_slug`: the part of a GitHub remote URL after one of the
      five known prefixes, without trailing ".git" and slashes; none for
      any other host or an empty slug. */
  function GithubRepoSlug(url: string): (r: Option<string>)
    ensures r.Some? ==> r.value != [] && r.value[|r.value| - 1] != '/'
    ensures (forall j :: 0 <= j < |GITHUB_PREFIXES| ==> !StartsWith(url, GITHUB_PREFIXES[j])) ==> r.None?
    ensures forall j: nat :: FirstPrefix(url, j) ==>
              var slug := TrimSlashes(TrimGitSuffixes(url[|GITHUB_PREFIXES[j]|..]));
              r == if slug == [] then None else Some(slug)
  {
    assert forall j: nat :: FirstPrefix(url, j) ==> StripGithubPrefix(url, 0) == Some(url[|GITHUB_PREFIXES[j]|..]) by {
      forall j: nat | FirstPrefix(url, j)
        ensures StripGithubPrefix(url, 0) == Some(url[|GITHUB_PREFIXES[j]|..])
      {
        StripFrom(url, 0, j);
      }
    }
    match StripGithubPrefix(url, 0)
    case None => None
    case Some(rest) =>
      var slug := TrimSlashes(TrimGitSuffixes(rest));
      if slug == [] then None else Some(slug)
  }

  /** From any point up to the first prefix the URL starts with, the strip
      finds that prefix. */
  lemma {:induction false} StripFrom(url: string, k: nat, j: nat)
    requires k <= j && FirstPrefix(url, j)
    ensures StripGithubPrefix(url, k) == Some(url[|GITHUB_PREFIXES[j]|..])
    decreases j - k
  {
    if k < j {
      assert !StartsWith(url, GITHUB_PREFIXES[k]);
      StripFrom(url, k + 1, j);
    }
  }

  /** No listed prefix is a prefix of a later one followed by anything. */
  lemma EarlierPrefixAbsent(i: nat, j: nat, x: string)
    requires i < j < |GITHUB_PREFIXES|
    ensures !StartsWith(GITHUB_PREFIXES[j] + x, GITHUB_PREFIXES[i])
  {
    var u := GITHUB_PREFIXES[j] + x;
    var d := if GITHUB_PREFIXES[i][0] != GITHUB_PREFIXES[j][0] then 0 else if i == 0 then 3 else 4;
    assert u[d] == GITHUB_PREFIXES[j][d] != GITHUB_PREFIXES[i][d];
  }

  /** Every listed prefix is the first one a URL built on it starts with. */
  lemma PrefixIsFirst(j: nat, x: string)
    requires j < |GITHUB_PREFIXES|
    ensures FirstPrefix(GITHUB_PREFIXES[j] + x, j)
    ensures (GITHUB_PREFIXES[j] + x)[|GITHUB_PREFIXES[j]|..] == x
  {
    var u := GITHUB_PREFIXES[j] + x;
    assert u[..|GITHUB_PREFIXES[j]|] == GITHUB_PREFIXES[j];
    forall i | 0 <= i < j
      ensures !StartsWith(u, GITHUB_PREFIXES[i])
    {
      EarlierPrefixAbsent(i, j, x);
    }
  }

  /** Under each of the five prefixes, with or without ".git", the slug is read back. */
  lemma GithubSlugRoundTrip(j: nat, slug: string)
    requires j < |GITHUB_PREFIXES|
    requires slug != [] && slug[|slug| - 1] != '/' && !EndsWith(slug, ".git")
    ensures GithubRepoSlug(GITHUB_PREFIXES[j] + slug + ".git") == Some(slug)
    ensures GithubRepoSlug(GITHUB_PREFIXES[j] + slug) == Some(slug)
  {
    TrimSlug(slug);
    PrefixIsFirst(j, slug + ".git");
    assert GITHUB_PREFIXES[j] + slug + ".git" == GITHUB_PREFIXES[j] + (slug + ".git");
    PrefixIsFirst(j, slug);
  }

  /** The trailing ".git" and nothing else is removed from a slug that
      does not itself end in ".git" or '/'. */
  lemma TrimSlug(slug: string)
    requires slug != [] && slug[|slug| - 1] != '/' && !EndsWith(slug, ".git")
    ensures TrimSlashes(TrimGitSuffixes(slug + ".git")) == slug
    ensures TrimSlashes(TrimGitSuffixes(slug)) == slug
  {
    TrimOneGit(slug);
  }

  /** One trailing ".git" is trimmed off the way back to `s`. */
  lemma TrimOneGit(s: string)
    ensures TrimGitSuffixes(s + ".git") == TrimGitSuffixes(s)
  {
    var t := s + ".git";
    assert t[|t| - 4..] == ".git";
    assert t[..|t| - 4] == s;
  }

  /** The slug is recovered from an HTTPS clone URL. */
  lemma HttpsSlug(slug: string)
    requires slug != [] && slug[|slug| - 1] != '/' && !EndsWith(slug, ".git")
    ensures GithubRepoSlug("https://github.com/" + slug + ".git") == Some(slug)
  {
    assert GITHUB_PREFIXES[2] == "https://github.com/";
    GithubSlugRoundTrip(2, slug);
  }

  /** The SSH form gives the same slug. */
  lemma SshSlug(slug: string)
    requires slug != [] && slug[|slug| - 1] != '/' && !EndsWith(slug, ".git")
    ensures GithubRepoSlug("git@github.com:" + slug + ".git") == Some(slug)
  {
    assert GITHUB_PREFIXES[0] == "git@github.com:";
    GithubSlugRoundTrip(0, slug);
  }

  // ---------------------------------------------------------------------
  // Environment removals of the active profile

  /** The parts of a profile `active_env_removals` reads. */
  datatype Profile = Profile(env: map<string, string>, disabledEnv: seq<string>)

  /** `retain(|key| !env.contains_key(key))`. */
  function NotSet(keys: seq<string>, env: map<string, string>): (r: seq<string>)
    ensures forall k :: k in r <==> k in keys && k !in env
  {
    if keys == [] then []
    else
      var rest := NotSet(keys[1..], env);
      assert forall k :: k in keys <==> k == keys[0] || k in keys[1..];
      if keys[0] in env then rest else [keys[0]] + rest
  }

  /** `Vec::dedup`: runs of equal neighbours collapsed to one. */
  function Dedup(s: seq<string>): (r: seq<string>)
    ensures forall k :: k in r <==> k in s
    ensures s != [] ==> r != [] && r[0] == s[0]
    ensures forall i :: 0 <= i < |r| - 1 ==> r[i] != r[i + 1]
  {
    if |s| <= 1 then s
    else
      var rest := Dedup(s[1..]);
      assert forall k :: k in s <==> k == s[0] || k in s[1..];
      if s[0] == s[1] then rest else [s[0]] + rest
  }

  /** Dropping neighbours keeps a sorted sequence sorted. */
  lemma {:induction false} DedupSorted(s: seq<string>)
    requires SortedBy(s, StrLe)
    ensures SortedBy(Dedup(s), StrLe)
  {
    if |s| > 1 {
      assert SortedBy(s[1..], StrLe);
      DedupSorted(s[1..]);
    }
  }

  lemma StrLePreorder()
    ensures Total(StrLe) && Transitive(StrLe)
  {
    forall a, b
      ensures StrLe(a, b) || StrLe(b, a)
    {
      StrLeTotal(a, b);
    }
    forall a, b, c | StrLe(a, b) && StrLe(b, c)
      ensures StrLe(a, c)
    {
      StrLeTransitive(a, b, c);
    }
  }

  /** `active_env_removals`: the active profile's disabled keys that it
      does not itself set, sorted, each once; nothing without a profile. */
  function ActiveEnvRemovals(active: Option<Profile>): (r: seq<string>)
    ensures active.None? ==> r == []
    ensures active.Some? ==> forall k :: k in r <==> k in active.value.disabledEnv && k !in active.value.env
    ensures forall i :: 0 <= i < |r| - 1 ==> CompareStr(r[i], r[i + 1]) == Less
  {
    if active.None? then []
    else
      StrLePreorder();
      var kept := NotSet(active.value.disabledEnv, active.value.env);
      var sorted := SortBy(kept, StrLe);
      assert forall k :: k in sorted <==> k in multiset(kept);
      DedupSorted(sorted);
      var r := Dedup(sorted);
      forall i | 0 <= i < |r| - 1
        ensures CompareStr(r[i], r[i + 1]) == Less
      {
        CompareStrReverse(r[i], r[i + 1]);
      }
      r
  }

  /** Removals are in strictly increasing order, so each is listed once. */
  lemma {:induction false} RemovalsStrictlyOrdered(active: Option<Profile>, i: nat, j: nat)
    requires i < j < |ActiveEnvRemovals(active)|
    ensures CompareStr(ActiveEnvRemovals(active)[i], ActiveEnvRemovals(active)[j]) == Less
    ensures ActiveEnvRemovals(active)[i] != ActiveEnvRemovals(active)[j]
    decreases j - i
  {
    var r := ActiveEnvRemovals(active);
    if j > i + 1 {
      RemovalsStrictlyOrdered(active, i, j - 1);
      CompareStrTransitive(r[i], r[j - 1], r[j]);
    }
    CompareStrReverse(r[i], r[j]);
  }
}
