/** Building the shell text that launches a coding agent in a tmux pane,
    and reading back the pane id and process id tmux prints for the new
    pane. Environment values are passed inside single quotes, with each
    quote of the value written as '\'' so that the shell reads the value
    back unchanged. The order of a hash map's entries is unspecified, so
    the variables to export are a sequence in the order they are visited. */
module TmuxLauncher {
  import opened Common

  /** `export KEY='value'`. */
  function ExportCommand(key: string, value: string): (r: string)
    ensures StartsWith(r, "export " + key + "=")
  {
    "export " + key + "=" + Quoted(value)
  }

  /** A shell reading the word after `KEY=` gets the value back unchanged,
      whatever quotes it holds. */
  lemma ExportReadsBack(key: string, value: string)
    ensures var head := "export " + key + "=";
      ShellRead(ExportCommand(key, value)[|head|..]) == Some(value)
  {
    var head := "export " + key + "=";
    QuotedRoundTrip(value);
    assert ExportCommand(key, value)[|head|..] == Quoted(value);
  }

  /** The text the loops format is the export command. */
  lemma ExportText(key: string, value: string)
    ensures "export " + key + "='" + Escape(value) + "'" == ExportCommand(key, value)
  {
    var e := Escape(value);
    assert "export " + key + "='" + e + "'" == "export " + key + "=" + ("'" + e + "'");
  }

  // ---------------------------------------------------------------------
  // `build_env_setup`
  // ---------------------------------------------------------------------

  /** The commands `build_env_setup` joins: an `unset` per removed
      variable, then an `export` per variable to set. */
  function EnvCommands(env: seq<(string, string)>, remove: seq<string>): (r: seq<string>)
    ensures |r| == |remove| + |env|
  {
    Unsets(remove) + Exports(env)
  }

  function Unsets(remove: seq<string>): (r: seq<string>)
    ensures |r| == |remove|
    ensures forall k :: 0 <= k < |r| ==> r[k] == "unset " + remove[k]
  {
    if remove == [] then [] else Unsets(remove[..|remove| - 1]) + ["unset " + remove[|remove| - 1]]
  }

  function Exports(env: seq<(string, string)>): (r: seq<string>)
    ensures |r| == |env|
    ensures forall k :: 0 <= k < |r| ==> r[k] == ExportCommand(env[k].0, env[k].1)
  {
    if env == [] then [] else Exports(env[..|env| - 1]) + [ExportCommand(env[|env| - 1].0, env[|env| - 1].1)]
  }

  /** All unsets come before all exports, each in the given order. */
  lemma EnvCommandsOrder(env: seq<(string, string)>, remove: seq<string>)
    ensures var r := EnvCommands(env, remove);
      (forall k :: 0 <= k < |remove| ==> r[k] == "unset " + remove[k])
      && (forall k :: 0 <= k < |env| ==> r[|remove| + k] == ExportCommand(env[k].0, env[k].1))
  {
    var r := EnvCommands(env, remove);
    forall k | 0 <= k < |env| ensures r[|remove| + k] == ExportCommand(env[k].0, env[k].1) {
      assert r[|remove| + k] == Exports(env)[k];
    }
  }

  /** Joining at least one non-empty part gives a non-empty text. */
  lemma JoinNonEmpty(parts: seq<string>, sep: string)
    requires parts != [] && parts[0] != []
    ensures Join(parts, sep) != []
  {
  }

  /** The setup text is empty exactly when nothing is unset or exported. */
  lemma EnvSetupEmptyIff(env: seq<(string, string)>, remove: seq<string>)
    ensures Join(EnvCommands(env, remove), "; ") == [] <==> env == [] && remove == []
  {
    var r := EnvCommands(env, remove);
    if r != [] {
      if remove != [] {
        assert r[0] == "unset " + remove[0];
      } else {
        assert r[0] == Exports(env)[0];
      }
      JoinNonEmpty(r, "; ");
    }
  }

  /** The loops of `build_env_setup`. */
  method BuildEnvSetup(env: seq<(string, string)>, remove: seq<string>) returns (setup: string)
    ensures setup == Join(EnvCommands(env, remove), "; ")
    ensures setup == [] <==> env == [] && remove == []
  {
    var commands: seq<string> := [];
    var i := 0;
    while i < |remove|
      invariant i <= |remove|
      invariant commands == Unsets(remove[..i])
    {
      assert remove[..i + 1][..i] == remove[..i];
      commands := commands + ["unset " + remove[i]];
      i := i + 1;
    }
    assert remove[..i] == remove;
    var j := 0;
    while j < |env|
      invariant j <= |env|
      invariant commands == Unsets(remove) + Exports(env[..j])
    {
      assert env[..j + 1][..j] == env[..j];
      var (key, value) := env[j];
      var escapedValue := Escape(value);
      ExportText(key, value);
      commands := commands + ["export " + key + "='" + escapedValue + "'"];
      j := j + 1;
    }
    assert env[..j] == env;
    setup := Join(commands, "; ");
    EnvSetupEmptyIff(env, remove);
  }

  // ---------------------------------------------------------------------
  // `parse_pane_info`
  // ---------------------------------------------------------------------

  datatype TmuxError = PaneCreateFailed(reason: string)

  /** `parse_pane_info`: the trimmed output split at its first ':' into the
      pane id and a process id that must parse as a `u32`. */
  function ParsePaneInfo(output: string): (r: Result<(string, nat), TmuxError>)
    ensures r.Ok? <==> ':' in Trim(output)
                       && ParseUnsigned(SplitN(Trim(output), ':', 2)[1], U32_MAX).Some?
    ensures r.Ok? ==> ':' !in r.value.0 && r.value.1 <= U32_MAX
                      && Trim(output) == r.value.0 + ":" + SplitN(Trim(output), ':', 2)[1]
    ensures ':' !in Trim(output) ==> r == Err(PaneCreateFailed("Invalid pane info format: " + output))
  {
    var trimmed := Trim(output);
    var parts := SplitN(trimmed, ':', 2);
    if |parts| != 2 then
      assert ':' !in trimmed by { SplitNOne(trimmed); }
      Err(PaneCreateFailed("Invalid pane info format: " + output))
    else
      SplitNTwo(trimmed);
      match ParseUnsigned(parts[1], U32_MAX)
      case None => Err(PaneCreateFailed("Invalid PID: " + parts[1]))
      case Some(pid) => Ok((parts[0], pid))
  }

  /** Splitting in at most two pieces gives two exactly when there is a
      ':', and then the pieces surround the first one. */
  lemma SplitNTwo(s: string)
    ensures |SplitN(s, ':', 2)| == 2 <==> ':' in s
    ensures |SplitN(s, ':', 2)| == 2 ==>
      s == SplitN(s, ':', 2)[0] + ":" + SplitN(s, ':', 2)[1] && ':' !in SplitN(s, ':', 2)[0]
  {
    match FindChar(s, ':')
    case None =>
    case Some(i) =>
      assert SplitN(s[i + 1..], ':', 1) == [s[i + 1..]];
      assert s == s[..i] + ":" + s[i + 1..];
  }

  lemma SplitNOne(s: string)
    requires |SplitN(s, ':', 2)| != 2
    ensures ':' !in s
  {
    SplitNTwo(s);
  }

  /** What tmux prints for a pane: `pane_id:pane_pid`. */
  function PaneInfoLine(paneId: string, pid: nat): string
  {
    paneId + ":" + NatToString(pid)
  }

  /** A pane id without ':' or surrounding whitespace and a `u32` process
      id are read back from the printed line. */
  lemma PaneInfoRoundTrip(paneId: string, pid: nat)
    requires ':' !in paneId && pid <= U32_MAX
    requires paneId == [] || !IsSpace(paneId[0])
    ensures ParsePaneInfo(PaneInfoLine(paneId, pid)) == Ok((paneId, pid))
  {
    var digits := NatToString(pid);
    var s := PaneInfoLine(paneId, pid);
    assert !IsSpace(s[0]) by { if paneId == [] { assert s[0] == ':'; } else { assert s[0] == paneId[0]; } }
    assert s[|s| - 1] == digits[|digits| - 1];
    assert !IsSpace(s[|s| - 1]);
    assert TrimStart(s) == s;
    assert TrimEnd(s) == s;
    assert Trim(s) == s;
    FindCharAfter(paneId, ':', digits);
    assert s == paneId + [':'] + digits;
    assert s[|paneId| + 1..] == digits;
    assert SplitN(digits, ':', 1) == [digits];
    SplitNCons(paneId, ':', digits, 2);
    assert SplitN(s, ':', 2) == [paneId, digits];
    ParseNatToString(pid, U32_MAX);
  }

  /** Output without a ':' is refused. */
  lemma PaneInfoNeedsColon(output: string)
    requires ':' !in output
    ensures ParsePaneInfo(output).Err?
  {
    TrimIsInfix(output);
  }

  /** The trimmed text is part of the text. */
  lemma TrimIsInfix(s: string)
    ensures forall j :: 0 <= j < |Trim(s)| ==> Trim(s)[j] in s
  {
    TrimStartIsSuffix(s);
    var t := TrimStart(s);
    TrimEndIsPrefix(t);
    forall j | 0 <= j < |Trim(s)| ensures Trim(s)[j] in s {
      assert Trim(s)[j] == t[j];
      assert t[j] == s[|s| - |t| + j];
    }
  }

  // ---------------------------------------------------------------------
  // `build_agent_command`
  // ---------------------------------------------------------------------

  /** The model flag: none for a missing or empty model. */
  function ModelFlag(model: Option<string>): (r: string)
    ensures r == [] <==> model.None? || model.value == []
    ensures r != [] ==> r == " --model " + model.value
  {
    if model.Some? && model.value != [] then " --model " + model.value else []
  }

  /** The flag of the execution mode, followed by the session id when
      there is one; other modes add nothing. */
  function ModeFlag(executionMode: string, sessionId: Option<string>): (r: string)
    ensures executionMode != "continue" && executionMode != "resume" ==> r == []
    ensures executionMode == "continue" ==> StartsWith(r, " --continue")
    ensures executionMode == "resume" ==> StartsWith(r, " --resume")
    ensures (executionMode == "continue" || executionMode == "resume") && sessionId.Some? ==>
      EndsWith(r, " " + sessionId.value)
  {
    var sid := if sessionId.Some? then " " + sessionId.value else [];
    if executionMode == "continue" then " --continue" + sid
    else if executionMode == "resume" then " --resume" + sid
    else []
  }

  const SKIP_PERMISSIONS_FLAG: string := " --dangerously-skip-permissions"

  /** The agent invocation: name, model flag, mode flag, then the skip
      flag last. */
  function AgentInvocation(agentName: string, model: Option<string>, executionMode: string,
                           sessionId: Option<string>, skipPermissions: bool): (r: string)
    ensures StartsWith(r, agentName)
    ensures skipPermissions ==> EndsWith(r, SKIP_PERMISSIONS_FLAG)
    ensures !skipPermissions ==> r == agentName + ModelFlag(model) + ModeFlag(executionMode, sessionId)
    ensures ((model.None? || model.value == []) && executionMode != "continue" && executionMode != "resume"
             && !skipPermissions) ==> r == agentName
  {
    var r := agentName + ModelFlag(model) + ModeFlag(executionMode, sessionId)
             + (if skipPermissions then SKIP_PERMISSIONS_FLAG else []);
    assert r[..|agentName|] == agentName;
    r
  }

  /** `build_agent_command`: the exports of the environment and then the
      invocation, joined by "; "; only the invocation when there is no
      environment. The version is not used. */
  method BuildAgentCommand(agentName: string, model: Option<string>, executionMode: string,
                           sessionId: Option<string>, skipPermissions: bool, env: seq<(string, string)>)
    returns (command: string)
    ensures env == [] ==> command == AgentInvocation(agentName, model, executionMode, sessionId, skipPermissions)
    ensures env != [] ==>
      command == Join(Exports(env) + [AgentInvocation(agentName, model, executionMode, sessionId, skipPermissions)], "; ")
  {
    var parts := ExportParts(env);
    var cmd := InvocationText(agentName, model, executionMode, sessionId, skipPermissions);
    if parts == [] {
      command := cmd;
    } else {
      parts := parts + [cmd];
      command := Join(parts, "; ");
    }
  }

  /** The invocation part of `build_agent_command`, flag by flag. */
  method InvocationText(agentName: string, model: Option<string>, executionMode: string,
                        sessionId: Option<string>, skipPermissions: bool) returns (cmd: string)
    ensures cmd == AgentInvocation(agentName, model, executionMode, sessionId, skipPermissions)
  {
    cmd := agentName;
    if model.Some? {
      if model.value != [] {
        cmd := cmd + (" --model " + model.value);
      }
    }
    ghost var named := cmd;
    assert named == agentName + ModelFlag(model);
    if executionMode == "continue" {
      cmd := cmd + " --continue";
      if sessionId.Some? {
        Assoc(named, " --continue", " " + sessionId.value);
        cmd := cmd + (" " + sessionId.value);
      }
    } else if executionMode == "resume" {
      cmd := cmd + " --resume";
      if sessionId.Some? {
        Assoc(named, " --resume", " " + sessionId.value);
        cmd := cmd + (" " + sessionId.value);
      }
    }
    assert cmd == named + ModeFlag(executionMode, sessionId);
    if skipPermissions {
      cmd := cmd + SKIP_PERMISSIONS_FLAG;
    }
  }

  lemma Assoc(a: string, b: string, c: string)
    ensures a + b + c == a + (b + c)
  {
  }

  /** The export loop of `build_agent_command`. */
  method ExportParts(env: seq<(string, string)>) returns (parts: seq<string>)
    ensures parts == Exports(env)
    ensures parts == [] <==> env == []
  {
    parts := [];
    var i := 0;
    while i < |env|
      invariant i <= |env|
      invariant parts == Exports(env[..i])
    {
      assert env[..i + 1][..i] == env[..i];
      var (key, value) := env[i];
      var escapedValue := Escape(value);
      ExportText(key, value);
      parts := parts + ["export " + key + "='" + escapedValue + "'"];
      i := i + 1;
    }
    assert env[..i] == env;
  }

  /** With an environment, the command ends with the invocation after the
      last export. */
  lemma {:induction false} JoinEndsWithLast(parts: seq<string>, sep: string)
    requires |parts| >= 2
    ensures EndsWith(Join(parts, sep), sep + parts[|parts| - 1])
  {
    if |parts| > 2 {
      JoinEndsWithLast(parts[1..], sep);
      var t := Join(parts[1..], sep);
      assert Join(parts, sep) == (parts[0] + sep) + t;
    } else {
      assert parts[1..] == [parts[1]];
      assert Join(parts, sep) == (parts[0]) + (sep + parts[1]);
    }
  }

  /** The agent invocation always comes last, after every export. */
  lemma InvocationComesLast(env: seq<(string, string)>, invocation: string)
    requires env != []
    ensures EndsWith(Join(Exports(env) + [invocation], "; "), "; " + invocation)
  {
    JoinEndsWithLast(Exports(env) + [invocation], "; ");
  }
}
