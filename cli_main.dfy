/** The command-line entry point's decision helpers: the steps of worktree
    preparation shown by the progress modal, the mapping of agent hook events
    to a status, the choice of the package runner and its arguments, the
    classification of an agent's exit, and the argument list each coding
    agent is launched with. Instants are integer milliseconds and the current
    time is a parameter; the results of looking up executables on PATH and of
    asking Codex for its version are parameters as well. */
module CliMain {
  import opened Common
  import ConfigSession
  import ConfigTools
  import Codex

  // ---------------------------------------------------------------------
  // Worktree preparation steps

  /** The six stages of worktree preparation, in the order they run. */
  datatype ProgressStepKind =
    | FetchRemote
    | ValidateBranch
    | GeneratePath
    | CheckConflicts
    | CreateWorktree
    | CheckDependencies

  /** `ProgressStepKind::message`. */
  function Message(kind: ProgressStepKind): string
  {
    match kind
    case FetchRemote => "Fetching remote..."
    case ValidateBranch => "Validating branch..."
    case GeneratePath => "Generating path..."
    case CheckConflicts => "Checking conflicts..."
    case CreateWorktree => "Creating worktree..."
    case CheckDependencies => "Checking dependencies..."
  }

  /** The zero-based position of a stage in the running order. */
  function Position(kind: ProgressStepKind): (p: nat)
    ensures p < 6
  {
    match kind
    case FetchRemote => 0
    case ValidateBranch => 1
    case GeneratePath => 2
    case CheckConflicts => 3
    case CreateWorktree => 4
    case CheckDependencies => 5
  }

  /** `ProgressStepKind::all`: every kind exactly once, in running order. */
  function AllKinds(): (r: seq<ProgressStepKind>)
    ensures |r| == 6
    ensures forall k: ProgressStepKind :: r[Position(k)] == k
    ensures forall i, j :: 0 <= i < j < |r| ==> r[i] != r[j]
  {
    [FetchRemote, ValidateBranch, GeneratePath, CheckConflicts, CreateWorktree, CheckDependencies]
  }

  /** Each stage announces itself differently. */
  lemma MessagesDistinct(a: ProgressStepKind, b: ProgressStepKind)
    ensures Message(a) == Message(b) <==> a == b
  {
  }

  datatype StepStatus = Pending | Running | Completed | Failed | Skipped

  /** One stage with its status, start time and error. */
  datatype ProgressStep = ProgressStep(
    kind: ProgressStepKind,
    status: StepStatus,
    startedAt: Option<int>,
    errorMessage: Option<string>)
  {
    /** `ProgressStep::start` at time `now`. */
    function Start(now: int): (s: ProgressStep)
      ensures s.status == Running && s.startedAt == Some(now)
      ensures s.kind == kind && s.errorMessage == errorMessage
    {
      this.(status := Running, startedAt := Some(now))
    }

    /** `ProgressStep::complete`. */
    function Complete(): (s: ProgressStep)
      ensures s.status == Completed && s.kind == kind && s.startedAt == startedAt && s.errorMessage == errorMessage
    {
      this.(status := Completed)
    }

    /** `ProgressStep::fail`. */
    function Fail(message: string): (s: ProgressStep)
      ensures s.status == Failed && s.errorMessage == Some(message)
      ensures s.kind == kind && s.startedAt == startedAt
    {
      this.(status := Failed, errorMessage := Some(message))
    }

    /** `ProgressStep::skip`. */
    function Skip(): (s: ProgressStep)
      ensures s.status == Skipped && s.kind == kind && s.startedAt == startedAt && s.errorMessage == errorMessage
    {
      this.(status := Skipped)
    }

    /** `ProgressStep::marker`. */
    function Marker(): string
    {
      match status
      case Pending => "[ ]"
      case Running => "[>]"
      case Completed => "[x]"
      case Failed => "[!]"
      case Skipped => "[skip]"
    }

    /** `ProgressStep::should_show_elapsed`: started at least three seconds
        before `now`. */
    predicate ShouldShowElapsed(now: int)
    {
      startedAt.Some? && now - startedAt.value >= 3000
    }
  }

  /** `ProgressStep::new`. */
  function NewStep(kind: ProgressStepKind): (s: ProgressStep)
    ensures s.kind == kind && s.status == Pending && s.startedAt.None? && s.errorMessage.None?
  {
    ProgressStep(kind, Pending, None, None)
  }

  /** The marker tells every status apart, and a never-started step shows
      no elapsed time. */
  lemma MarkersDistinct(a: ProgressStep, b: ProgressStep, now: int)
    ensures a.Marker() == b.Marker() <==> a.status == b.status
    ensures NewStep(a.kind).Marker() == "[ ]" && !NewStep(a.kind).ShouldShowElapsed(now)
  {
  }

  /** Once started, a step shows its elapsed time from three seconds on. */
  lemma ElapsedShownAfterThreeSeconds(s: ProgressStep, start: int, now: int)
    ensures s.Start(start).ShouldShowElapsed(now) <==> now >= start + 3000
  {
  }

  // ---------------------------------------------------------------------
  // Hook events

  /** `hook_event_to_status`: the event name compared case-insensitively;
      `notificationType` is the payload's `notification.type`, empty when
      absent. */
  function HookEventToStatus(event: string, notificationType: string): (r: ConfigSession.AgentStatus)
    ensures r != ConfigSession.Unknown
  {
    StatusForEvent(ToLower(event), notificationType)
  }

  /** The status for a lower-case event name. */
  function StatusForEvent(e: string, notificationType: string): ConfigSession.AgentStatus
  {
    if e == "userpromptsubmit" || e == "pretooluse" || e == "posttooluse" then ConfigSession.Running
    else if e == "stop" || e == "subagentstop" then ConfigSession.Stopped
    else if e == "notification" then
      if notificationType == "permission_prompt" then ConfigSession.WaitingInput else ConfigSession.Running
    else if e == "sessionstart" then ConfigSession.Running
    else if e == "sessionend" then ConfigSession.Stopped
    else ConfigSession.Running
  }

  /** The event name's case does not matter. */
  lemma HookEventCaseInsensitive(event: string, notificationType: string)
    ensures HookEventToStatus(ToLower(event), notificationType) == HookEventToStatus(event, notificationType)
  {
    ToLowerIdempotent(event);
  }

  /** A hook waits for input exactly on a permission-prompt notification; it
      stops exactly on Stop, SubagentStop and SessionEnd; everything else,
      unknown events included, counts as activity. */
  lemma HookEventClassification(event: string, notificationType: string)
    ensures HookEventToStatus(event, notificationType) == ConfigSession.WaitingInput <==>
              ToLower(event) == "notification" && notificationType == "permission_prompt"
    ensures HookEventToStatus(event, notificationType) == ConfigSession.Stopped <==>
              ToLower(event) == "stop" || ToLower(event) == "subagentstop" || ToLower(event) == "sessionend"
  {
    var e := ToLower(event);
    if e == "notification" {
      assert e != "stop" && e != "subagentstop" && e != "sessionend";
    }
  }

  // ---------------------------------------------------------------------
  // Fast exits

  const FAST_EXIT_THRESHOLD_SECS: nat := 2

  /** `is_fast_exit`: an agent that ended within the threshold. */
  function IsFastExit(durationMs: nat): (fast: bool)
    ensures fast <==> durationMs < 2000
  {
    durationMs < FAST_EXIT_THRESHOLD_SECS * 1000
  }

  // ---------------------------------------------------------------------
  // Package runner

  const NODE_MODULES_BIN: string := "/node_modules/.bin/"

  /** Backslashes read as slashes. */
  function NormalizeSlashes(s: string): (r: string)
    ensures |r| == |s|
    ensures forall i :: 0 <= i < |s| ==> r[i] == (if s[i] == '\\' then '/' else s[i])
  {
    if s == [] then [] else [if s[0] == '\\' then '/' else s[0]] + NormalizeSlashes(s[1..])
  }

  /** `is_node_modules_bin`: a project-local shim under `node_modules/.bin`. */
  predicate IsNodeModulesBin(path: string)
  {
    Contains(NormalizeSlashes(path), NODE_MODULES_BIN)
  }

  /** `select_runner_executable`: a bunx that is not a project shim, else
      npx when found, else whatever bunx was found. */
  function SelectRunnerExecutable(bunxPath: Option<string>, npxPath: Option<string>): (r: Option<string>)
    ensures r.None? <==> bunxPath.None? && npxPath.None?
    ensures bunxPath.Some? && !IsNodeModulesBin(bunxPath.value) ==> r == bunxPath
    ensures (bunxPath.None? || IsNodeModulesBin(bunxPath.value)) && npxPath.Some? ==> r == npxPath
    ensures r.Some? ==> r == bunxPath || r == npxPath
  {
    if bunxPath.Some? && !IsNodeModulesBin(bunxPath.value) then bunxPath
    else if npxPath.Some? then npxPath
    else bunxPath
  }

  /** A shim is passed over in favour of npx, but used when nothing else was
      found. */
  lemma ShimFallsBack(shim: string, npx: Option<string>)
    requires IsNodeModulesBin(shim)
    ensures SelectRunnerExecutable(Some(shim), npx) == if npx.Some? then npx else Some(shim)
  {
  }

  /** The components of a path that name something: empty and "." pieces
      dropped. */
  function NamedComponents(pieces: seq<string>): (r: seq<string>)
    ensures forall k :: 0 <= k < |r| ==> r[k] != [] && r[k] != "." && r[k] in pieces
  {
    if pieces == [] then []
    else
      var last := pieces[|pieces| - 1];
      var before := NamedComponents(pieces[..|pieces| - 1]);
      if last == [] || last == "." then before else before + [last]
  }

  /** `Path::file_name` on a `/`-separated path: the last named component,
      none for a path without one or ending in "..". */
  function FileName(path: string): (r: Option<string>)
    ensures r.Some? ==> r.value != [] && r.value != "." && r.value != ".." && '/' !in r.value
  {
    var comps := NamedComponents(Split(path, '/'));
    if comps == [] then None
    else
      var last := comps[|comps| - 1];
      assert last in Split(path, '/');
      if last == ".." then None else Some(last)
  }

  /** `runner_requires_yes`: npx asks before installing, so its file name,
      in any letter case, decides. */
  predicate RunnerRequiresYes(executable: string)
    ensures RunnerRequiresYes(executable) ==>
              FileName(executable).Some? && 3 <= |FileName(executable).value| <= 7
  {
    var name := FileName(executable);
    name.Some? && NpxName(name.value)
  }

  /** One of npx's file names, in any letter case. */
  predicate NpxName(name: string)
  {
    var lower := ToLower(name);
    lower == "npx" || lower == "npx.cmd" || lower == "npx.exe"
  }

  /** `build_runner_args`: the package spec, preceded by "--yes" for npx. */
  function BuildRunnerArgs(packageSpec: string, runnerExecutable: string): (r: seq<string>)
    ensures |r| >= 1 && r[|r| - 1] == packageSpec
    ensures r[0] == "--yes" <==> RunnerRequiresYes(runnerExecutable) || (|r| == 1 && packageSpec == "--yes")
    ensures |r| == 2 <==> RunnerRequiresYes(runnerExecutable)
  {
    (if RunnerRequiresYes(runnerExecutable) then ["--yes"] else []) + [packageSpec]
  }

  /** A name without slashes, after a directory and a slash, is the path's
      file name. */
  lemma FileNameAfterDir(dir: string, name: string)
    requires '/' !in name && name != [] && name != "." && name != ".."
    ensures FileName(dir + "/" + name) == Some(name)
  {
    SplitLast(dir, '/', name);
    assert dir + "/" + name == dir + ['/'] + name;
    var pieces := Split(dir + "/" + name, '/');
    assert pieces == pieces[..|pieces| - 1] + [name];
  }

  /** A runner found in any directory gets "--yes" exactly when its name is
      one of npx's. */
  lemma RunnerArgsByName(dir: string, name: string, spec: string)
    requires '/' !in name && name != [] && name != "." && name != ".."
    ensures BuildRunnerArgs(spec, dir + "/" + name) == if NpxName(name) then ["--yes", spec] else [spec]
  {
    FileNameAfterDir(dir, name);
  }

  /** npx gets "--yes". */
  lemma NpxGetsYes(dir: string, spec: string)
    ensures BuildRunnerArgs(spec, dir + "/npx") == ["--yes", spec]
  {
    RunnerArgsByName(dir, "npx", spec);
    assert dir + "/npx" == dir + "/" + "npx";
    var r := ToLower("npx");
    assert r[0] == 'n' && r[1] == 'p' && r[2] == 'x';
  }

  /** The letter case of npx's name does not matter. */
  lemma NpxCmdAnyCaseGetsYes(dir: string, spec: string)
    ensures BuildRunnerArgs(spec, dir + "/NPX.cmd") == ["--yes", spec]
  {
    LowerNpxCmd();
    assert NpxName("NPX.cmd");
    RunnerArgsByName(dir, "NPX.cmd", spec);
    assert dir + "/NPX.cmd" == dir + "/" + "NPX.cmd";
  }

  lemma LowerNpxCmd()
    ensures ToLower("NPX.cmd") == "npx.cmd"
  {
    var s := "NPX.cmd";
    var r := ToLower(s);
    assert r[0] == Lower('N') == 'n' && r[1] == Lower('P') == 'p' && r[2] == Lower('X') == 'x';
    assert r[3] == '.' && r[4] == 'c' && r[5] == 'm' && r[6] == 'd';
  }

  /** bunx gets the package spec alone. */
  lemma BunxGetsNoYes(dir: string, spec: string)
    ensures BuildRunnerArgs(spec, dir + "/bunx") == [spec]
  {
    RunnerArgsByName(dir, "bunx", spec);
    assert dir + "/bunx" == dir + "/" + "bunx";
    assert ToLower("bunx")[0] == 'b';
  }

  // ---------------------------------------------------------------------
  // Exit classification

  datatype ExitClassification =
    | Success
    | Interrupted
    | Failure(code: Option<int>, signal: Option<int>)

  /** `classify_exit`: a clean zero exit succeeds; SIGINT/SIGTERM, or the
      shell's 130/143 for them, is an interruption; anything else fails,
      keeping the code and signal. */
  function ClassifyExit(code: Option<int>, signal: Option<int>): (c: ExitClassification)
    ensures c == Success <==> code == Some(0) && signal.None?
    ensures c == Interrupted <==>
              !(code == Some(0) && signal.None?)
              && ((signal.Some? && signal.value in {2, 15}) || (code.Some? && code.value in {130, 143}))
    ensures c.Failure? ==> c.code == code && c.signal == signal
  {
    if code == Some(0) && signal.None? then Success
    else if signal.Some? && (signal.value == 2 || signal.value == 15) then Interrupted
    else if code.Some? && (code.value == 130 || code.value == 143) then Interrupted
    else Failure(code, signal)
  }

  /** A zero exit code with a signal, and a non-zero code without an
      interrupting signal, are failures. */
  lemma ExitFailures(code: int, signal: int)
    requires code !in {0, 130, 143} && signal !in {2, 15}
    ensures ClassifyExit(Some(0), Some(signal)) == Failure(Some(0), Some(signal))
    ensures ClassifyExit(Some(code), None) == Failure(Some(code), None)
    ensures ClassifyExit(None, None) == Failure(None, None)
  {
  }

  // ---------------------------------------------------------------------
  // Agent arguments

  datatype CodingAgent = ClaudeCode | CodexCli | GeminiCli | OpenCode

  datatype ExecutionMode = Normal | Continue | Resume | Convert

  /** The launch settings `build_agent_args` reads. The reasoning level is
      kept as its label. */
  datatype AgentLaunchConfig = AgentLaunchConfig(
    agent: CodingAgent,
    customAgent: Option<ConfigTools.CustomCodingAgent>,
    model: Option<string>,
    reasoningLevel: Option<string>,
    version: string,
    executionMode: ExecutionMode,
    sessionId: Option<string>,
    skipPermissions: bool)

  const CLAUDE_SKIP_FLAG: string := "--dangerously-skip-permissions"
  const GEMINI_SKIP_FLAG: string := "-y"

  /** A flag and a non-empty model, or nothing. */
  function ModelArgs(flag: string, model: Option<string>): (r: seq<string>)
    ensures r == [] <==> model.None? || model.value == []
    ensures r != [] ==> r == [flag, model.value]
  {
    if model.Some? && model.value != [] then [flag, model.value] else []
  }

  /** `resolve_codex_flag_version`: "installed" asks the installed Codex
      (its answer is `installedVersion`), "latest" has no version, and any
      other text is the version itself. */
  function ResolveCodexFlagVersion(version: string, installedVersion: Option<string>): (r: Option<string>)
    ensures version == "installed" ==> r == installedVersion
    ensures version == "latest" ==> r.None?
    ensures version != "installed" && version != "latest" ==> r == Some(version)
  {
    if version == "installed" then installedVersion
    else if version == "latest" then None
    else Some(version)
  }

  /** Claude: the model arguments first; skipping permissions puts its flag
      last; a plain Normal launch without skipping passes only the model. */
  function ClaudeArgs(c: AgentLaunchConfig): (r: seq<string>)
    ensures ModelArgs("--model", c.model) <= r
    ensures c.skipPermissions ==> |r| > 0 && r[|r| - 1] == CLAUDE_SKIP_FLAG
    ensures c.executionMode == Normal && !c.skipPermissions ==> r == ModelArgs("--model", c.model)
  {
    var mode :=
      if c.executionMode == Normal then []
      else if c.sessionId.Some? then ["--resume", c.sessionId.value]
      else if c.executionMode == Continue then ["-c"]
      else ["-r"];
    ModelArgs("--model", c.model) + mode + (if c.skipPermissions then [CLAUDE_SKIP_FLAG] else [])
  }

  /** The Codex skip flag for the launch, when skipping is asked for. */
  function CodexSkipFlag(c: AgentLaunchConfig, installedVersion: Option<string>): Option<string>
  {
    if c.skipPermissions then Some(Codex.SkipPermissionsFlag(ResolveCodexFlagVersion(c.version, installedVersion)))
    else None
  }

  /** Codex: the resume subcommand comes first exactly for a non-Normal
      launch, and a requested skip puts the version's skip flag last. */
  function CodexArgs(c: AgentLaunchConfig, installedVersion: Option<string>): (r: seq<string>)
    ensures |r| > 0 && (r[0] == "resume" <==> c.executionMode != Normal)
    ensures c.skipPermissions ==>
              r[|r| - 1] == Codex.SkipPermissionsFlag(ResolveCodexFlagVersion(c.version, installedVersion))
  {
    var mode :=
      if c.executionMode == Normal then []
      else ["resume"] + (if c.sessionId.Some? then [c.sessionId.value]
                         else if c.executionMode == Continue then ["--last"] else []);
    var flagVersion := ResolveCodexFlagVersion(c.version, installedVersion);
    var skip := CodexSkipFlag(c, installedVersion);
    var bypass := skip == Some(Codex.SkipFlagDangerous);
    CodexDefaultsHead(c.model, c.reasoningLevel, flagVersion, bypass);
    mode + Codex.DefaultArgs(c.model, c.reasoningLevel, flagVersion, bypass)
    + (if skip.Some? then [skip.value] else [])
  }

  /** Gemini: the model arguments first, "-y" last when skipping. */
  function GeminiArgs(c: AgentLaunchConfig): (r: seq<string>)
    ensures ModelArgs("-m", c.model) <= r
    ensures c.skipPermissions ==> |r| > 0 && r[|r| - 1] == GEMINI_SKIP_FLAG
    ensures c.executionMode == Normal && !c.skipPermissions ==> r == ModelArgs("-m", c.model)
  {
    var mode :=
      if c.executionMode == Normal then []
      else ["-r", if c.sessionId.Some? then c.sessionId.value else "latest"];
    ModelArgs("-m", c.model) + mode + (if c.skipPermissions then [GEMINI_SKIP_FLAG] else [])
  }

  /** OpenCode: the model arguments, then at most two mode arguments; a
      Normal launch passes only the model. */
  function OpenCodeArgs(c: AgentLaunchConfig): (r: seq<string>)
    ensures ModelArgs("--model", c.model) <= r && |r| <= |ModelArgs("--model", c.model)| + 2
    ensures c.executionMode == Normal ==> r == ModelArgs("--model", c.model)
  {
    var mode :=
      if c.executionMode == Continue then ["-c"]
      else if c.executionMode != Normal && c.sessionId.Some? then ["-s", c.sessionId.value]
      else [];
    ModelArgs("--model", c.model) + mode
  }

  /** `build_custom_agent_args`: the agent's default arguments, those of the
      mode (resume for Resume and Convert), then its permission-skip
      arguments when skipping. */
  function CustomAgentArgs(custom: ConfigTools.CustomCodingAgent, c: AgentLaunchConfig): (r: seq<string>)
    ensures custom.defaultArgs <= r
    ensures c.skipPermissions ==>
              |custom.permissionSkipArgs| <= |r| && r[|r| - |custom.permissionSkipArgs|..] == custom.permissionSkipArgs
    ensures custom.modeArgs.None? && !c.skipPermissions ==> r == custom.defaultArgs
  {
    var mode :=
      if custom.modeArgs.None? then []
      else match c.executionMode
        case Normal => custom.modeArgs.value.normal
        case Continue => custom.modeArgs.value.continueMode
        case Resume => custom.modeArgs.value.resume
        case Convert => custom.modeArgs.value.resume;
    custom.defaultArgs + mode + (if c.skipPermissions then custom.permissionSkipArgs else [])
  }

  /** `build_agent_args`: a custom agent's own arguments when one is set,
      else those of the built-in agent. */
  function BuildAgentArgs(c: AgentLaunchConfig, installedVersion: Option<string>): (r: seq<string>)
    ensures c.customAgent.Some? ==> c.customAgent.value.defaultArgs <= r
    ensures c.customAgent.None? && c.agent != OpenCode && c.skipPermissions ==>
              |r| > 0 && r[|r| - 1] in [CLAUDE_SKIP_FLAG, GEMINI_SKIP_FLAG, Codex.SkipFlagLegacy, Codex.SkipFlagDangerous]
  {
    if c.customAgent.Some? then CustomAgentArgs(c.customAgent.value, c)
    else match c.agent
      case ClaudeCode => ClaudeArgs(c)
      case CodexCli => CodexArgs(c, installedVersion)
      case GeminiCli => GeminiArgs(c)
      case OpenCode => OpenCodeArgs(c)
  }

  /** Claude: a non-Normal launch with a session id resumes exactly that
      session right after the model arguments, and skipping permissions
      appends its flag last and changes nothing else. */
  lemma ClaudeArgsShape(c: AgentLaunchConfig, v: Option<string>)
    requires c.customAgent.None? && c.agent == ClaudeCode
    ensures var args := BuildAgentArgs(c, v);
            var m := |ModelArgs("--model", c.model)|;
            c.executionMode != Normal && c.sessionId.Some? ==>
              m + 2 <= |args| && args[m] == "--resume" && args[m + 1] == c.sessionId.value
    ensures c.skipPermissions ==>
              BuildAgentArgs(c, v) == BuildAgentArgs(c.(skipPermissions := false), v) + [CLAUDE_SKIP_FLAG]
    ensures c.executionMode == Normal ==> "--resume" !in BuildAgentArgs(c, v) || c.model == Some("--resume")
  {
  }

  /** Gemini: skipping permissions appends "-y" last and changes nothing
      else; any non-Normal launch resumes, the latest session when no id is
      known. */
  lemma GeminiArgsShape(c: AgentLaunchConfig, v: Option<string>)
    requires c.customAgent.None? && c.agent == GeminiCli
    ensures c.skipPermissions ==>
              BuildAgentArgs(c, v) == BuildAgentArgs(c.(skipPermissions := false), v) + [GEMINI_SKIP_FLAG]
    ensures var args := BuildAgentArgs(c, v);
            var m := |ModelArgs("-m", c.model)|;
            c.executionMode != Normal ==>
              m + 2 <= |args| && args[m] == "-r" && args[m + 1] == (if c.sessionId.Some? then c.sessionId.value else "latest")
  {
  }

  /** OpenCode has no permission flag: skipping changes nothing. */
  lemma OpenCodeIgnoresSkip(c: AgentLaunchConfig, v: Option<string>)
    requires c.customAgent.None? && c.agent == OpenCode
    ensures BuildAgentArgs(c, v) == BuildAgentArgs(c.(skipPermissions := !c.skipPermissions), v)
  {
  }

  /** The Codex defaults always start with "--enable". */
  lemma CodexDefaultsHead(m: Option<string>, r: Option<string>, fv: Option<string>, bypass: bool)
    ensures var d := Codex.DefaultArgs(m, r, fv, bypass); |d| > 0 && d[0] == "--enable"
  {
    var model, reasoning := Codex.OverrideOr(m, Codex.DefaultModel), Codex.OverrideOr(r, Codex.DefaultReasoning);
    var base := Codex.BaseArgs(model, reasoning, bypass);
    var enable := Codex.ShouldEnableSkillsFlag(fv);
    assert base[0] == "--enable";
    Codex.SkillsFlagPlacement(base, enable);
  }

  /** Codex: without a permission skip the sandbox stays on. */
  lemma CodexSandboxUnlessSkipping(c: AgentLaunchConfig, v: Option<string>)
    requires c.customAgent.None? && c.agent == CodexCli && !c.skipPermissions
    ensures "--sandbox" in BuildAgentArgs(c, v)
  {
    var flagVersion := ResolveCodexFlagVersion(c.version, v);
    Codex.DefaultArgsFacts(c.model, c.reasoningLevel, flagVersion, false);
    var d := Codex.DefaultArgs(c.model, c.reasoningLevel, flagVersion, false);
    assert BuildAgentArgs(c, v) == CodexArgs(c, v);
    var mode :=
      if c.executionMode == Normal then []
      else ["resume"] + (if c.sessionId.Some? then [c.sessionId.value]
                         else if c.executionMode == Continue then ["--last"] else []);
    assert CodexArgs(c, v) == mode + d;
  }

  /** A custom agent's arguments depend neither on the built-in agent kind
      nor on the model, and skipping adds exactly its permission-skip
      arguments at the end. */
  lemma CustomAgentArgsShape(c: AgentLaunchConfig, v: Option<string>, other: CodingAgent, model: Option<string>)
    requires c.customAgent.Some?
    ensures BuildAgentArgs(c, v) == BuildAgentArgs(c.(agent := other, model := model), v)
    ensures c.skipPermissions ==>
              BuildAgentArgs(c, v) == BuildAgentArgs(c.(skipPermissions := false), v) + c.customAgent.value.permissionSkipArgs
    ensures c.customAgent.value.modeArgs.None? && !c.skipPermissions ==>
              BuildAgentArgs(c, v) == c.customAgent.value.defaultArgs
  {
    var custom := c.customAgent.value;
    BuildCustom(c, v);
    BuildCustom(c.(agent := other, model := model), v);
    if c.skipPermissions {
      var c0 := c.(skipPermissions := false);
      BuildCustom(c0, v);
      assert CustomAgentArgs(custom, c) == CustomAgentArgs(custom, c0) + custom.permissionSkipArgs;
    }
  }

  lemma BuildCustom(c: AgentLaunchConfig, v: Option<string>)
    requires c.customAgent.Some?
    ensures BuildAgentArgs(c, v) == CustomAgentArgs(c.customAgent.value, c)
  {
  }
}
