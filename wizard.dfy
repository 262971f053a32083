/** The agent launch wizard of the terminal UI: the quick-start list built
    from earlier launches, the step machine from branch choice to the final
    permissions question, list selection per step, the branch-name input
    cursor, the version list's scroll window and text truncation. Fetching
    versions, detecting installed agents, loading issues, session conversion
    and rendering are outside the model; what they report is a parameter. */
module Wizard {
  import opened Common
  import ConfigTools
  import GitIssue

  datatype WizardStep =
    | QuickStart
    | BranchAction
    | AgentSelect
    | ModelSelect
    | ReasoningLevelStep
    | VersionSelect
    | CollaborationModes
    | ExecutionModeStep
    | ConvertAgentSelect
    | ConvertSessionSelect
    | SkipPermissions
    | BranchTypeSelect
    | IssueSelect
    | BranchNameInput

  datatype ConfirmResult = Advance | Complete | FocusPane(pane: nat)

  datatype QuickStartAction = ResumeWithPrevious | StartNewWithPrevious | ChooseDifferent

  datatype CodingAgent = ClaudeCode | CodexCli | GeminiCli | OpenCode

  datatype ReasoningLevel = Low | Medium | High | XHigh

  datatype ExecutionMode = Normal | Continue | Resume | Convert

  datatype BranchType = Feature | Bugfix | Hotfix | Release
  {
    function Prefix(): (r: string)
      ensures |r| > 0 && r[|r| - 1] == '/'
    {
      match this
      case Feature => "feature/"
      case Bugfix => "bugfix/"
      case Hotfix => "hotfix/"
      case Release => "release/"
    }
  }

  /** A quick-start entry: the settings of the last launch of one tool. */
  datatype QuickStartEntry = QuickStartEntry(
    toolId: string,
    model: Option<string>,
    reasoningLevel: Option<string>,
    version: Option<string>,
    sessionId: Option<string>,
    skipPermissions: Option<bool>)

  /** A built-in or custom agent as the agent list shows it. */
  datatype AgentEntry = AgentEntry(
    id: string,
    builtin: Option<CodingAgent>,
    custom: Option<ConfigTools.CustomCodingAgent>)

  // ---------------------------------------------------------------------
  // Quick start

  /** Two options per tool (resume, start new) and a final "choose different settings". */
  function QuickStartOptionCount(entries: nat): (r: nat)
  {
    if entries == 0 then 0 else entries * 2 + 1
  }

  /** The action and tool a quick-start row stands for; None for the last
      row or when there is no history. */
  function SelectedQuickStartAction(entries: nat, index: nat): (r: Option<(QuickStartAction, nat)>)
    ensures r.Some? ==> r.value.1 < entries && r.value.0 != ChooseDifferent
  {
    if entries == 0 then None
    else if index >= entries * 2 then None
    else Some((if index % 2 == 0 then ResumeWithPrevious else StartNewWithPrevious, index / 2))
  }

  /** The row of a tool's resume or start-new option. */
  function QuickStartRow(action: QuickStartAction, tool: nat): nat
    requires action != ChooseDifferent
  {
    2 * tool + (if action == ResumeWithPrevious then 0 else 1)
  }

  /** Every row but the last is an action on a tool, and the last row chooses
      different settings. */
  lemma QuickStartRows(entries: nat, index: nat)
    requires entries > 0 && index < QuickStartOptionCount(entries)
    ensures SelectedQuickStartAction(entries, index).None? <==> index == QuickStartOptionCount(entries) - 1
    ensures SelectedQuickStartAction(entries, index).Some? ==>
      var (action, tool) := SelectedQuickStartAction(entries, index).value;
      QuickStartRow(action, tool) == index
  {
  }

  /** Each tool's two options sit at rows 2k and 2k + 1. */
  lemma QuickStartRowRoundTrip(entries: nat, action: QuickStartAction, tool: nat)
    requires action != ChooseDifferent && tool < entries
    ensures QuickStartRow(action, tool) < QuickStartOptionCount(entries) - 1
    ensures SelectedQuickStartAction(entries, QuickStartRow(action, tool)) == Some((action, tool))
  {
  }

  /** Without history there are no rows and no action. */
  lemma NoHistoryNoQuickStart(index: nat)
    ensures QuickStartOptionCount(0) == 0 && SelectedQuickStartAction(0, index) == None
  {
  }

  /** The execution mode and session a quick-start action launches with:
      resuming uses the recorded session when there is one, else continues. */
  function QuickStartMode(action: QuickStartAction, sessionId: Option<string>): (r: (ExecutionMode, Option<string>))
    ensures action == ResumeWithPrevious ==> r.1 == sessionId && (r.0 == Resume <==> sessionId.Some?)
    ensures action != ResumeWithPrevious ==> r == (Normal, None)
  {
    match action
    case ResumeWithPrevious => (if sessionId.Some? then Resume else Continue, sessionId)
    case _ => (Normal, None)
  }

  function ParseReasoningLevel(s: string): ReasoningLevel
  {
    if s == "low" then Low
    else if s == "medium" then Medium
    else if s == "high" then High
    else if s == "xhigh" then XHigh
    else Medium
  }

  function AgentFromToolId(toolId: string): CodingAgent
  {
    if toolId == "claude-code" then ClaudeCode
    else if toolId == "codex-cli" then CodexCli
    else if toolId == "gemini-cli" then GeminiCli
    else if toolId == "opencode" then OpenCode
    else ClaudeCode
  }

  /** The first agent with the given id. */
  function FindAgent(agents: seq<AgentEntry>, id: string): (r: Option<nat>)
    ensures r.Some? ==> (r.value < |agents| && agents[r.value].id == id
                         && forall k :: 0 <= k < r.value ==> agents[k].id != id)
    ensures r.None? ==> forall k :: 0 <= k < |agents| ==> agents[k].id != id
  {
    if agents == [] then None
    else if agents[0].id == id then Some(0)
    else
      var rest := FindAgent(agents[1..], id);
      if rest.Some? then Some(rest.value + 1) else None
  }

  // ---------------------------------------------------------------------
  // Agent capabilities

  /** A custom agent offers Normal plus the modes it has arguments for; a
      built-in agent offers all four. */
  function SupportedExecutionModes(entry: Option<AgentEntry>): (r: seq<ExecutionMode>)
  {
    if entry.Some? && entry.value.custom.Some? then
      var custom := entry.value.custom.value;
      if custom.modeArgs.Some? then
        [Normal]
        + (if custom.modeArgs.value.continueMode != [] then [Continue] else [])
        + (if custom.modeArgs.value.resume != [] then [Resume] else [])
      else [Normal]
    else [Normal, Continue, Resume, Convert]
  }

  predicate IsCustom(entry: Option<AgentEntry>)
  {
    entry.Some? && entry.value.custom.Some?
  }

  /** Normal is always offered and first, no mode is offered twice, Convert
      only for built-in agents, and a custom agent's Continue and Resume only
      with arguments for them. */
  lemma SupportedModesShape(entry: Option<AgentEntry>)
    ensures var r := SupportedExecutionModes(entry);
      1 <= |r| <= 4 && r[0] == Normal
      && (forall i, j :: 0 <= i < j < |r| ==> r[i] != r[j])
      && (Convert in r <==> !IsCustom(entry))
      && (IsCustom(entry) ==>
            var m := entry.value.custom.value.modeArgs;
            (Continue in r <==> m.Some? && m.value.continueMode != [])
            && (Resume in r <==> m.Some? && m.value.resume != []))
  {
  }

  /** Custom agents are asked about skipping permissions only when they
      define the arguments for it. */
  predicate SupportsSkipPermissions(entry: Option<AgentEntry>)
  {
    !IsCustom(entry) || entry.value.custom.value.permissionSkipArgs != []
  }

  predicate HasModels(entry: Option<AgentEntry>)
  {
    !IsCustom(entry) || entry.value.custom.value.models != []
  }

  predicate HasVersionCommand(entry: Option<AgentEntry>)
  {
    !IsCustom(entry) || entry.value.custom.value.versionCommand.Some?
  }

  /** The model ids a built-in agent offers; the first, empty id is the
      agent's own default. */
  function BuiltinModelIds(agent: CodingAgent): (r: seq<string>)
    ensures |r| >= 2 && r[0] == []
  {
    match agent
    case ClaudeCode => ["", "opus", "sonnet", "haiku"]
    case CodexCli => ["", "gpt-5.2-codex", "gpt-5.1-codex-max", "gpt-5.1-codex-mini", "gpt-5.2"]
    case GeminiCli => ["", "gemini-3-pro-preview", "gemini-3-flash-preview", "gemini-2.5-pro",
                       "gemini-2.5-flash", "gemini-2.5-flash-lite"]
    case OpenCode => ["", "__custom__"]
  }

  function CustomModelIds(models: seq<ConfigTools.ModelDef>): (r: seq<string>)
    ensures |r| == |models| && forall k :: 0 <= k < |r| ==> r[k] == models[k].id
  {
    if models == [] then [] else [models[0].id] + CustomModelIds(models[1..])
  }

  /** `get_models`: a custom agent's own models, else the built-in list. */
  function ModelIds(entry: Option<AgentEntry>, agent: CodingAgent): (r: seq<string>)
  {
    if IsCustom(entry) then CustomModelIds(entry.value.custom.value.models) else BuiltinModelIds(agent)
  }

  /** The model step is shown exactly when there are models to choose from. */
  lemma HasModelsIffModelIds(entry: Option<AgentEntry>, agent: CodingAgent)
    ensures HasModels(entry) <==> ModelIds(entry, agent) != []
  {
    if IsCustom(entry) {
      var models := entry.value.custom.value.models;
      assert |CustomModelIds(models)| == |models|;
    }
  }

  /** The versions offered: the installed one when detected, then "latest",
      then the registry's versions. */
  function VersionOptions(installed: Option<string>, registry: seq<string>): (r: seq<string>)
    ensures |r| >= 1 && "latest" in r
    ensures r[0] == (if installed.Some? then installed.value else "latest")
    ensures |r| == (if installed.Some? then 2 else 1) + |registry|
  {
    (if installed.Some? then [installed.value] else []) + ["latest"] + registry
  }

  const ALL_AGENTS: seq<CodingAgent> := [ClaudeCode, CodexCli, GeminiCli, OpenCode]

  /** `collect_convert_source_agents`: every other agent with its session
      count, in catalogue order. */
  function ConvertSources(target: CodingAgent, sessionCount: CodingAgent -> nat): (r: seq<(CodingAgent, nat)>)
    ensures |r| == 3
    ensures forall k :: 0 <= k < |r| ==> r[k].0 != target && r[k].1 == sessionCount(r[k].0)
    ensures forall i, j :: 0 <= i < j < |r| ==> r[i].0 != r[j].0
  {
    var r := if target == ClaudeCode then [CodexCli, GeminiCli, OpenCode]
             else if target == CodexCli then [ClaudeCode, GeminiCli, OpenCode]
             else if target == GeminiCli then [ClaudeCode, CodexCli, OpenCode]
             else [ClaudeCode, CodexCli, GeminiCli];
    seq(3, (k: int) requires 0 <= k < 3 => (r[k], sessionCount(r[k])))
  }

  const REASONING_LEVELS: seq<ReasoningLevel> := [Low, Medium, High, XHigh]
  const BRANCH_TYPES: seq<BranchType> := [Feature, Bugfix, Hotfix, Release]

  function BranchTypeIndex(t: BranchType): (r: nat)
    ensures r < |BRANCH_TYPES| && BRANCH_TYPES[r] == t
  {
    match t
    case Feature => 0
    case Bugfix => 1
    case Hotfix => 2
    case Release => 3
  }

  /** Each branch type sits at exactly one position of the list. */
  lemma BranchTypeIndexRoundTrip(i: nat)
    requires i < |BRANCH_TYPES|
    ensures BranchTypeIndex(BRANCH_TYPES[i]) == i
  {
  }

  // ---------------------------------------------------------------------
  // Step machine

  /** What the forward transition looks at besides the step itself. */
  datatype Forward = Forward(
    quickStart: Option<(QuickStartAction, nat)>,
    branchActionIndex: nat,
    ghAvailable: bool,
    hasModels: bool,
    hasVersionCommand: bool,
    isCodex: bool,
    mode: ExecutionMode,
    sourceSessions: Option<nat>,
    conversionSucceeds: bool)

  /** `next_step`'s choice of the following step. */
  function NextStepOf(step: WizardStep, f: Forward): WizardStep
  {
    match step
    case QuickStart => if f.quickStart.Some? then SkipPermissions else BranchAction
    case BranchAction => if f.branchActionIndex == 0 then AgentSelect else BranchTypeSelect
    case BranchTypeSelect => if f.ghAvailable then IssueSelect else BranchNameInput
    case IssueSelect => BranchNameInput
    case BranchNameInput => AgentSelect
    case AgentSelect =>
      if f.hasModels then ModelSelect
      else if f.hasVersionCommand then VersionSelect
      else ExecutionModeStep
    case ModelSelect =>
      if f.isCodex then ReasoningLevelStep
      else if f.hasVersionCommand then VersionSelect
      else ExecutionModeStep
    case ReasoningLevelStep => VersionSelect
    case VersionSelect => ExecutionModeStep
    case CollaborationModes => ExecutionModeStep
    case ExecutionModeStep => if f.mode == Convert then ConvertAgentSelect else SkipPermissions
    case ConvertAgentSelect =>
      if f.sourceSessions.Some? && f.sourceSessions.value != 0 then ConvertSessionSelect
      else ConvertAgentSelect
    case ConvertSessionSelect => if f.conversionSucceeds then SkipPermissions else ConvertSessionSelect
    case SkipPermissions => SkipPermissions
  }

  /** Distance to the final step along the longest forward path. */
  function StepRank(step: WizardStep): nat
  {
    match step
    case SkipPermissions => 0
    case ConvertSessionSelect => 1
    case ConvertAgentSelect => 2
    case ExecutionModeStep => 3
    case VersionSelect => 4
    case CollaborationModes => 4
    case ReasoningLevelStep => 5
    case ModelSelect => 6
    case AgentSelect => 7
    case BranchNameInput => 8
    case IssueSelect => 9
    case BranchTypeSelect => 10
    case BranchAction => 11
    case QuickStart => 12
  }

  /** The conversion steps can stay put: no source agent with sessions, or a
      failed conversion. */
  predicate Stuck(step: WizardStep, f: Forward)
  {
    (step == ConvertAgentSelect && !(f.sourceSessions.Some? && f.sourceSessions.value != 0))
    || (step == ConvertSessionSelect && !f.conversionSucceeds)
  }

  /** Every forward step gets closer to the final step, which is a fixed point;
      only the conversion steps can stay where they are. */
  lemma NextStepProgress(step: WizardStep, f: Forward)
    ensures step == SkipPermissions ==> NextStepOf(step, f) == SkipPermissions
    ensures step != SkipPermissions && !Stuck(step, f) ==> StepRank(NextStepOf(step, f)) < StepRank(step)
    ensures Stuck(step, f) ==> NextStepOf(step, f) == step
  {
  }

  function Advance(step: WizardStep, f: Forward, n: nat): WizardStep
    decreases n
  {
    if n == 0 then step else Advance(NextStepOf(step, f), f, n - 1)
  }

  /** Twelve forward steps reach the final step from anywhere unless the
      conversion steps stall. */
  lemma {:induction false} ReachesSkipPermissions(step: WizardStep, f: Forward, n: nat)
    requires !Stuck(ConvertAgentSelect, f) && !Stuck(ConvertSessionSelect, f)
    requires n >= StepRank(step)
    ensures Advance(step, f, n) == SkipPermissions
    decreases n
  {
    NextStepProgress(step, f);
    if n > 0 {
      if step == SkipPermissions {
        ReachesSkipPermissions(step, f, n - 1);
      } else {
        ReachesSkipPermissions(NextStepOf(step, f), f, n - 1);
      }
    }
  }

  /** What the backward transition looks at besides the step itself. */
  datatype Backward = Backward(
    hasQuickStart: bool,
    hasBaseOverride: bool,
    ghAvailable: bool,
    isNewBranch: bool,
    hasBranchAction: bool,
    isCodex: bool,
    hasModels: bool,
    hasVersionCommand: bool,
    mode: ExecutionMode)

  /** `prev_step`'s choice of the previous step; None closes the wizard. */
  function PrevStepOf(step: WizardStep, b: Backward): Option<WizardStep>
  {
    match step
    case QuickStart => None
    case BranchAction => if b.hasQuickStart then Some(QuickStart) else None
    case BranchTypeSelect => if b.hasBaseOverride then Some(BranchAction) else None
    case IssueSelect => Some(BranchTypeSelect)
    case BranchNameInput => if b.ghAvailable then Some(IssueSelect) else Some(BranchTypeSelect)
    case AgentSelect =>
      if b.isNewBranch then Some(BranchNameInput)
      else if b.hasBranchAction then Some(BranchAction)
      else if b.hasQuickStart then Some(QuickStart)
      else None
    case ModelSelect => Some(AgentSelect)
    case ReasoningLevelStep => Some(ModelSelect)
    case VersionSelect =>
      if b.isCodex then Some(ReasoningLevelStep)
      else if b.hasModels then Some(ModelSelect)
      else Some(AgentSelect)
    case CollaborationModes => Some(VersionSelect)
    case ExecutionModeStep =>
      if b.hasVersionCommand then Some(VersionSelect)
      else if b.hasModels then Some(ModelSelect)
      else Some(AgentSelect)
    case ConvertAgentSelect => Some(ExecutionModeStep)
    case ConvertSessionSelect => Some(ConvertAgentSelect)
    case SkipPermissions => if b.mode == Convert then Some(ConvertSessionSelect) else Some(ExecutionModeStep)
  }

  /** Going back undoes going forward along the agent, model, version and
      conversion path, as long as nothing the two transitions look at differs. */
  lemma PrevUndoesNext(step: WizardStep, f: Forward, b: Backward)
    requires f.isCodex == b.isCodex && f.hasModels == b.hasModels
    requires f.hasVersionCommand == b.hasVersionCommand && f.mode == b.mode && f.ghAvailable == b.ghAvailable
    requires step in {ModelSelect, ReasoningLevelStep, VersionSelect, ExecutionModeStep, ConvertAgentSelect,
                      ConvertSessionSelect, IssueSelect}
    requires !Stuck(step, f)
    requires step == ModelSelect ==> f.hasModels && (f.isCodex || f.hasVersionCommand)
    requires step == ReasoningLevelStep ==> f.isCodex
    requires step == ConvertSessionSelect ==> f.mode == Convert
    requires step == VersionSelect ==> f.hasVersionCommand
    requires step == IssueSelect ==> f.ghAvailable
    ensures PrevStepOf(NextStepOf(step, f), b) == Some(step)
  {
  }

  /** Escaping from the first step of a flow closes the wizard. */
  lemma FirstStepsClose(b: Backward)
    ensures PrevStepOf(QuickStart, b) == None
    ensures !b.hasBaseOverride ==> PrevStepOf(BranchTypeSelect, b) == None
    ensures !b.isNewBranch && !b.hasBranchAction && !b.hasQuickStart ==> PrevStepOf(AgentSelect, b) == None
  {
  }

  // ---------------------------------------------------------------------
  // Scrolling and truncation

  /** Rows of the version list shown at once. */
  const VERSION_WINDOW: nat := 8

  /** `ensure_version_visible`: scroll down first, then up. */
  function VersionScrollOffset(index: nat, offset: nat): (r: nat)
    ensures r <= index < r + VERSION_WINDOW
    ensures offset <= index < offset + VERSION_WINDOW ==> r == offset
  {
    var down := if index >= offset + VERSION_WINDOW then SatSub(index, VERSION_WINDOW - 1) else offset;
    if index < down then index else down
  }

  /** `truncate_with_ellipsis`, counting characters. */
  method TruncateWithEllipsis(text: string, maxWidth: nat) returns (r: string)
    ensures |r| == Min(|text|, maxWidth)
    ensures |text| <= maxWidth ==> r == text
    ensures maxWidth < |text| && maxWidth <= 3 ==> forall k :: 0 <= k < |r| ==> r[k] == '.'
    ensures 3 < maxWidth < |text| ==> r == text[..maxWidth - 3] + "..."
  {
    if maxWidth == 0 {
      return [];
    }
    if |text| <= maxWidth {
      return text;
    }
    if maxWidth <= 3 {
      r := [];
      while |r| < maxWidth
        invariant |r| <= maxWidth
        invariant forall k :: 0 <= k < |r| ==> r[k] == '.'
      {
        r := r + ['.'];
      }
      return;
    }
    var truncated: string := [];
    var i := 0;
    while i < |text|
      invariant 0 <= i <= maxWidth - 3
      invariant truncated == text[..i]
    {
      if i >= maxWidth - 3 {
        break;
      }
      truncated := truncated + [text[i]];
      i := i + 1;
    }
    r := truncated + "...";
  }

  // ---------------------------------------------------------------------
  // Issue rows

  /** The issue a click on a row of the issue list selects, as written: the
      row indexes the filtered list directly although row 0 is "Skip"; a row
      past the filtered list keeps the old selection. */
  function IssueForRowAsWritten(issues: seq<GitIssue.Issue>, filtered: seq<nat>, row: nat,
                                current: Option<GitIssue.Issue>): Option<GitIssue.Issue>
  {
    if row < |filtered| then
      if filtered[row] < |issues| then Some(issues[filtered[row]]) else None
    else current
  }

  /** The issue `confirm` takes for a row: nothing for "Skip", else the
      filtered issue one above. */
  function ConfirmedIssue(issues: seq<GitIssue.Issue>, filtered: seq<nat>, row: nat): Option<GitIssue.Issue>
  {
    if row > 0 && row - 1 < |filtered| && filtered[row - 1] < |issues| then Some(issues[filtered[row - 1]])
    else None
  }

  /** The branch name the step after the issue list starts from: the
      selected issue's suffix, or the name typed so far. */
  function NameAfterIssueStep(selected: Option<GitIssue.Issue>, name: string): string
  {
    if selected.Some? then GitIssue.BranchNameSuffix(selected.value) else name
  }

  /** Clicking "Skip" (row 0) selects the first issue, and continuing then
      names the branch after it instead of leaving the name empty. */
  lemma SkipRowSelectsFirstIssue(issue: GitIssue.Issue)
    ensures IssueForRowAsWritten([issue], [0], 0, None) == Some(issue)
    ensures ConfirmedIssue([issue], [0], 0) == None
    ensures NameAfterIssueStep(IssueForRowAsWritten([issue], [0], 0, None), []) != []
  {
  }

  /** The issue a click on a row selects, with "Skip" at row 0. */
  function IssueForRow(issues: seq<GitIssue.Issue>, filtered: seq<nat>, row: nat): (r: Option<GitIssue.Issue>)
    ensures r == ConfirmedIssue(issues, filtered, row)
    ensures row == 0 ==> r.None?
  {
    if row == 0 then None
    else if row - 1 < |filtered| && filtered[row - 1] < |issues| then Some(issues[filtered[row - 1]])
    else None
  }

  /** Choosing "Skip" by click keeps the branch name as typed. */
  lemma SkipRowKeepsName(issues: seq<GitIssue.Issue>, filtered: seq<nat>, name: string)
    ensures NameAfterIssueStep(IssueForRow(issues, filtered, 0), name) == name
  {
  }

  /** Generating "prefix + issue-N" and stripping the prefix again leaves
      the issue's suffix. */
  lemma StripGeneratedPrefix(t: BranchType, issue: GitIssue.Issue)
    ensures StripPrefix(GitIssue.GenerateBranchName(t.Prefix(), issue.number), t.Prefix())
      == Some(GitIssue.BranchNameSuffix(issue))
  {
    var p := t.Prefix();
    var full := GitIssue.GenerateBranchName(p, issue.number);
    assert full == p + GitIssue.BranchNameSuffix(issue);
    assert full[..|p|] == p;
    assert full[|p|..] == GitIssue.BranchNameSuffix(issue);
  }


  // ---------------------------------------------------------------------
  // Issue search

  /** The position of the first issue with the given number. */
  function PositionByNumber(issues: seq<GitIssue.Issue>, number: nat): (r: Option<nat>)
    ensures r.Some? ==> (r.value < |issues| && issues[r.value].number == number
                         && forall k :: 0 <= k < r.value ==> issues[k].number != number)
    ensures r.None? ==> forall k :: 0 <= k < |issues| ==> issues[k].number != number
  {
    if issues == [] then None
    else if issues[0].number == number then Some(0)
    else
      var rest := PositionByNumber(issues[1..], number);
      if rest.Some? then Some(rest.value + 1) else None
  }

  function Positions(issues: seq<GitIssue.Issue>, matches: seq<GitIssue.Issue>): (r: seq<nat>)
    ensures |r| <= |matches|
    ensures forall k :: 0 <= k < |r| ==> r[k] < |issues|
  {
    if matches == [] then []
    else
      var p := PositionByNumber(issues, matches[0].number);
      (if p.Some? then [p.value] else []) + Positions(issues, matches[1..])
  }

  /** Every matching issue is found again by its number. */
  lemma {:induction false} PositionsOfMembers(issues: seq<GitIssue.Issue>, matches: seq<GitIssue.Issue>)
    requires forall x :: x in matches ==> x in issues
    ensures |Positions(issues, matches)| == |matches|
  {
    if matches != [] {
      assert matches[0] in issues;
      var k :| 0 <= k < |issues| && issues[k] == matches[0];
      assert PositionByNumber(issues, matches[0].number).Some?;
      PositionsOfMembers(issues, matches[1..]);
    }
  }

  function AllPositions(n: nat): (r: seq<nat>)
    ensures |r| == n && forall k :: 0 <= k < n ==> r[k] == k
  {
    seq(n, (k: int) requires 0 <= k < n => k as nat)
  }

  /** `update_filtered_issues`: the positions of the issues whose title
      matches the query, all of them for an empty query. */
  function FilteredPositions(issues: seq<GitIssue.Issue>, query: string): (r: seq<nat>)
    ensures forall k :: 0 <= k < |r| ==> r[k] < |issues|
    ensures query == [] ==> r == AllPositions(|issues|)
  {
    if query == [] then AllPositions(|issues|) else Positions(issues, GitIssue.FilterByTitle(issues, query))
  }

  /** One position per matching issue. */
  lemma FilteredPositionsCount(issues: seq<GitIssue.Issue>, query: string)
    ensures |FilteredPositions(issues, query)| == |GitIssue.FilterByTitle(issues, query)|
  {
    if query != [] {
      PositionsOfMembers(issues, GitIssue.FilterByTitle(issues, query));
    }
  }

  // ---------------------------------------------------------------------
  // The wizard state, grouped as the wizard's screens use it

  /** Which branch the agent is launched on and the new branch's name. */
  datatype BranchInput = BranchInput(
    isNewBranch: bool,
    branchName: string,
    branchType: BranchType,
    newBranchName: string,
    cursor: nat,
    actionIndex: nat,
    hasBranchAction: bool,
    baseBranchOverride: Option<string>)

  /** The agent, model, reasoning level and version chosen so far. */
  datatype AgentChoice = AgentChoice(
    agents: seq<AgentEntry>,
    agentIndex: nat,
    entry: Option<AgentEntry>,
    agent: CodingAgent,
    model: string,
    modelIndex: nat,
    reasoningLevel: ReasoningLevel,
    reasoningLevelIndex: nat,
    versions: seq<string>,
    versionIndex: nat,
    version: string,
    versionsFetched: bool,
    collaborationModes: bool)
  {
    function Models(): seq<string>
    {
      ModelIds(entry, agent)
    }

    /** Moving the agent cursor to row `i` selects that entry and, for a
        built-in one, its agent. */
    function SelectAgent(i: nat): (r: AgentChoice)
      ensures r.agentIndex == i && r.agents == agents
      ensures i < |agents| ==> r.entry == Some(agents[i])
      ensures i >= |agents| ==> r.entry.None?
      ensures r.agent == (if r.entry.Some? && r.entry.value.builtin.Some? then r.entry.value.builtin.value else agent)
    {
      var e := if i < |agents| then Some(agents[i]) else None;
      this.(agentIndex := i, entry := e,
            agent := if e.Some? && e.value.builtin.Some? then e.value.builtin.value else agent)
    }

    /** The agent part of `apply_quick_start_selection`: the recorded agent,
        looked up by id and else by built-in tool id, and the recorded model,
        reasoning level and version where the entry has them. */
    function WithHistory(e: QuickStartEntry, collaborationSupported: bool): (r: AgentChoice)
      ensures r.agents == agents && r.modelIndex == modelIndex && r.reasoningLevelIndex == reasoningLevelIndex
      ensures r.versions == versions && r.versionIndex == versionIndex && r.versionsFetched == versionsFetched
      ensures var found := FindAgent(agents, e.toolId);
        (found.Some? ==> (r.agentIndex == found.value && r.entry == Some(agents[found.value])
                          && r.agent == (if agents[found.value].builtin.Some? then agents[found.value].builtin.value
                                         else ClaudeCode)))
        && (found.None? ==> r.agent == AgentFromToolId(e.toolId) && r.entry.None? && r.agentIndex == agentIndex)
      ensures r.model == e.model.GetOr(model) && r.version == e.version.GetOr(version)
      ensures r.reasoningLevel == (if e.reasoningLevel.Some? then ParseReasoningLevel(e.reasoningLevel.value)
                                   else reasoningLevel)
      ensures r.collaborationModes == (r.agent == CodexCli && collaborationSupported)
    {
      var found := FindAgent(agents, e.toolId);
      var c := if found.Some? then
                 var a := agents[found.value];
                 this.(agentIndex := found.value, entry := Some(a),
                       agent := if a.builtin.Some? then a.builtin.value else ClaudeCode)
               else this.(agent := AgentFromToolId(e.toolId), entry := None);
      var level := if e.reasoningLevel.Some? then ParseReasoningLevel(e.reasoningLevel.value) else reasoningLevel;
      c.(model := e.model.GetOr(model), reasoningLevel := level, version := e.version.GetOr(version),
         collaborationModes := c.agent == CodexCli && collaborationSupported)
    }

    /** `fetch_versions_for_agent`: fetched once per agent choice. */
    function FetchVersions(installed: Option<string>, registry: seq<string>): (r: AgentChoice)
      ensures r.versionsFetched && (|versions| >= 1 ==> |r.versions| >= 1)
      ensures versionsFetched ==> r == this
      ensures !versionsFetched ==>
        r == this.(versions := VersionOptions(installed, registry), versionIndex := 0,
                   version := VersionOptions(installed, registry)[0], versionsFetched := true)
    {
      if versionsFetched then this
      else
        var options := VersionOptions(installed, registry);
        this.(versions := options, versionIndex := 0, version := options[0], versionsFetched := true)
    }
  }

  /** How the agent is launched. */
  datatype Launch = Launch(
    mode: ExecutionMode,
    modeIndex: nat,
    skipPermissions: bool,
    sessionId: Option<string>)

  datatype QuickStartList = QuickStartList(enabled: bool, entries: seq<QuickStartEntry>, index: nat)

  datatype IssuePicker = IssuePicker(
    issues: seq<GitIssue.Issue>,
    query: string,
    filtered: seq<nat>,
    selectedIndex: nat,
    selected: Option<GitIssue.Issue>,
    existingBranch: Option<string>,
    error: Option<string>)

  /** Session conversion: the other agents with their session counts, and
      the sessions of the chosen one. */
  datatype Conversion = Conversion(
    sources: seq<(CodingAgent, nat)>,
    agentIndex: nat,
    sessionCount: nat,
    sessionIndex: nat)

  /** What the wizard learns from outside: whether the GitHub CLI is
      available, the installed and published versions of the agent, how many
      sessions each agent's parser lists, the id of the converted session
      when conversion succeeds, and whether the chosen Codex version supports
      collaboration modes. */
  datatype Env = Env(
    ghAvailable: bool,
    installedVersion: Option<string>,
    registryVersions: seq<string>,
    sessionCount: CodingAgent -> nat,
    converted: Option<string>,
    collaborationSupported: bool)

  /** `perform_session_conversion` succeeds when a source agent and a
      session are selected and the conversion itself succeeds. */
  predicate ConversionSucceeds(c: Conversion, env: Env)
  {
    c.agentIndex < |c.sources| && c.sessionIndex < c.sessionCount && env.converted.Some?
  }

  function SourceSessions(c: Conversion): (r: Option<nat>)
    ensures r.Some? <==> c.agentIndex < |c.sources|
  {
    if c.agentIndex < |c.sources| then Some(c.sources[c.agentIndex].1) else None
  }

  /** The selections the steps edit, taken together. */
  datatype Selections = Selections(
    branch: BranchInput,
    choice: AgentChoice,
    launch: Launch,
    issues: IssuePicker,
    convert: Conversion)

  /** Each cursor stays inside its text or list. */
  predicate SelectionsValid(s: Selections)
  {
    s.branch.cursor <= |s.branch.newBranchName|
    && s.branch.actionIndex <= 1
    && s.choice.reasoningLevelIndex < |REASONING_LEVELS|
    && s.choice.versionIndex < |s.choice.versions|
    && s.issues.selectedIndex <= |s.issues.filtered|
  }

  /** The facts `NextStepOf` looks at, read off the selections. */
  function Facts(s: Selections, quick: QuickStartList, env: Env): Forward
  {
    Forward(SelectedQuickStartAction(|quick.entries|, quick.index), s.branch.actionIndex, env.ghAvailable,
            HasModels(s.choice.entry), HasVersionCommand(s.choice.entry), s.choice.agent == CodexCli,
            s.launch.mode, SourceSessions(s.convert), ConversionSucceeds(s.convert, env))
  }

  /** The launch settings on entering the execution-mode step: the first
      supported mode. */
  function FreshMode(l: Launch, entry: Option<AgentEntry>): (r: Launch)
    ensures r == l.(mode := Normal, modeIndex := 0)
  {
    l.(modeIndex := 0, mode := SupportedExecutionModes(entry)[0])
  }

  /** The branch name after leaving the issue list: the generated name of
      the selected issue without its type prefix. */
  function NameFromIssue(b: BranchInput, selected: Option<GitIssue.Issue>): string
  {
    if selected.Some? then
      var full := GitIssue.GenerateBranchName(b.branchType.Prefix(), selected.value.number);
      var stripped := StripPrefix(full, b.branchType.Prefix());
      if stripped.Some? then stripped.value else full
    else b.newBranchName
  }

  /** What leaving `step` does to the selections in `next_step`. */
  function Leave(step: WizardStep, s: Selections, quick: QuickStartList, env: Env): (r: Selections)
  {
    match step
    case QuickStart =>
      var chosen := SelectedQuickStartAction(|quick.entries|, quick.index);
      if chosen.Some? then
        var e := quick.entries[chosen.value.1];
        var started := QuickStartMode(chosen.value.0, e.sessionId);
        s.(choice := s.choice.WithHistory(e, env.collaborationSupported),
           launch := s.launch.(skipPermissions := e.skipPermissions.GetOr(false), mode := started.0,
                               sessionId := started.1))
      else s
    case BranchAction =>
      if s.branch.actionIndex == 0 then s.(branch := s.branch.(isNewBranch := false, baseBranchOverride := None))
      else s.(branch := s.branch.(isNewBranch := true, baseBranchOverride := Some(s.branch.branchName)))
    case BranchTypeSelect =>
      if env.ghAvailable then
        s.(issues := s.issues.(issues := [], query := [], filtered := [], selectedIndex := 0, selected := None,
                               error := None))
      else s
    case IssueSelect =>
      var name := NameFromIssue(s.branch, s.issues.selected);
      s.(branch := s.branch.(newBranchName := name, cursor := |name|))
    case AgentSelect =>
      var models := s.choice.Models();
      var c := (if models != [] then s.choice.(model := models[0], modelIndex := 0) else s.choice)
               .(versionsFetched := false);
      if HasModels(c.entry) then s.(choice := c)
      else if HasVersionCommand(c.entry) then s.(choice := c.FetchVersions(env.installedVersion, env.registryVersions))
      else s.(choice := c, launch := FreshMode(s.launch, c.entry))
    case ModelSelect =>
      if s.choice.agent == CodexCli then s
      else if HasVersionCommand(s.choice.entry) then
        s.(choice := s.choice.FetchVersions(env.installedVersion, env.registryVersions))
      else s.(launch := FreshMode(s.launch, s.choice.entry))
    case ReasoningLevelStep =>
      s.(choice := s.choice.FetchVersions(env.installedVersion, env.registryVersions))
    case VersionSelect =>
      var enable := s.choice.agent == CodexCli && env.collaborationSupported;
      s.(choice := s.choice.(collaborationModes := s.choice.collaborationModes || enable),
         launch := FreshMode(s.launch, s.choice.entry))
    case ExecutionModeStep =>
      if s.launch.mode == Convert then s.(convert := s.convert.(sources := ConvertSources(s.choice.agent, env.sessionCount)))
      else if SupportsSkipPermissions(s.choice.entry) then s
      else s.(launch := s.launch.(skipPermissions := false))
    case ConvertAgentSelect =>
      var sessions := SourceSessions(s.convert);
      if sessions.Some? && sessions.value != 0 then
        s.(convert := s.convert.(sessionCount := env.sessionCount(s.convert.sources[s.convert.agentIndex].0),
                                 sessionIndex := 0))
      else s
    case ConvertSessionSelect =>
      if ConversionSucceeds(s.convert, env) then
        s.(launch := s.launch.(sessionId := env.converted,
                               skipPermissions := s.launch.skipPermissions && SupportsSkipPermissions(s.choice.entry)))
      else s
    case CollaborationModes => s
    case BranchNameInput => s
    case SkipPermissions => s
  }

  predicate QuickValid(quick: QuickStartList)
  {
    (quick.entries == [] ==> quick.index == 0)
    && (quick.entries != [] ==> quick.index < QuickStartOptionCount(|quick.entries|))
  }

  /** `current_step_item_count`: the rows the step lists. */
  function RowCount(step: WizardStep, s: Selections, quick: QuickStartList): nat
  {
    match step
    case QuickStart => QuickStartOptionCount(|quick.entries|)
    case ConvertAgentSelect => |s.convert.sources|
    case ConvertSessionSelect => s.convert.sessionCount
    case BranchAction => 2
    case BranchTypeSelect => |BRANCH_TYPES|
    case IssueSelect => |s.issues.filtered| + 1
    case BranchNameInput => 0
    case AgentSelect => |s.choice.agents|
    case ModelSelect => |s.choice.Models()|
    case ReasoningLevelStep => |REASONING_LEVELS|
    case VersionSelect => |s.choice.versions|
    case CollaborationModes => 0
    case ExecutionModeStep => |SupportedExecutionModes(s.choice.entry)|
    case SkipPermissions => if SupportsSkipPermissions(s.choice.entry) then 2 else 1
  }

  /** `current_selection_index`: the highlighted row; on the permissions
      step row 0 is "Yes". */
  function Row(step: WizardStep, s: Selections, quick: QuickStartList): nat
  {
    match step
    case QuickStart => quick.index
    case ConvertAgentSelect => s.convert.agentIndex
    case ConvertSessionSelect => s.convert.sessionIndex
    case BranchAction => s.branch.actionIndex
    case BranchTypeSelect => BranchTypeIndex(s.branch.branchType)
    case IssueSelect => s.issues.selectedIndex
    case BranchNameInput => 0
    case AgentSelect => s.choice.agentIndex
    case ModelSelect => s.choice.modelIndex
    case ReasoningLevelStep => s.choice.reasoningLevelIndex
    case VersionSelect => s.choice.versionIndex
    case CollaborationModes => 0
    case ExecutionModeStep => s.launch.modeIndex
    case SkipPermissions => if s.launch.skipPermissions then 0 else 1
  }

  /** Highlighting row `i` of the step's list, with what the row stands for:
      the agent entry, model, reasoning level, version, execution mode,
      branch type or permissions answer. */
  function MoveTo(step: WizardStep, s: Selections, quick: QuickStartList, i: nat): (r: (Selections, QuickStartList))
    requires i < RowCount(step, s, quick)
  {
    match step
    case QuickStart => (s, quick.(index := i))
    case ConvertAgentSelect => (s.(convert := s.convert.(agentIndex := i)), quick)
    case ConvertSessionSelect => (s.(convert := s.convert.(sessionIndex := i)), quick)
    case BranchAction => (s.(branch := s.branch.(actionIndex := i)), quick)
    case BranchTypeSelect => (s.(branch := s.branch.(branchType := BRANCH_TYPES[i])), quick)
    case IssueSelect => (s.(issues := s.issues.(selectedIndex := i)), quick)
    case AgentSelect => (s.(choice := s.choice.SelectAgent(i)), quick)
    case ModelSelect => (s.(choice := s.choice.(modelIndex := i, model := s.choice.Models()[i])), quick)
    case ReasoningLevelStep =>
      (s.(choice := s.choice.(reasoningLevelIndex := i, reasoningLevel := REASONING_LEVELS[i])), quick)
    case VersionSelect => (s.(choice := s.choice.(versionIndex := i, version := s.choice.versions[i])), quick)
    case ExecutionModeStep =>
      (s.(launch := s.launch.(modeIndex := i, mode := SupportedExecutionModes(s.choice.entry)[i])), quick)
    case SkipPermissions =>
      (s.(launch := s.launch.(skipPermissions := SupportsSkipPermissions(s.choice.entry) && i == 0)), quick)
  }

  /** Moving to a row highlights exactly that row, keeps the list as long
      as it was and keeps every cursor in range. */
  lemma MoveToSelectsRow(step: WizardStep, s: Selections, quick: QuickStartList, i: nat)
    requires i < RowCount(step, s, quick)
    ensures var (s', quick') := MoveTo(step, s, quick, i);
      (step != SkipPermissions || SupportsSkipPermissions(s.choice.entry) ==> Row(step, s', quick') == i)
      && RowCount(step, s', quick') == RowCount(step, s, quick)
      && (SelectionsValid(s) ==> SelectionsValid(s'))
      && (QuickValid(quick) ==> QuickValid(quick'))
  {
    if step == BranchTypeSelect {
      BranchTypeIndexRoundTrip(i);
    }
  }

  /** On the lists whose rows stand for a value, moving to a row selects the
      value of that row. */
  lemma MoveToSelectsValue(step: WizardStep, s: Selections, quick: QuickStartList, i: nat)
    requires i < RowCount(step, s, quick)
    ensures var s' := MoveTo(step, s, quick, i).0;
      (step == AgentSelect ==> s'.choice.entry == Some(s.choice.agents[i]))
      && (step == ModelSelect ==> s'.choice.model == s.choice.Models()[i])
      && (step == ReasoningLevelStep ==> s'.choice.reasoningLevel == REASONING_LEVELS[i])
      && (step == VersionSelect ==> s'.choice.version == s.choice.versions[i])
      && (step == ExecutionModeStep ==> s'.launch.mode == SupportedExecutionModes(s.choice.entry)[i])
      && (step == BranchTypeSelect ==> s'.branch.branchType == BRANCH_TYPES[i])
      && (step == SkipPermissions ==> (s'.launch.skipPermissions <==> SupportsSkipPermissions(s.choice.entry) && i == 0))
  {
  }

  /** An agent that cannot skip permissions has only the "No" row, and
      choosing it leaves the answer off. */
  lemma SkipRowWithoutSupport(s: Selections, quick: QuickStartList)
    requires !SupportsSkipPermissions(s.choice.entry)
    ensures RowCount(SkipPermissions, s, quick) == 1
    ensures !MoveTo(SkipPermissions, s, quick, 0).0.launch.skipPermissions
  {
  }

  /** The steps whose leaving changes the agent choice. */
  predicate ChoosesAgent(step: WizardStep)
  {
    step == QuickStart || step == AgentSelect || step == ModelSelect || step == ReasoningLevelStep
    || step == VersionSelect
  }

  /** Leaving a step touches only the selections that step is about. */
  lemma LeaveFrame(step: WizardStep, s: Selections, quick: QuickStartList, env: Env)
    ensures var r := Leave(step, s, quick, env);
      (!ChoosesAgent(step) ==> r.choice == s.choice)
      && (step != BranchAction && step != IssueSelect ==> r.branch == s.branch)
      && (step != BranchTypeSelect ==> r.issues == s.issues)
      && (step != ExecutionModeStep && step != ConvertAgentSelect ==> r.convert == s.convert)
      && (step == BranchAction ==> r.branch.branchName == s.branch.branchName)
  {
  }

  /** No step's side effects move a cursor out of its text or list. */
  lemma LeavePreservesValid(step: WizardStep, s: Selections, quick: QuickStartList, env: Env)
    requires SelectionsValid(s)
    ensures SelectionsValid(Leave(step, s, quick, env))
  {
  }

  /** A quick-start pick restores the recorded settings and launches in the
      mode its action calls for. */
  lemma LeavingQuickStart(s: Selections, quick: QuickStartList, env: Env)
    requires SelectedQuickStartAction(|quick.entries|, quick.index).Some?
    ensures var (action, tool) := SelectedQuickStartAction(|quick.entries|, quick.index).value;
      var e := quick.entries[tool];
      var r := Leave(QuickStart, s, quick, env);
      r.choice == s.choice.WithHistory(e, env.collaborationSupported)
      && (r.launch.mode, r.launch.sessionId) == QuickStartMode(action, e.sessionId)
      && r.launch.skipPermissions == e.skipPermissions.GetOr(false)
      && NextStepOf(QuickStart, Facts(s, quick, env)) == SkipPermissions
  {
  }

  /** "Use selected branch" keeps the branch; "Create new from selected"
      bases the new branch on it. */
  lemma LeavingBranchAction(s: Selections, quick: QuickStartList, env: Env)
    ensures var r := Leave(BranchAction, s, quick, env);
      (r.branch.isNewBranch <==> s.branch.actionIndex != 0)
      && (r.branch.baseBranchOverride.Some? <==> r.branch.isNewBranch)
      && (r.branch.isNewBranch ==> r.branch.baseBranchOverride.value == s.branch.branchName)
      && (NextStepOf(BranchAction, Facts(s, quick, env)) == BranchTypeSelect <==> r.branch.isNewBranch)
  {
  }

  /** Leaving the issue list names the branch after the selected issue, with
      the cursor at the end of the name; without an issue the typed name
      stays. */
  lemma LeavingIssueSelect(s: Selections, quick: QuickStartList, env: Env)
    ensures var r := Leave(IssueSelect, s, quick, env);
      r.branch.newBranchName == NameAfterIssueStep(s.issues.selected, s.branch.newBranchName)
      && r.branch.cursor == |r.branch.newBranchName|
      && r.branch.branchType == s.branch.branchType
  {
    if s.issues.selected.Some? {
      StripGeneratedPrefix(s.branch.branchType, s.issues.selected.value);
    }
  }

  /** Leaving the agent list preselects the first model, and the step that
      follows has what it needs: models for the model step, a fetched
      version list for the version step, Normal for the execution modes. */
  lemma LeavingAgentSelect(s: Selections, quick: QuickStartList, env: Env)
    requires SelectionsValid(s)
    ensures var r := Leave(AgentSelect, s, quick, env);
      var next := NextStepOf(AgentSelect, Facts(s, quick, env));
      (s.choice.Models() != [] ==> r.choice.model == s.choice.Models()[0] && r.choice.modelIndex == 0)
      && (next == ModelSelect <==> r.choice.Models() != [])
      && (next == VersionSelect ==>
            r.choice.versionsFetched && r.choice.versions == VersionOptions(env.installedVersion, env.registryVersions)
            && r.choice.version == r.choice.versions[0])
      && (next == ExecutionModeStep ==> r.launch.mode == Normal && r.launch.modeIndex == 0)
      && r.choice.entry == s.choice.entry && r.choice.agent == s.choice.agent
  {
    HasModelsIffModelIds(s.choice.entry, s.choice.agent);
  }

  /** Every way into the execution-mode step but the retired collaboration
      step starts at Normal, the first mode. */
  lemma EnteringExecutionModeStartsAtNormal(step: WizardStep, s: Selections, quick: QuickStartList, env: Env)
    requires NextStepOf(step, Facts(s, quick, env)) == ExecutionModeStep
    requires step != ExecutionModeStep && step != CollaborationModes
    ensures Leave(step, s, quick, env).launch.mode == Normal && Leave(step, s, quick, env).launch.modeIndex == 0
  {
  }

  /** Moving on from the execution modes in Convert mode collects every other
      agent as a conversion source. */
  lemma LeavingForConversion(s: Selections, quick: QuickStartList, env: Env)
    requires s.launch.mode == Convert
    ensures var r := Leave(ExecutionModeStep, s, quick, env);
      NextStepOf(ExecutionModeStep, Facts(s, quick, env)) == ConvertAgentSelect
      && |r.convert.sources| == 3
      && (forall k :: 0 <= k < 3 ==> r.convert.sources[k].0 != s.choice.agent)
  {
  }

  /** Reaching the last step after a conversion launches the converted
      session. */
  lemma ConversionResumesConvertedSession(s: Selections, quick: QuickStartList, env: Env)
    requires NextStepOf(ConvertSessionSelect, Facts(s, quick, env)) == SkipPermissions
    ensures Leave(ConvertSessionSelect, s, quick, env).launch.sessionId == env.converted
    ensures env.converted.Some?
  {
  }

  /** Reaching the last step for an agent that cannot skip permissions
      always clears the answer. */
  lemma UnsupportedSkipCleared(step: WizardStep, s: Selections, quick: QuickStartList, env: Env)
    requires step == ExecutionModeStep || step == ConvertSessionSelect
    requires NextStepOf(step, Facts(s, quick, env)) == SkipPermissions
    requires !SupportsSkipPermissions(s.choice.entry)
    ensures !Leave(step, s, quick, env).launch.skipPermissions
  {
  }

  class WizardState {
    var visible: bool
    var step: WizardStep
    var scrollOffset: nat
    var branch: BranchInput
    var choice: AgentChoice
    var launch: Launch
    var quick: QuickStartList
    var issues: IssuePicker
    var convert: Conversion
    var hasRunningAgent: bool
    var runningPane: Option<nat>

    /** The text cursor stays inside the branch name, and each list's cursor
        inside its list. */
    predicate Valid()
      reads this`branch, this`choice, this`launch, this`issues, this`convert, this`quick
    {
      SelectionsValid(Current()) && QuickValid(quick)
    }

    constructor ()
      ensures !visible && step == AgentSelect && scrollOffset == 0
      ensures choice.versions == ["latest"] && choice.reasoningLevel == Medium && choice.reasoningLevelIndex == 0
      ensures branch.newBranchName == [] && branch.cursor == 0 && quick.entries == [] && choice.agents == []
      ensures Valid()
    {
      visible, step, scrollOffset := false, AgentSelect, 0;
      branch := BranchInput(false, [], Feature, [], 0, 0, false, None);
      choice := AgentChoice([], 0, None, ClaudeCode, [], 0, Medium, 0, ["latest"], 0, [], false, false);
      launch := Launch(Normal, 0, false, None);
      quick := QuickStartList(false, [], 0);
      issues := IssuePicker([], [], [], 0, None, None, None);
      convert := Conversion([], 0, 0, 0);
      hasRunningAgent, runningPane := false, None;
    }

    /** `reset_selections`; `agents` is the catalogue's agent list. */
    method ResetSelections(agents: seq<AgentEntry>)
      modifies this`choice, this`launch, this`branch, this`scrollOffset, this`quick, this`hasRunningAgent,
               this`runningPane, this`convert
      ensures choice == AgentChoice(agents, 0, if agents == [] then None else Some(agents[0]), ClaudeCode, [], 0,
                                    Medium, 1, ["latest"], 0, "latest", false, false)
      ensures launch == Launch(Normal, 0, false, None)
      ensures branch == old(branch).(branchType := Feature, newBranchName := [], cursor := 0, actionIndex := 0,
                                     hasBranchAction := false, baseBranchOverride := None)
      ensures scrollOffset == 0 && quick == old(quick).(index := 0)
      ensures !hasRunningAgent && runningPane.None?
      ensures convert == Conversion([], 0, 0, 0)
    {
      choice := AgentChoice(agents, 0, if agents == [] then None else Some(agents[0]), ClaudeCode, [], 0,
                            Medium, 1, ["latest"], 0, "latest", false, false);
      launch := Launch(Normal, 0, false, None);
      branch := branch.(branchType := Feature, newBranchName := [], cursor := 0, actionIndex := 0,
                        hasBranchAction := false, baseBranchOverride := None);
      scrollOffset := 0;
      quick := quick.(index := 0);
      hasRunningAgent, runningPane := false, None;
      convert := Conversion([], 0, 0, 0);
    }

    /** `open_for_branch`: quick start when there is history and no agent
        runs on the branch, else the branch action step. */
    method OpenForBranch(name: string, history: seq<QuickStartEntry>, runningPaneIdx: Option<nat>, agents: seq<AgentEntry>)
      modifies this
      ensures visible && !branch.isNewBranch && branch.branchName == name && branch.hasBranchAction
      ensures hasRunningAgent == runningPaneIdx.Some? && runningPane == runningPaneIdx
      ensures runningPaneIdx.Some? || history == [] ==> step == BranchAction && quick == QuickStartList(false, [], 0)
      ensures runningPaneIdx.None? && history != [] ==> step == QuickStart && quick == QuickStartList(true, history, 0)
      ensures choice.agents == agents && choice.agentIndex == 0 && launch == Launch(Normal, 0, false, None)
      ensures branch.newBranchName == [] && branch.cursor == 0 && branch.actionIndex == 0
      ensures issues == old(issues) && scrollOffset == 0
      ensures old(Valid()) ==> Valid()
    {
      visible := true;
      branch := branch.(isNewBranch := false, branchName := name);
      ResetSelections(agents);
      branch := branch.(hasBranchAction := true);
      hasRunningAgent := runningPaneIdx.Some?;
      runningPane := runningPaneIdx;
      if runningPaneIdx.Some? || history == [] {
        step := BranchAction;
        quick := QuickStartList(false, [], 0);
      } else {
        step := QuickStart;
        quick := QuickStartList(true, history, 0);
      }
    }

    /** `open_for_new_branch`: straight to the branch type. */
    method OpenForNewBranch(agents: seq<AgentEntry>)
      modifies this
      ensures visible && branch.isNewBranch && step == BranchTypeSelect
      ensures quick == QuickStartList(false, [], 0) && !branch.hasBranchAction && branch.baseBranchOverride.None?
      ensures choice.agents == agents && branch.newBranchName == [] && branch.cursor == 0
      ensures branch.branchName == old(branch.branchName) && issues == old(issues)
      ensures old(Valid()) ==> Valid()
    {
      visible := true;
      branch := branch.(isNewBranch := true);
      step := BranchTypeSelect;
      ResetSelections(agents);
      quick := QuickStartList(false, [], 0);
    }

    method Close()
      modifies this`visible
      ensures !visible
    {
      visible := false;
    }

    function QuickStartChoice(): (r: Option<(QuickStartAction, nat)>)
      reads this`quick
      ensures r.Some? ==> r.value.1 < |quick.entries|
    {
      SelectedQuickStartAction(|quick.entries|, quick.index)
    }

    /** `apply_quick_start_selection`: the recorded agent settings, the
        permissions answer, and the action's mode and session. */
    method ApplyQuickStartSelection(tool: nat, action: QuickStartAction, collaborationSupported: bool)
      modifies this`choice, this`launch
      ensures tool >= |quick.entries| ==> choice == old(choice) && launch == old(launch)
      ensures tool < |quick.entries| ==>
        var e := quick.entries[tool];
        choice == old(choice).WithHistory(e, collaborationSupported)
        && launch == old(launch).(skipPermissions := e.skipPermissions.GetOr(false),
                                  mode := QuickStartMode(action, e.sessionId).0,
                                  sessionId := QuickStartMode(action, e.sessionId).1)
    {
      if tool < |quick.entries| {
        var e := quick.entries[tool];
        choice := choice.WithHistory(e, collaborationSupported);
        var started := QuickStartMode(action, e.sessionId);
        launch := launch.(skipPermissions := e.skipPermissions.GetOr(false), mode := started.0, sessionId := started.1);
      }
    }

    function Current(): Selections
      reads this`branch, this`choice, this`launch, this`issues, this`convert
    {
      Selections(branch, choice, launch, issues, convert)
    }

    function BackwardFacts(ghAvailable: bool): Backward
      reads this`quick, this`branch, this`choice, this`launch
    {
      Backward(quick.enabled, branch.baseBranchOverride.Some?, ghAvailable, branch.isNewBranch,
               branch.hasBranchAction, choice.agent == CodexCli, HasModels(choice.entry),
               HasVersionCommand(choice.entry), launch.mode)
    }

    /** `next_step`: the step `NextStepOf` names, with the side effects
        `Leave` gives for the step left. */
    method NextStep(env: Env)
      modifies this`step, this`scrollOffset, this`branch, this`choice, this`launch, this`issues, this`convert
      ensures step == NextStepOf(old(step), Facts(old(Current()), quick, env))
      ensures Current() == Leave(old(step), old(Current()), quick, env)
      ensures scrollOffset == 0
      ensures old(Valid()) ==> Valid()
    {
      var next := NextStepOf(step, Facts(Current(), quick, env));
      if Valid() {
        LeavePreservesValid(step, Current(), quick, env);
      }
      var r := Leave(step, Current(), quick, env);
      branch, choice, launch, issues, convert := r.branch, r.choice, r.launch, r.issues, r.convert;
      step := next;
      scrollOffset := 0;
    }

    /** `prev_step`: false when the wizard closes instead. */
    method PrevStep(ghAvailable: bool) returns (moved: bool)
      modifies this`step, this`scrollOffset, this`visible
      ensures var target := PrevStepOf(old(step), old(BackwardFacts(ghAvailable)));
        moved == target.Some?
        && (target.Some? ==> step == target.value && scrollOffset == 0 && visible == old(visible))
        && (target.None? ==> !visible && step == old(step) && scrollOffset == old(scrollOffset))
    {
      var target := PrevStepOf(step, BackwardFacts(ghAvailable));
      if target.None? {
        Close();
        return false;
      }
      step := target.value;
      scrollOffset := 0;
      return true;
    }

    /** `ensure_version_visible`: scroll down first, then up. */
    method EnsureVersionVisible()
      modifies this`scrollOffset
      ensures scrollOffset == VersionScrollOffset(choice.versionIndex, old(scrollOffset))
      ensures scrollOffset <= choice.versionIndex < scrollOffset + VERSION_WINDOW
    {
      if choice.versionIndex >= scrollOffset + VERSION_WINDOW {
        scrollOffset := SatSub(choice.versionIndex, VERSION_WINDOW - 1);
      }
      if choice.versionIndex < scrollOffset {
        scrollOffset := choice.versionIndex;
      }
    }

    /** Highlights row `i` of the current step and keeps the version row in
        view. */
    method Highlight(i: nat)
      requires i < RowCount(step, Current(), quick)
      modifies this`branch, this`choice, this`launch, this`issues, this`convert, this`quick, this`scrollOffset
      ensures (Current(), quick) == MoveTo(step, old(Current()), old(quick), i)
      ensures scrollOffset == (if step == VersionSelect then VersionScrollOffset(i, old(scrollOffset))
                               else old(scrollOffset))
    {
      var r := MoveTo(step, Current(), quick, i);
      branch, choice, launch, issues, convert, quick := r.0.branch, r.0.choice, r.0.launch, r.0.issues, r.0.convert, r.1;
      if step == VersionSelect {
        EnsureVersionVisible();
      }
    }

    /** `select_next`: one row down where there is one; on the permissions
        step it flips the answer. */
    method SelectNext()
      modifies this`branch, this`choice, this`launch, this`issues, this`convert, this`quick, this`scrollOffset
      ensures var row := Row(step, old(Current()), old(quick));
        if step == SkipPermissions then
          Current() == old(Current()).(launch := old(launch).(skipPermissions := !old(launch.skipPermissions)))
          && quick == old(quick) && scrollOffset == old(scrollOffset)
        else if row + 1 < RowCount(step, old(Current()), old(quick)) then
          (Current(), quick) == MoveTo(step, old(Current()), old(quick), row + 1)
          && Row(step, Current(), quick) == row + 1
        else
          Current() == old(Current()) && quick == old(quick) && scrollOffset == old(scrollOffset)
      ensures old(Valid()) ==> Valid()
    {
      if step == SkipPermissions {
        launch := launch.(skipPermissions := !launch.skipPermissions);
        return;
      }
      var row := Row(step, Current(), quick);
      if row + 1 < RowCount(step, Current(), quick) {
        MoveToSelectsRow(step, Current(), quick, row + 1);
        Highlight(row + 1);
      }
    }

    /** `select_prev`: one row up where there is one; on the permissions step
        it flips the answer only when the agent supports skipping. */
    method SelectPrev()
      modifies this`branch, this`choice, this`launch, this`issues, this`convert, this`quick, this`scrollOffset
      ensures var row := Row(step, old(Current()), old(quick));
        if step == SkipPermissions then
          Current() == old(Current()).(launch := old(launch).(skipPermissions :=
                          old(launch.skipPermissions) != SupportsSkipPermissions(choice.entry)))
          && quick == old(quick) && scrollOffset == old(scrollOffset)
        else if 0 < row <= RowCount(step, old(Current()), old(quick)) then
          (Current(), quick) == MoveTo(step, old(Current()), old(quick), row - 1)
          && Row(step, Current(), quick) == row - 1
        else
          Current() == old(Current()) && quick == old(quick) && scrollOffset == old(scrollOffset)
      ensures old(Valid()) ==> Valid()
    {
      if step == SkipPermissions {
        if SupportsSkipPermissions(choice.entry) {
          launch := launch.(skipPermissions := !launch.skipPermissions);
        }
        return;
      }
      var row := Row(step, Current(), quick);
      if 0 < row <= RowCount(step, Current(), quick) {
        MoveToSelectsRow(step, Current(), quick, row - 1);
        Highlight(row - 1);
      }
    }

    /** `set_selection_index`: false, changing nothing, for a row past the
        list or the row already highlighted. On the issue list the issue of
        the row is selected, with "Skip" at row 0 (see `IssueForRow`). */
    method SetSelectionIndex(index: nat) returns (changed: bool)
      modifies this`branch, this`choice, this`launch, this`issues, this`convert, this`quick, this`scrollOffset
      ensures changed <==> index < RowCount(step, old(Current()), old(quick)) && index != Row(step, old(Current()), old(quick))
      ensures !changed ==> Current() == old(Current()) && quick == old(quick) && scrollOffset == old(scrollOffset)
      ensures changed && step != IssueSelect ==> (Current(), quick) == MoveTo(step, old(Current()), old(quick), index)
      ensures changed && (step != SkipPermissions || SupportsSkipPermissions(choice.entry)) ==>
        Row(step, Current(), quick) == index
      ensures changed && step == IssueSelect ==>
        issues == old(issues).(selectedIndex := index, selected := IssueForRow(issues.issues, issues.filtered, index))
      ensures changed && step == VersionSelect ==> scrollOffset <= choice.versionIndex < scrollOffset + VERSION_WINDOW
      ensures old(Valid()) ==> Valid()
    {
      if index >= RowCount(step, Current(), quick) || index == Row(step, Current(), quick) {
        return false;
      }
      MoveToSelectsRow(step, Current(), quick, index);
      Highlight(index);
      if step == IssueSelect {
        issues := issues.(selected := IssueForRow(issues.issues, issues.filtered, index));
      }
      return true;
    }

    /** `update_filtered_issues`: the rows matching the query; a highlight
        past the new list returns to the first row. */
    method UpdateFilteredIssues()
      modifies this`issues
      ensures issues == old(issues).(filtered := FilteredPositions(issues.issues, issues.query),
                                     selectedIndex := if old(issues.selectedIndex) >= |issues.filtered| then 0
                                                      else old(issues.selectedIndex))
      ensures forall k :: 0 <= k < |issues.filtered| ==> issues.filtered[k] < |issues.issues|
      ensures issues.selectedIndex <= |issues.filtered|
    {
      var filtered := FilteredPositions(issues.issues, issues.query);
      issues := issues.(filtered := filtered);
      if issues.selectedIndex >= |filtered| {
        issues := issues.(selectedIndex := 0);
      }
    }

    /** `insert_char`: into the branch name at the cursor, which moves past
        it, or onto the issue search query, which refilters the list. */
    method InsertChar(c: char)
      modifies this`branch, this`issues
      ensures step == BranchNameInput && old(branch.cursor) <= |old(branch.newBranchName)| ==>
        branch == old(branch).(newBranchName := old(branch.newBranchName)[..old(branch.cursor)] + [c]
                                                 + old(branch.newBranchName)[old(branch.cursor)..],
                               cursor := old(branch.cursor) + 1)
        && issues == old(issues)
      ensures step == IssueSelect ==>
        issues.query == old(issues.query) + [c] && issues.filtered == FilteredPositions(issues.issues, issues.query)
        && issues.issues == old(issues.issues) && branch == old(branch)
      ensures step != BranchNameInput && step != IssueSelect ==> branch == old(branch) && issues == old(issues)
      ensures old(Valid()) ==> Valid()
    {
      if step == BranchNameInput {
        if branch.cursor <= |branch.newBranchName| {
          var name := branch.newBranchName;
          branch := branch.(newBranchName := name[..branch.cursor] + [c] + name[branch.cursor..], cursor := branch.cursor + 1);
        }
      } else if step == IssueSelect {
        issues := issues.(query := issues.query + [c]);
        UpdateFilteredIssues();
      }
    }

    /** `delete_char`: the character before the cursor, or the last
        character of the issue search query. */
    method DeleteChar()
      modifies this`branch, this`issues
      ensures step == BranchNameInput && 0 < old(branch.cursor) <= |old(branch.newBranchName)| ==>
        branch == old(branch).(newBranchName := old(branch.newBranchName)[..old(branch.cursor) - 1]
                                                 + old(branch.newBranchName)[old(branch.cursor)..],
                               cursor := old(branch.cursor) - 1)
        && issues == old(issues)
      ensures step == IssueSelect && old(issues.query) != [] ==>
        issues.query == old(issues.query)[..|old(issues.query)| - 1]
        && issues.filtered == FilteredPositions(issues.issues, issues.query)
        && issues.issues == old(issues.issues) && branch == old(branch)
      ensures (step == BranchNameInput && old(branch.cursor) == 0) || (step == IssueSelect && old(issues.query) == [])
              || (step != BranchNameInput && step != IssueSelect) ==>
        branch == old(branch) && issues == old(issues)
      ensures old(Valid()) ==> Valid()
    {
      if step == BranchNameInput {
        if 0 < branch.cursor <= |branch.newBranchName| {
          var name := branch.newBranchName;
          var at := branch.cursor - 1;
          branch := branch.(newBranchName := name[..at] + name[at + 1..], cursor := at);
        }
      } else if step == IssueSelect && issues.query != [] {
        issues := issues.(query := issues.query[..|issues.query| - 1]);
        UpdateFilteredIssues();
      }
    }

    method CursorLeft()
      modifies this`branch
      ensures branch == old(branch).(cursor := SatSub(old(branch.cursor), 1))
      ensures old(Valid()) ==> Valid()
    {
      if branch.cursor > 0 {
        branch := branch.(cursor := branch.cursor - 1);
      }
    }

    method CursorRight()
      modifies this`branch
      ensures branch == old(branch).(cursor := if old(branch.cursor) < |branch.newBranchName| then old(branch.cursor) + 1
                                               else old(branch.cursor))
      ensures old(Valid()) ==> Valid()
    {
      if branch.cursor < |branch.newBranchName| {
        branch := branch.(cursor := branch.cursor + 1);
      }
    }

    /** `full_branch_name`: the type prefix, then the typed name. */
    function FullBranchName(): (r: string)
      reads this`branch
      ensures StartsWith(r, branch.branchType.Prefix()) && r[|branch.branchType.Prefix()|..] == branch.newBranchName
    {
      branch.branchType.Prefix() + branch.newBranchName
    }

    /** `check_issue_duplicate`: `existing` is the branch the repository
        already has for the highlighted issue, if any. */
    method CheckIssueDuplicate(existing: Option<string>)
      modifies this`issues
      ensures issues == old(issues).(existingBranch := if ConfirmedIssue(issues.issues, issues.filtered, issues.selectedIndex).Some?
                                                       then existing else None,
                                     error := None)
    {
      var issue := ConfirmedIssue(issues.issues, issues.filtered, issues.selectedIndex);
      issues := issues.(existingBranch := if issue.Some? then existing else None, error := None);
    }

    /** `apply_loaded_issues`: every issue is listed; with none, the wizard
        moves on to typing the branch name. */
    method ApplyLoadedIssues(loaded: seq<GitIssue.Issue>)
      modifies this`issues, this`branch, this`step
      ensures issues.issues == loaded && issues.filtered == AllPositions(|loaded|)
      ensures loaded == [] ==>
        issues == IssuePicker([], [], [], 0, None, None, None)
        && branch == old(branch).(newBranchName := [], cursor := 0) && step == BranchNameInput
      ensures loaded != [] ==>
        issues == old(issues).(issues := loaded, filtered := AllPositions(|loaded|))
        && branch == old(branch) && step == old(step)
      ensures old(Valid()) && loaded != [] ==> (Valid() <==> old(issues.selectedIndex) <= |loaded|)
      ensures old(Valid()) && loaded == [] ==> Valid()
    {
      issues := issues.(issues := loaded, filtered := AllPositions(|loaded|));
      if loaded == [] {
        issues := IssuePicker([], [], [], 0, None, None, None);
        branch := branch.(newBranchName := [], cursor := 0);
        step := BranchNameInput;
      }
    }

    /** `load_issues`: `fetched` is what listing the open issues returns when
        the GitHub CLI is available. */
    method LoadIssues(ghAvailable: bool, fetched: Result<seq<GitIssue.Issue>, string>)
      modifies this`issues, this`branch, this`step
      ensures !ghAvailable ==> issues == old(issues).(issues := [], query := [], filtered := [], selectedIndex := 0,
                                                      selected := None, existingBranch := None, error := None)
      ensures ghAvailable && fetched.Err? ==>
        issues == IssuePicker([], [], [], 0, None, None, Some(fetched.error))
      ensures ghAvailable && fetched.Ok? ==>
        issues.issues == fetched.value && issues.filtered == AllPositions(|fetched.value|) && issues.selectedIndex == 0
        && issues.selected.None? && issues.existingBranch.None? && issues.error.None?
      ensures ghAvailable && fetched.Ok? && fetched.value == [] ==> step == BranchNameInput
      ensures old(Valid()) ==> Valid()
    {
      issues := issues.(issues := [], query := [], filtered := [], selectedIndex := 0, selected := None,
                        existingBranch := None, error := None);
      if !ghAvailable {
        return;
      }
      match fetched {
        case Ok(list) => ApplyLoadedIssues(list);
        case Err(e) => issues := issues.(error := Some(e));
      }
    }

    /** `confirm` on the quick-start list. */
    method ConfirmQuickStart(env: Env) returns (result: ConfirmResult)
      requires step == QuickStart
      modifies this`choice, this`launch, this`step, this`scrollOffset, this`branch
      ensures result == (if old(QuickStartChoice()).Some? then Complete else Advance)
      ensures step == (if old(QuickStartChoice()).Some? then SkipPermissions else BranchAction) && scrollOffset == 0
      ensures old(QuickStartChoice()).Some? ==>
        Current() == Leave(QuickStart, old(Current()), quick, env) && branch == old(branch)
      ensures old(QuickStartChoice()).None? ==>
        Current() == old(Current()).(branch := old(branch).(actionIndex := 0, isNewBranch := false,
                                                           baseBranchOverride := None))
      ensures old(Valid()) ==> Valid()
    {
      var chosen := QuickStartChoice();
      if chosen.Some? {
        ApplyQuickStartSelection(chosen.value.1, chosen.value.0, env.collaborationSupported);
        step := SkipPermissions;
        scrollOffset := 0;
        return Complete;
      }
      step := BranchAction;
      scrollOffset := 0;
      branch := branch.(actionIndex := 0, isNewBranch := false, baseBranchOverride := None);
      return Advance;
    }

    /** `confirm` on the issue list: the highlighted issue names the branch
        unless a branch for it exists, which is reported instead; "Skip"
        moves on with the name as it is. */
    method ConfirmIssue(env: Env)
      requires step == IssueSelect
      modifies this`step, this`scrollOffset, this`branch, this`choice, this`launch, this`issues, this`convert
      ensures var issue := old(ConfirmedIssue(issues.issues, issues.filtered, issues.selectedIndex));
        if issue.Some? && old(issues.existingBranch).Some? then
          step == IssueSelect && issues.error.Some? && branch == old(branch)
          && issues == old(issues).(error := issues.error)
        else
          step == NextStepOf(IssueSelect, Facts(old(Current()), quick, env))
          && issues.error.None? && scrollOffset == 0
          && (issue.Some? ==> issues.selected == issue
                              && branch.newBranchName == GitIssue.BranchNameSuffix(issue.value))
          && (issue.None? ==> issues.selected == old(issues.selected)
                              && branch.newBranchName == NameAfterIssueStep(old(issues.selected), old(branch.newBranchName)))
          && branch.cursor == |branch.newBranchName|
      ensures old(Valid()) ==> Valid()
    {
      var issue := ConfirmedIssue(issues.issues, issues.filtered, issues.selectedIndex);
      if issue.Some? {
        if issues.existingBranch.Some? {
          issues := issues.(error := Some("Branch for issue #" + NatToString(issue.value.number)
                                          + " already exists: " + issues.existingBranch.value));
          return;
        }
        AdoptIssue(issue.value);
      }
      issues := issues.(error := None);
      LeavingIssueSelect(Current(), quick, env);
      NextStep(env);
    }

    /** The confirmed issue becomes the selected one, and the branch name
        its suffix with the cursor at the end. */
    method AdoptIssue(issue: GitIssue.Issue)
      modifies this`branch, this`issues
      ensures branch == old(branch).(newBranchName := GitIssue.BranchNameSuffix(issue),
                                     cursor := |GitIssue.BranchNameSuffix(issue)|)
      ensures issues == old(issues).(selected := Some(issue))
    {
      var name := GitIssue.BranchNameSuffix(issue);
      branch := branch.(newBranchName := name, cursor := |name|);
      issues := issues.(selected := Some(issue));
    }

    /** `confirm`: a quick-start pick completes at once and "choose different
        settings" opens the branch action; with an agent running, "Focus agent
        pane" focuses it; the issue list is confirmed by `ConfirmIssue`; the
        last step completes; otherwise the wizard moves forward. */
    method Confirm(env: Env) returns (result: ConfirmResult)
      modifies this
      ensures old(step) == QuickStart ==>
        (result == Complete <==> old(QuickStartChoice()).Some?)
        && step == (if old(QuickStartChoice()).Some? then SkipPermissions else BranchAction)
      ensures old(step) == BranchAction && old(hasRunningAgent) && old(branch.actionIndex) == 0 && old(runningPane).Some? ==>
        result == FocusPane(old(runningPane).value) && !visible && step == BranchAction
      ensures old(step) == SkipPermissions ==> result == Complete && step == SkipPermissions
      ensures old(step) == IssueSelect ==> result == Advance
      ensures old(step) != QuickStart && old(step) != SkipPermissions && old(step) != IssueSelect
              && !(old(step) == BranchAction && old(hasRunningAgent) && old(branch.actionIndex) == 0 && old(runningPane).Some?) ==>
        result == Advance && step == NextStepOf(old(step), Facts(old(Current()), quick, env))
        && Current() == Leave(old(step), old(Current()), quick, env)
      ensures old(Valid()) ==> Valid()
    {
      if step == QuickStart {
        result := ConfirmQuickStart(env);
        return;
      }
      if step == BranchAction && hasRunningAgent && branch.actionIndex == 0 && runningPane.Some? {
        Close();
        return FocusPane(runningPane.value);
      }
      if step == IssueSelect {
        ConfirmIssue(env);
        return Advance;
      }
      if step == SkipPermissions {
        return Complete;
      }
      NextStep(env);
      return Advance;
    }
  }
}
