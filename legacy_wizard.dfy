/** The older launch wizard popup: branch type and name for a new branch,
    then agent, model, reasoning level (Codex only), version, execution
    mode and the skip-permissions toggle. Branch types and their prefixes
    are those of the current wizard. */
module LegacyWizard {
  import opened Common
  import Wizard

  datatype Step =
    | AgentSelect
    | ModelSelect
    | ReasoningLevelStep
    | VersionSelect
    | ExecutionModeStep
    | SkipPermissions
    | BranchTypeSelect
    | BranchNameInput

  datatype CodingAgent = ClaudeCode | CodexCli | GeminiCli | OpenCode

  datatype ReasoningLevel = Low | Medium | High | XHigh

  datatype ExecutionMode = Normal | Continue | Resume

  /** `CodingAgent::all`, `ReasoningLevel::all`, `ExecutionMode::all`. */
  const ALL_AGENTS: seq<CodingAgent> := [ClaudeCode, CodexCli, GeminiCli, OpenCode]
  const ALL_LEVELS: seq<ReasoningLevel> := [Low, Medium, High, XHigh]
  const ALL_MODES: seq<ExecutionMode> := [Normal, Continue, Resume]

  /** The version list `WizardState::new` starts with. */
  const DEFAULT_VERSIONS: seq<string> := ["installed", "latest"]

  /** `CodingAgent::id`. */
  function AgentId(a: CodingAgent): string
  {
    match a
    case ClaudeCode => "claude-code"
    case CodexCli => "codex-cli"
    case GeminiCli => "gemini-cli"
    case OpenCode => "opencode"
  }

  /** Each agent sits at exactly one position of `ALL_AGENTS`, and the ids
      tell the agents apart. */
  lemma AgentsDistinct(i: nat, j: nat)
    requires i < |ALL_AGENTS| && j < |ALL_AGENTS|
    ensures ALL_AGENTS[i] == ALL_AGENTS[j] <==> i == j
    ensures AgentId(ALL_AGENTS[i]) == AgentId(ALL_AGENTS[j]) <==> i == j
  {
  }

  /** The model ids of `CodingAgent::models`, in list order; the first entry
      of every list is the "Default (Auto)" option with the empty id. */
  function ModelIds(a: CodingAgent): (ids: seq<string>)
    ensures |ids| >= 2 && ids[0] == []
    ensures forall k :: 1 <= k < |ids| ==> ids[k] != []
  {
    match a
    case ClaudeCode => ["", "opus", "sonnet", "haiku"]
    case CodexCli => ["", "gpt-5.2-codex", "gpt-5.1-codex-max", "gpt-5.1-codex-mini", "gpt-5.2"]
    case GeminiCli => ["", "gemini-3-pro-preview", "gemini-3-flash-preview", "gemini-2.5-pro",
                       "gemini-2.5-flash", "gemini-2.5-flash-lite"]
    case OpenCode => ["", "__custom__"]
  }

  // ---------------------------------------------------------------------
  // Step machine

  /** `next_step`'s choice of the following step. */
  function NextStepOf(step: Step, agent: CodingAgent): Step
  {
    match step
    case BranchTypeSelect => BranchNameInput
    case BranchNameInput => AgentSelect
    case AgentSelect => ModelSelect
    case ModelSelect => if agent == CodexCli then ReasoningLevelStep else VersionSelect
    case ReasoningLevelStep => VersionSelect
    case VersionSelect => ExecutionModeStep
    case ExecutionModeStep => SkipPermissions
    case SkipPermissions => SkipPermissions
  }

  /** `prev_step`'s choice of the previous step; `None` when the wizard
      closes instead. */
  function PrevStepOf(step: Step, isNewBranch: bool, agent: CodingAgent): (r: Option<Step>)
    ensures r.None? <==> step == BranchTypeSelect || (step == AgentSelect && !isNewBranch)
  {
    match step
    case BranchTypeSelect => None
    case BranchNameInput => Some(BranchTypeSelect)
    case AgentSelect => if isNewBranch then Some(BranchNameInput) else None
    case ModelSelect => Some(AgentSelect)
    case ReasoningLevelStep => Some(ModelSelect)
    case VersionSelect => if agent == CodexCli then Some(ReasoningLevelStep) else Some(ModelSelect)
    case ExecutionModeStep => Some(VersionSelect)
    case SkipPermissions => Some(ExecutionModeStep)
  }

  /** Position along the forward path, for the progress argument. */
  function StepRank(step: Step): (r: nat)
    ensures r <= 7
  {
    match step
    case BranchTypeSelect => 0
    case BranchNameInput => 1
    case AgentSelect => 2
    case ModelSelect => 3
    case ReasoningLevelStep => 4
    case VersionSelect => 5
    case ExecutionModeStep => 6
    case SkipPermissions => 7
  }

  /** Every forward move strictly advances, except at the final step, which
      is a fixed point; the reasoning step is entered only for Codex. */
  lemma NextStepProgress(step: Step, agent: CodingAgent)
    ensures step == SkipPermissions <==> NextStepOf(step, agent) == step
    ensures step != SkipPermissions ==> StepRank(NextStepOf(step, agent)) > StepRank(step)
    ensures step == ModelSelect ==> (NextStepOf(step, agent) == ReasoningLevelStep <==> agent == CodexCli)
    ensures NextStepOf(step, agent) == ReasoningLevelStep ==> agent == CodexCli
  {
  }

  /** `next_step` applied `n` times. */
  function Advance(step: Step, agent: CodingAgent, n: nat): Step
    decreases n
  {
    if n == 0 then step else Advance(NextStepOf(step, agent), agent, n - 1)
  }

  /** Pressing "next" often enough reaches the skip-permissions step from
      anywhere, after which the wizard stays there. */
  lemma {:induction false} ReachesSkipPermissions(step: Step, agent: CodingAgent, n: nat)
    requires n + StepRank(step) >= 7
    ensures Advance(step, agent, n) == SkipPermissions
    decreases n
  {
    if n == 0 {
      assert StepRank(step) == 7;
    } else {
      NextStepProgress(step, agent);
      if step == SkipPermissions {
        ReachesSkipPermissions(step, agent, n - 1);
      } else {
        ReachesSkipPermissions(NextStepOf(step, agent), agent, n - 1);
      }
    }
  }

  /** "Back" undoes "next" on every step but the last, given that the agent
      is kept and the reasoning step is only ever shown for Codex; from the
      branch name the way back goes to the name only for a new branch. */
  lemma PrevUndoesNext(step: Step, isNewBranch: bool, agent: CodingAgent)
    requires step != SkipPermissions
    requires step == BranchNameInput ==> isNewBranch
    requires step == ReasoningLevelStep ==> agent == CodexCli
    ensures PrevStepOf(NextStepOf(step, agent), isNewBranch, agent) == Some(step)
  {
  }

  // ---------------------------------------------------------------------
  // Selection

  /** The selections the wizard keeps while the user moves through it. */
  datatype Choice = Choice(
    agent: CodingAgent,
    agentIndex: nat,
    model: string,
    modelIndex: nat,
    reasoningLevel: ReasoningLevel,
    reasoningLevelIndex: nat,
    version: string,
    versionIndex: nat,
    executionMode: ExecutionMode,
    executionModeIndex: nat,
    skipPermissions: bool,
    branchType: Wizard.BranchType)

  /** What `reset_selections` sets. */
  const RESET_CHOICE: Choice := Choice(ClaudeCode, 0, "", 0, Medium, 1, "latest", 1, Normal, 0, false, Wizard.BranchType.Feature)

  /** What `Default` gives before any reset: note the index of the
      reasoning level (0) does not match the level itself (Medium). */
  const DEFAULT_CHOICE: Choice := Choice(ClaudeCode, 0, "", 0, Medium, 0, "", 0, Normal, 0, false, Wizard.BranchType.Feature)

  /** The indices stay inside their lists and the agent and mode are the
      entries their indices name. */
  predicate ChoiceValid(c: Choice, versionCount: nat)
  {
    c.agentIndex < |ALL_AGENTS| && c.agent == ALL_AGENTS[c.agentIndex]
    && c.reasoningLevelIndex < |ALL_LEVELS|
    && c.versionIndex < versionCount
    && c.executionModeIndex < |ALL_MODES| && c.executionMode == ALL_MODES[c.executionModeIndex]
  }

  /** The model index is inside the current agent's list and names the
      model. */
  predicate ModelSynced(c: Choice)
  {
    c.modelIndex < |ModelIds(c.agent)| && c.model == ModelIds(c.agent)[c.modelIndex]
  }

  /** The reasoning level and the version are the entries their indices
      name (true from `reset_selections` on). */
  predicate LevelAndVersionSynced(c: Choice, versions: seq<string>)
  {
    c.reasoningLevelIndex < |ALL_LEVELS| && c.reasoningLevel == ALL_LEVELS[c.reasoningLevelIndex]
    && c.versionIndex < |versions| && c.version == versions[c.versionIndex]
  }

  /** The steps at which a model has been chosen. */
  predicate PastModelChoice(step: Step)
  {
    step in {ModelSelect, ReasoningLevelStep, VersionSelect, ExecutionModeStep, SkipPermissions}
  }

  /** `select_next`: move the highlighted entry of the current step one
      down, stopping at the last; on the skip-permissions step it toggles. */
  function SelectNextOf(step: Step, c: Choice, versions: seq<string>): Choice
  {
    match step
    case AgentSelect =>
      if c.agentIndex < |ALL_AGENTS| - 1 then c.(agentIndex := c.agentIndex + 1, agent := ALL_AGENTS[c.agentIndex + 1])
      else c
    case ModelSelect =>
      var ids := ModelIds(c.agent);
      if c.modelIndex < |ids| - 1 then c.(modelIndex := c.modelIndex + 1, model := ids[c.modelIndex + 1])
      else c
    case ReasoningLevelStep =>
      if c.reasoningLevelIndex < |ALL_LEVELS| - 1
      then c.(reasoningLevelIndex := c.reasoningLevelIndex + 1, reasoningLevel := ALL_LEVELS[c.reasoningLevelIndex + 1])
      else c
    case VersionSelect =>
      if c.versionIndex < SatSub(|versions|, 1)
      then c.(versionIndex := c.versionIndex + 1, version := versions[c.versionIndex + 1])
      else c
    case ExecutionModeStep =>
      if c.executionModeIndex < |ALL_MODES| - 1
      then c.(executionModeIndex := c.executionModeIndex + 1, executionMode := ALL_MODES[c.executionModeIndex + 1])
      else c
    case SkipPermissions => c.(skipPermissions := !c.skipPermissions)
    case BranchTypeSelect =>
      var i := Wizard.BranchTypeIndex(c.branchType);
      if i < |Wizard.BRANCH_TYPES| - 1 then c.(branchType := Wizard.BRANCH_TYPES[i + 1]) else c
    case BranchNameInput => c
  }

  /** `select_prev`: move the highlighted entry one up, stopping at the
      first. `None` when the source indexes past the end of a list (a
      panic): the entry the decremented index names does not exist. */
  function SelectPrevOf(step: Step, c: Choice, versions: seq<string>): Option<Choice>
  {
    match step
    case AgentSelect =>
      if c.agentIndex == 0 then Some(c)
      else if c.agentIndex - 1 < |ALL_AGENTS| then Some(c.(agentIndex := c.agentIndex - 1, agent := ALL_AGENTS[c.agentIndex - 1]))
      else None
    case ModelSelect =>
      var ids := ModelIds(c.agent);
      if c.modelIndex == 0 then Some(c)
      else if c.modelIndex - 1 < |ids| then Some(c.(modelIndex := c.modelIndex - 1, model := ids[c.modelIndex - 1]))
      else None
    case ReasoningLevelStep =>
      if c.reasoningLevelIndex == 0 then Some(c)
      else if c.reasoningLevelIndex - 1 < |ALL_LEVELS|
      then Some(c.(reasoningLevelIndex := c.reasoningLevelIndex - 1, reasoningLevel := ALL_LEVELS[c.reasoningLevelIndex - 1]))
      else None
    case VersionSelect =>
      if c.versionIndex == 0 then Some(c)
      else if c.versionIndex - 1 < |versions|
      then Some(c.(versionIndex := c.versionIndex - 1, version := versions[c.versionIndex - 1]))
      else None
    case ExecutionModeStep =>
      if c.executionModeIndex == 0 then Some(c)
      else if c.executionModeIndex - 1 < |ALL_MODES|
      then Some(c.(executionModeIndex := c.executionModeIndex - 1, executionMode := ALL_MODES[c.executionModeIndex - 1]))
      else None
    case SkipPermissions => Some(c.(skipPermissions := !c.skipPermissions))
    case BranchTypeSelect =>
      var i := Wizard.BranchTypeIndex(c.branchType);
      if i > 0 then Some(c.(branchType := Wizard.BRANCH_TYPES[i - 1])) else Some(c)
    case BranchNameInput => Some(c)
  }

  /** Moving the selection keeps the indices in range and the agent and
      mode equal to the entries their indices name. */
  lemma SelectionKeepsValid(step: Step, c: Choice, versions: seq<string>)
    requires ChoiceValid(c, |versions|)
    ensures ChoiceValid(SelectNextOf(step, c, versions), |versions|)
    ensures SelectPrevOf(step, c, versions).Some? ==> ChoiceValid(SelectPrevOf(step, c, versions).value, |versions|)
  {
  }

  /** Away from the agent step, moving the selection keeps the model in
      step with its index. */
  lemma SelectionKeepsModel(step: Step, c: Choice, versions: seq<string>)
    requires step != AgentSelect && ModelSynced(c)
    ensures ModelSynced(SelectNextOf(step, c, versions))
    ensures SelectPrevOf(step, c, versions).Some? ==> ModelSynced(SelectPrevOf(step, c, versions).value)
  {
  }

  /** Moving the selection keeps the reasoning level and the version in
      step with their indices. */
  lemma SelectionKeepsLevelAndVersion(step: Step, c: Choice, versions: seq<string>)
    requires LevelAndVersionSynced(c, versions)
    ensures LevelAndVersionSynced(SelectNextOf(step, c, versions), versions)
    ensures SelectPrevOf(step, c, versions).Some? ==> LevelAndVersionSynced(SelectPrevOf(step, c, versions).value, versions)
  {
  }

  /** A selection only changes what belongs to the current step: the agent
      only on the agent step, the model only on the model step, the skip
      flag only on the skip-permissions step, the branch type only on the
      branch-type step. */
  lemma SelectionFrame(step: Step, c: Choice, versions: seq<string>)
    ensures var r := SelectNextOf(step, c, versions);
      (step != AgentSelect ==> r.agent == c.agent && r.agentIndex == c.agentIndex)
      && (step != ModelSelect ==> r.model == c.model && r.modelIndex == c.modelIndex)
      && (step != SkipPermissions ==> r.skipPermissions == c.skipPermissions)
      && (step != BranchTypeSelect ==> r.branchType == c.branchType)
    ensures SelectPrevOf(step, c, versions).Some? ==> var r := SelectPrevOf(step, c, versions).value;
      (step != AgentSelect ==> r.agent == c.agent && r.agentIndex == c.agentIndex)
      && (step != ModelSelect ==> r.model == c.model && r.modelIndex == c.modelIndex)
      && (step != SkipPermissions ==> r.skipPermissions == c.skipPermissions)
      && (step != BranchTypeSelect ==> r.branchType == c.branchType)
    ensures step == BranchNameInput ==> SelectNextOf(step, c, versions) == c && SelectPrevOf(step, c, versions) == Some(c)
  {
  }

  /** On the skip-permissions step both moves toggle the flag and nothing
      else, so two moves restore the selection. */
  lemma SkipPermissionsToggles(c: Choice, versions: seq<string>)
    ensures SelectNextOf(SkipPermissions, c, versions) == c.(skipPermissions := !c.skipPermissions)
    ensures SelectPrevOf(SkipPermissions, c, versions) == Some(c.(skipPermissions := !c.skipPermissions))
    ensures SelectNextOf(SkipPermissions, SelectNextOf(SkipPermissions, c, versions), versions) == c
  {
  }

  /** Away from the last entry, moving up undoes moving down on the agent,
      execution-mode and branch-type steps. */
  lemma SelectPrevUndoesNext(step: Step, c: Choice, versions: seq<string>)
    requires ChoiceValid(c, |versions|)
    requires step == AgentSelect ==> c.agentIndex < |ALL_AGENTS| - 1
    requires step == ExecutionModeStep ==> c.executionModeIndex < |ALL_MODES| - 1
    requires step == BranchTypeSelect ==> c.branchType != Wizard.BranchType.Release
    requires step in {AgentSelect, ExecutionModeStep, BranchTypeSelect}
    ensures SelectPrevOf(step, SelectNextOf(step, c, versions), versions) == Some(c)
  {
    if step == BranchTypeSelect {
      var i := Wizard.BranchTypeIndex(c.branchType);
      Wizard.BranchTypeIndexRoundTrip(i + 1);
    }
  }

  /** The selection state after leaving `step` forwards: leaving the agent
      step loads the first model of the chosen agent and returns the model
      highlight to it. */
  function LeaveStep(step: Step, c: Choice): (r: Choice)
    ensures step == AgentSelect ==> ModelSynced(r) && r.model == []
    ensures step != AgentSelect ==> r == c
    ensures r.agent == c.agent && r.agentIndex == c.agentIndex
  {
    if step == AgentSelect then c.(model := ModelIds(c.agent)[0], modelIndex := 0) else c
  }

  /** `next_step` exactly as the source writes it: leaving the agent step
      loads the first model of the chosen agent but keeps the model index
      the previous agent's list left behind. */
  function LeaveStepAsWritten(step: Step, c: Choice): Choice
  {
    if step == AgentSelect then c.(model := ModelIds(c.agent)[0]) else c
  }

  /** With the source's `next_step`: Gemini, model six of six, back to the
      agent step, OpenCode (two models), forward, then "up" on the model
      step indexes entry 4 of a two-entry list. */
  lemma StaleModelIndexPanics()
    ensures var c0 := RESET_CHOICE;
      var gemini := SelectNextOf(AgentSelect, SelectNextOf(AgentSelect, c0, DEFAULT_VERSIONS), DEFAULT_VERSIONS);
      var m1 := SelectNextOf(ModelSelect, LeaveStepAsWritten(AgentSelect, gemini), DEFAULT_VERSIONS);
      var m3 := SelectNextOf(ModelSelect, SelectNextOf(ModelSelect, m1, DEFAULT_VERSIONS), DEFAULT_VERSIONS);
      var m5 := SelectNextOf(ModelSelect, SelectNextOf(ModelSelect, m3, DEFAULT_VERSIONS), DEFAULT_VERSIONS);
      var open := SelectNextOf(AgentSelect, m5, DEFAULT_VERSIONS);
      gemini.agent == GeminiCli && m5.modelIndex == 5 && open.agent == OpenCode
      && SelectPrevOf(ModelSelect, LeaveStepAsWritten(AgentSelect, open), DEFAULT_VERSIONS).None?
  {
    var c0 := RESET_CHOICE;
    var c1 := SelectNextOf(AgentSelect, c0, DEFAULT_VERSIONS);
    assert c1.agent == CodexCli && c1.agentIndex == 1;
    var gemini := SelectNextOf(AgentSelect, c1, DEFAULT_VERSIONS);
    assert gemini.agent == GeminiCli && gemini.agentIndex == 2 && gemini.modelIndex == 0;
    var m0 := LeaveStepAsWritten(AgentSelect, gemini);
    var m1 := SelectNextOf(ModelSelect, m0, DEFAULT_VERSIONS);
    assert m1.modelIndex == 1 && m1.agent == GeminiCli;
    var m2 := SelectNextOf(ModelSelect, m1, DEFAULT_VERSIONS);
    assert m2.modelIndex == 2;
    var m3 := SelectNextOf(ModelSelect, m2, DEFAULT_VERSIONS);
    assert m3.modelIndex == 3;
    var m4 := SelectNextOf(ModelSelect, m3, DEFAULT_VERSIONS);
    assert m4.modelIndex == 4;
    var m5 := SelectNextOf(ModelSelect, m4, DEFAULT_VERSIONS);
    assert m5.modelIndex == 5 && m5.agentIndex == 2;
    var open := SelectNextOf(AgentSelect, m5, DEFAULT_VERSIONS);
    assert open.agent == OpenCode && open.modelIndex == 5;
  }

  /** With the model index returned to the first model on leaving the agent
      step, every state the wizard reaches lets "up" move without leaving
      a list. */
  lemma SelectPrevNeverPanics(step: Step, c: Choice, versions: seq<string>)
    requires ChoiceValid(c, |versions|)
    requires PastModelChoice(step) ==> ModelSynced(c)
    ensures SelectPrevOf(step, c, versions).Some?
  {
  }

  // ---------------------------------------------------------------------
  // Branch name

  /** `full_branch_name`: the type's prefix followed by the typed name. */
  function FullBranchName(t: Wizard.BranchType, name: string): string
  {
    t.Prefix() + name
  }

  /** Reading a full branch name back: the first branch type whose prefix
      starts it, and the rest. */
  function ParseFullBranchName(full: string): (r: Option<(Wizard.BranchType, string)>)
    ensures r.Some? ==> FullBranchName(r.value.0, r.value.1) == full
  {
    var feature := Wizard.BranchType.Feature.Prefix();
    var bugfix := Wizard.BranchType.Bugfix.Prefix();
    var hotfix := Wizard.BranchType.Hotfix.Prefix();
    var release := Wizard.BranchType.Release.Prefix();
    if StartsWith(full, feature) then Some((Wizard.BranchType.Feature, full[|feature|..]))
    else if StartsWith(full, bugfix) then Some((Wizard.BranchType.Bugfix, full[|bugfix|..]))
    else if StartsWith(full, hotfix) then Some((Wizard.BranchType.Hotfix, full[|hotfix|..]))
    else if StartsWith(full, release) then Some((Wizard.BranchType.Release, full[|release|..]))
    else None
  }

  /** The type and the typed name can be read back from the full name. */
  lemma FullBranchNameRoundTrip(t: Wizard.BranchType, name: string)
    ensures ParseFullBranchName(FullBranchName(t, name)) == Some((t, name))
  {
    var full := FullBranchName(t, name);
    assert StartsWith(full, t.Prefix());
    assert full[|t.Prefix()|..] == name;
    if t != Wizard.BranchType.Feature {
      assert full[0] != 'f';
    }
    if t == Wizard.BranchType.Hotfix || t == Wizard.BranchType.Release {
      assert full[0] != 'b';
    }
    if t == Wizard.BranchType.Release {
      assert full[0] != 'h';
    }
  }

  // ---------------------------------------------------------------------
  // The popup state

  class WizardState {
    var visible: bool
    var isNewBranch: bool
    var step: Step
    var branchName: string
    var choice: Choice
    var versions: seq<string>
    var newBranchName: string
    /** Position in `newBranchName`, counted in characters. */
    var cursor: nat
    var scrollOffset: nat

    /** The selection invariants, the text cursor inside the name, and a
        chosen model in step with its index once the model step is
        reached. */
    predicate Valid()
      reads this`choice, this`versions, this`newBranchName, this`cursor, this`step
    {
      versions == DEFAULT_VERSIONS && ChoiceValid(choice, |versions|) && cursor <= |newBranchName|
      && (PastModelChoice(step) ==> ModelSynced(choice))
    }

    /** `WizardState::new`: hidden, on the agent step, default selections
        and the two stock versions. */
    constructor ()
      ensures Valid()
      ensures !visible && !isNewBranch && step == AgentSelect && branchName == []
      ensures choice == DEFAULT_CHOICE && versions == DEFAULT_VERSIONS
      ensures newBranchName == [] && cursor == 0 && scrollOffset == 0
    {
      visible := false;
      isNewBranch := false;
      step := AgentSelect;
      branchName := [];
      choice := DEFAULT_CHOICE;
      versions := DEFAULT_VERSIONS;
      newBranchName := [];
      cursor := 0;
      scrollOffset := 0;
    }

    /** `reset_selections`. */
    method ResetSelections()
      modifies this`choice, this`newBranchName, this`cursor, this`scrollOffset
      ensures choice == RESET_CHOICE && newBranchName == [] && cursor == 0 && scrollOffset == 0
    {
      choice := RESET_CHOICE;
      newBranchName := [];
      cursor := 0;
      scrollOffset := 0;
    }

    /** `open_for_branch`: shown for an existing branch, starting at the
        agent step with fresh selections. */
    method OpenForBranch(name: string)
      modifies this
      ensures visible && !isNewBranch && branchName == name && step == AgentSelect
      ensures choice == RESET_CHOICE && newBranchName == [] && cursor == 0 && scrollOffset == 0
      ensures versions == old(versions)
      ensures old(versions) == DEFAULT_VERSIONS ==> Valid() && LevelAndVersionSynced(choice, versions)
    {
      visible := true;
      isNewBranch := false;
      branchName := name;
      step := AgentSelect;
      ResetSelections();
    }

    /** `open_for_new_branch`: shown for a branch still to be named, starting
        at the branch-type step; the previous branch name is kept. */
    method OpenForNewBranch()
      modifies this
      ensures visible && isNewBranch && step == BranchTypeSelect && branchName == old(branchName)
      ensures choice == RESET_CHOICE && newBranchName == [] && cursor == 0 && scrollOffset == 0
      ensures versions == old(versions)
      ensures old(versions) == DEFAULT_VERSIONS ==> Valid() && LevelAndVersionSynced(choice, versions)
    {
      visible := true;
      isNewBranch := true;
      step := BranchTypeSelect;
      ResetSelections();
    }

    /** `close`: only hides the popup. */
    method Close()
      modifies this`visible
      ensures !visible
    {
      visible := false;
    }

    /** `next_step`, with the model highlight returned to the first model
        when the agent step is left. */
    method NextStep()
      modifies this`step, this`choice, this`scrollOffset
      ensures step == NextStepOf(old(step), old(choice.agent))
      ensures choice == LeaveStep(old(step), old(choice))
      ensures scrollOffset == 0
      ensures old(Valid()) ==> Valid()
    {
      if step == AgentSelect {
        choice := choice.(model := ModelIds(choice.agent)[0], modelIndex := 0);
      }
      step := NextStepOf(step, choice.agent);
      scrollOffset := 0;
    }

    /** `prev_step`: moves back and answers true, or closes the popup on the
        first step and answers false. */
    method PrevStep() returns (moved: bool)
      modifies this`step, this`scrollOffset, this`visible
      ensures var p := PrevStepOf(old(step), isNewBranch, choice.agent);
        (moved <==> p.Some?)
        && (moved ==> step == p.value && scrollOffset == 0 && visible == old(visible))
        && (!moved ==> !visible && step == old(step) && scrollOffset == old(scrollOffset))
      ensures old(Valid()) ==> Valid()
    {
      var p := PrevStepOf(step, isNewBranch, choice.agent);
      if p.None? {
        Close();
        return false;
      }
      step := p.value;
      scrollOffset := 0;
      return true;
    }

    /** `select_next`. */
    method SelectNext()
      modifies this`choice
      ensures choice == SelectNextOf(step, old(choice), versions)
      ensures old(Valid()) ==> Valid()
      ensures old(LevelAndVersionSynced(choice, versions)) ==> LevelAndVersionSynced(choice, versions)
    {
      if ChoiceValid(choice, |versions|) {
        SelectionKeepsValid(step, choice, versions);
      }
      if step != AgentSelect && ModelSynced(choice) {
        SelectionKeepsModel(step, choice, versions);
      }
      if LevelAndVersionSynced(choice, versions) {
        SelectionKeepsLevelAndVersion(step, choice, versions);
      }
      choice := SelectNextOf(step, choice, versions);
    }

    /** `select_prev`; `ok` is false where the source would index past the
        end of a list, and then nothing changes. */
    method SelectPrev() returns (ok: bool)
      modifies this`choice
      ensures ok <==> SelectPrevOf(step, old(choice), versions).Some?
      ensures choice == (if ok then SelectPrevOf(step, old(choice), versions).value else old(choice))
      ensures old(Valid()) ==> ok && Valid()
      ensures old(LevelAndVersionSynced(choice, versions)) ==> LevelAndVersionSynced(choice, versions)
    {
      if ChoiceValid(choice, |versions|) {
        SelectionKeepsValid(step, choice, versions);
      }
      if step != AgentSelect && ModelSynced(choice) {
        SelectionKeepsModel(step, choice, versions);
      }
      if LevelAndVersionSynced(choice, versions) {
        SelectionKeepsLevelAndVersion(step, choice, versions);
      }
      if Valid() {
        SelectPrevNeverPanics(step, choice, versions);
      }
      var r := SelectPrevOf(step, choice, versions);
      ok := r.Some?;
      if ok {
        choice := r.value;
      }
    }

    /** `insert_char`: only on the branch-name step. */
    method InsertChar(ch: char)
      requires cursor <= |newBranchName|
      modifies this`newBranchName, this`cursor
      ensures step == BranchNameInput ==> (newBranchName, cursor) == InsertAt(old(newBranchName), old(cursor), ch)
      ensures step != BranchNameInput ==> newBranchName == old(newBranchName) && cursor == old(cursor)
      ensures cursor <= |newBranchName|
    {
      if step == BranchNameInput {
        newBranchName := newBranchName[..cursor] + [ch] + newBranchName[cursor..];
        cursor := cursor + 1;
      }
    }

    /** `delete_char`: backspace, only on the branch-name step. */
    method DeleteChar()
      requires cursor <= |newBranchName|
      modifies this`newBranchName, this`cursor
      ensures step == BranchNameInput ==> (newBranchName, cursor) == DeleteBefore(old(newBranchName), old(cursor))
      ensures step != BranchNameInput ==> newBranchName == old(newBranchName) && cursor == old(cursor)
      ensures cursor <= |newBranchName|
    {
      if step == BranchNameInput && cursor > 0 {
        cursor := cursor - 1;
        newBranchName := newBranchName[..cursor] + newBranchName[cursor + 1..];
      }
    }

    /** `cursor_left`, on any step. */
    method CursorLeft()
      modifies this`cursor
      ensures cursor == SatSub(old(cursor), 1)
    {
      if cursor > 0 {
        cursor := cursor - 1;
      }
    }

    /** `cursor_right`, never past the end of the name. */
    method CursorRight()
      modifies this`cursor
      ensures cursor == if old(cursor) < |newBranchName| then old(cursor) + 1 else old(cursor)
      ensures old(cursor) <= |newBranchName| ==> cursor <= |newBranchName|
    {
      if cursor < |newBranchName| {
        cursor := cursor + 1;
      }
    }

    /** `full_branch_name`. */
    function FullName(): (r: string)
      reads this`choice, this`newBranchName
      ensures ParseFullBranchName(r) == Some((choice.branchType, newBranchName))
    {
      FullBranchNameRoundTrip(choice.branchType, newBranchName);
      FullBranchName(choice.branchType, newBranchName)
    }

    /** `is_complete`: the wizard is on its last step. */
    predicate IsComplete()
      reads this`step
    {
      step == SkipPermissions
    }
  }
}
