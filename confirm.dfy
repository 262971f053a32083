/** The confirmation dialog: the fixed dialogs the application asks (delete,
    cleanup, unsafe branch, running agents, terminate, force kill, duplicate
    launch, hook setup) and the Confirm/Cancel selection the keys move. */
module Confirm {
  import opened Common

  const UNCOMMITTED_REASON: string := "- Has uncommitted changes"
  const UNPUSHED_REASON: string := "- Has unpushed commits"
  const UNMERGED_REASON: string := "- Is unmerged with main branch"
  const BULLET: string := "  - "

  /** The reasons shown by the unsafe-branch warning, one per raised flag,
      in the order uncommitted, unpushed, unmerged. */
  function UnsafeReasons(hasUncommitted: bool, hasUnpushed: bool, isUnmerged: bool): (r: seq<string>)
    ensures |r| == (if hasUncommitted then 1 else 0) + (if hasUnpushed then 1 else 0) + (if isUnmerged then 1 else 0)
    ensures UNCOMMITTED_REASON in r <==> hasUncommitted
    ensures UNPUSHED_REASON in r <==> hasUnpushed
    ensures UNMERGED_REASON in r <==> isUnmerged
    ensures hasUncommitted ==> r[0] == UNCOMMITTED_REASON
  {
    (if hasUncommitted then [UNCOMMITTED_REASON] else [])
    + (if hasUnpushed then [UNPUSHED_REASON] else [])
    + (if isUnmerged then [UNMERGED_REASON] else [])
  }

  /** The cleanup dialog's details: one bulleted line per branch. */
  function CleanupDetails(branches: seq<string>): (r: seq<string>)
    ensures |r| == |branches|
    ensures forall i :: 0 <= i < |r| ==> StartsWith(r[i], BULLET)
  {
    seq(|branches|, i requires 0 <= i < |branches| => BULLET + branches[i])
  }

  /** Each detail line names its branch: removing the bullet gives it back. */
  lemma CleanupDetailsName(branches: seq<string>, i: nat)
    requires i < |branches|
    ensures StripPrefix(CleanupDetails(branches)[i], BULLET) == Some(branches[i])
  {
    var line := CleanupDetails(branches)[i];
    assert line[|BULLET|..] == branches[i];
  }

  class ConfirmState {
    var title: string
    var message: string
    var details: seq<string>
    var confirmLabel: string
    var cancelLabel: string
    /** true when the Confirm button is selected, false for Cancel. */
    var selectedConfirm: bool
    /** A dangerous action is drawn in red. */
    var isDangerous: bool

    /** A dangerous dialog never opens with Confirm selected. */
    predicate SafeDefault()
      reads this
    {
      isDangerous ==> !selectedConfirm
    }

    /** `ConfirmState::new`: a generic question, Cancel selected. */
    constructor ()
      ensures title == "Confirm" && message == "Are you sure?" && details == []
      ensures confirmLabel == "Confirm" && cancelLabel == "Cancel"
      ensures !selectedConfirm && !isDangerous
    {
      title := "Confirm";
      message := "Are you sure?";
      details := [];
      confirmLabel := "Confirm";
      cancelLabel := "Cancel";
      selectedConfirm := false;
      isDangerous := false;
    }

    /** `ConfirmState::delete`. */
    constructor Delete(itemName: string)
      ensures title == "Delete Confirmation"
      ensures message == "Are you sure you want to delete '" + itemName + "'?"
      ensures details == ["This action cannot be undone."]
      ensures confirmLabel == "Delete" && cancelLabel == "Cancel"
      ensures isDangerous && !selectedConfirm && SafeDefault()
    {
      title := "Delete Confirmation";
      message := "Are you sure you want to delete '" + itemName + "'?";
      details := ["This action cannot be undone."];
      confirmLabel := "Delete";
      cancelLabel := "Cancel";
      selectedConfirm := false;
      isDangerous := true;
    }

    /** `ConfirmState::cleanup`: the count in the message and one detail per
        branch. */
    constructor Cleanup(branches: seq<string>)
      ensures title == "Cleanup Confirmation"
      ensures message == "Delete " + NatToString(|branches|) + " branch(es)?"
      ensures details == CleanupDetails(branches) && |details| == |branches|
      ensures confirmLabel == "Cleanup" && cancelLabel == "Cancel"
      ensures isDangerous && !selectedConfirm && SafeDefault()
    {
      title := "Cleanup Confirmation";
      message := "Delete " + NatToString(|branches|) + " branch(es)?";
      details := CleanupDetails(branches);
      confirmLabel := "Cleanup";
      cancelLabel := "Cancel";
      selectedConfirm := false;
      isDangerous := true;
    }

    /** `ConfirmState::unsafe_selection_warning`: one reason per raised flag. */
    constructor UnsafeSelectionWarning(branchName: string, hasUncommitted: bool, hasUnpushed: bool, isUnmerged: bool)
      ensures title == "Warning: Unsafe Branch"
      ensures message == "Branch '" + branchName + "' may have unsaved work:"
      ensures details == UnsafeReasons(hasUncommitted, hasUnpushed, isUnmerged)
      ensures confirmLabel == "OK" && cancelLabel == "Cancel"
      ensures isDangerous && !selectedConfirm && SafeDefault()
    {
      title := "Warning: Unsafe Branch";
      message := "Branch '" + branchName + "' may have unsaved work:";
      details := UnsafeReasons(hasUncommitted, hasUnpushed, isUnmerged);
      confirmLabel := "OK";
      cancelLabel := "Cancel";
      selectedConfirm := false;
      isDangerous := true;
    }

    /** `ConfirmState::exit_with_running_agents`. */
    constructor ExitWithRunningAgents(agentCount: nat)
      ensures title == "Running Agents"
      ensures message == NatToString(agentCount) + " agent(s) are still running.\nExit will terminate all agents."
      ensures details == ["Press Enter to exit and terminate agents.", "Press Esc to cancel and keep working."]
      ensures confirmLabel == "Exit" && cancelLabel == "Cancel"
      ensures isDangerous && !selectedConfirm && SafeDefault()
    {
      title := "Running Agents";
      message := NatToString(agentCount) + " agent(s) are still running.\nExit will terminate all agents.";
      details := ["Press Enter to exit and terminate agents.", "Press Esc to cancel and keep working."];
      confirmLabel := "Exit";
      cancelLabel := "Cancel";
      selectedConfirm := false;
      isDangerous := true;
    }

    /** `ConfirmState::terminate_agent`. */
    constructor TerminateAgent(branchName: string, agentName: string)
      ensures title == "Terminate Agent"
      ensures message == "Terminate " + agentName + " agent on branch '" + branchName + "'?"
      ensures details == ["The agent will be sent SIGTERM to allow graceful shutdown."]
      ensures confirmLabel == "Terminate" && cancelLabel == "Cancel"
      ensures isDangerous && !selectedConfirm && SafeDefault()
    {
      title := "Terminate Agent";
      message := "Terminate " + agentName + " agent on branch '" + branchName + "'?";
      details := ["The agent will be sent SIGTERM to allow graceful shutdown."];
      confirmLabel := "Terminate";
      cancelLabel := "Cancel";
      selectedConfirm := false;
      isDangerous := true;
    }

    /** `ConfirmState::force_kill_agent`. */
    constructor ForceKillAgent(branchName: string, agentName: string)
      ensures title == "Force Kill Agent"
      ensures message == "Force kill " + agentName + " agent on branch '" + branchName + "'?"
      ensures details == ["SIGKILL will be sent. Unsaved work may be lost.", "Use this only if the agent is not responding."]
      ensures confirmLabel == "Force Kill" && cancelLabel == "Cancel"
      ensures isDangerous && !selectedConfirm && SafeDefault()
    {
      title := "Force Kill Agent";
      message := "Force kill " + agentName + " agent on branch '" + branchName + "'?";
      details := ["SIGKILL will be sent. Unsaved work may be lost.", "Use this only if the agent is not responding."];
      confirmLabel := "Force Kill";
      cancelLabel := "Cancel";
      selectedConfirm := false;
      isDangerous := true;
    }

    /** `ConfirmState::duplicate_agent_warning`: not dangerous, yet still
        opens on Cancel. */
    constructor DuplicateAgentWarning(branchName: string, agentName: string)
      ensures title == "Duplicate Agent"
      ensures message == agentName + " agent is already running on branch '" + branchName + "'."
      ensures details == ["Launch another instance anyway?"]
      ensures confirmLabel == "Launch" && cancelLabel == "Cancel"
      ensures !isDangerous && !selectedConfirm
    {
      title := "Duplicate Agent";
      message := agentName + " agent is already running on branch '" + branchName + "'.";
      details := ["Launch another instance anyway?"];
      confirmLabel := "Launch";
      cancelLabel := "Cancel";
      selectedConfirm := false;
      isDangerous := false;
    }

    /** `ConfirmState::hook_setup`: the one dialog that opens on Confirm. */
    constructor HookSetup()
      ensures title == "Setup Agent Status Tracking"
      ensures message == "Enable Claude Code hook for agent status tracking?"
      ensures details == ["This will add gwt hooks to Claude Code settings.", "You can run 'gwt hook status' to check at any time."]
      ensures confirmLabel == "Setup" && cancelLabel == "Skip"
      ensures !isDangerous && selectedConfirm && SafeDefault()
    {
      title := "Setup Agent Status Tracking";
      message := "Enable Claude Code hook for agent status tracking?";
      details := ["This will add gwt hooks to Claude Code settings.", "You can run 'gwt hook status' to check at any time."];
      confirmLabel := "Setup";
      cancelLabel := "Skip";
      selectedConfirm := true;
      isDangerous := false;
    }

    /** `toggle_selection`: switches between the two buttons. */
    method ToggleSelection()
      modifies this
      ensures selectedConfirm == !old(selectedConfirm)
      ensures title == old(title) && message == old(message) && details == old(details)
      ensures confirmLabel == old(confirmLabel) && cancelLabel == old(cancelLabel) && isDangerous == old(isDangerous)
    {
      selectedConfirm := !selectedConfirm;
    }

    /** `select_confirm`. */
    method SelectConfirm()
      modifies this
      ensures selectedConfirm && IsConfirmed()
      ensures title == old(title) && message == old(message) && details == old(details)
      ensures confirmLabel == old(confirmLabel) && cancelLabel == old(cancelLabel) && isDangerous == old(isDangerous)
    {
      selectedConfirm := true;
    }

    /** `select_cancel`: always leaves the dialog in its safe state. */
    method SelectCancel()
      modifies this
      ensures !selectedConfirm && !IsConfirmed() && SafeDefault()
      ensures title == old(title) && message == old(message) && details == old(details)
      ensures confirmLabel == old(confirmLabel) && cancelLabel == old(cancelLabel) && isDangerous == old(isDangerous)
    {
      selectedConfirm := false;
    }

    /** `is_confirmed`: the answer is the selected button. */
    predicate IsConfirmed()
      reads this
    {
      selectedConfirm
    }
  }

  /** Toggling twice restores the selection and the answer. */
  method ToggleTwice(s: ConfirmState)
    modifies s
    ensures s.selectedConfirm == old(s.selectedConfirm) && s.IsConfirmed() == old(s.IsConfirmed())
  {
    s.ToggleSelection();
    s.ToggleSelection();
  }
}
