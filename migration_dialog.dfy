/** The forced-migration dialog shown when a repository still uses the
    `.worktrees/` layout: the phase machine from confirmation to the end of
    the migration, the Exit/Proceed selection, and the mouse hit tests on the
    areas cached by the last render. */
module MigrationDialog {
  import opened Common

  datatype MigrationDialogPhase = Confirmation | Validating | InProgress | Completed | Failed | Exited

  /** The migration engine's progress, as the dialog receives it. */
  datatype MigrationState =
    | Pending
    | ValidatingState
    | BackingUp
    | CreatingBareRepo
    | MigratingWorktrees(current: nat, total: nat)
    | CleaningUp
    | RollingBack
    | CompletedState
    | FailedState
    | Cancelled

  /** The outcome of the prerequisite check: the displayed error messages. */
  datatype ValidationResult = ValidationResult(passed: bool, errors: seq<string>)

  /** A terminal rectangle in `u16` cells. */
  datatype Rect = Rect(x: nat, y: nat, width: nat, height: nat)

  /** `u16::saturating_add`. */
  function SatAddU16(a: nat, b: nat): (r: nat)
    ensures r == Min(a + b, U16_MAX)
  {
    if a + b > U16_MAX then U16_MAX else a + b
  }

  /** The hit test shared by the popup and both buttons: a half-open
      rectangle whose far edges saturate at the largest `u16`. */
  predicate InArea(area: Rect, x: nat, y: nat)
  {
    x >= area.x && x < SatAddU16(area.x, area.width)
    && y >= area.y && y < SatAddU16(area.y, area.height)
  }

  /** The saturating test is the plain half-open test, except that the last
      `u16` column and row are never hit; an empty rectangle is never hit. */
  lemma InAreaIff(area: Rect, x: nat, y: nat)
    requires x <= U16_MAX && y <= U16_MAX
    ensures InArea(area, x, y) <==>
              area.x <= x < area.x + area.width && area.y <= y < area.y + area.height
              && x < U16_MAX && y < U16_MAX
    ensures area.width == 0 || area.height == 0 ==> !InArea(area, x, y)
  {
  }

  /** `is_point_in_popup` and the two button tests: nothing is hit before
      the first render has cached an area. */
  predicate HitOptional(area: Option<Rect>, x: nat, y: nat)
  {
    area.Some? && InArea(area.value, x, y)
  }

  /** `requires_action`: the dialog waits for a key. */
  predicate RequiresAction(phase: MigrationDialogPhase)
  {
    phase == Confirmation || phase == Completed || phase == Failed
  }

  /** `is_in_progress`. */
  predicate IsInProgress(phase: MigrationDialogPhase)
  {
    phase == Validating || phase == InProgress
  }

  /** The dialog is never both waiting for the user and busy, and only after
      an exit is it neither. */
  lemma ActionExcludesProgress(phase: MigrationDialogPhase)
    ensures !(RequiresAction(phase) && IsInProgress(phase))
    ensures !RequiresAction(phase) && !IsInProgress(phase) <==> phase == Exited
  {
  }

  /** The phase `update_state` moves to: Pending keeps the current one. */
  function PhaseFor(current: MigrationDialogPhase, state: MigrationState): MigrationDialogPhase
  {
    match state
    case Pending => current
    case ValidatingState => Validating
    case BackingUp => InProgress
    case CreatingBareRepo => InProgress
    case MigratingWorktrees(_, _) => InProgress
    case CleaningUp => InProgress
    case RollingBack => InProgress
    case CompletedState => Completed
    case FailedState => Failed
    case Cancelled => Failed
  }

  /** A finished migration (done, failed or cancelled) always waits for the
      user; every working state shows progress; a cancellation reads as a
      failure. */
  lemma PhaseForClassifies(current: MigrationDialogPhase, state: MigrationState)
    ensures state.CompletedState? || state.FailedState? || state.Cancelled? ==> RequiresAction(PhaseFor(current, state))
    ensures state.Cancelled? ==> PhaseFor(current, state) == Failed
    ensures !state.Pending? && !state.CompletedState? && !state.FailedState? && !state.Cancelled? ==>
              IsInProgress(PhaseFor(current, state))
    ensures state.Pending? ==> PhaseFor(current, state) == current
  {
  }

  const VALIDATION_FAILED: string := "Validation failed"

  /** The error a failed validation shows: its first error, or a generic one. */
  function ValidationError(errors: seq<string>): (r: string)
    ensures errors != [] ==> r == errors[0]
    ensures errors == [] ==> r == VALIDATION_FAILED
  {
    if errors == [] then VALIDATION_FAILED else errors[0]
  }

  class MigrationDialogState {
    var phase: MigrationDialogPhase
    /** The migration configuration, abstracted to a label. */
    var config: Option<string>
    var validation: Option<ValidationResult>
    var migrationState: MigrationState
    var error: Option<string>
    var accepted: bool
    /** true when Proceed is selected, false for Exit. */
    var selectedProceed: bool
    var popupArea: Option<Rect>
    var exitButtonArea: Option<Rect>
    var proceedButtonArea: Option<Rect>

    /** `MigrationDialogState::new`: the confirmation, with Exit selected
        and nothing rendered yet. */
    constructor (config: string)
      ensures phase == Confirmation && !selectedProceed && !accepted
      ensures this.config == Some(config) && validation.None? && migrationState == Pending && error.None?
      ensures popupArea.None? && exitButtonArea.None? && proceedButtonArea.None?
    {
      phase := Confirmation;
      this.config := Some(config);
      validation := None;
      migrationState := Pending;
      error := None;
      accepted := false;
      selectedProceed := false;
      popupArea := None;
      exitButtonArea := None;
      proceedButtonArea := None;
    }

    /** `toggle_selection`: only the confirmation has buttons to switch. */
    method ToggleSelection()
      modifies this
      ensures selectedProceed == if old(phase) == Confirmation then !old(selectedProceed) else old(selectedProceed)
      ensures phase == old(phase) && accepted == old(accepted) && error == old(error)
      ensures migrationState == old(migrationState) && validation == old(validation)
    {
      if phase == Confirmation {
        selectedProceed := !selectedProceed;
      }
    }

    /** `select_proceed`. */
    method SelectProceed()
      modifies this
      ensures selectedProceed
      ensures phase == old(phase) && accepted == old(accepted) && error == old(error)
      ensures migrationState == old(migrationState) && validation == old(validation)
    {
      selectedProceed := true;
    }

    /** `select_exit`. */
    method SelectExit()
      modifies this
      ensures !selectedProceed
      ensures phase == old(phase) && accepted == old(accepted) && error == old(error)
      ensures migrationState == old(migrationState) && validation == old(validation)
    {
      selectedProceed := false;
    }

    /** `accept`: the user proceeds, and validation starts. */
    method Accept()
      modifies this
      ensures accepted && phase == Validating && IsInProgress(phase)
      ensures selectedProceed == old(selectedProceed) && error == old(error)
      ensures migrationState == old(migrationState) && validation == old(validation)
    {
      accepted := true;
      phase := Validating;
    }

    /** `reject`: the user leaves without migrating. */
    method Reject()
      modifies this
      ensures phase == Exited && IsExited()
      ensures accepted == old(accepted) && selectedProceed == old(selectedProceed) && error == old(error)
      ensures migrationState == old(migrationState) && validation == old(validation)
    {
      phase := Exited;
    }

    /** `update_state`: records the engine's state and moves the phase. */
    method UpdateState(state: MigrationState)
      modifies this
      ensures migrationState == state && phase == PhaseFor(old(phase), state)
      ensures accepted == old(accepted) && selectedProceed == old(selectedProceed)
      ensures error == old(error) && validation == old(validation)
    {
      migrationState := state;
      match state {
        case ValidatingState =>
          phase := Validating;
        case BackingUp =>
          phase := InProgress;
        case CreatingBareRepo =>
          phase := InProgress;
        case MigratingWorktrees(_, _) =>
          phase := InProgress;
        case CleaningUp =>
          phase := InProgress;
        case RollingBack =>
          phase := InProgress;
        case CompletedState =>
          phase := Completed;
        case FailedState =>
          phase := Failed;
        case Cancelled =>
          phase := Failed;
        case Pending =>
      }
    }

    /** `set_validation`: a failure shows its first error, a pass starts the
        migration; the result is kept either way. */
    method SetValidation(result: ValidationResult)
      modifies this
      ensures validation == Some(result)
      ensures !result.passed ==> phase == Failed && error == Some(ValidationError(result.errors))
      ensures result.passed ==> phase == InProgress && error == old(error)
      ensures accepted == old(accepted) && selectedProceed == old(selectedProceed) && migrationState == old(migrationState)
    {
      if !result.passed {
        phase := Failed;
        error := Some(ValidationError(result.errors));
      } else {
        phase := InProgress;
      }
      validation := Some(result);
    }

    /** `set_error`. */
    method SetError(message: string)
      modifies this
      ensures error == Some(message) && phase == Failed && RequiresAction(phase)
      ensures accepted == old(accepted) && selectedProceed == old(selectedProceed)
      ensures migrationState == old(migrationState) && validation == old(validation)
    {
      error := Some(message);
      phase := Failed;
    }

    /** `is_exited`. */
    predicate IsExited()
      reads this
    {
      phase == Exited
    }

    /** `is_completed`. */
    predicate IsCompleted()
      reads this
    {
      phase == Completed
    }

    /** `is_point_in_popup`. */
    predicate IsPointInPopup(x: nat, y: nat)
      reads this
    {
      HitOptional(popupArea, x, y)
    }

    /** `is_exit_button_at`. */
    predicate IsExitButtonAt(x: nat, y: nat)
      reads this
    {
      HitOptional(exitButtonArea, x, y)
    }

    /** `is_proceed_button_at`. */
    predicate IsProceedButtonAt(x: nat, y: nat)
      reads this
    {
      HitOptional(proceedButtonArea, x, y)
    }
  }

  /** A failed validation with no listed error still reports a reason. */
  method RejectedValidation(d: MigrationDialogState)
    modifies d
    ensures d.phase == Failed && d.error == Some(VALIDATION_FAILED) && RequiresAction(d.phase)
  {
    d.SetValidation(ValidationResult(false, []));
  }
}
