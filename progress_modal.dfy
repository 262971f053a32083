/** The worktree-preparation progress modal: the six steps and their
    statuses, the title, completion and error waiting, and the indented error
    line under a failed step. Instants are integer milliseconds and the
    current time is a parameter. */
module ProgressModal {
  import opened Common
  import opened CliMain

  /** A status that will not change any more. */
  predicate Finished(s: StepStatus)
  {
    s == Completed || s == Skipped || s == Failed
  }

  /** `all_done` on a step list. */
  predicate AllDone(steps: seq<ProgressStep>)
  {
    steps == [] || (Finished(steps[0].status) && AllDone(steps[1..]))
  }

  lemma {:induction false} AllDoneIff(steps: seq<ProgressStep>)
    ensures AllDone(steps) <==> forall i :: 0 <= i < |steps| ==> Finished(steps[i].status)
  {
    if steps != [] {
      AllDoneIff(steps[1..]);
      assert forall i :: 1 <= i < |steps| ==> steps[i] == steps[1..][i - 1];
    }
  }

  /** `has_failed` on a step list. */
  predicate HasFailed(steps: seq<ProgressStep>)
  {
    exists i :: 0 <= i < |steps| && steps[i].status == Failed
  }

  /** The first step with the given status. */
  function FirstWithStatus(steps: seq<ProgressStep>, status: StepStatus): (r: Option<nat>)
    ensures r.Some? ==> r.value < |steps| && steps[r.value].status == status
                        && forall j :: 0 <= j < r.value ==> steps[j].status != status
    ensures r.None? ==> forall j :: 0 <= j < |steps| ==> steps[j].status != status
  {
    if steps == [] then None
    else if steps[0].status == status then Some(0)
    else match FirstWithStatus(steps[1..], status)
      case None => None
      case Some(k) => Some(k + 1)
  }

  /** The first step of the given kind. */
  function FirstOfKind(steps: seq<ProgressStep>, kind: ProgressStepKind): (r: Option<nat>)
    ensures r.Some? ==> r.value < |steps| && steps[r.value].kind == kind
                        && forall j :: 0 <= j < r.value ==> steps[j].kind != kind
    ensures r.None? ==> forall j :: 0 <= j < |steps| ==> steps[j].kind != kind
  {
    if steps == [] then None
    else if steps[0].kind == kind then Some(0)
    else match FirstOfKind(steps[1..], kind)
      case None => None
      case Some(k) => Some(k + 1)
  }

  const FAILED_TITLE: string := "Preparation Failed"
  const COMPLETE_TITLE: string := "Preparation Complete"
  const DEFAULT_TITLE: string := "Preparing Worktree..."

  /** `title`: a failure wins, then completion, then the running step's
      message, then the generic one. */
  function Title(steps: seq<ProgressStep>, completed: bool): string
  {
    if HasFailed(steps) then FAILED_TITLE
    else if completed then COMPLETE_TITLE
    else match FirstWithStatus(steps, Running)
      case Some(i) => Message(steps[i].kind)
      case None => DEFAULT_TITLE
  }

  /** The title says which case holds: it reads "Preparation Failed" exactly
      when a step failed, "Preparation Complete" exactly when none failed
      and the modal is complete, and a step's message exactly when a step is
      running in neither of those cases. */
  lemma TitleDecides(steps: seq<ProgressStep>, completed: bool)
    ensures Title(steps, completed) == FAILED_TITLE <==> HasFailed(steps)
    ensures Title(steps, completed) == COMPLETE_TITLE <==> !HasFailed(steps) && completed
    ensures Title(steps, completed) == DEFAULT_TITLE <==>
              !HasFailed(steps) && !completed && FirstWithStatus(steps, Running).None?
  {
    var t := Title(steps, completed);
    if !HasFailed(steps) && !completed && FirstWithStatus(steps, Running).Some? {
      var k := steps[FirstWithStatus(steps, Running).value].kind;
      MessageIsNoTitle(k);
    }
  }

  lemma MessageIsNoTitle(k: ProgressStepKind)
    ensures Message(k) != FAILED_TITLE && Message(k) != COMPLETE_TITLE && Message(k) != DEFAULT_TITLE
  {
    assert Message(k)[0] != 'P';
  }

  /** The step `update_step` leaves behind: Running, Completed and Skipped
      go through start, complete and skip; any other status is set as is. */
  function ApplyStatus(step: ProgressStep, status: StepStatus, now: int): (s: ProgressStep)
    ensures s.status == status && s.kind == step.kind && s.errorMessage == step.errorMessage
    ensures s.startedAt == if status == Running then Some(now) else step.startedAt
  {
    match status
    case Running => step.Start(now)
    case Completed => step.Complete()
    case Skipped => step.Skip()
    case _ => step.(status := status)
  }

  /** The steps of a fresh modal. */
  function InitialSteps(): (r: seq<ProgressStep>)
    ensures |r| == 6
    ensures forall i :: 0 <= i < 6 ==> r[i] == NewStep(AllKinds()[i])
  {
    var kinds := AllKinds();
    seq(6, i requires 0 <= i < 6 => NewStep(kinds[i]))
  }

  /** The steps are the six kinds in running order. */
  predicate InOrder(steps: seq<ProgressStep>)
  {
    |steps| == 6 && forall i :: 0 <= i < 6 ==> steps[i].kind == AllKinds()[i]
  }

  /** In an ordered step list, each kind is found at its position. */
  lemma FindsAtPosition(steps: seq<ProgressStep>, kind: ProgressStepKind)
    requires InOrder(steps)
    ensures FirstOfKind(steps, kind) == Some(Position(kind))
  {
    var p := Position(kind);
    assert steps[p].kind == kind;
    forall j | 0 <= j < p
      ensures steps[j].kind != kind
    {
      assert AllKinds()[j] != AllKinds()[p];
    }
    FirstOfKindAt(steps, kind, p);
  }

  class ProgressModalState {
    var visible: bool
    var steps: seq<ProgressStep>
    var startTime: int
    var cancellationRequested: bool
    var completed: bool
    var completedAt: Option<int>
    var waitingForKey: bool

    /** The steps stay the six kinds in running order. */
    predicate Valid()
      reads this
    {
      InOrder(steps)
    }

    /** `ProgressModalState::new` at time `now`: visible, every step pending. */
    constructor (now: int)
      ensures Valid() && steps == InitialSteps()
      ensures visible && startTime == now && !cancellationRequested
      ensures !completed && completedAt.None? && !waitingForKey
    {
      visible := true;
      steps := InitialSteps();
      startTime := now;
      cancellationRequested := false;
      completed := false;
      completedAt := None;
      waitingForKey := false;
    }

    /** The `find` over the steps: the index of the first step of `kind`. */
    method FindStep(kind: ProgressStepKind) returns (idx: Option<nat>)
      ensures idx == FirstOfKind(steps, kind)
    {
      var i := 0;
      while i < |steps|
        invariant 0 <= i <= |steps|
        invariant forall j :: 0 <= j < i ==> steps[j].kind != kind
      {
        if steps[i].kind == kind {
          FirstOfKindAt(steps, kind, i);
          return Some(i);
        }
        i := i + 1;
      }
      return None;
    }

    /** `update_step`: only the step of that kind changes. */
    method UpdateStep(kind: ProgressStepKind, status: StepStatus, now: int)
      requires Valid()
      modifies this
      ensures Valid() && |steps| == |old(steps)|
      ensures steps[Position(kind)] == ApplyStatus(old(steps)[Position(kind)], status, now)
      ensures forall j :: 0 <= j < |steps| && j != Position(kind) ==> steps[j] == old(steps)[j]
      ensures completed == old(completed) && waitingForKey == old(waitingForKey) && visible == old(visible)
      ensures completedAt == old(completedAt) && cancellationRequested == old(cancellationRequested)
    {
      var idx := FindStep(kind);
      FindsAtPosition(steps, kind);
      if idx.Some? {
        var i := idx.value;
        steps := steps[i := ApplyStatus(steps[i], status, now)];
      }
    }

    /** `set_step_error`: the step fails with the message and the modal
        waits for a key. */
    method SetStepError(kind: ProgressStepKind, message: string)
      requires Valid()
      modifies this
      ensures Valid() && waitingForKey
      ensures steps[Position(kind)] == old(steps)[Position(kind)].Fail(message)
      ensures forall j :: 0 <= j < |steps| && j != Position(kind) ==> steps[j] == old(steps)[j]
      ensures HasFailed(steps) && Title(steps, completed) == FAILED_TITLE
      ensures completed == old(completed) && visible == old(visible)
      ensures completedAt == old(completedAt) && cancellationRequested == old(cancellationRequested)
    {
      var idx := FindStep(kind);
      FindsAtPosition(steps, kind);
      if idx.Some? {
        var i := idx.value;
        steps := steps[i := steps[i].Fail(message)];
      }
      waitingForKey := true;
      assert steps[Position(kind)].status == Failed;
    }

    /** `mark_completed` at time `now`. */
    method MarkCompleted(now: int)
      modifies this
      ensures completed && completedAt == Some(now)
      ensures steps == old(steps) && waitingForKey == old(waitingForKey) && visible == old(visible)
      ensures cancellationRequested == old(cancellationRequested)
    {
      completed := true;
      completedAt := Some(now);
    }

    /** `summary_display_elapsed`: two seconds have passed since completion. */
    predicate SummaryDisplayElapsed(now: int)
      reads this
    {
      completedAt.Some? && now - completedAt.value >= 2000
    }
  }

  lemma FirstOfKindAt(steps: seq<ProgressStep>, kind: ProgressStepKind, i: nat)
    requires i < |steps| && steps[i].kind == kind
    requires forall j :: 0 <= j < i ==> steps[j].kind != kind
    ensures FirstOfKind(steps, kind) == Some(i)
  {
  }

  /** A fresh modal is not done, has no failure and shows the generic title;
      once every step is completed or skipped it is done. */
  lemma FreshModalPending()
    ensures !AllDone(InitialSteps()) && !HasFailed(InitialSteps())
    ensures Title(InitialSteps(), false) == DEFAULT_TITLE
  {
    var s := InitialSteps();
    AllDoneIff(s);
    assert !Finished(s[0].status);
    assert FirstWithStatus(s, Running).None?;
  }

  // ---------------------------------------------------------------------
  // The error line under a failed step

  /** The six spaces the error line is indented by. */
  const INDENT: seq<byte> := [32, 32, 32, 32, 32, 32]
  const ELLIPSIS: seq<byte> := [46, 46, 46]

  /** `str::is_char_boundary` on UTF-8 bytes: the ends, or a byte that is
      not a continuation byte. */
  predicate IsCharBoundary(msg: seq<byte>, i: nat)
  {
    i == 0 || i == |msg| || (i < |msg| && !(0x80 <= msg[i] < 0xC0))
  }

  /** The error line as `step_lines` builds it, on the message's UTF-8 bytes
      and the modal's inner width: the message after the indent, cut with
      "..." when it does not fit. `None` is the panic of slicing a string
      inside a character. */
  function ErrorLineAsWritten(msg: seq<byte>, innerWidth: nat): (r: Option<seq<byte>>)
    ensures r.None? <==> |msg| > SatSub(innerWidth, 6) && !IsCharBoundary(msg, SatSub(SatSub(innerWidth, 6), 3))
  {
    var maxLen := SatSub(innerWidth, |INDENT|);
    if |msg| > maxLen then
      var cut := SatSub(maxLen, 3);
      if IsCharBoundary(msg, cut) then Some(INDENT + msg[..cut] + ELLIPSIS) else None
    else Some(INDENT + msg)
  }

  /** The UTF-8 encoding of "ああ": two three-byte characters. */
  const TWO_KANA: seq<byte> := [0xE3, 0x81, 0x82, 0xE3, 0x81, 0x82]

  /** In a modal 10 cells wide inside, a failure message of two Japanese
      characters makes the cut fall inside the first character. */
  lemma ErrorLinePanics()
    ensures ErrorLineAsWritten(TWO_KANA, 10).None?
  {
    assert !IsCharBoundary(TWO_KANA, 1);
  }

  /** The largest character boundary at or below `i`. */
  function FloorCharBoundary(msg: seq<byte>, i: nat): (b: nat)
    requires i <= |msg|
    ensures b <= i && IsCharBoundary(msg, b)
    ensures forall j :: b < j <= i ==> !IsCharBoundary(msg, j)
  {
    if IsCharBoundary(msg, i) then i else FloorCharBoundary(msg, i - 1)
  }

  /** The error line with the cut moved back to a character boundary, as
      the truncation evidently intends. */
  function ErrorLine(msg: seq<byte>, innerWidth: nat): (r: seq<byte>)
  {
    var maxLen := SatSub(innerWidth, |INDENT|);
    if |msg| > maxLen then INDENT + msg[..FloorCharBoundary(msg, SatSub(maxLen, 3))] + ELLIPSIS
    else INDENT + msg
  }

  /** The corrected line never panics and agrees with the written one
      whenever that one does not; it keeps a whole-character prefix of the
      message after the indent, and is at most the inner width wide (9
      bytes, indent and ellipsis, when the width is smaller than that). */
  lemma ErrorLineCorrect(msg: seq<byte>, innerWidth: nat)
    ensures ErrorLineAsWritten(msg, innerWidth).Some? ==> ErrorLine(msg, innerWidth) == ErrorLineAsWritten(msg, innerWidth).value
    ensures |ErrorLine(msg, innerWidth)| <= Max(innerWidth, 9)
    ensures ErrorLine(msg, innerWidth)[..6] == INDENT
    ensures |msg| <= SatSub(innerWidth, 6) ==> ErrorLine(msg, innerWidth) == INDENT + msg
    ensures |msg| > SatSub(innerWidth, 6) ==>
              exists k :: 0 <= k <= |msg| && IsCharBoundary(msg, k)
                          && ErrorLine(msg, innerWidth) == INDENT + msg[..k] + ELLIPSIS
  {
    var r := ErrorLine(msg, innerWidth);
    assert r[..6] == INDENT;
    if |msg| > SatSub(innerWidth, 6) {
      var k := FloorCharBoundary(msg, SatSub(SatSub(innerWidth, 6), 3));
      assert r == INDENT + msg[..k] + ELLIPSIS;
    }
  }
}
