/** The clone wizard: URL entry, the choice between a bare and a shallow bare
    clone, and the wait for the background clone. The clone itself runs on a
    thread; here its answer, as seen by one poll, is a parameter. */
module CloneWizard {
  import opened Common

  datatype CloneWizardStep = UrlInput | TypeSelect | Cloning | Complete | Failed

  datatype CloneType = Bare | BareShallow

  /** The clone type shown at a list index: index 0 is the full bare clone,
      every other index the shallow one. */
  function CloneTypeAt(index: nat): (t: CloneType)
    ensures t == Bare <==> index == 0
  {
    if index == 0 then Bare else BareShallow
  }

  /** `CloneType::label`. */
  function Label(t: CloneType): string
  {
    match t
    case Bare => "Bare clone (recommended)"
    case BareShallow => "Bare shallow clone (--depth=1, faster)"
  }

  /** `CloneType::description`. */
  function Description(t: CloneType): string
  {
    match t
    case Bare => "Full history, better for long-term projects"
    case BareShallow => "Faster clone, good for quick setup"
  }

  /** The two types are told apart by their labels and by their
      descriptions. */
  lemma LabelsDistinguish(a: CloneType, b: CloneType)
    ensures Label(a) == Label(b) <==> a == b
    ensures Description(a) == Description(b) <==> a == b
  {
  }

  /** What one `try_recv` on the clone channel returned. */
  datatype Poll =
    | NothingYet
    | Succeeded(path: string)
    | Errored(message: string)
    | Disconnected

  const DISCONNECTED_MESSAGE: string := "Clone process terminated unexpectedly"
  const CLONING_MESSAGE: string := "Cloning repository..."

  class CloneWizardState {
    var step: CloneWizardStep
    var url: string
    var cloneType: CloneType
    var typeIndex: nat
    var targetDir: string
    /** Whether a clone result receiver is held. */
    var awaitingClone: bool
    var clonedPath: Option<string>
    var errorMessage: Option<string>
    var progressMessage: string

    /** The selection index is 0 or 1 and names the selected type, and a
        receiver is held exactly while cloning. */
    predicate Valid()
      reads this
    {
      typeIndex <= 1 && cloneType == CloneTypeAt(typeIndex)
      && (awaitingClone <==> step == Cloning)
    }

    /** `CloneWizardState::new` in working directory `cwd`: URL entry, the
        shallow clone preselected. */
    constructor (cwd: string)
      ensures Valid()
      ensures step == UrlInput && url == [] && cloneType == BareShallow && typeIndex == 1
      ensures targetDir == cwd && !awaitingClone && clonedPath.None? && errorMessage.None? && progressMessage == []
    {
      step := UrlInput;
      url := [];
      cloneType := BareShallow;
      typeIndex := 1;
      targetDir := cwd;
      awaitingClone := false;
      clonedPath := None;
      errorMessage := None;
      progressMessage := [];
    }

    /** `reset`: back to the state `new` builds. */
    method Reset(cwd: string)
      modifies this
      ensures Valid()
      ensures step == UrlInput && url == [] && cloneType == BareShallow && typeIndex == 1
      ensures targetDir == cwd && !awaitingClone && clonedPath.None? && errorMessage.None? && progressMessage == []
    {
      step := UrlInput;
      url := [];
      cloneType := BareShallow;
      typeIndex := 1;
      targetDir := cwd;
      awaitingClone := false;
      clonedPath := None;
      errorMessage := None;
      progressMessage := [];
    }

    /** `handle_char`: typing edits the URL only on the URL step. */
    method HandleChar(c: char)
      requires Valid()
      modifies this
      ensures Valid()
      ensures url == if old(step) == UrlInput then old(url) + [c] else old(url)
      ensures step == old(step) && typeIndex == old(typeIndex) && cloneType == old(cloneType)
      ensures awaitingClone == old(awaitingClone) && errorMessage == old(errorMessage) && clonedPath == old(clonedPath)
    {
      if step == UrlInput {
        url := url + [c];
      }
    }

    /** `handle_backspace`: removes the last URL character, on the URL step. */
    method HandleBackspace()
      requires Valid()
      modifies this
      ensures Valid()
      ensures url == if old(step) == UrlInput && old(url) != [] then old(url)[..|old(url)| - 1] else old(url)
      ensures step == old(step) && typeIndex == old(typeIndex) && cloneType == old(cloneType)
      ensures awaitingClone == old(awaitingClone) && errorMessage == old(errorMessage) && clonedPath == old(clonedPath)
    {
      if step == UrlInput && url != [] {
        url := url[..|url| - 1];
      }
    }

    /** `next`: a non-empty URL moves on to the type choice; confirming the
        type starts the clone; other steps ignore it. */
    method Next()
      requires Valid()
      modifies this
      ensures Valid()
      ensures old(step) == UrlInput ==> step == (if old(url) == [] then UrlInput else TypeSelect)
      ensures old(step) == TypeSelect ==> step == Cloning && awaitingClone && progressMessage == CLONING_MESSAGE
      ensures old(step) != UrlInput && old(step) != TypeSelect ==> step == old(step)
      ensures url == old(url) && typeIndex == old(typeIndex) && cloneType == old(cloneType)
      ensures errorMessage == old(errorMessage) && clonedPath == old(clonedPath)
      ensures old(step) != TypeSelect ==> awaitingClone == old(awaitingClone) && progressMessage == old(progressMessage)
    {
      if step == UrlInput {
        if url != [] {
          step := TypeSelect;
        }
      } else if step == TypeSelect {
        StartClone();
      }
    }

    /** `start_clone`: enters the Cloning step and holds the receiver the
        clone thread answers on. */
    method StartClone()
      modifies this
      ensures step == Cloning && awaitingClone && progressMessage == CLONING_MESSAGE
      ensures url == old(url) && typeIndex == old(typeIndex) && cloneType == old(cloneType) && targetDir == old(targetDir)
      ensures errorMessage == old(errorMessage) && clonedPath == old(clonedPath)
    {
      step := Cloning;
      progressMessage := CLONING_MESSAGE;
      awaitingClone := true;
    }

    /** `prev`: back from the type choice, or from a failure, to the URL;
        leaving a failure clears its message. */
    method Prev()
      requires Valid()
      modifies this
      ensures Valid()
      ensures old(step) == TypeSelect || old(step) == Failed ==> step == UrlInput
      ensures old(step) != TypeSelect && old(step) != Failed ==> step == old(step)
      ensures errorMessage == if old(step) == Failed then None else old(errorMessage)
      ensures url == old(url) && typeIndex == old(typeIndex) && cloneType == old(cloneType)
      ensures awaitingClone == old(awaitingClone) && clonedPath == old(clonedPath)
    {
      if step == TypeSelect {
        step := UrlInput;
      } else if step == Failed {
        step := UrlInput;
        errorMessage := None;
      }
    }

    /** `up`: moves the type selection up, within the two entries. */
    method Up()
      requires Valid()
      modifies this
      ensures Valid()
      ensures typeIndex == if old(step) == TypeSelect && old(typeIndex) > 0 then old(typeIndex) - 1 else old(typeIndex)
      ensures step == old(step) && url == old(url) && awaitingClone == old(awaitingClone)
      ensures errorMessage == old(errorMessage) && clonedPath == old(clonedPath)
    {
      if step == TypeSelect && typeIndex > 0 {
        typeIndex := typeIndex - 1;
        cloneType := CloneTypeAt(typeIndex);
      }
    }

    /** `down`: moves the type selection down, within the two entries. */
    method Down()
      requires Valid()
      modifies this
      ensures Valid()
      ensures typeIndex == if old(step) == TypeSelect && old(typeIndex) < 1 then old(typeIndex) + 1 else old(typeIndex)
      ensures step == old(step) && url == old(url) && awaitingClone == old(awaitingClone)
      ensures errorMessage == old(errorMessage) && clonedPath == old(clonedPath)
    {
      if step == TypeSelect && typeIndex < 1 {
        typeIndex := typeIndex + 1;
        cloneType := CloneTypeAt(typeIndex);
      }
    }

    /** `poll_clone` given what the channel returned: a result ends the wait
        (Complete with the path, or Failed with the message), a dropped
        sender fails with a fixed message, and nothing yet (or no receiver)
        changes nothing. Reports whether the state changed. */
    method PollClone(received: Poll) returns (changed: bool)
      requires Valid()
      modifies this
      ensures Valid()
      ensures changed <==> old(awaitingClone) && !received.NothingYet?
      ensures changed && received.Succeeded? ==> step == Complete && clonedPath == Some(received.path)
      ensures changed && received.Errored? ==> step == Failed && errorMessage == Some(received.message)
      ensures changed && received.Disconnected? ==> step == Failed && errorMessage == Some(DISCONNECTED_MESSAGE)
      ensures !changed ==> step == old(step) && awaitingClone == old(awaitingClone)
                           && errorMessage == old(errorMessage) && clonedPath == old(clonedPath)
      ensures url == old(url) && typeIndex == old(typeIndex) && cloneType == old(cloneType)
    {
      changed := false;
      if awaitingClone {
        match received {
          case Succeeded(path) =>
            step := Complete;
            clonedPath := Some(path);
            awaitingClone := false;
            changed := true;
          case Errored(message) =>
            step := Failed;
            errorMessage := Some(message);
            awaitingClone := false;
            changed := true;
          case NothingYet =>
          case Disconnected =>
            step := Failed;
            errorMessage := Some(DISCONNECTED_MESSAGE);
            awaitingClone := false;
            changed := true;
        }
      }
    }

    /** `is_cloning`. */
    predicate IsCloning()
      reads this
    {
      step == Cloning
    }

    /** `is_complete`. */
    predicate IsComplete()
      reads this
    {
      step == Complete
    }
  }

  /** On the URL step, typing a character and pressing next twice starts a
      clone of the selected type. */
  method TypeAndStart(w: CloneWizardState, c: char)
    requires w.Valid() && w.step == UrlInput
    modifies w
    ensures w.Valid() && w.step == Cloning && w.IsCloning() && w.url == old(w.url) + [c]
    ensures w.cloneType == old(w.cloneType)
  {
    w.HandleChar(c);
    w.Next();
    w.Next();
  }
}
