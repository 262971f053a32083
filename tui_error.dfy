/** The error screen: one error record with a scrollable details list, and the
    FIFO queue of errors waiting to be shown one at a time. */
module TuiError {
  import opened Common

  datatype ErrorSeverity = Error | Warning | Info

  datatype ErrorState = ErrorState(title: string, message: string, code: Option<string>,
                                   details: seq<string>, suggestions: seq<string>,
                                   severity: ErrorSeverity, scrollOffset: nat)
  {
    /** The offset stays on a details line (or at 0 when there are none). */
    predicate ScrollInRange()
    {
      scrollOffset <= SatSub(|details|, 1)
    }

    /** Moves one details line down, stopping at the last line. */
    function ScrollDown(): (r: ErrorState)
      requires ScrollInRange()
      ensures r.ScrollInRange()
      ensures r == this.(scrollOffset := r.scrollOffset)
      ensures r.scrollOffset == if scrollOffset + 1 < |details| then scrollOffset + 1 else scrollOffset
    {
      if details != [] && scrollOffset < SatSub(|details|, 1) then this.(scrollOffset := scrollOffset + 1) else this
    }

    /** Moves one details line up, stopping at the first. */
    function ScrollUp(): (r: ErrorState)
      requires ScrollInRange()
      ensures r.ScrollInRange()
      ensures r == this.(scrollOffset := r.scrollOffset)
      ensures r.scrollOffset == SatSub(scrollOffset, 1)
    {
      if scrollOffset > 0 then this.(scrollOffset := scrollOffset - 1) else this
    }
  }

  function FromError(message: string): (e: ErrorState)
    ensures e.title == "Error" && e.message == message && e.severity == Error
    ensures e.details == [] && e.suggestions == [] && e.code.None? && e.scrollOffset == 0
  {
    ErrorState("Error", message, None, [], [], Error, 0)
  }

  function WithWarningSeverity(e: ErrorState): (r: ErrorState)
    ensures r.severity == Warning && r.title == "Warning"
    ensures r.message == e.message && r.details == e.details && r.code == e.code
  {
    e.(severity := Warning, title := "Warning")
  }

  function WithInfoSeverity(e: ErrorState): (r: ErrorState)
    ensures r.severity == Info && r.title == "Information"
    ensures r.message == e.message && r.details == e.details && r.code == e.code
  {
    e.(severity := Info, title := "Information")
  }

  /** Scrolling down as far as it goes and then up again returns to the top. */
  lemma {:induction false} ScrollDownThenUp(e: ErrorState, downs: nat)
    requires e.ScrollInRange() && e.scrollOffset == 0
    ensures ScrollUpN(ScrollDownN(e, downs), downs).scrollOffset == 0
  {
    ScrollDownNBound(e, downs);
    ScrollUpNFloor(ScrollDownN(e, downs), downs);
  }

  function ScrollDownN(e: ErrorState, n: nat): (r: ErrorState)
    requires e.ScrollInRange()
    ensures r.ScrollInRange() && r.details == e.details
  {
    if n == 0 then e else ScrollDownN(e, n - 1).ScrollDown()
  }

  function ScrollUpN(e: ErrorState, n: nat): (r: ErrorState)
    requires e.ScrollInRange()
    ensures r.ScrollInRange() && r.details == e.details
  {
    if n == 0 then e else ScrollUpN(e, n - 1).ScrollUp()
  }

  lemma {:induction false} ScrollDownNBound(e: ErrorState, n: nat)
    requires e.ScrollInRange()
    ensures ScrollDownN(e, n).scrollOffset <= e.scrollOffset + n
  {
    if n > 0 {
      ScrollDownNBound(e, n - 1);
    }
  }

  lemma {:induction false} ScrollUpNFloor(e: ErrorState, n: nat)
    requires e.ScrollInRange()
    ensures ScrollUpN(e, n).scrollOffset == SatSub(e.scrollOffset, n)
  {
    if n > 0 {
      ScrollUpNFloor(e, n - 1);
    }
  }

  /** The error queue: `current` is on screen and `pending` waits behind it. */
  class ErrorQueue {
    var pending: seq<ErrorState>
    var current: Option<ErrorState>

    /** Nothing waits while nothing is shown. */
    ghost predicate Valid()
      reads this
    {
      current.None? ==> pending == []
    }

    /** Every queued error in display order, the shown one first. */
    function Contents(): (r: seq<ErrorState>)
      reads this
      requires Valid()
      ensures |r| == (if current.Some? then 1 + |pending| else 0)
    {
      if current.Some? then [current.value] + pending else []
    }

    constructor ()
      ensures Valid() && Contents() == []
    {
      pending := [];
      current := None;
    }

    /** An error pushed onto an empty queue is shown at once; otherwise it waits at the back. */
    method Push(error: ErrorState)
      requires Valid()
      modifies this
      ensures Valid()
      ensures Contents() == old(Contents()) + [error]
      ensures old(current).None? ==> current == Some(error) && pending == []
      ensures old(current).Some? ==> current == old(current) && pending == old(pending) + [error]
    {
      if current.None? {
        current := Some(error);
      } else {
        pending := pending + [error];
      }
    }

    /** The oldest waiting error replaces the shown one. */
    method DismissCurrent()
      requires Valid()
      modifies this
      ensures Valid()
      ensures Contents() == if old(Contents()) == [] then [] else old(Contents())[1..]
      ensures current == if old(pending) == [] then None else Some(old(pending)[0])
    {
      if pending == [] {
        current := None;
      } else {
        current := Some(pending[0]);
        pending := pending[1..];
      }
    }

    function IsEmpty(): (r: bool)
      reads this
      requires Valid()
      ensures r <==> Contents() == []
    {
      current.None?
    }

    /** The shown error plus those waiting; 0 when nothing is shown. */
    function TotalCount(): (n: nat)
      reads this
      requires Valid()
      ensures n == |Contents()|
      ensures current.None? ==> n == 0
      ensures current.Some? ==> n == 1 + |pending|
    {
      if current.Some? then 1 + |pending| else 0
    }

    function CurrentPosition(): (n: nat)
      reads this
      ensures n == (if current.Some? then 1 else 0)
    {
      if current.Some? then 1 else 0
    }

    /** "(1/n)" for display, only when more than one error is queued. */
    function PositionString(): (r: Option<string>)
      reads this
      requires Valid()
      ensures r.Some? <==> |Contents()| > 1
      ensures r.Some? ==> r.value == "(1/" + NatToString(|Contents()|) + ")"
    {
      var total := TotalCount();
      if total > 1 then Some("(1/" + NatToString(total) + ")") else None
    }

    method Clear()
      modifies this
      ensures Valid() && current.None? && pending == []
    {
      current := None;
      pending := [];
    }

    /** Scrolls the shown error's details, as the screen does through `current_mut`. */
    method ScrollCurrent(down: bool)
      requires Valid() && (current.Some? ==> current.value.ScrollInRange())
      modifies this`current
      ensures Valid() && (current.Some? ==> current.value.ScrollInRange())
      ensures old(current).None? ==> current.None?
      ensures old(current).Some? ==>
                current == Some(if down then old(current).value.ScrollDown() else old(current).value.ScrollUp())
    {
      if current.Some? {
        current := Some(if down then current.value.ScrollDown() else current.value.ScrollUp());
      }
    }
  }
}
