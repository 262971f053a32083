/** The agent pane's text helpers and its mouse-scroll encoding: the tab
    label, the block title, the status icon and label, the elapsed-time
    display, and the X10 escape sequence forwarded to the agent's terminal.
    The current time is a parameter: `FormatElapsed` takes the elapsed
    whole seconds. */
module AgentPane {
  import opened Common

  /** The state of the process in a pane. */
  datatype PaneStatus = Running | Completed(code: int) | Error(message: string)

  /** `status_icon`. */
  function StatusIcon(s: PaneStatus): (r: string)
    ensures |r| == 1
    ensures r == "o" <==> s == Completed(0)
    ensures r == "*" <==> s.Running?
  {
    match s
    case Running => "*"
    case Completed(code) => if code == 0 then "o" else "x"
    case Error(_) => "!"
  }

  /** `status_label`. */
  function StatusLabel(s: PaneStatus): (r: string)
    ensures r == "Completed" <==> s == Completed(0)
    ensures r == "Failed" <==> s.Completed? && s.code != 0
    ensures r == "Running" <==> s.Running?
  {
    match s
    case Running => "Running"
    case Completed(code) => if code == 0 then "Completed" else "Failed"
    case Error(_) => "Error"
  }

  /** Icon and label tell the same story: two statuses share an icon exactly
      when they share a label, and only a zero exit code reads "Completed". */
  lemma IconMatchesLabel(a: PaneStatus, b: PaneStatus)
    ensures StatusIcon(a) == StatusIcon(b) <==> StatusLabel(a) == StatusLabel(b)
    ensures StatusLabel(a) == "Completed" <==> a == Completed(0)
    ensures |StatusIcon(a)| == 1
  {
  }

  /** `format_tab_label`: the one-based position, ':', the agent name. */
  function FormatTabLabel(index: nat, agentName: string): (r: string)
    ensures |r| > |agentName| + 1 && r[|r| - |agentName|..] == agentName && r[|r| - |agentName| - 1] == ':'
    ensures AllDigits(r[..|r| - |agentName| - 1]) && DigitsValue(r[..|r| - |agentName| - 1]) == index + 1
  {
    var digits := NatToString(index + 1);
    NatToStringValue(index + 1);
    var r := digits + ":" + agentName;
    assert r[..|digits|] == digits;
    r
  }

  /** Reads a tab label back: the digits before the first ':' are the
      one-based position and the rest is the name. */
  function ParseTabLabel(text: string): (r: Option<(nat, string)>)
  {
    match FindChar(text, ':')
    case None => None
    case Some(k) =>
      var digits := text[..k];
      if digits == [] || !AllDigits(digits) || DigitsValue(digits) == 0 then None
      else Some((DigitsValue(digits) - 1, text[k + 1..]))
  }

  lemma DigitsHaveNo(s: string, c: char)
    requires AllDigits(s) && !IsDigit(c)
    ensures c !in s
  {
  }

  /** The tab label keeps the position and the whole name, even a name that
      itself contains ':'. */
  lemma TabLabelRoundTrip(index: nat, agentName: string)
    ensures ParseTabLabel(FormatTabLabel(index, agentName)) == Some((index, agentName))
  {
    var d := NatToString(index + 1);
    DigitsHaveNo(d, ':');
    FindCharAfter(d, ':', agentName);
    var text := FormatTabLabel(index, agentName);
    assert text == d + [':'] + agentName;
    assert text[..|d|] == d;
    assert text[|d| + 1..] == agentName;
    NatToStringValue(index + 1);
  }

  /** `agent_pane_title`: the active pane's agent name padded by one space,
      or " No Agent " when there is no pane. */
  function AgentPaneTitle(activeAgentName: Option<string>): (r: string)
    ensures activeAgentName.Some? ==> r == " " + activeAgentName.value + " "
    ensures activeAgentName.None? ==> r == " No Agent "
    ensures |r| >= 2 && r[0] == ' ' && r[|r| - 1] == ' '
  {
    match activeAgentName
    case Some(name) => " " + name + " "
    case None => " No Agent "
  }

  /** `{secs:02}` for a number below 60: two digits, zero-padded. */
  function Pad2(n: nat): (r: string)
    requires n < 60
    ensures |r| == 2 && AllDigits(r)
  {
    [DigitChar(n / 10), DigitChar(n % 10)]
  }

  lemma Pad2Value(n: nat)
    requires n < 60
    ensures DigitsValue(Pad2(n)) == n
  {
    var r := Pad2(n);
    assert r[..1] == [DigitChar(n / 10)];
    assert r[..1][..0] == [];
    assert DigitsValue(r[..1]) == n / 10;
    assert DigitValue(r[1]) == n % 10;
  }

  /** `format_elapsed`: a negative elapsed time (a start in the future)
      shows as zero; otherwise minutes, 'm', two-digit seconds, 's'. */
  function FormatElapsed(elapsedSecs: int): (r: string)
    ensures |r| >= 5 && r[|r| - 1] == 's' && r[|r| - 4] == 'm' && AllDigits(r[|r| - 3..|r| - 1])
    ensures elapsedSecs <= 0 ==> r == "0m00s"
  {
    var total: nat := Max(elapsedSecs, 0);
    NatToString(total / 60) + "m" + Pad2(total % 60) + "s"
  }

  /** Reads an elapsed-time display back into seconds. */
  function ParseElapsed(s: string): (r: Option<nat>)
  {
    match FindChar(s, 'm')
    case None => None
    case Some(k) =>
      var mins := s[..k];
      var rest := s[k + 1..];
      if mins == [] || !AllDigits(mins) || |rest| != 3 || rest[2] != 's' || !AllDigits(rest[..2]) then None
      else if DigitsValue(rest[..2]) >= 60 then None
      else Some(DigitsValue(mins) * 60 + DigitsValue(rest[..2]))
  }

  /** The display loses nothing but the sign: it reads back as the elapsed
      seconds, clamped at zero, and the seconds field is always two digits. */
  lemma ElapsedRoundTrip(elapsedSecs: int)
    ensures ParseElapsed(FormatElapsed(elapsedSecs)) == Some(Max(elapsedSecs, 0))
  {
    var total: nat := Max(elapsedSecs, 0);
    var mins, secs := total / 60, total % 60;
    var m := NatToString(mins);
    var p := Pad2(secs);
    NatToStringValue(mins);
    Pad2Value(secs);
    ParseElapsedOf(m, p);
    assert mins * 60 + secs == total;
  }

  /** Minutes digits, 'm', two seconds digits below 60 and 's' read back as seconds. */
  lemma ParseElapsedOf(m: string, p: string)
    requires m != [] && AllDigits(m) && |p| == 2 && AllDigits(p) && DigitsValue(p) < 60
    ensures ParseElapsed(m + "m" + p + "s") == Some(DigitsValue(m) * 60 + DigitsValue(p))
  {
    DigitsHaveNo(m, 'm');
    var rest := p + "s";
    FindCharAfter(m, 'm', rest);
    var s := m + "m" + p + "s";
    assert s == m + ['m'] + rest;
    assert FindChar(s, 'm') == Some(|m|);
    assert s[..|m|] == m && s[|m| + 1..] == rest;
    assert |rest| == 3 && rest[2] == 's' && rest[..2] == p;
  }

  /** A start in the future shows "0m00s". */
  lemma FutureStartIsZero(elapsedSecs: int)
    requires elapsedSecs <= 0
    ensures FormatElapsed(elapsedSecs) == "0m00s"
  {
    assert NatToString(0) == "0";
    assert Pad2(0) == "00";
  }

  // ---------------------------------------------------------------------
  // Mouse scroll forwarding

  const ESC: byte := 0x1b
  const SCROLL_UP_BUTTON: byte := 64
  const SCROLL_DOWN_BUTTON: byte := 65
  /** X10 coordinates are sent as value + 33 in one byte. */
  const X10_OFFSET: nat := 33

  /** One X10 coordinate byte: the offset value, capped at 255. */
  function CoordByte(local: nat): (b: byte)
    ensures local + X10_OFFSET <= 255 ==> b == local + X10_OFFSET
    ensures local + X10_OFFSET > 255 ==> b == 255
  {
    Min(local + X10_OFFSET, 255)
  }

  /** `mouse_scroll_to_bytes`: host coordinates become pane-local ones
      inside the one-cell border (saturating at 0), then ESC '[' 'M', the
      button, x and y. The border edge `pane_area.x + 1` is a `u16` sum:
      at the last column it wraps to 0, as a release build does. */
  function MouseScrollToBytes(isScrollUp: bool, col: nat, row: nat, paneX: nat, paneY: nat): (r: seq<byte>)
    requires col <= U16_MAX && row <= U16_MAX && paneX <= U16_MAX && paneY <= U16_MAX
    ensures |r| == 6 && r[0] == ESC && r[1] == '[' as int && r[2] == 'M' as int
    ensures r[3] == (if isScrollUp then SCROLL_UP_BUTTON else SCROLL_DOWN_BUTTON)
    ensures X10_OFFSET <= r[4] && X10_OFFSET <= r[5]
  {
    var localCol := SatSub(col, (paneX + 1) % (U16_MAX + 1));
    var localRow := SatSub(row, (paneY + 1) % (U16_MAX + 1));
    var button := if isScrollUp then SCROLL_UP_BUTTON else SCROLL_DOWN_BUTTON;
    [ESC, '[' as int, 'M' as int, button, CoordByte(localCol), CoordByte(localRow)]
  }

  /** A pane at the last `u16` position has a border edge that wraps to 0,
      so the host coordinate is passed through unshifted, capped at 222. */
  lemma ScrollEdgeWraps(isScrollUp: bool, col: nat, row: nat)
    requires col <= U16_MAX && row <= U16_MAX
    ensures DecodeScroll(MouseScrollToBytes(isScrollUp, col, row, U16_MAX, U16_MAX))
            == Some((isScrollUp, Min(col, 222), Min(row, 222)))
  {
  }

  /** Reads an X10 scroll report: the direction and the pane-local cell. */
  function DecodeScroll(bytes: seq<byte>): (r: Option<(bool, nat, nat)>)
  {
    if |bytes| != 6 || bytes[0] != ESC || bytes[1] != '[' as int || bytes[2] != 'M' as int then None
    else if bytes[3] != SCROLL_UP_BUTTON && bytes[3] != SCROLL_DOWN_BUTTON then None
    else if bytes[4] < X10_OFFSET || bytes[5] < X10_OFFSET then None
    else Some((bytes[3] == SCROLL_UP_BUTTON, bytes[4] - X10_OFFSET, bytes[5] - X10_OFFSET))
  }

  /** Inside the range X10 can express, the report decodes to the scroll
      direction and the cell relative to the pane's content area. */
  lemma ScrollRoundTrip(isScrollUp: bool, col: nat, row: nat, paneX: nat, paneY: nat)
    requires col <= U16_MAX && row <= U16_MAX && paneX < U16_MAX && paneY < U16_MAX
    requires SatSub(col, paneX + 1) <= 222 && SatSub(row, paneY + 1) <= 222
    ensures col > paneX && row > paneY ==>
              DecodeScroll(MouseScrollToBytes(isScrollUp, col, row, paneX, paneY))
              == Some((isScrollUp, col - (paneX + 1), row - (paneY + 1)))
  {
  }

  /** A report is always six bytes that decode to some cell; a position on
      or left of the border reads as column 0, and one far past the range
      reads as the last expressible column 222. */
  lemma ScrollClamps(isScrollUp: bool, col: nat, row: nat, paneX: nat, paneY: nat)
    requires col <= U16_MAX && row <= U16_MAX && paneX < U16_MAX && paneY < U16_MAX
    ensures var d := DecodeScroll(MouseScrollToBytes(isScrollUp, col, row, paneX, paneY));
            d.Some? && d.value.0 == isScrollUp
            && (col <= paneX + 1 ==> d.value.1 == 0)
            && (col >= paneX + 1 + 222 ==> d.value.1 == 222)
            && (row <= paneY + 1 ==> d.value.2 == 0)
            && (row >= paneY + 1 + 222 ==> d.value.2 == 222)
  {
  }
}
