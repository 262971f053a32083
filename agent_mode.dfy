/** The agent-mode screen: a chat input line with a character cursor, the
    cursor's place on the wrapped input, and the wrapping of chat text into
    lines of a given display width. The display width of a character is a
    parameter (`UnicodeWidthChar::width`, 0 where it has none). */
module AgentMode {
  import opened Common

  datatype AgentRole = User | Assistant | System
  datatype AgentMessage = AgentMessage(role: AgentRole, content: string)

  // ---------------------------------------------------------------------
  // Characters and their UTF-8 bytes
  // ---------------------------------------------------------------------

  /** `char::len_utf8`. */
  function Utf8Len(c: char): (n: nat)
    ensures 1 <= n <= 4
    ensures n == 1 <==> (c as int) < 0x80
  {
    if (c as int) < 0x80 then 1
    else if (c as int) < 0x800 then 2
    else if (c as int) < 0x10000 then 3
    else 4
  }

  /** The UTF-8 length of a string. */
  function ByteLen(s: string): (n: nat)
    ensures |s| <= n <= 4 * |s|
  {
    if s == [] then 0 else ByteLen(s[..|s| - 1]) + Utf8Len(s[|s| - 1])
  }

  lemma {:induction false} ByteLenAppend(s: string, t: string)
    ensures ByteLen(s + t) == ByteLen(s) + ByteLen(t)
    decreases |t|
  {
    if t == [] {
      assert s + t == s;
    } else {
      assert (s + t)[..|s + t| - 1] == s + t[..|t| - 1];
      ByteLenAppend(s, t[..|t| - 1]);
    }
  }

  /** `char_to_byte_index`: the byte offset at which the character with
      index `cursor` starts; the string's byte length when there is no such
      character. */
  function CharToByteIndex(text: string, cursor: nat): (r: nat)
    ensures cursor == 0 ==> r == 0
    ensures cursor >= |text| ==> r == ByteLen(text)
    ensures r == ByteLen(text[..Min(cursor, |text|)])
    ensures r <= ByteLen(text)
  {
    if cursor == 0 then
      assert text[..0] == [];
      0
    else if cursor < |text| then
      ByteLenAppend(text[..cursor], text[cursor..]);
      assert text[..cursor] + text[cursor..] == text;
      ByteLen(text[..cursor])
    else
      assert text[..|text|] == text;
      ByteLen(text)
  }

  /** Consecutive character boundaries are exactly one character's bytes
      apart, so the byte range `backspace` removes is one whole character. */
  lemma CharToByteIndexStep(text: string, k: nat)
    requires k < |text|
    ensures CharToByteIndex(text, k + 1) == CharToByteIndex(text, k) + Utf8Len(text[k])
  {
    assert text[..k + 1][..k] == text[..k];
  }

  // ---------------------------------------------------------------------
  // Editing the input line
  // ---------------------------------------------------------------------

  /** `insert_char` on (input, cursor): the character goes in at the
      cursor, or at the end when the cursor lies past it. */
  function InsertAtCursor(input: string, cursor: nat, c: char): (r: (string, nat))
    ensures |r.0| == |input| + 1 && r.1 == cursor + 1
    ensures r.0[Min(cursor, |input|)] == c
    ensures cursor <= |input| ==> r.1 <= |r.0|
  {
    var p := Min(cursor, |input|);
    (input[..p] + [c] + input[p..], cursor + 1)
  }

  /** `backspace` on (input, cursor): removes the characters between the
      byte boundaries of `cursor - 1` and `cursor`. */
  function BackspaceAtCursor(input: string, cursor: nat): (r: (string, nat))
    ensures cursor == 0 ==> r == (input, cursor)
    ensures 0 < cursor <= |input| ==> r.0 == input[..cursor - 1] + input[cursor..] && r.1 == cursor - 1
    ensures cursor > |input| ==> r == (input, cursor - 1)
    ensures cursor <= |input| ==> r.1 <= |r.0|
  {
    if cursor == 0 then (input, cursor)
    else
      var n := |input|;
      var lo := Min(cursor - 1, n);
      var hi := Min(cursor, n);
      assert cursor > n ==> input[..lo] + input[hi..] == input;
      (input[..lo] + input[hi..], cursor - 1)
  }

  /** Backspace right after typing restores input and cursor. */
  lemma BackspaceUndoesInsert(input: string, cursor: nat, c: char)
    requires cursor <= |input|
    ensures BackspaceAtCursor(InsertAtCursor(input, cursor, c).0, cursor + 1) == (input, cursor)
  {
    var s := InsertAtCursor(input, cursor, c).0;
    assert s[..cursor] == input[..cursor];
    assert s[cursor + 1..] == input[cursor..];
    assert input[..cursor] + input[cursor..] == input;
  }

  /** Typing adds exactly the typed character's UTF-8 bytes. */
  lemma InsertAddsCharBytes(input: string, cursor: nat, c: char)
    requires cursor <= |input|
    ensures ByteLen(InsertAtCursor(input, cursor, c).0) == ByteLen(input) + Utf8Len(c)
  {
    var pre, post := input[..cursor], input[cursor..];
    SplitAt(input, cursor);
    ByteLenAround(pre, c, post);
    ByteLenAppend(pre, post);
  }

  /** A string is its prefix before `k` followed by the rest. */
  lemma SplitAt(s: string, k: nat)
    requires k <= |s|
    ensures s == s[..k] + s[k..]
    ensures k < |s| ==> s == s[..k] + [s[k]] + s[k + 1..]
  {
  }

  /** The bytes of a string with one character between two parts. */
  lemma ByteLenAround(pre: string, x: char, post: string)
    ensures ByteLen(pre + [x] + post) == ByteLen(pre) + Utf8Len(x) + ByteLen(post)
  {
    ByteLenAppend(pre + [x], post);
    ByteLenAppend(pre, [x]);
    ByteLenSingle(x);
  }

  lemma ByteLenSingle(x: char)
    ensures ByteLen([x]) == Utf8Len(x)
  {
    assert [x][..0] == [];
  }

  /** Backspace takes away exactly the bytes of the character before the
      cursor. */
  lemma BackspaceRemovesCharBytes(input: string, cursor: nat)
    requires 0 < cursor <= |input|
    ensures ByteLen(BackspaceAtCursor(input, cursor).0) == ByteLen(input) - Utf8Len(input[cursor - 1])
  {
    var x := input[cursor - 1];
    var pre, post := input[..cursor - 1], input[cursor..];
    SplitAt(input, cursor - 1);
    ByteLenAround(pre, x, post);
    ByteLenAppend(pre, post);
  }

  class AgentModeState {
    var input: string
    var inputCursor: nat
    var messages: seq<AgentMessage>
    var aiReady: bool
    var aiError: Option<string>
    var lastError: Option<string>
    var isWaiting: bool
    var selectedTaskIndex: nat

    /** The cursor never lies past the last character. */
    predicate Valid()
      reads this`input, this`inputCursor
    {
      inputCursor <= |input|
    }

    /** `AgentModeState::new`. */
    constructor ()
      ensures input == [] && inputCursor == 0 && messages == [] && !aiReady
      ensures aiError.None? && lastError.None? && !isWaiting && selectedTaskIndex == 0
      ensures Valid()
    {
      input := [];
      inputCursor := 0;
      messages := [];
      aiReady := false;
      aiError := None;
      lastError := None;
      isWaiting := false;
      selectedTaskIndex := 0;
    }

    /** `set_ai_status`. */
    method SetAiStatus(ready: bool, error: Option<string>)
      modifies this`aiReady, this`aiError
      ensures aiReady == ready && aiError == error
    {
      aiReady := ready;
      aiError := error;
    }

    /** `set_waiting`. */
    method SetWaiting(waiting: bool)
      modifies this`isWaiting
      ensures isWaiting == waiting
    {
      isWaiting := waiting;
    }

    /** `clear_input`. */
    method ClearInput()
      modifies this`input, this`inputCursor
      ensures input == [] && inputCursor == 0 && Valid()
    {
      input := [];
      inputCursor := 0;
    }

    /** `insert_char`. */
    method InsertChar(c: char)
      modifies this`input, this`inputCursor
      ensures (input, inputCursor) == InsertAtCursor(old(input), old(inputCursor), c)
      ensures old(Valid()) ==> Valid()
    {
      var r := InsertAtCursor(input, inputCursor, c);
      input, inputCursor := r.0, r.1;
    }

    /** `backspace`. */
    method Backspace()
      modifies this`input, this`inputCursor
      ensures (input, inputCursor) == BackspaceAtCursor(old(input), old(inputCursor))
      ensures old(Valid()) ==> Valid()
    {
      var r := BackspaceAtCursor(input, inputCursor);
      input, inputCursor := r.0, r.1;
    }

    /** `cursor_left`. */
    method CursorLeft()
      modifies this`inputCursor
      ensures inputCursor == SatSub(old(inputCursor), 1)
      ensures old(Valid()) ==> Valid()
    {
      inputCursor := SatSub(inputCursor, 1);
    }

    /** `cursor_right`: one right, never past the last character. */
    method CursorRight()
      modifies this`inputCursor
      ensures inputCursor == if old(inputCursor) < |input| then old(inputCursor) + 1 else old(inputCursor)
      ensures old(Valid()) ==> Valid()
    {
      if inputCursor < |input| {
        inputCursor := inputCursor + 1;
      }
    }
  }

  // ---------------------------------------------------------------------
  // Cursor position on the wrapped input
  // ---------------------------------------------------------------------

  /** Line and column reached after laying out some characters. */
  datatype Spot = Spot(line: nat, col: nat)

  /** One character of the layout `cursor_position` walks: a newline opens
      a line; a character that does not fit on the line starts the next. */
  function Place(p: Spot, ch: char, width: nat, w: char -> nat): (q: Spot)
    ensures p.line <= q.line <= p.line + 1
  {
    if ch == '\n' then Spot(p.line + 1, 0)
    else if p.col + w(ch) > width then Spot(p.line + 1, w(ch))
    else Spot(p.line, p.col + w(ch))
  }

  /** The spot after laying out all of `text`. */
  function LayoutEnd(text: string, width: nat, w: char -> nat): (p: Spot)
    ensures p.line <= |text|
  {
    if text == [] then Spot(0, 0)
    else Place(LayoutEnd(text[..|text| - 1], width, w), text[|text| - 1], width, w)
  }

  /** Laying out more text never moves back a line. */
  lemma {:induction false} LayoutLineMonotone(text: string, k: nat, width: nat, w: char -> nat)
    requires k <= |text|
    ensures LayoutEnd(text[..k], width, w).line <= LayoutEnd(text, width, w).line
    decreases |text|
  {
    if k < |text| {
      var init := text[..|text| - 1];
      assert init[..k] == text[..k];
      LayoutLineMonotone(init, k, width, w);
    } else {
      assert text[..k] == text;
    }
  }

  /** When no character is wider than the line, no column is either. */
  lemma {:induction false} LayoutColumnFits(text: string, width: nat, w: char -> nat)
    requires forall i :: 0 <= i < |text| ==> w(text[i]) <= width
    ensures LayoutEnd(text, width, w).col <= width
  {
    if text != [] {
      LayoutColumnFits(text[..|text| - 1], width, w);
    }
  }

  /** `cursor_position`: the cursor's line and column and the number of
      lines of `text` laid out at `max(width, 1)` columns. */
  method CursorPosition(text: string, cursor: nat, width: nat, w: char -> nat)
    returns (cursorLine: nat, cursorCol: nat, totalLines: nat)
    ensures var c := LayoutEnd(text[..Min(cursor, |text|)], Max(width, 1), w);
      cursorLine == c.line && cursorCol == c.col
    ensures totalLines == LayoutEnd(text, Max(width, 1), w).line + 1
    ensures 1 <= totalLines && cursorLine < totalLines
  {
    var cur := Min(cursor, |text|);
    var wd := Max(width, 1);
    var line: nat, col: nat, index := 0, 0, 0;
    cursorLine, cursorCol := 0, 0;
    while index < |text|
      invariant index <= |text|
      invariant Spot(line, col) == LayoutEnd(text[..index], wd, w)
      invariant cur < index ==> Spot(cursorLine, cursorCol) == LayoutEnd(text[..cur], wd, w)
    {
      if index == cur {
        cursorLine, cursorCol := line, col;
      }
      var ch := text[index];
      assert text[..index + 1][..index] == text[..index];
      if ch == '\n' {
        line, col := line + 1, 0;
      } else {
        if col + w(ch) > wd {
          line, col := line + 1, 0;
        }
        col := col + w(ch);
      }
      index := index + 1;
    }
    assert text[..index] == text;
    if cur == index {
      cursorLine, cursorCol := line, col;
    }
    totalLines := line + 1;
    LayoutLineMonotone(text, cur, wd, w);
  }

  // ---------------------------------------------------------------------
  // Wrapping text into lines
  // ---------------------------------------------------------------------

  /** Display width of a string. */
  function Width(s: string, w: char -> nat): nat
  {
    if s == [] then 0 else Width(s[..|s| - 1], w) + w(s[|s| - 1])
  }

  /** The text with its newlines removed. */
  function DropNewlines(s: string): (r: string)
    ensures |r| <= |s|
  {
    if s == [] then []
    else DropNewlines(s[..|s| - 1]) + (if s[|s| - 1] == '\n' then [] else [s[|s| - 1]])
  }

  /** Lines joined end to end. */
  function Concat(lines: seq<string>): string
  {
    if lines == [] then [] else Concat(lines[..|lines| - 1]) + lines[|lines| - 1]
  }

  /** Finished lines, the line being filled and its width. */
  datatype WrapState = WrapState(lines: seq<string>, current: string, currentWidth: nat)

  /** One character of `wrap_spans_to_lines`: a newline ends the line; a
      character that would overflow a positive width ends it first. */
  function WrapStep(st: WrapState, ch: char, width: nat, w: char -> nat): WrapState
  {
    if ch == '\n' then WrapState(st.lines + [st.current], [], 0)
    else if width > 0 && st.currentWidth + w(ch) > width then
      WrapState(st.lines + [st.current], [ch], w(ch))
    else WrapState(st.lines, st.current + [ch], st.currentWidth + w(ch))
  }

  /** The state after wrapping all of `text`. */
  function WrapRun(text: string, width: nat, w: char -> nat): WrapState
  {
    if text == [] then WrapState([], [], 0)
    else WrapStep(WrapRun(text[..|text| - 1], width, w), text[|text| - 1], width, w)
  }

  /** The lines `wrap_spans_to_lines` returns: the line being filled is
      kept when it has characters or when there is no line yet. */
  function Wrapped(text: string, width: nat, w: char -> nat): seq<string>
  {
    var st := WrapRun(text, width, w);
    if st.current != [] || st.lines == [] then st.lines + [st.current] else st.lines
  }

  lemma ConcatSnoc(lines: seq<string>, x: string)
    ensures Concat(lines + [x]) == Concat(lines) + x
  {
    assert (lines + [x])[..|lines|] == lines;
  }

  /** What the wrapping keeps: the characters other than newlines, in
      order. */
  lemma {:induction false} WrapRunKeepsText(text: string, width: nat, w: char -> nat)
    ensures var st := WrapRun(text, width, w);
      Concat(st.lines) + st.current == DropNewlines(text)
  {
    if text != [] {
      var init := text[..|text| - 1];
      var prev := WrapRun(init, width, w);
      WrapRunKeepsText(init, width, w);
      var ch := text[|text| - 1];
      assert DropNewlines(text) == DropNewlines(init) + (if ch == '\n' then [] else [ch]);
      if ch == '\n' {
        ConcatSnoc(prev.lines, prev.current);
      } else if width > 0 && prev.currentWidth + w(ch) > width {
        ConcatSnoc(prev.lines, prev.current);
      }
    }
  }

  /** The width of the line being filled is tracked exactly, and no line
      holds a newline. */
  lemma {:induction false} WrapRunLinesClean(text: string, width: nat, w: char -> nat)
    ensures var st := WrapRun(text, width, w);
      st.currentWidth == Width(st.current, w)
      && '\n' !in st.current
      && forall j :: 0 <= j < |st.lines| ==> '\n' !in st.lines[j]
  {
    if text != [] {
      var init := text[..|text| - 1];
      var prev := WrapRun(init, width, w);
      WrapRunLinesClean(init, width, w);
      var ch := text[|text| - 1];
      if ch != '\n' && !(width > 0 && prev.currentWidth + w(ch) > width) {
        assert (prev.current + [ch])[..|prev.current|] == prev.current;
      } else if ch != '\n' {
        assert [ch][..0] == [];
      }
    }
  }

  /** No line is wider than a positive width when no character is. */
  lemma {:induction false} WrapRunFits(text: string, width: nat, w: char -> nat)
    requires width > 0
    requires forall i :: 0 <= i < |text| ==> w(text[i]) <= width
    ensures var st := WrapRun(text, width, w);
      st.currentWidth <= width
      && forall j :: 0 <= j < |st.lines| ==> Width(st.lines[j], w) <= width
  {
    if text != [] {
      var init := text[..|text| - 1];
      assert forall i :: 0 <= i < |init| ==> init[i] == text[i];
      WrapRunFits(init, width, w);
      WrapRunLinesClean(init, width, w);
    }
  }

  /** The wrapped lines: at least one, joined they give the text without
      its newlines, none holds a newline, and none is wider than a positive
      width when no character is. */
  lemma WrappedProperties(text: string, width: nat, w: char -> nat)
    ensures |Wrapped(text, width, w)| >= 1
    ensures Concat(Wrapped(text, width, w)) == DropNewlines(text)
    ensures forall j :: 0 <= j < |Wrapped(text, width, w)| ==> '\n' !in Wrapped(text, width, w)[j]
    ensures width > 0 && (forall i :: 0 <= i < |text| ==> w(text[i]) <= width) ==>
      forall j :: 0 <= j < |Wrapped(text, width, w)| ==> Width(Wrapped(text, width, w)[j], w) <= width
  {
    var st := WrapRun(text, width, w);
    WrapRunKeepsText(text, width, w);
    WrapRunLinesClean(text, width, w);
    FinishLines(st.lines, st.current);
    if width > 0 && (forall i :: 0 <= i < |text| ==> w(text[i]) <= width) {
      WrapRunFits(text, width, w);
    }
  }

  /** Keeping the line being filled only when it has characters or is the
      only one: each output line is a finished line or that line. */
  lemma FinishLines(lines: seq<string>, current: string)
    ensures var out := if current != [] || lines == [] then lines + [current] else lines;
      |out| >= 1 && Concat(out) == Concat(lines) + current
      && forall j :: 0 <= j < |out| ==> (j < |lines| && out[j] == lines[j]) || out[j] == current
  {
    if current != [] || lines == [] {
      ConcatSnoc(lines, current);
    } else {
      assert Concat(lines) + current == Concat(lines);
    }
  }

  /** `wrap_spans_to_lines` over the characters of the spans. */
  method WrapToLines(text: string, width: nat, w: char -> nat) returns (lines: seq<string>)
    ensures lines == Wrapped(text, width, w)
  {
    lines := [];
    var current: string := [];
    var currentWidth: nat := 0;
    var i := 0;
    while i < |text|
      invariant i <= |text|
      invariant WrapState(lines, current, currentWidth) == WrapRun(text[..i], width, w)
    {
      var ch := text[i];
      assert text[..i + 1][..i] == text[..i];
      if ch == '\n' {
        lines := lines + [current];
        current, currentWidth := [], 0;
      } else {
        if width > 0 && currentWidth + w(ch) > width {
          lines := lines + [current];
          current, currentWidth := [], 0;
        }
        current := current + [ch];
        currentWidth := currentWidth + w(ch);
      }
      i := i + 1;
    }
    assert text[..i] == text;
    if current != [] || lines == [] {
      lines := lines + [current];
    }
  }
}
