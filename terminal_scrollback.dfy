/** The terminal scrollback file: ANSI stripping of raw pane output, the line
    counter kept while writing, and the offset rule for reading a file's tail. */
module Scrollback {
  import opened Common

  const ESC: byte := 0x1b
  const BEL: byte := 0x07
  const DEL: byte := 0x7f
  const LF: byte := 0x0a
  const CR: byte := 0x0d
  const TAB: byte := 0x09
  const LBRACKET: byte := 0x5b   // '['
  const RBRACKET: byte := 0x5d   // ']'
  const BACKSLASH: byte := 0x5c  // '\'

  /** Final byte of a CSI sequence. */
  predicate IsFinalByte(b: byte) { 0x40 <= b <= 0x7e }

  /** C0 control characters and DEL. */
  predicate IsControl(b: byte) { b < 0x20 || b == DEL }

  /** The control characters that survive stripping. */
  predicate IsKeptControl(b: byte) { b == LF || b == CR || b == TAB }

  /** Bytes that may appear in stripped output. */
  predicate IsPlain(b: byte) { !IsControl(b) || IsKeptControl(b) }

  /** Introducers of a character-set designation: '(' ')' '*' '+'. */
  predicate IsCharsetIntroducer(b: byte) { b == 0x28 || b == 0x29 || b == 0x2a || b == 0x2b }

  /** What follows a CSI body `t` (the bytes after "ESC ["): everything after the first final byte. */
  function CsiRest(t: seq<byte>): (r: seq<byte>)
    ensures |r| <= |t| && r == t[|t| - |r|..]
  {
    if t == [] then []
    else if IsFinalByte(t[0]) then t[1..]
    else CsiRest(t[1..])
  }

  /** What follows an OSC body `t` (the bytes after "ESC ]"): everything after BEL or ESC '\'. */
  function OscRest(t: seq<byte>): (r: seq<byte>)
    ensures |r| <= |t| && r == t[|t| - |r|..]
  {
    if t == [] then []
    else if t[0] == BEL then t[1..]
    else if t[0] == ESC && |t| > 1 && t[1] == BACKSLASH then t[2..]
    else OscRest(t[1..])
  }

  /** What follows an escape sequence whose ESC is `s[0]`, with at least one byte after it.
      `skipDesignator` selects whether the byte after a charset introducer is consumed too. */
  function EscapeRest(s: seq<byte>, skipDesignator: bool): (r: seq<byte>)
    requires |s| >= 2 && s[0] == ESC
    ensures |r| < |s| - 1 && r == s[|s| - |r|..]
  {
    if s[1] == LBRACKET then CsiRest(s[2..])
    else if s[1] == RBRACKET then OscRest(s[2..])
    else if IsCharsetIntroducer(s[1]) && skipDesignator then (if |s| >= 3 then s[3..] else [])
    else s[2..]
  }

  /** The bytes left when escape sequences and unwanted control characters are removed. */
  function StripWith(s: seq<byte>, skipDesignator: bool): (r: seq<byte>)
    ensures |r| <= |s|
    ensures forall k :: 0 <= k < |r| ==> IsPlain(r[k])
    decreases |s|
  {
    if s == [] then []
    else if s[0] == ESC then
      if |s| == 1 then [] else StripWith(EscapeRest(s, skipDesignator), skipDesignator)
    else if IsControl(s[0]) then
      (if IsKeptControl(s[0]) then [s[0]] else []) + StripWith(s[1..], skipDesignator)
    else [s[0]] + StripWith(s[1..], skipDesignator)
  }

  /** Stripping as intended: a charset designation such as ESC ( B is removed whole. */
  function Strip(s: seq<byte>): seq<byte> { StripWith(s, true) }

  /** Stripping as the source writes it: after ESC and a charset introducer only the
      introducer is skipped, so the designator byte reaches the output. */
  function StripAsWritten(s: seq<byte>): seq<byte> { StripWith(s, false) }

  /** The source's stripping loop, with the charset designator consumed. */
  method StripAnsi(input: seq<byte>) returns (out: seq<byte>)
    ensures out == Strip(input)
  {
    out := [];
    var i := 0;
    assert input[0..] == input;
    while i < |input|
      invariant 0 <= i <= |input|
      invariant out + Strip(input[i..]) == Strip(input)
    {
      var b := input[i];
      ghost var start := i;
      if b == ESC {
        if i + 1 >= |input| {
          EscapeAtEnd(input, i);
          return;
        }
        i := SkipEscape(input, i);
        EscapeStep(input, start, i);
      } else {
        ByteStep(input, i, out);
        if !IsControl(b) || IsKeptControl(b) {
          out := out + [b];
        }
        i := i + 1;
      }
    }
  }

  /** Skips the escape sequence whose ESC is at `start`: a CSI or OSC body, a
      charset introducer with its designator, or a single byte. */
  method SkipEscape(input: seq<byte>, start: nat) returns (i: nat)
    requires start + 1 < |input| && input[start] == ESC
    ensures i <= |input| && input[i..] == EscapeRest(input[start..], true)
  {
    i := start + 1;
    if input[i] == LBRACKET {
      i := SkipCsi(input, i + 1);
      assert input[start..][2..] == input[start + 2..];
    } else if input[i] == RBRACKET {
      i := SkipOsc(input, i + 1);
      assert input[start..][2..] == input[start + 2..];
    } else if IsCharsetIntroducer(input[i]) {
      i := if i + 2 <= |input| then i + 2 else |input|;
      if start + 3 <= |input| {
        assert input[start..][3..] == input[start + 3..];
      }
    } else {
      i := i + 1;
      assert input[start..][2..] == input[start + 2..];
    }
  }

  /** A lone ESC at the end of the input produces nothing. */
  lemma EscapeAtEnd(input: seq<byte>, i: nat)
    requires i + 1 == |input| && input[i] == ESC
    ensures Strip(input[i..]) == []
  {
  }

  /** An escape sequence is dropped as a whole. */
  lemma EscapeStep(input: seq<byte>, i: nat, j: nat)
    requires i + 1 < |input| && input[i] == ESC
    requires j <= |input| && input[j..] == EscapeRest(input[i..], true)
    ensures Strip(input[i..]) == Strip(input[j..])
  {
  }

  /** Any other byte is kept exactly when it may appear in the output. */
  lemma ByteStep(input: seq<byte>, i: nat, out: seq<byte>)
    requires i < |input| && input[i] != ESC
    ensures out + Strip(input[i..]) == (out + if IsPlain(input[i]) then [input[i]] else []) + Strip(input[i + 1..])
  {
    assert input[i..][1..] == input[i + 1..];
    var kept := if IsPlain(input[i]) then [input[i]] else [];
    assert out + kept + Strip(input[i + 1..]) == out + (kept + Strip(input[i + 1..]));
  }

  /** The CSI scan: from the first byte after "ESC [" to just past the final byte. */
  method SkipCsi(input: seq<byte>, start: nat) returns (i: nat)
    requires start <= |input|
    ensures start <= i <= |input| && input[i..] == CsiRest(input[start..])
  {
    i := start;
    while i < |input|
      invariant start <= i <= |input|
      invariant CsiRest(input[i..]) == CsiRest(input[start..])
    {
      var c := input[i];
      assert input[i..][1..] == input[i + 1..];
      i := i + 1;
      if IsFinalByte(c) {
        break;
      }
    }
  }

  /** The OSC scan: from the first byte after "ESC ]" to just past BEL or ESC '\'. */
  method SkipOsc(input: seq<byte>, start: nat) returns (i: nat)
    requires start <= |input|
    ensures start <= i <= |input| && input[i..] == OscRest(input[start..])
  {
    i := start;
    while i < |input|
      invariant start <= i <= |input|
      invariant OscRest(input[i..]) == OscRest(input[start..])
    {
      if input[i] == BEL {
        assert input[i..][1..] == input[i + 1..];
        i := i + 1;
        break;
      }
      if input[i] == ESC && i + 1 < |input| && input[i + 1] == BACKSLASH {
        assert input[i..][2..] == input[i + 2..];
        i := i + 2;
        break;
      }
      assert input[i..][1..] == input[i + 1..];
      i := i + 1;
    }
  }

  // ---------------------------------------------------------------------
  // Properties of stripping

  predicate HasNoEscapeOrControl(s: seq<byte>) { forall k :: 0 <= k < |s| ==> !IsControl(s[k]) || IsKeptControl(s[k]) }

  /** Text without ESC and without removable control bytes passes through unchanged. */
  lemma {:induction false} PlainTextUnchanged(s: seq<byte>)
    requires HasNoEscapeOrControl(s)
    ensures Strip(s) == s
  {
    if s != [] {
      assert s[0] != ESC;
      PlainTextUnchanged(s[1..]);
    }
  }

  lemma {:induction false} CsiRestSkipsBody(body: seq<byte>, final: byte, rest: seq<byte>)
    requires forall k :: 0 <= k < |body| ==> !IsFinalByte(body[k])
    requires IsFinalByte(final)
    ensures CsiRest(body + [final] + rest) == rest
  {
    if body != [] {
      assert (body + [final] + rest)[1..] == body[1..] + [final] + rest;
      CsiRestSkipsBody(body[1..], final, rest);
    }
  }

  /** A complete CSI sequence ESC [ body final is removed entirely. */
  lemma CsiSequenceRemoved(body: seq<byte>, final: byte, rest: seq<byte>)
    requires forall k :: 0 <= k < |body| ==> !IsFinalByte(body[k])
    requires IsFinalByte(final)
    ensures Strip([ESC, LBRACKET] + body + [final] + rest) == Strip(rest)
  {
    var s := [ESC, LBRACKET] + body + [final] + rest;
    assert s[2..] == body + [final] + rest;
    CsiRestSkipsBody(body, final, rest);
  }

  lemma {:induction false} OscRestSkipsBody(body: seq<byte>, term: seq<byte>, rest: seq<byte>)
    requires forall k :: 0 <= k < |body| ==> body[k] != BEL && body[k] != ESC
    requires term == [BEL] || term == [ESC, BACKSLASH]
    ensures OscRest(body + term + rest) == rest
  {
    if body != [] {
      assert (body + term + rest)[1..] == body[1..] + term + rest;
      OscRestSkipsBody(body[1..], term, rest);
    } else {
      assert body + term + rest == term + rest;
    }
  }

  /** An OSC sequence ESC ] body, ended by BEL or by ESC '\', is removed entirely. */
  lemma OscSequenceRemoved(body: seq<byte>, term: seq<byte>, rest: seq<byte>)
    requires forall k :: 0 <= k < |body| ==> body[k] != BEL && body[k] != ESC
    requires term == [BEL] || term == [ESC, BACKSLASH]
    ensures Strip([ESC, RBRACKET] + body + term + rest) == Strip(rest)
  {
    var s := [ESC, RBRACKET] + body + term + rest;
    assert s[2..] == body + term + rest;
    OscRestSkipsBody(body, term, rest);
  }

  /** As written, the designator of ESC ( B survives; as intended it does not. */
  lemma CharsetDesignatorKeptAsWritten()
    ensures StripAsWritten([ESC, 0x28, 0x42]) == [0x42]
    ensures Strip([ESC, 0x28, 0x42]) == []
  {
    var s: seq<byte> := [ESC, 0x28, 0x42];
    assert s[2..] == [0x42];
    assert StripWith([0x42], false) == [0x42] + StripWith([], false);
  }

  // ---------------------------------------------------------------------
  // The scrollback file

  /** A scrollback log opened for appending. `written` is what this handle has
      appended; `lineCount` counts the newlines among those bytes. */
  class ScrollbackFile {
    var written: seq<byte>
    var lineCount: nat

    ghost predicate Valid()
      reads this
    {
      lineCount == Count(written, LF)
    }

    /** Opening starts the counter at zero, whatever the file already holds. */
    constructor ()
      ensures Valid() && written == [] && lineCount == 0
    {
      written := [];
      lineCount := 0;
    }

    /** Appends `data`; `writeFails` is the outcome of the underlying write. On
        success the counter grows by the number of '\n' bytes in `data`. */
    method Write(data: seq<byte>, writeFails: bool) returns (ok: bool)
      requires Valid()
      modifies this
      ensures Valid()
      ensures ok == !writeFails
      ensures ok ==> written == old(written) + data && lineCount == old(lineCount) + Count(data, LF)
      ensures !ok ==> written == old(written) && lineCount == old(lineCount)
    {
      if writeFails {
        return false;
      }
      CountAppend(written, data, LF);
      written := written + data;
      lineCount := lineCount + Count(data, LF);
      return true;
    }
  }

  /** The offset at which a tail read of a file of `len` bytes starts. */
  function TailStart(len: nat, maxBytes: nat): (start: nat)
    ensures start <= len
    ensures start == 0 <==> (maxBytes == 0 || len <= maxBytes)
    ensures start > 0 ==> len - start == maxBytes
  {
    if maxBytes == 0 || len <= maxBytes then 0 else len - maxBytes
  }

  /** The bytes a tail read returns: a suffix of the file, all of it when
      `maxBytes` is zero, otherwise the last `maxBytes` of them at most. */
  function ReadTail(file: seq<byte>, maxBytes: nat): (r: seq<byte>)
    ensures |r| <= |file| && r == file[|file| - |r|..]
    ensures maxBytes == 0 ==> r == file
    ensures maxBytes > 0 ==> |r| == Min(|file|, maxBytes)
  {
    file[TailStart(|file|, maxBytes)..]
  }
}
