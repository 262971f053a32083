/** devcontainer.json: the comment stripper applied before JSON parsing, and
    the accessors that decide how a configuration is started. The JSON parse
    itself is not modelled; a configuration is the record it produces. */
module DevContainer {
  import opened Common

  // ---------------------------------------------------------------------
  // String or array

  /** A field that may be written as one string or as an array of strings. */
  datatype StringOrArray = Str(s: string) | Arr(items: seq<string>)
  {
    function ToVec(): (r: seq<string>)
      ensures Str? ==> r == [s]
      ensures Arr? ==> r == items
    {
      match this
      case Str(s) => [s]
      case Arr(items) => items
    }

    /** The display form: the string itself, or the items joined by single spaces. */
    function Display(): (r: string)
      ensures Str? ==> r == s
      ensures Arr? && |items| == 1 ==> r == items[0]
      ensures Arr? && |items| >= 2 ==> r == items[0] + " " + Join(items[1..], " ")
    {
      match this
      case Str(s) => s
      case Arr(items) => Join(items, " ")
    }
  }

  // ---------------------------------------------------------------------
  // Configuration

  datatype BuildConfig = BuildConfig(dockerfile: Option<string>, context: Option<string>,
                                     target: Option<string>)

  datatype DevContainerConfig = DevContainerConfig(
    name: Option<string>,
    dockerComposeFile: Option<StringOrArray>,
    service: Option<string>,
    dockerfile: Option<string>,
    image: Option<string>,
    build: Option<BuildConfig>,
    forwardPorts: Option<seq<nat>>,
    workspaceFolder: Option<string>,
    runArgs: Option<seq<string>>)
  {
    predicate UsesCompose() { dockerComposeFile.Some? }

    /** A Dockerfile is named at the top level or in the build section. */
    function UsesDockerfile(): (r: bool)
      ensures r <==> dockerfile.Some? || (build.Some? && build.value.dockerfile.Some?)
    {
      dockerfile.Some? || (build.Some? && build.value.dockerfile.Some?)
    }

    /** A pre-built image is used only when no Dockerfile is named. */
    function UsesImage(): (r: bool)
      ensures r <==> image.Some? && GetDockerfile().None?
      ensures r ==> !UsesDockerfile()
    {
      image.Some? && !UsesDockerfile()
    }

    function GetComposeFiles(): (r: seq<string>)
      ensures dockerComposeFile.None? ==> r == []
      ensures dockerComposeFile.Some? ==> r == dockerComposeFile.value.ToVec()
    {
      match dockerComposeFile
      case None => []
      case Some(files) => files.ToVec()
    }

    /** The top-level Dockerfile wins over the one in the build section. */
    function GetDockerfile(): (r: Option<string>)
      ensures dockerfile.Some? ==> r == dockerfile
      ensures dockerfile.None? && build.Some? ==> r == build.value.dockerfile
      ensures dockerfile.None? && build.None? ==> r.None?
      ensures r.Some? <==> UsesDockerfile()
    {
      if dockerfile.Some? then dockerfile
      else if build.Some? then build.value.dockerfile
      else None
    }

    function GetForwardPorts(): (r: seq<nat>)
      ensures forwardPorts.Some? ==> r == forwardPorts.value
      ensures forwardPorts.None? ==> r == []
    {
      forwardPorts.GetOr([])
    }

    /** "-f <dir>/<file>" for each compose file, in order. */
    function ToComposeArgs(devcontainerDir: string): (r: seq<string>)
      ensures |r| == 2 * |GetComposeFiles()|
      ensures forall k :: 0 <= k < |GetComposeFiles()| ==>
                r[2 * k] == "-f" && r[2 * k + 1] == JoinPath(devcontainerDir, GetComposeFiles()[k])
    {
      ComposeFileArgs(devcontainerDir, GetComposeFiles())
    }
  }

  /** `Path::join`: an absolute second path replaces the first; otherwise a
      separator is inserted unless the first is empty or already ends with one. */
  function JoinPath(dir: string, file: string): (r: string)
    ensures StartsWith(file, "/") ==> r == file
    ensures EndsWith(r, file)
  {
    if StartsWith(file, "/") || dir == [] then file
    else if dir[|dir| - 1] == '/' then dir + file
    else dir + "/" + file
  }

  function ComposeFileArgs(dir: string, files: seq<string>): (r: seq<string>)
    ensures |r| == 2 * |files|
    ensures forall k :: 0 <= k < |files| ==> r[2 * k] == "-f" && r[2 * k + 1] == JoinPath(dir, files[k])
  {
    if files == [] then []
    else
      var tail := ComposeFileArgs(dir, files[1..]);
      ComposeArgsCons(dir, files, tail);
      ["-f", JoinPath(dir, files[0])] + tail
  }

  /** The pair for the first file, in front of the pairs for the others. */
  lemma ComposeArgsCons(dir: string, files: seq<string>, tail: seq<string>)
    requires files != [] && |tail| == 2 * (|files| - 1)
    requires forall k :: 0 <= k < |files| - 1 ==> tail[2 * k] == "-f" && tail[2 * k + 1] == JoinPath(dir, files[1..][k])
    ensures var r := ["-f", JoinPath(dir, files[0])] + tail;
      forall k :: 0 <= k < |files| ==> r[2 * k] == "-f" && r[2 * k + 1] == JoinPath(dir, files[k])
  {
    var r := ["-f", JoinPath(dir, files[0])] + tail;
    forall k | 0 <= k < |files|
      ensures r[2 * k] == "-f" && r[2 * k + 1] == JoinPath(dir, files[k])
    {
      if k > 0 {
        var m := k - 1;
        assert 2 * k == 2 * m + 2;
        assert files[k] == files[1..][m];
        assert r[2 * k] == tail[2 * m] && r[2 * k + 1] == tail[2 * m + 1];
      }
    }
  }

  // ---------------------------------------------------------------------
  // Comment removal (JSON with comments)

  /** How many chars a "//" comment spans after the slashes: up to, not
      including, the next newline. */
  function LineCommentLength(u: string): (n: nat)
    ensures n <= |u|
    ensures forall k :: 0 <= k < n ==> u[k] != '\n'
    ensures n == |u| || u[n] == '\n'
  {
    if u == [] || u[0] == '\n' then 0 else 1 + LineCommentLength(u[1..])
  }

  /** How many chars a block comment consumes after its opening slash-star:
      through the first star-slash, or everything when it is never closed. */
  function BlockCommentLength(u: string): (n: nat)
    ensures n <= |u|
    ensures n == |u| || (n >= 2 && u[n - 2] == '*' && u[n - 1] == '/')
  {
    if u == [] then 0
    else if u[0] == '*' && |u| >= 2 && u[1] == '/' then 2
    else 1 + BlockCommentLength(u[1..])
  }

  /** The string and escape flags after a character that is copied: a backslash
      in a string escapes the next character, a quote opens or closes a string. */
  function AfterChar(c: char, inString: bool, escape: bool): (bool, bool)
  {
    if escape then (inString, false)
    else if c == '\\' && inString then (inString, true)
    else if c == '"' then (!inString, false)
    else (inString, false)
  }

  /** The text with comments removed, from a state inside or outside a string
      literal and possibly just after a backslash in one. */
  function Strip(t: string, inString: bool, escape: bool): (r: string)
    ensures |r| <= |t|
    decreases |t|
  {
    if t == [] then []
    else if !escape && !inString && t[0] == '/' && |t| >= 2 && t[1] == '/' then
      Strip(t[2 + LineCommentLength(t[2..])..], false, false)
    else if !escape && !inString && t[0] == '/' && |t| >= 2 && t[1] == '*' then
      Strip(t[2 + BlockCommentLength(t[2..])..], false, false)
    else
      var flags := AfterChar(t[0], inString, escape);
      [t[0]] + Strip(t[1..], flags.0, flags.1)
  }

  /** The source's single pass with its `in_string` and `escape_next` flags. */
  method RemoveJsonComments(input: string) returns (result: string)
    ensures result == Strip(input, false, false)
  {
    result := [];
    var inString := false;
    var escapeNext := false;
    var i := 0;
    assert input[0..] == input;
    while i < |input|
      invariant 0 <= i <= |input|
      invariant result + Strip(input[i..], inString, escapeNext) == Strip(input, false, false)
    {
      var c := input[i];
      if !escapeNext && !inString && c == '/' && i + 1 < |input| && input[i + 1] == '/' {
        var next := SkipLineComment(input, i + 2);
        LineCommentStep(input, i, next);
        i := next;
      } else if !escapeNext && !inString && c == '/' && i + 1 < |input| && input[i + 1] == '*' {
        var next := SkipBlockComment(input, i + 2);
        BlockCommentStep(input, i, next);
        i := next;
      } else {
        CharStep(input, i, result, inString, escapeNext);
        if escapeNext {
          escapeNext := false;
        } else if c == '\\' && inString {
          escapeNext := true;
        } else if c == '"' {
          inString := !inString;
        }
        result := result + [c];
        i := i + 1;
      }
    }
  }

  /** Any character that does not open a comment outside a string is copied. */
  lemma CharStep(input: string, i: nat, result: string, inString: bool, escape: bool)
    requires i < |input|
    requires escape || inString || input[i] != '/' || i + 1 == |input| || (input[i + 1] != '/' && input[i + 1] != '*')
    ensures var flags := AfterChar(input[i], inString, escape);
      result + Strip(input[i..], inString, escape) == (result + [input[i]]) + Strip(input[i + 1..], flags.0, flags.1)
  {
    assert input[i..][1..] == input[i + 1..];
    var flags := AfterChar(input[i], inString, escape);
    assert result + [input[i]] + Strip(input[i + 1..], flags.0, flags.1)
      == result + ([input[i]] + Strip(input[i + 1..], flags.0, flags.1));
  }

  /** Outside a string, a "//" comment is dropped up to its newline. */
  lemma LineCommentStep(input: string, i: nat, next: nat)
    requires i + 1 < |input| && input[i] == '/' && input[i + 1] == '/'
    requires next == i + 2 + LineCommentLength(input[i + 2..])
    ensures next <= |input|
    ensures Strip(input[i..], false, false) == Strip(input[next..], false, false)
  {
    var t := input[i..];
    assert t[2..] == input[i + 2..];
    var n := LineCommentLength(t[2..]);
    assert Strip(t, false, false) == Strip(t[2 + n..], false, false);
    assert t[2 + n..] == input[next..];
  }

  /** Outside a string, a block comment is dropped through its closing star-slash. */
  lemma BlockCommentStep(input: string, i: nat, next: nat)
    requires i + 1 < |input| && input[i] == '/' && input[i + 1] == '*'
    requires next == i + 2 + BlockCommentLength(input[i + 2..])
    ensures next <= |input|
    ensures Strip(input[i..], false, false) == Strip(input[next..], false, false)
  {
    BlockCommentOpens(input[i..]);
    assert input[i..][2..] == input[i + 2..];
    assert input[i..][next - i..] == input[next..];
  }

  /** A leading block comment is dropped whole. */
  lemma BlockCommentOpens(t: string)
    requires |t| >= 2 && t[0] == '/' && t[1] == '*'
    ensures 2 + BlockCommentLength(t[2..]) <= |t|
    ensures Strip(t, false, false) == Strip(t[2 + BlockCommentLength(t[2..])..], false, false)
  {
  }

  /** Skips a "//" comment body: stops at the newline without consuming it. */
  method SkipLineComment(input: string, from: nat) returns (j: nat)
    requires from <= |input|
    ensures j == from + LineCommentLength(input[from..])
  {
    j := from;
    while j < |input| && input[j] != '\n'
      invariant from <= j <= |input|
      invariant from + LineCommentLength(input[from..]) == j + LineCommentLength(input[j..])
    {
      assert input[j..][1..] == input[j + 1..];
      j := j + 1;
    }
  }

  /** Skips a block comment body through its closing star-slash, or to the end. */
  method SkipBlockComment(input: string, from: nat) returns (j: nat)
    requires from <= |input|
    ensures j == from + BlockCommentLength(input[from..])
  {
    j := from;
    var closed := false;
    while !closed && j < |input|
      invariant from <= j <= |input|
      invariant closed ==> j == from + BlockCommentLength(input[from..])
      invariant !closed ==> from + BlockCommentLength(input[from..]) == j + BlockCommentLength(input[j..])
    {
      assert input[j..][1..] == input[j + 1..];
      var ch := input[j];
      j := j + 1;
      if ch == '*' && j < |input| && input[j] == '/' {
        j := j + 1;
        closed := true;
      }
    }
  }

  /** Text without any '/' is returned unchanged. */
  lemma {:induction false} NoSlashUnchanged(t: string, inString: bool, escape: bool)
    requires '/' !in t
    ensures Strip(t, inString, escape) == t
  {
    if t != [] {
      assert '/' !in t[1..];
      if escape {
        NoSlashUnchanged(t[1..], inString, false);
      } else if t[0] == '\\' && inString {
        NoSlashUnchanged(t[1..], inString, true);
      } else if t[0] == '"' {
        NoSlashUnchanged(t[1..], !inString, false);
      } else {
        NoSlashUnchanged(t[1..], inString, false);
      }
    }
  }

  /** Inside a string literal, text without quotes or backslashes is copied as
      it is, comment openers included. */
  lemma {:induction false} StringBodyKept(lit: string, rest: string)
    requires '"' !in lit && '\\' !in lit
    ensures Strip(lit + rest, true, false) == lit + Strip(rest, true, false)
  {
    if lit != [] {
      assert (lit + rest)[0] == lit[0] && lit[0] in lit;
      assert lit == [lit[0]] + lit[1..];
      assert (lit + rest)[1..] == lit[1..] + rest;
      assert '"' !in lit[1..] && '\\' !in lit[1..];
      StringBodyKept(lit[1..], rest);
      assert Strip(lit + rest, true, false) == [lit[0]] + Strip(lit[1..] + rest, true, false);
    } else {
      assert lit + rest == rest;
    }
  }

  /** A whole string literal outside comments, such as a URL, is kept. */
  lemma StringLiteralKept(lit: string, rest: string)
    requires '"' !in lit && '\\' !in lit
    ensures Strip("\"" + lit + "\"" + rest, false, false) == "\"" + lit + "\"" + Strip(rest, false, false)
  {
    var u := "\"" + rest;
    var body := lit + u;
    assert "\"" + lit + "\"" + rest == "\"" + body;
    QuoteStep(body, false);
    StringBodyKept(lit, u);
    QuoteStep(rest, true);
  }

  /** An unescaped quote is copied and flips the string flag. */
  lemma QuoteStep(rest: string, inString: bool)
    ensures Strip("\"" + rest, inString, false) == "\"" + Strip(rest, !inString, false)
  {
    var t := "\"" + rest;
    assert t[0] == '"' && t[1..] == rest;
  }

  /** A "//" comment goes up to the newline, which stays. */
  lemma LineCommentRemoved(comment: string, rest: string)
    requires '\n' !in comment
    ensures Strip("//" + comment + "\n" + rest, false, false) == "\n" + Strip(rest, false, false)
  {
    var t := "//" + comment + "\n" + rest;
    assert t[2..] == comment + "\n" + rest;
    LineLengthOf(comment, rest);
    assert t[2 + |comment|..] == "\n" + rest;
    assert ("\n" + rest)[1..] == rest;
  }

  lemma {:induction false} LineLengthOf(comment: string, rest: string)
    requires '\n' !in comment
    ensures LineCommentLength(comment + "\n" + rest) == |comment|
  {
    if comment != [] {
      assert (comment + "\n" + rest)[1..] == comment[1..] + "\n" + rest;
      LineLengthOf(comment[1..], rest);
    }
  }

  /** A block comment is removed entirely, delimiters included. */
  lemma BlockCommentRemoved(body: string, rest: string)
    requires !Contains(body, "*/")
    ensures Strip("/*" + body + "*/" + rest, false, false) == Strip(rest, false, false)
  {
    var t := "/*" + body + "*/" + rest;
    assert t[2..] == body + "*/" + rest;
    BlockLengthOf(body, rest);
    assert t[2 + |body| + 2..] == rest;
  }

  lemma {:induction false} BlockLengthOf(body: string, rest: string)
    requires !Contains(body, "*/")
    ensures BlockCommentLength(body + "*/" + rest) == |body| + 2
  {
    var u := body + "*/" + rest;
    if body != [] {
      assert !OccursAt(body, "*/", 0);
      assert u[1..] == body[1..] + "*/" + rest;
      if |body| >= 2 {
        assert body[0..2] != "*/";
      }
      forall i | 0 <= i <= |body[1..]| - 2 ensures !OccursAt(body[1..], "*/", i) {
        assert body[1..][i..i + 2] == body[i + 1..i + 3];
        assert !OccursAt(body, "*/", i + 1);
      }
      BlockLengthOf(body[1..], rest);
    }
  }
}
