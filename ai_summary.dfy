/**
 * Session summaries: the per-branch summary cache, the metrics derived from
 * a parsed session, and the parsing of an AI reply into an overview, a short
 * summary and at most three "- " bullets.
 */
module AiSummary {
  import opened Common
  import AiClient
  import SessionParser

  const MAX_MESSAGE_CHARS: nat := 220
  const MAX_BULLETS: nat := 3
  /** The bullet character U+2022. */
  const BULLET: string := "\U{2022}"

  datatype SessionMetrics = SessionMetrics(
    tokenCount: Option<nat>,
    toolExecutionCount: nat,
    elapsedSeconds: Option<nat>,
    turnCount: nat)

  datatype SessionSummary = SessionSummary(
    taskOverview: Option<string>,
    shortSummary: Option<string>,
    bulletPoints: seq<string>,
    metrics: SessionMetrics,
    lastUpdated: Option<int>)

  datatype SummaryFields = SummaryFields(
    taskOverview: Option<string>,
    shortSummary: Option<string>,
    bulletPoints: seq<string>)

  /** A parsed session; tool executions are kept by name. */
  datatype ParsedSession = ParsedSession(
    sessionId: string,
    agentType: SessionParser.AgentType,
    messages: seq<SessionParser.SessionMessage>,
    toolExecutions: seq<string>,
    startedAt: Option<SessionParser.Instant>,
    lastUpdatedAt: Option<SessionParser.Instant>,
    totalTurns: nat)

  /** The first `n` elements, or all of them when there are fewer (`Vec::truncate`). */
  function Take<T>(xs: seq<T>, n: nat): (r: seq<T>)
    ensures |r| == Min(|xs|, n) && r == xs[..|r|]
  {
    if |xs| <= n then xs else xs[..n]
  }

  // ---------------------------------------------------------------------
  // The cache

  /** `is_stale` over the cache's maps: stale unless the same session is cached no older than `currentMtime`. */
  predicate Stale(sessionIds: map<string, string>, lastModified: map<string, int>,
                  branch: string, sessionId: string, currentMtime: int)
  {
    if branch !in sessionIds || sessionIds[branch] != sessionId then true
    else if branch in lastModified then lastModified[branch] < currentMtime
    else true
  }

  /** An unknown branch, another session or a newer modification time is stale. */
  lemma StaleUnknownOrNewer(sessionIds: map<string, string>, lastModified: map<string, int>,
                            branch: string, sessionId: string, currentMtime: int)
    ensures branch !in sessionIds ==> Stale(sessionIds, lastModified, branch, sessionId, currentMtime)
    ensures branch in sessionIds && sessionIds[branch] != sessionId ==>
      Stale(sessionIds, lastModified, branch, sessionId, currentMtime)
    ensures branch in lastModified && lastModified[branch] < currentMtime ==>
      Stale(sessionIds, lastModified, branch, sessionId, currentMtime)
  {
  }

  /** After recording `sessionId` at `mtime`, a query is fresh iff it names that session and no later time. */
  lemma FreshAfterSet(sessionIds: map<string, string>, lastModified: map<string, int>,
                      branch: string, sessionId: string, mtime: int, query: string, currentMtime: int)
    ensures !Stale(sessionIds[branch := sessionId], lastModified[branch := mtime], branch, query, currentMtime)
      <==> query == sessionId && currentMtime <= mtime
  {
  }

  /** Recording one branch leaves every other branch's staleness as it was. */
  lemma SetKeepsOtherBranches(sessionIds: map<string, string>, lastModified: map<string, int>,
                              branch: string, sessionId: string, mtime: int,
                              other: string, query: string, currentMtime: int)
    requires other != branch
    ensures Stale(sessionIds[branch := sessionId], lastModified[branch := mtime], other, query, currentMtime)
      == Stale(sessionIds, lastModified, other, query, currentMtime)
  {
  }

  /** Summaries by branch, with the session and modification time each was made from. */
  class SessionSummaryCache {
    var cache: map<string, SessionSummary>
    var lastModified: map<string, int>
    var sessionIds: map<string, string>

    constructor()
      ensures cache == map[] && lastModified == map[] && sessionIds == map[]
    {
      cache := map[];
      lastModified := map[];
      sessionIds := map[];
    }

    function Get(branch: string): (r: Option<SessionSummary>)
      reads this
      ensures r.Some? <==> branch in cache
      ensures r.Some? ==> r.value == cache[branch]
    {
      if branch in cache then Some(cache[branch]) else None
    }

    predicate IsStale(branch: string, sessionId: string, currentMtime: int)
      reads this
    {
      Stale(sessionIds, lastModified, branch, sessionId, currentMtime)
    }

    /** `set`: record the summary, its session and its modification time for `branch`. */
    method Set(branch: string, sessionId: string, summary: SessionSummary, mtime: int)
      modifies this
      ensures cache == old(cache)[branch := summary]
      ensures lastModified == old(lastModified)[branch := mtime]
      ensures sessionIds == old(sessionIds)[branch := sessionId]
      ensures Get(branch) == Some(summary)
      ensures !IsStale(branch, sessionId, mtime)
      ensures forall other :: other != sessionId ==> IsStale(branch, other, mtime)
      ensures forall later :: later > mtime ==> IsStale(branch, sessionId, later)
    {
      cache := cache[branch := summary];
      lastModified := lastModified[branch := mtime];
      sessionIds := sessionIds[branch := sessionId];
    }
  }

  // ---------------------------------------------------------------------
  // Metrics

  function TotalChars(messages: seq<SessionParser.SessionMessage>): nat
  {
    if messages == [] then 0
    else TotalChars(messages[..|messages| - 1]) + |messages[|messages| - 1].content|
  }

  /** There are no characters exactly when every message is empty. */
  lemma {:induction false} NoCharsIffEmptyMessages(messages: seq<SessionParser.SessionMessage>)
    ensures TotalChars(messages) == 0 <==> forall k :: 0 <= k < |messages| ==> messages[k].content == []
  {
    if messages != [] {
      var init := messages[..|messages| - 1];
      NoCharsIffEmptyMessages(init);
      assert forall k :: 0 <= k < |init| ==> init[k] == messages[k];
    }
  }

  /** `estimate_token_count`: a quarter of the characters, but at least one when there are any. */
  function EstimateTokenCount(messages: seq<SessionParser.SessionMessage>): (r: nat)
    ensures r == 0 <==> TotalChars(messages) == 0
    ensures r <= TotalChars(messages)
    ensures 0 < TotalChars(messages) < 4 ==> r == 1
    ensures TotalChars(messages) >= 4 ==> 4 * r <= TotalChars(messages) < 4 * r + 4
  {
    var total := TotalChars(messages);
    if total == 0 then 0 else Max(total / 4, 1)
  }

  /** Whole seconds from `start` to `end` (milliseconds), never negative. */
  function ElapsedSeconds(start: SessionParser.Instant, end: SessionParser.Instant): (r: nat)
    ensures end >= start ==> r * 1000 <= end - start < r * 1000 + 1000
    ensures end < start ==> r == 0
  {
    if end >= start then (end - start) / 1000 else 0
  }

  /** `build_metrics`. */
  function BuildMetrics(parsed: ParsedSession): (r: SessionMetrics)
    ensures r.tokenCount.Some? <==> TotalChars(parsed.messages) > 0
    ensures r.tokenCount.Some? ==> r.tokenCount.value == EstimateTokenCount(parsed.messages)
    ensures r.toolExecutionCount == |parsed.toolExecutions|
    ensures r.elapsedSeconds.Some? <==>
      parsed.startedAt.Some? && parsed.lastUpdatedAt.Some? && parsed.lastUpdatedAt.value - parsed.startedAt.value >= 1000
    ensures r.elapsedSeconds.Some? ==> r.elapsedSeconds.value > 0
    ensures parsed.totalTurns > 0 ==> r.turnCount == parsed.totalTurns
    ensures r.turnCount == 0 <==> parsed.totalTurns == 0 && parsed.messages == []
  {
    var tokens := EstimateTokenCount(parsed.messages);
    var elapsed := if parsed.startedAt.Some? && parsed.lastUpdatedAt.Some?
      then ElapsedSeconds(parsed.startedAt.value, parsed.lastUpdatedAt.value) else 0;
    SessionMetrics(
      if tokens > 0 then Some(tokens) else None,
      |parsed.toolExecutions|,
      if elapsed > 0 then Some(elapsed) else None,
      if parsed.totalTurns > 0 then parsed.totalTurns else |parsed.messages|)
  }

  /** A message's content as shown in the prompt: trimmed, and clipped to 220 characters with "...". */
  function PromptContent(content: string): (r: string)
    ensures |r| <= MAX_MESSAGE_CHARS
    ensures |Trim(content)| <= MAX_MESSAGE_CHARS ==> r == Trim(content)
    ensures |Trim(content)| > MAX_MESSAGE_CHARS ==>
      |r| == MAX_MESSAGE_CHARS && StartsWith(Trim(content), r[..MAX_MESSAGE_CHARS - 3]) && EndsWith(r, "...")
  {
    var text := Trim(content);
    if |text| > MAX_MESSAGE_CHARS then text[..MAX_MESSAGE_CHARS - 3] + "..." else text
  }

  /** "- " followed by a trimmed, non-empty text is already trimmed. */
  lemma DashedTrimmed(t: string)
    requires t != [] && Trim(t) == t
    ensures Trim("- " + t) == "- " + t
  {
    var s := "- " + t;
    assert TrimStart(s) == s;
    assert s[|s| - 1] == t[|t| - 1];
    assert TrimEnd(s) == s;
  }

  // ---------------------------------------------------------------------
  // Bullets

  /** `normalize_bullet`: trim, and make sure the text starts with "- ". */
  function NormalizeBullet(value: string): (r: string)
    ensures StartsWith(r, "- ")
    ensures EndsWith(r, Trim(value))
    ensures StartsWith(Trim(value), "- ") ==> r == Trim(value)
  {
    var trimmed := Trim(value);
    if StartsWith(trimmed, "- ") then trimmed else "- " + trimmed
  }

  /** Normalising a bullet twice is normalising it once, for any non-blank text. */
  lemma NormalizeBulletIdempotent(value: string)
    requires !IsBlank(value)
    ensures NormalizeBullet(NormalizeBullet(value)) == NormalizeBullet(value)
  {
    var t := Trim(value);
    TrimIdempotent(value);
    if !StartsWith(t, "- ") {
      DashedTrimmed(t);
    }
  }

  /** Idempotence needs non-blank text: a blank value becomes "- ", which normalises to "- -". */
  lemma BlankBulletNotIdempotent()
    ensures NormalizeBullet("") == "- "
    ensures NormalizeBullet(NormalizeBullet("")) == "- -"
  {
    var dash: string := "- ";
    assert NormalizeBullet("") == dash by {
      assert TrimStart("") == [] && TrimEnd("") == [];
    }
    assert Trim(dash) == "-" by {
      assert TrimStart(dash) == dash;
      assert dash[..1] == "-";
      assert TrimEnd(dash) == TrimEnd("-") == "-";
    }
    assert !StartsWith("-", dash);
  }

  // ---------------------------------------------------------------------
  // Ordered-list prefixes

  /** The text after "12." or "3)" and any following whitespace; None when the line does not start that way. */
  function OrderedRest(value: string): (r: Option<string>)
    ensures r.Some? <==> var i := DigitRun(value); 0 < i < |value| && (value[i] == '.' || value[i] == ')')
    ensures r.Some? ==> r.value == TrimStart(value[DigitRun(value) + 1..])
  {
    var i := DigitRun(value);
    if 0 < i < |value| && (value[i] == '.' || value[i] == ')') then Some(TrimStart(value[i + 1..])) else None
  }

  /** Digits, a '.' or ')' mark, then any text: the prefix is removed, with no space required after the mark. */
  lemma OrderedRestOf(digits: string, mark: char, rest: string)
    requires digits != [] && AllDigits(digits) && (mark == '.' || mark == ')')
    ensures OrderedRest(digits + [mark] + rest) == Some(TrimStart(rest))
  {
    var line := digits + [mark] + rest;
    DigitRunOf(digits, [mark] + rest);
    assert line == digits + ([mark] + rest);
    assert line[|digits| + 1..] == rest;
  }

  /** `strip_ordered_prefix`: scan the leading digits; the first other character decides. */
  method StripOrderedPrefix(value: string) returns (r: Option<string>)
    ensures r == OrderedRest(value)
  {
    var i := 0;
    while i < |value| && IsDigit(value[i])
      invariant 0 <= i <= |value|
      invariant i + DigitRun(value[i..]) == DigitRun(value)
    {
      assert value[i..][1..] == value[i + 1..];
      i := i + 1;
    }
    if 0 < i < |value| && (value[i] == '.' || value[i] == ')') {
      return Some(TrimStart(value[i + 1..]));
    }
    return None;
  }

  // ---------------------------------------------------------------------
  // Line normalisation

  /** The text after the first list marker that `trimmed` starts with, or all of it when none does. */
  function StripMarker(trimmed: string, bullet: string): string
  {
    if StartsWith(trimmed, "- ") then trimmed[2..]
    else if StartsWith(trimmed, "-") then trimmed[1..]
    else if StartsWith(trimmed, "* ") then trimmed[2..]
    else if StartsWith(trimmed, "*") then trimmed[1..]
    else if StartsWith(trimmed, bullet) then trimmed[|bullet|..]
    else if OrderedRest(trimmed).Some? then OrderedRest(trimmed).value
    else trimmed
  }

  /**
   * `normalize_line` with the bullet marker as a parameter: trim, drop one
   * list marker ("- ", '-', "* ", '*', the bullet, or an ordered prefix),
   * trim again and prefix "- "; blank results are dropped. (An unmarked line
   * is trimmed a second time here, which changes nothing.)
   */
  function NormalizeLineWith(line: string, bullet: string): (r: Option<string>)
    ensures IsBlank(line) ==> r.None?
    ensures r.Some? ==> |r.value| > 2 && r.value[..2] == "- " && Trim(r.value[2..]) == r.value[2..]
  {
    var trimmed := Trim(line);
    if trimmed == [] then None
    else
      var body := Trim(StripMarker(trimmed, bullet));
      TrimIdempotent(StripMarker(trimmed, bullet));
      if body == [] then None else Some("- " + body)
  }

  /** The line normalisation as written, whose bullet marker is the mis-decoded "â€¢". */
  function NormalizeLineAsWritten(line: string): (r: Option<string>)
    ensures IsBlank(line) ==> r.None?
    ensures r.Some? ==> |r.value| > 2 && r.value[..2] == "- "
  {
    NormalizeLineWith(line, MISDECODED_BULLET)
  }

  /** The line normalisation with the bullet character U+2022. */
  function NormalizeLine(line: string): (r: Option<string>)
    ensures IsBlank(line) ==> r.None?
    ensures r.Some? ==> |r.value| > 2 && r.value[..2] == "- "
  {
    NormalizeLineWith(line, BULLET)
  }

  /** A normalised line normalises to itself. */
  lemma NormalizeLineFixpoint(line: string)
    requires NormalizeLine(line).Some?
    ensures NormalizeLine(NormalizeLine(line).value) == NormalizeLine(line)
  {
    var v := NormalizeLine(line).value;
    var body := v[2..];
    assert v == "- " + body;
    DashedTrimmed(body);
  }

  /** A "•" item keeps its bullet as written, and loses it with the intended marker. */
  lemma BulletItemAsWritten()
    ensures NormalizeLineAsWritten("\U{2022} item") == Some("- \U{2022} item")
    ensures NormalizeLine("\U{2022} item") == Some("- item")
  {
    MisdecodedMarkerKeepsBullet();
    BulletMarkerStripped();
  }

  lemma MisdecodedMarkerKeepsBullet()
    ensures NormalizeLineAsWritten("\U{2022} item") == Some("- \U{2022} item")
  {
    var line := "\U{2022} item";
    assert TrimStart(line) == line;
    assert TrimEnd(line) == line;
    assert Trim(line) == line;
    assert DigitRun(line) == 0;
    assert StripMarker(line, MISDECODED_BULLET) == line;
    assert NormalizeLineWith(line, MISDECODED_BULLET) == Some("- " + line);
    assert NormalizeLineAsWritten(line) == Some("- " + line);
    assert "- " + line == "- \U{2022} item";
  }

  lemma BulletMarkerStripped()
    ensures NormalizeLine("\U{2022} item") == Some("- item")
  {
    var line := "\U{2022} item";
    assert TrimStart(line) == line;
    assert TrimEnd(line) == line;
    assert Trim(line) == line;
    assert DigitRun(line) == 0;
    assert StripMarker(line, BULLET) == " item";
    var item: string := "item";
    assert TrimStart(" item") == item;
    assert TrimEnd(item) == item;
    assert Trim(" item") == item;
    assert NormalizeLineWith(line, BULLET) == Some("- " + item);
    assert NormalizeLine(line) == Some("- " + item);
    assert "- " + item == "- item";
  }

  /** With the intended marker, a "• " item of any trimmed text normalises to that text after "- ". */
  lemma BulletItemStripped(t: string)
    requires t != [] && Trim(t) == t
    ensures NormalizeLine(BULLET + " " + t) == Some("- " + t)
  {
    var line := BULLET + " " + t;
    assert line[|line| - 1] == t[|t| - 1];
    assert TrimStart(line) == line;
    assert TrimEnd(line) == line;
    assert Trim(line) == line;
    assert line[|BULLET|..] == " " + t;
    assert StripMarker(line, BULLET) == " " + t;
    assert TrimStart(" " + t) == TrimStart(t);
    assert TrimStart(t) == t;
  }

  /** `lines().filter_map(normalize_line)`. */
  function NormalizedLines(lines: seq<string>): (r: seq<string>)
    ensures |r| <= |lines|
    ensures forall k :: 0 <= k < |r| ==> |r[k]| > 2 && r[k][..2] == "- "
  {
    if lines == [] then []
    else
      var rest := NormalizedLines(lines[..|lines| - 1]);
      match NormalizeLine(lines[|lines| - 1])
      case None => rest
      case Some(l) => rest + [l]
  }

  lemma {:induction false} NormalizedLinesOfBlank(lines: seq<string>)
    requires forall k :: 0 <= k < |lines| ==> IsBlank(lines[k])
    ensures NormalizedLines(lines) == []
  {
    if lines != [] {
      NormalizedLinesOfBlank(lines[..|lines| - 1]);
    }
  }

  /** The pieces of an all-whitespace string are all whitespace. */
  lemma {:induction false} SplitAllSpace(s: string, sep: char)
    requires forall i :: 0 <= i < |s| ==> IsSpace(s[i])
    ensures forall k, m :: 0 <= k < |Split(s, sep)| && 0 <= m < |Split(s, sep)[k]| ==> IsSpace(Split(s, sep)[k][m])
  {
    match FindChar(s, sep)
    case None =>
    case Some(i) =>
      var tail := s[i + 1..];
      assert forall m :: 0 <= m < |tail| ==> tail[m] == s[i + 1 + m];
      SplitAllSpace(tail, sep);
      var pieces, rest := Split(s, sep), Split(tail, sep);
      assert pieces == [s[..i]] + rest;
      forall k, m | 0 <= k < |pieces| && 0 <= m < |pieces[k]|
        ensures IsSpace(pieces[k][m])
      {
        if k == 0 {
          assert pieces[k][m] == s[m];
        } else {
          assert pieces[k] == rest[k - 1];
        }
      }
  }

  /** Blank content has only blank lines, so no normalised line. */
  lemma BlankContentHasNoLines(content: string)
    requires IsBlank(content)
    ensures NormalizedLines(Lines(content)) == []
  {
    BlankIffAllSpace(content);
    var pieces := Split(content, '\n');
    SplitAllSpace(content, '\n');
    var lines := Lines(content);
    forall k | 0 <= k < |lines|
      ensures IsBlank(lines[k])
    {
      var piece := pieces[k];
      assert lines[k] == DropCr(piece) || lines[k] == piece;
      assert lines[k] == piece[..|lines[k]|];
      assert forall i :: 0 <= i < |lines[k]| ==> IsSpace(piece[i]);
      BlankIffAllSpace(lines[k]);
    }
    NormalizedLinesOfBlank(lines);
  }

  // ---------------------------------------------------------------------
  // Sentences

  /** `str::split` on a non-empty string separator. */
  function SplitOnStr(s: string, sep: string): (r: seq<string>)
    requires sep != []
    ensures |r| >= 1
    decreases |s|
  {
    match IndexOf(s, sep)
    case None => [s]
    case Some(i) => [s[..i]] + SplitOnStr(s[i + |sep|..], sep)
  }

  /** Joining the pieces with the separator gives back the string. */
  lemma {:induction false} SplitOnStrJoin(s: string, sep: string)
    requires sep != []
    ensures Join(SplitOnStr(s, sep), sep) == s
    decreases |s|
  {
    match IndexOf(s, sep)
    case None =>
    case Some(i) =>
      var tail := s[i + |sep|..];
      var rest := SplitOnStr(tail, sep);
      var pieces := [s[..i]] + rest;
      SplitOnStrJoin(tail, sep);
      assert pieces[0] == s[..i] && pieces[1..] == rest && |pieces| > 1;
      assert Join(pieces, sep) == s[..i] + sep + Join(rest, sep);
      assert s[i..i + |sep|] == sep;
      assert s == s[..i] + s[i..i + |sep|] + tail;
  }

  /** `str::split_terminator`: as `split`, without a trailing empty piece. */
  function SplitTerminator(s: string, sep: string): (r: seq<string>)
    requires sep != []
  {
    var pieces := SplitOnStr(s, sep);
    if pieces[|pieces| - 1] == [] then pieces[..|pieces| - 1] else pieces
  }

  /** The bullets made from the non-blank sentences, in order. */
  function SentenceBullets(sentences: seq<string>): (r: seq<string>)
    ensures forall k :: 0 <= k < |r| ==> StartsWith(r[k], "- ")
  {
    if sentences == [] then []
    else
      var last := Trim(sentences[|sentences| - 1]);
      SentenceBullets(sentences[..|sentences| - 1]) + (if last == [] then [] else ["- " + TrimEndChar(last, '.')])
  }

  lemma {:induction false} SentenceBulletsPrefix(sentences: seq<string>, j: nat)
    requires j <= |sentences|
    ensures var p := SentenceBullets(sentences[..j]);
      |p| <= |SentenceBullets(sentences)| && p == SentenceBullets(sentences)[..|p|]
    decreases |sentences|
  {
    if j < |sentences| {
      var init := sentences[..|sentences| - 1];
      SentenceBulletsPrefix(init, j);
      assert init[..j] == sentences[..j];
    } else {
      assert sentences[..j] == sentences;
    }
  }

  /** The sentence loop of `parse_summary_lines`: collect bullets, stopping at three. */
  method CollectSentences(sentences: seq<string>) returns (lines: seq<string>)
    ensures lines == Take(SentenceBullets(sentences), MAX_BULLETS)
  {
    lines := [];
    var i := 0;
    while i < |sentences|
      invariant 0 <= i <= |sentences|
      invariant lines == SentenceBullets(sentences[..i]) && |lines| < MAX_BULLETS
    {
      var trimmed := Trim(sentences[i]);
      assert sentences[..i + 1][..i] == sentences[..i];
      if trimmed == [] {
        i := i + 1;
        continue;
      }
      lines := lines + ["- " + TrimEndChar(trimmed, '.')];
      if |lines| >= MAX_BULLETS {
        SentenceBulletsPrefix(sentences, i + 1);
        return;
      }
      i := i + 1;
    }
    assert sentences[..i] == sentences;
  }

  // ---------------------------------------------------------------------
  // Summary lines

  /** The sentence fallback used when no line survives normalisation. */
  function SentenceFallback(content: string): seq<string>
  {
    Take(SentenceBullets(SplitTerminator(Trim(content), ". ")), MAX_BULLETS)
  }

  /**
   * `parse_summary_lines`: the normalised lines when any line survives,
   * else the sentence fallback; blank content, and content with neither,
   * are parse errors.
   */
  function SummaryLines(content: string): (r: Result<seq<string>, AiClient.AIError>)
    ensures r.Ok? ==> 1 <= |r.value| <= MAX_BULLETS && forall k :: 0 <= k < |r.value| ==> StartsWith(r.value[k], "- ")
    ensures r.Err? ==> (r.error == AiClient.AIError.ParseError("Empty summary")
                        || r.error == AiClient.AIError.ParseError("No summary lines"))
    ensures r == Err(AiClient.AIError.ParseError("Empty summary")) <==> IsBlank(content)
    ensures NormalizedLines(Lines(content)) != [] ==> r == Ok(Take(NormalizedLines(Lines(content)), MAX_BULLETS))
    ensures NormalizedLines(Lines(content)) == [] && !IsBlank(content) ==>
      r == (if SentenceFallback(content) == [] then Err(AiClient.AIError.ParseError("No summary lines"))
            else Ok(SentenceFallback(content)))
  {
    var lines := NormalizedLines(Lines(content));
    if lines != [] then
      assert !IsBlank(content) by {
        if IsBlank(content) {
          BlankContentHasNoLines(content);
        }
      }
      Ok(Take(lines, MAX_BULLETS))
    else if IsBlank(content) then Err(AiClient.AIError.ParseError("Empty summary"))
    else if SentenceFallback(content) == [] then Err(AiClient.AIError.ParseError("No summary lines"))
    else Ok(SentenceFallback(content))
  }

  /** `parse_summary_lines(..).unwrap_or_default()`: the lines, or none on an error. */
  function LinesOrEmpty(content: string): seq<string>
  {
    if SummaryLines(content).Ok? then SummaryLines(content).value else []
  }

  /** `parse_summary_lines`, with its sentence loop. */
  method ParseSummaryLines(content: string) returns (r: Result<seq<string>, AiClient.AIError>)
    ensures r == SummaryLines(content)
  {
    var lines := NormalizedLines(Lines(content));
    if lines == [] {
      var cleaned := Trim(content);
      if cleaned == [] {
        return Err(AiClient.AIError.ParseError("Empty summary"));
      }
      lines := CollectSentences(SplitTerminator(cleaned, ". "));
    }
    if lines == [] {
      return Err(AiClient.AIError.ParseError("No summary lines"));
    }
    r := Ok(Take(lines, MAX_BULLETS));
  }

  // ---------------------------------------------------------------------
  // JSON replies

  /** The parts of a JSON value the summary reads. */
  datatype Json = JString(text: string) | JArray(items: seq<Json>) | JObject(fields: map<string, Json>) | JOther

  /** `Value::get` on an object; None on anything else. */
  function Field(value: Json, key: string): Option<Json>
  {
    if value.JObject? && key in value.fields then Some(value.fields[key]) else None
  }

  /** A string field, trimmed, when it is not blank. */
  function TextField(value: Json, key: string): (r: Option<string>)
    ensures r.Some? <==> Field(value, key).Some? && Field(value, key).value.JString? && !IsBlank(Field(value, key).value.text)
    ensures r.Some? ==> r.value != [] && Trim(r.value) == r.value
  {
    match Field(value, key)
    case Some(JString(t)) =>
      TrimIdempotent(t);
      if Trim(t) == [] then None else Some(Trim(t))
    case _ => None
  }

  /** The bullets entry: "bullets", else "bullet_points", else "bulletPoints", whatever its type. */
  function BulletsValue(value: Json): Option<Json>
  {
    if Field(value, "bullets").Some? then Field(value, "bullets")
    else if Field(value, "bullet_points").Some? then Field(value, "bullet_points")
    else Field(value, "bulletPoints")
  }

  /** The normalised bullets of the non-blank string items, in order. */
  function ArrayBullets(items: seq<Json>): (r: seq<string>)
    ensures |r| <= |items|
    ensures forall k :: 0 <= k < |r| ==> StartsWith(r[k], "- ")
  {
    if items == [] then []
    else
      var last := items[|items| - 1];
      ArrayBullets(items[..|items| - 1])
        + (if last.JString? && !IsBlank(last.text) then [NormalizeBullet(Trim(last.text))] else [])
  }

  /** One more item adds its normalised bullet when it is a non-blank string. */
  lemma ArrayBulletsStep(items: seq<Json>, i: nat)
    requires i < |items|
    ensures ArrayBullets(items[..i + 1]) == ArrayBullets(items[..i])
      + (if items[i].JString? && Trim(items[i].text) != [] then [NormalizeBullet(Trim(items[i].text))] else [])
  {
    assert items[..i + 1][..i] == items[..i];
  }

  /** The array loop of `extract_fields_from_json`. */
  method CollectArrayBullets(items: seq<Json>) returns (bullets: seq<string>)
    ensures bullets == ArrayBullets(items)
  {
    bullets := [];
    var i := 0;
    while i < |items|
      invariant 0 <= i <= |items|
      invariant bullets == ArrayBullets(items[..i])
    {
      var item := items[i];
      var added: seq<string> := [];
      if item.JString? {
        var trimmed := Trim(item.text);
        if trimmed != [] {
          added := [NormalizeBullet(trimmed)];
        }
      }
      ArrayBulletsStep(items, i);
      bullets := bullets + added;
      i := i + 1;
    }
    assert items[..i] == items;
  }

  /**
   * The fields `extract_fields_from_json` yields: the trimmed non-blank
   * overview and short summary, and at most three bullets taken from an
   * array of strings, or parsed from a string by `parse_summary_lines`.
   */
  function ExtractFields(value: Json): (r: SummaryFields)
    ensures r.taskOverview == TextField(value, "task_overview")
    ensures r.shortSummary == TextField(value, "short_summary")
    ensures |r.bulletPoints| <= MAX_BULLETS
    ensures forall k :: 0 <= k < |r.bulletPoints| ==> StartsWith(r.bulletPoints[k], "- ")
    ensures BulletsValue(value).Some? && BulletsValue(value).value.JArray? ==>
      r.bulletPoints == Take(ArrayBullets(BulletsValue(value).value.items), MAX_BULLETS)
    ensures BulletsValue(value).Some? && BulletsValue(value).value.JString? ==>
      r.bulletPoints == LinesOrEmpty(BulletsValue(value).value.text)
    ensures BulletsValue(value).None? || BulletsValue(value).value.JObject? || BulletsValue(value).value.JOther? ==>
      r.bulletPoints == []
  {
    var bullets :=
      match BulletsValue(value)
      case Some(JArray(items)) => ArrayBullets(items)
      case Some(JString(text)) => LinesOrEmpty(text)
      case _ => [];
    SummaryFields(TextField(value, "task_overview"), TextField(value, "short_summary"), Take(bullets, MAX_BULLETS))
  }

  /** `extract_fields_from_json`, with its array loop. */
  method ExtractFieldsFromJson(value: Json) returns (r: SummaryFields)
    ensures r == ExtractFields(value)
  {
    var bullets: seq<string> := [];
    var bulletsValue := BulletsValue(value);
    if bulletsValue.Some? {
      match bulletsValue.value
      case JArray(items) =>
        bullets := CollectArrayBullets(items);
      case JString(text) =>
        var parsed := ParseSummaryLines(text);
        if parsed.Ok? {
          bullets := parsed.value;
        }
      case _ =>
    }
    r := SummaryFields(TextField(value, "task_overview"), TextField(value, "short_summary"), Take(bullets, MAX_BULLETS));
  }

  /** `find_json_bounds`: the first '{' and the last '}', when the brace comes first. */
  function FindJsonBounds(value: string): (r: Option<(nat, nat)>)
    ensures r.Some? ==> && r.value.0 < r.value.1 < |value|
                        && value[r.value.0] == '{' && value[r.value.1] == '}'
                        && (forall i :: 0 <= i < r.value.0 ==> value[i] != '{')
                        && (forall j :: r.value.1 < j < |value| ==> value[j] != '}')
  {
    var start, end := FindChar(value, '{'), RFindChar(value, '}');
    if start.Some? && end.Some? && start.value < end.value then Some((start.value, end.value)) else None
  }

  /** Bounds exist exactly when some '{' comes before some '}'. */
  lemma FindJsonBoundsNone(value: string)
    ensures FindJsonBounds(value).None? <==>
      forall i, j :: 0 <= i < j < |value| && value[i] == '{' ==> value[j] != '}'
  {
    var r := FindJsonBounds(value);
    if r.Some? {
      assert value[r.value.0] == '{' && value[r.value.1] == '}';
    }
  }

  /**
   * The JSON value `parse_json_summary` reads, given the JSON parser `parse`:
   * the whole trimmed reply when it starts with '{' and parses, else the
   * text from the first '{' to the last '}' when that parses.
   */
  function JsonSource(content: string, parse: string -> Option<Json>): Option<Json>
  {
    var candidate := Trim(content);
    var bounds := FindJsonBounds(candidate);
    if StartsWith(candidate, "{") && parse(candidate).Some? then parse(candidate)
    else if bounds.Some? then parse(candidate[bounds.value.0..bounds.value.1 + 1])
    else None
  }

  /** `parse_json_summary`: fields exactly when a JSON value is found, with at most three "- " bullets. */
  method ParseJsonSummary(content: string, parse: string -> Option<Json>) returns (r: Option<SummaryFields>)
    ensures r.Some? <==> JsonSource(content, parse).Some?
    ensures r.Some? ==> r.value == ExtractFields(JsonSource(content, parse).value)
    ensures r.Some? ==> |r.value.bulletPoints| <= MAX_BULLETS
    ensures r.Some? ==> forall k :: 0 <= k < |r.value.bulletPoints| ==> StartsWith(r.value.bulletPoints[k], "- ")
  {
    var json := JsonSource(content, parse);
    if json.None? {
      return None;
    }
    var fields := ExtractFieldsFromJson(json.value);
    return Some(fields);
  }

  /** `parse_session_summary_fields`: never fails; without JSON the bullets come from the lines and the first one is the short summary. */
  method ParseSessionSummaryFields(content: string, parse: string -> Option<Json>)
    returns (r: Result<SummaryFields, AiClient.AIError>)
    ensures r.Ok?
    ensures JsonSource(content, parse).Some? ==> r.value == ExtractFields(JsonSource(content, parse).value)
    ensures JsonSource(content, parse).None? ==> r.value.bulletPoints == LinesOrEmpty(content)
    ensures |r.value.bulletPoints| <= MAX_BULLETS
    ensures forall k :: 0 <= k < |r.value.bulletPoints| ==> StartsWith(r.value.bulletPoints[k], "- ")
    ensures JsonSource(content, parse).None? ==> r.value.taskOverview.None?
    ensures JsonSource(content, parse).None? ==>
      (r.value.shortSummary.Some? <==> r.value.bulletPoints != [])
      && (r.value.shortSummary.Some? ==> r.value.shortSummary.value == TrimStartMatches(r.value.bulletPoints[0], "- "))
    ensures JsonSource(content, parse).None? && IsBlank(content) ==> r.value.bulletPoints == []
  {
    var json := ParseJsonSummary(content, parse);
    if json.Some? {
      return Ok(json.value);
    }
    var parsed := ParseSummaryLines(content);
    var bullets := if parsed.Ok? then parsed.value else [];
    var shortSummary := if bullets != [] then Some(TrimStartMatches(bullets[0], "- ")) else None;
    return Ok(SummaryFields(None, shortSummary, bullets));
  }
}
