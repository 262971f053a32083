// Shared session-parser infrastructure: agent detection from a tool id,
// role mapping, timestamp decoding, the running time bounds of a session
// and the sampling of very long sessions.
module SessionParser {
  import opened Common

  const LARGE_SESSION_THRESHOLD: nat := 1000
  const SAMPLE_SEGMENT: nat := 20

  /** A point in time, as milliseconds since the Unix epoch. */
  type Instant = int

  const I64_MIN: int := -0x8000_0000_0000_0000
  const I64_MAX: int := 0x7FFF_FFFF_FFFF_FFFF
  /** Values above this are read as milliseconds rather than seconds. */
  const MILLIS_THRESHOLD: int := 1_000_000_000_000
  /** The last millisecond the date library represents (262143-12-31T23:59:59.999Z). */
  const MAX_INSTANT: int := 8_210_298_412_799_999

  datatype AgentType = ClaudeCode | CodexCli | GeminiCli | OpenCode

  datatype MessageRole = User | Assistant

  datatype SessionMessage = SessionMessage(role: MessageRole, content: string, timestamp: Option<Instant>)

  function DisplayName(agent: AgentType): (r: string)
  {
    match agent
    case ClaudeCode => "Claude Code"
    case CodexCli => "Codex CLI"
    case GeminiCli => "Gemini CLI"
    case OpenCode => "OpenCode"
  }

  // ---------------------------------------------------------------------
  // Agent detection

  /** `AgentType::from_tool_id`: case-insensitive substring tests, first match wins. */
  function FromToolId(toolId: string): (r: Option<AgentType>)
    ensures var lower := ToLower(toolId);
      && (r == Some(ClaudeCode) <==> Contains(lower, "claude"))
      && (r == Some(CodexCli) <==> !Contains(lower, "claude") && Contains(lower, "codex"))
      && (r == Some(GeminiCli) <==>
            !Contains(lower, "claude") && !Contains(lower, "codex") && Contains(lower, "gemini"))
      && (r == Some(OpenCode) <==>
            (!Contains(lower, "claude") && !Contains(lower, "codex") && !Contains(lower, "gemini")
             && (Contains(lower, "opencode") || Contains(lower, "open-code"))))
  {
    var lower := ToLower(toolId);
    if Contains(lower, "claude") then Some(ClaudeCode)
    else if Contains(lower, "codex") then Some(CodexCli)
    else if Contains(lower, "gemini") then Some(GeminiCli)
    else if Contains(lower, "opencode") || Contains(lower, "open-code") then Some(OpenCode)
    else None
  }

  lemma LowerUpper(c: char)
    ensures Lower(Upper(c)) == Lower(c)
  {
  }

  /** Upper-casing a tool id never changes the detected agent. */
  lemma {:induction false} FromToolIdIgnoresCase(toolId: string)
    ensures FromToolId(ToUpper(toolId)) == FromToolId(toolId)
  {
    var a, b := ToLower(ToUpper(toolId)), ToLower(toolId);
    forall i | 0 <= i < |toolId|
      ensures a[i] == b[i]
    {
      LowerUpper(toolId[i]);
    }
    assert a == b;
  }

  /** Any id mentioning "claude" is detected as Claude Code, whatever else it names. */
  lemma ClaudeTakesPriority(a: string, b: string)
    ensures FromToolId(a + "claude" + b) == Some(ClaudeCode)
  {
    var s := a + "claude" + b;
    assert ToLower(s)[|a|..|a| + 6] == "claude" by {
      assert s[|a|..|a| + 6] == "claude";
    }
    assert OccursAt(ToLower(s), "claude", |a|);
  }

  // ---------------------------------------------------------------------
  // Roles

  /** `map_role`: user markers are tested before assistant markers. */
  function MapRole(value: string): (r: Option<MessageRole>)
    ensures var lower := ToLower(value);
      && (r == Some(User) <==> Contains(lower, "user") || Contains(lower, "human"))
      && (r == Some(Assistant) <==>
            (!Contains(lower, "user") && !Contains(lower, "human")
             && (Contains(lower, "assistant") || Contains(lower, "ai") || Contains(lower, "model"))))
  {
    var lower := ToLower(value);
    if Contains(lower, "user") || Contains(lower, "human") then Some(User)
    else if Contains(lower, "assistant") || Contains(lower, "ai") || Contains(lower, "model") then Some(Assistant)
    else None
  }

  /** A value naming both a user and an assistant is read as the user. */
  lemma MapRoleUserFirst(a: string, b: string)
    ensures MapRole(a + "user" + b) == Some(User)
  {
    var s := a + "user" + b;
    assert ToLower(s)[|a|..|a| + 4] == "user" by {
      assert s[|a|..|a| + 4] == "user";
    }
    assert OccursAt(ToLower(s), "user", |a|);
  }

  // ---------------------------------------------------------------------
  // Timestamps

  /** `timestamp_from_i64`: non-positive values are absent; large ones are milliseconds. */
  function TimestampFromI64(value: int): (r: Option<Instant>)
    requires I64_MIN <= value <= I64_MAX
    ensures value <= 0 ==> r.None?
    ensures 0 < value <= MILLIS_THRESHOLD ==> r == Some(value * 1000)
    ensures MILLIS_THRESHOLD < value ==> (r.Some? <==> value <= MAX_INSTANT) && (r.Some? ==> r.value == value)
    ensures r.Some? ==> 0 < r.value <= MAX_INSTANT
  {
    if value <= 0 then None
    else if value > MILLIS_THRESHOLD then (if value <= MAX_INSTANT then Some(value) else None)
    else Some(value * 1000)
  }

  /** Seconds and milliseconds naming the same instant decode alike when the millisecond value is large enough. */
  lemma SecondsAndMillisAgree(seconds: int)
    requires MILLIS_THRESHOLD / 1000 < seconds <= MILLIS_THRESHOLD
    requires seconds * 1000 <= MAX_INSTANT
    ensures TimestampFromI64(seconds) == TimestampFromI64(seconds * 1000)
  {
  }

  // ---------------------------------------------------------------------
  // Time bounds

  /** The earliest and latest timestamps folded in so far. */
  class TimeBounds {
    var startedAt: Option<Instant>
    var lastUpdatedAt: Option<Instant>
    ghost var seen: seq<Instant>

    ghost predicate Valid()
      reads this
    {
      && (startedAt.None? <==> seen == [])
      && (lastUpdatedAt.None? <==> seen == [])
      && (startedAt.Some? ==> startedAt.value in seen && forall t :: t in seen ==> startedAt.value <= t)
      && (lastUpdatedAt.Some? ==> lastUpdatedAt.value in seen && forall t :: t in seen ==> t <= lastUpdatedAt.value)
    }

    constructor()
      ensures Valid() && seen == [] && startedAt.None? && lastUpdatedAt.None?
    {
      startedAt := None;
      lastUpdatedAt := None;
      seen := [];
    }

    /** `update_time_bounds`: widen the bounds to cover a present timestamp. */
    method Update(timestamp: Option<Instant>)
      requires Valid()
      modifies this
      ensures Valid()
      ensures seen == old(seen) + (if timestamp.Some? then [timestamp.value] else [])
      ensures timestamp.None? ==> startedAt == old(startedAt) && lastUpdatedAt == old(lastUpdatedAt)
      ensures timestamp.Some? ==>
        startedAt == Some(if old(startedAt).Some? then Min(old(startedAt).value, timestamp.value) else timestamp.value)
      ensures timestamp.Some? ==>
        lastUpdatedAt == Some(if old(lastUpdatedAt).Some? then Max(old(lastUpdatedAt).value, timestamp.value) else timestamp.value)
    {
      if timestamp.Some? {
        var ts := timestamp.value;
        var start := if startedAt.Some? then Min(startedAt.value, ts) else ts;
        var end := if lastUpdatedAt.Some? then Max(lastUpdatedAt.value, ts) else ts;
        startedAt := Some(start);
        lastUpdatedAt := Some(end);
        seen := seen + [ts];
      }
    }
  }

  /** The timestamps present among `stamps`, in order. */
  function Present(stamps: seq<Option<Instant>>): (r: seq<Instant>)
    ensures forall t :: t in r <==> Some(t) in stamps
  {
    if stamps == [] then []
    else
      var last := stamps[|stamps| - 1];
      Present(stamps[..|stamps| - 1]) + (if last.Some? then [last.value] else [])
  }

  /** Folding `update_time_bounds` over a session's timestamps, as the parsers do. */
  method SessionBounds(stamps: seq<Option<Instant>>) returns (startedAt: Option<Instant>, lastUpdatedAt: Option<Instant>)
    ensures startedAt.Some? <==> exists t :: Some(t) in stamps
    ensures lastUpdatedAt.Some? <==> startedAt.Some?
    ensures startedAt.Some? ==> Some(startedAt.value) in stamps && Some(lastUpdatedAt.value) in stamps
    ensures startedAt.Some? ==> forall t :: Some(t) in stamps ==> startedAt.value <= t <= lastUpdatedAt.value
  {
    var bounds := new TimeBounds();
    var i := 0;
    while i < |stamps|
      invariant 0 <= i <= |stamps|
      invariant bounds.Valid() && bounds.seen == Present(stamps[..i])
    {
      bounds.Update(stamps[i]);
      assert stamps[..i + 1][..i] == stamps[..i];
      i := i + 1;
    }
    assert stamps[..i] == stamps;
    startedAt, lastUpdatedAt := bounds.startedAt, bounds.lastUpdatedAt;
  }

  // ---------------------------------------------------------------------
  // Sampling

  /**
   * `window` is `messages[start..start + SAMPLE_SEGMENT]`, clear of the first
   * and last SAMPLE_SEGMENT messages, and centred: the gap after it equals
   * the gap before it or exceeds it by one.
   */
  ghost predicate CentredWindow(window: seq<SessionMessage>, messages: seq<SessionMessage>, start: int)
  {
    && SAMPLE_SEGMENT <= start
    && start + SAMPLE_SEGMENT <= |messages| - SAMPLE_SEGMENT
    && window == messages[start..start + SAMPLE_SEGMENT]
    && var before, after := start - SAMPLE_SEGMENT, |messages| - SAMPLE_SEGMENT - (start + SAMPLE_SEGMENT);
       after == before || after == before + 1
  }

  /**
   * `sample_messages`: a large session keeps its first and last
   * SAMPLE_SEGMENT messages and a window of SAMPLE_SEGMENT from the middle.
   */
  method SampleMessages(messages: seq<SessionMessage>, totalTurns: nat) returns (r: seq<SessionMessage>)
    ensures totalTurns <= LARGE_SESSION_THRESHOLD || |messages| <= 3 * SAMPLE_SEGMENT ==> r == messages
    ensures totalTurns > LARGE_SESSION_THRESHOLD && |messages| > 3 * SAMPLE_SEGMENT ==>
      && |r| == 3 * SAMPLE_SEGMENT
      && r[..SAMPLE_SEGMENT] == messages[..SAMPLE_SEGMENT]
      && r[2 * SAMPLE_SEGMENT..] == messages[|messages| - SAMPLE_SEGMENT..]
      && exists start :: CentredWindow(r[SAMPLE_SEGMENT..2 * SAMPLE_SEGMENT], messages, start)
  {
    if totalTurns <= LARGE_SESSION_THRESHOLD {
      return messages;
    }
    if |messages| <= SAMPLE_SEGMENT * 3 {
      return messages;
    }
    var rest := messages;
    var head := rest[..SAMPLE_SEGMENT];
    rest := rest[SAMPLE_SEGMENT..];
    var cut := SatSub(|rest|, SAMPLE_SEGMENT);
    var tail := rest[cut..];
    rest := rest[..cut];
    assert rest == messages[SAMPLE_SEGMENT..|messages| - SAMPLE_SEGMENT];
    if rest == [] {
      assert false;
      return head + tail;
    }
    var middleStart := |rest| / 2;
    var middleOffset := SAMPLE_SEGMENT / 2;
    var start := SatSub(middleStart, middleOffset);
    var end := Min(start + SAMPLE_SEGMENT, |rest|);
    var middle := rest[start..end];
    r := head + middle + tail;
    assert end == start + SAMPLE_SEGMENT;
    assert forall k :: 0 <= k < SAMPLE_SEGMENT ==> middle[k] == rest[start + k] == messages[SAMPLE_SEGMENT + start + k];
    assert middle == messages[SAMPLE_SEGMENT + start..SAMPLE_SEGMENT + start + SAMPLE_SEGMENT];
    assert r[SAMPLE_SEGMENT..2 * SAMPLE_SEGMENT] == middle;
    assert r[SAMPLE_SEGMENT..2 * SAMPLE_SEGMENT] == messages[SAMPLE_SEGMENT + start..SAMPLE_SEGMENT + start + SAMPLE_SEGMENT];
    assert CentredWindow(r[SAMPLE_SEGMENT..2 * SAMPLE_SEGMENT], messages, SAMPLE_SEGMENT + start);
  }
}
