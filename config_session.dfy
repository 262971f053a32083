/** A worktree's agent session record: the agent status, the idle-timeout rule
    that marks a silent agent stopped, and the short "Tool@version" label.
    Timestamps are integer milliseconds and the current time is a parameter. */
module ConfigSession {
  import opened Common

  datatype AgentStatus = Unknown | Running | WaitingInput | Stopped
  {
    /** `AgentStatus::needs_attention`. */
    predicate NeedsAttention() { this == WaitingInput || this == Stopped }

    /** `AgentStatus::is_active`. */
    predicate IsActive() { this == Running }
  }

  /** An agent that needs attention is never the active one, and an unknown
      status is neither. */
  lemma AttentionExcludesActive(s: AgentStatus)
    ensures !(s.NeedsAttention() && s.IsActive())
    ensures s == Unknown ==> !s.NeedsAttention() && !s.IsActive()
    ensures s.NeedsAttention() || s.IsActive() || s == Unknown
  {
  }

  /** `Session::IDLE_TIMEOUT_SECS`, in milliseconds. */
  const IDLE_TIMEOUT_MS: int := 60 * 1000

  class Session {
    var branch: string
    var agent: Option<string>
    var agentLabel: Option<string>
    var toolVersion: Option<string>
    var createdAt: int
    var updatedAt: int
    var status: AgentStatus
    var lastActivityAt: Option<int>

    /** `Session::new` at time `now`. */
    constructor (branch: string, now: int)
      ensures this.branch == branch && agent.None? && agentLabel.None? && toolVersion.None?
      ensures createdAt == now && updatedAt == now
      ensures status == Unknown && lastActivityAt.None?
    {
      this.branch := branch;
      agent := None;
      agentLabel := None;
      toolVersion := None;
      createdAt := now;
      updatedAt := now;
      status := Unknown;
      lastActivityAt := None;
    }

    /** `Session::should_mark_stopped`: not already stopped, and the last
        activity is more than the timeout ago. */
    predicate ShouldMarkStopped(now: int)
      reads this
    {
      status != Stopped && lastActivityAt.Some? && now - lastActivityAt.value > IDLE_TIMEOUT_MS
    }

    /** `Session::update_status`: records the status and the activity time. */
    method UpdateStatus(s: AgentStatus, now: int)
      modifies this
      ensures status == s && lastActivityAt == Some(now) && updatedAt == now
      ensures branch == old(branch) && agent == old(agent) && agentLabel == old(agentLabel)
      ensures toolVersion == old(toolVersion) && createdAt == old(createdAt)
      ensures !ShouldMarkStopped(now)
    {
      status := s;
      lastActivityAt := Some(now);
      updatedAt := now;
    }

    /** `Session::check_idle_timeout`: marks the session stopped exactly when
        the idle rule holds, and reports whether it did. A second check at the
        same time finds nothing more to do. */
    method CheckIdleTimeout(now: int) returns (stopped: bool)
      modifies this
      ensures stopped == old(ShouldMarkStopped(now))
      ensures status == (if stopped then Stopped else old(status))
      ensures updatedAt == (if stopped then now else old(updatedAt))
      ensures lastActivityAt == old(lastActivityAt) && branch == old(branch) && agent == old(agent)
      ensures agentLabel == old(agentLabel) && toolVersion == old(toolVersion) && createdAt == old(createdAt)
      ensures !ShouldMarkStopped(now)
    {
      if ShouldMarkStopped(now) {
        status := Stopped;
        updatedAt := now;
        stopped := true;
      } else {
        stopped := false;
      }
    }

    /** `Session::format_tool_usage`. */
    function FormatToolUsage(): (r: Option<string>)
      reads this
    {
      FormatToolUsageOf(agent, agentLabel, toolVersion)
    }
  }

  /** An agent that reported activity goes stopped only once the timeout has
      passed since that report. */
  lemma IdleAfterUpdate(s: Session, at: int, later: int)
    requires s.status != Stopped && s.lastActivityAt == Some(at)
    ensures s.ShouldMarkStopped(later) <==> later - at > IDLE_TIMEOUT_MS
  {
  }

  /** The short name of a recognised tool in a lower-cased id or label. */
  function KnownShortName(lowered: string): (r: Option<string>)
    ensures r.Some? ==> r.value in ["Claude", "Codex", "Gemini", "OpenCode"]
  {
    if Contains(lowered, "claude") then Some("Claude")
    else if Contains(lowered, "codex") then Some("Codex")
    else if Contains(lowered, "gemini") then Some("Gemini")
    else if Contains(lowered, "opencode") || Contains(lowered, "open-code") then Some("OpenCode")
    else None
  }

  /** `short_tool_label`: a tool recognised from the id wins over one
      recognised from the label; otherwise the label itself. */
  function ShortToolLabel(toolId: Option<string>, toolLabel: string): (r: string)
    ensures KnownShortName(ToLower(toolId.GetOr(""))).Some? ==> r == KnownShortName(ToLower(toolId.GetOr(""))).value
    ensures KnownShortName(ToLower(toolId.GetOr(""))).None? && KnownShortName(ToLower(toolLabel)).Some? ==>
              r == KnownShortName(ToLower(toolLabel)).value
    ensures KnownShortName(ToLower(toolId.GetOr(""))).None? && KnownShortName(ToLower(toolLabel)).None? ==> r == toolLabel
  {
    match KnownShortName(ToLower(toolId.GetOr("")))
    case Some(name) => name
    case None =>
      match KnownShortName(ToLower(toolLabel))
      case Some(name) => name
      case None => toolLabel
  }

  /** Each short name is recognised as itself. */
  lemma ShortNameFixed(name: string)
    requires name in ["Claude", "Codex", "Gemini", "OpenCode"]
    ensures KnownShortName(ToLower(name)) == Some(name)
  {
    if name == "Claude" {
      ClaudeFixed(name);
    } else if name == "Codex" {
      CodexFixed(name);
    } else if name == "Gemini" {
      GeminiFixed(name);
    } else {
      OpenCodeFixed(name);
    }
  }

  lemma ClaudeFixed(name: string)
    requires name == "Claude"
    ensures KnownShortName(ToLower(name)) == Some(name)
  {
    LowerIs(name, "claude");
    ContainsSelf("claude");
  }

  lemma CodexFixed(name: string)
    requires name == "Codex"
    ensures KnownShortName(ToLower(name)) == Some(name)
  {
    LowerIs(name, "codex");
    MissingCharNotContains("codex", "claude", 1);
    ContainsSelf("codex");
  }

  lemma GeminiFixed(name: string)
    requires name == "Gemini"
    ensures KnownShortName(ToLower(name)) == Some(name)
  {
    LowerIs(name, "gemini");
    MissingCharNotContains("gemini", "claude", 0);
    MissingCharNotContains("gemini", "codex", 0);
    ContainsSelf("gemini");
  }

  lemma OpenCodeFixed(name: string)
    requires name == "OpenCode"
    ensures KnownShortName(ToLower(name)) == Some(name)
  {
    LowerIs(name, "opencode");
    MissingCharNotContains("opencode", "claude", 1);
    MissingCharNotContains("opencode", "codex", 4);
    MissingCharNotContains("opencode", "gemini", 0);
    ContainsSelf("opencode");
  }

  /** Shortening a label that is already short changes nothing. */
  lemma {:induction false} ShortToolLabelIdempotent(toolId: Option<string>, toolLabel: string)
    ensures var s := ShortToolLabel(toolId, toolLabel);
            ShortToolLabel(None, s) == s
  {
    var s := ShortToolLabel(toolId, toolLabel);
    assert ToLower("") == "";
    assert KnownShortName("") == None;
    var k := KnownShortName(ToLower(toolId.GetOr("")));
    var l := KnownShortName(ToLower(toolLabel));
    if k.Some? || l.Some? {
      assert s in ["Claude", "Codex", "Gemini", "OpenCode"];
      ShortNameFixed(s);
    } else {
      assert s == toolLabel;
    }
  }

  /** `Session::format_tool_usage` on the session's fields: the short label
      of the agent label (or, without one, the agent id), "@", and the tool
      version or "latest". */
  function FormatToolUsageOf(agent: Option<string>, agentLabel: Option<string>, toolVersion: Option<string>): (r: Option<string>)
    ensures r.None? <==> agent.None? && agentLabel.None?
    ensures r.Some? ==> r.value == ShortToolLabel(agent, if agentLabel.Some? then agentLabel.value else agent.value) + "@" + toolVersion.GetOr("latest")
  {
    if agentLabel.None? && agent.None? then None
    else
      var shown := if agentLabel.Some? then agentLabel.value else agent.value;
      Some(ShortToolLabel(agent, shown) + "@" + toolVersion.GetOr("latest"))
  }

  /** The version is what follows the last '@': "latest" when none is known. */
  lemma UsageEndsWithVersion(agent: Option<string>, agentLabel: Option<string>, toolVersion: Option<string>)
    requires agent.Some? || agentLabel.Some?
    ensures var r := FormatToolUsageOf(agent, agentLabel, toolVersion);
            r.Some? && EndsWith(r.value, "@" + toolVersion.GetOr("latest"))
  {
    var r := FormatToolUsageOf(agent, agentLabel, toolVersion).value;
    var v := "@" + toolVersion.GetOr("latest");
    assert r[|r| - |v|..] == v;
  }
}
