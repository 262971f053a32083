/** Decision helpers of the Docker container manager: container naming, the
    `${NAME:-PORT}` defaults of compose port entries, the compose status rule,
    environment pass-through, the rebuild prompt rule and the retry loop. */
module DockerManager {
  import opened Common

  // ---------------------------------------------------------------------
  // Container names

  /** Allowed characters are kept (lower-cased); any other becomes '-'. */
  function SanitizeChar(c: char): (r: char)
    ensures IsLowerAlpha(r) || IsDigit(r) || r == '-' || r == '_'
  {
    if IsAlnum(c) || c == '-' || c == '_' then Lower(c) else '-'
  }

  function Sanitize(s: string): (r: string)
    ensures |r| == |s| && forall k :: 0 <= k < |s| ==> r[k] == SanitizeChar(s[k])
  {
    if s == [] then [] else [SanitizeChar(s[0])] + Sanitize(s[1..])
  }

  /** `trim_matches('-')`. */
  function TrimHyphens(s: string): (r: string)
    ensures r == [] || (r[0] != '-' && r[|r| - 1] != '-')
    ensures forall k :: 0 <= k < |r| ==> r[k] in s
    decreases |s|
  {
    if s == [] then []
    else if s[0] == '-' then TrimHyphens(s[1..])
    else if s[|s| - 1] == '-' then TrimHyphens(s[..|s| - 1])
    else s
  }

  /** No two hyphens in a row. */
  predicate NoDoubleHyphen(s: string) { forall k :: 0 <= k < |s| - 1 ==> !(s[k] == '-' && s[k + 1] == '-') }

  /** The collapsing loop from a state where the last pushed char was a hyphen (`prev`). */
  function CollapseFrom(s: string, prev: bool): (r: string)
    ensures NoDoubleHyphen(r)
    ensures prev ==> r == [] || r[0] != '-'
    ensures s != [] && s[0] != '-' ==> r != [] && r[0] == s[0]
    ensures s != [] && s[|s| - 1] != '-' ==> r != [] && r[|r| - 1] == s[|s| - 1]
    ensures forall k :: 0 <= k < |r| ==> r[k] in s
  {
    if s == [] then []
    else if s[0] == '-' then
      if prev then CollapseFrom(s[1..], true) else "-" + CollapseFrom(s[1..], true)
    else [s[0]] + CollapseFrom(s[1..], false)
  }

  /** The loop of the source with its `prev_hyphen` flag. */
  method CollapseHyphens(s: string) returns (result: string)
    ensures result == CollapseFrom(s, false)
  {
    result := [];
    var prevHyphen := false;
    var i := 0;
    while i < |s|
      invariant 0 <= i <= |s|
      invariant result + CollapseFrom(s[i..], prevHyphen) == CollapseFrom(s, false)
    {
      CollapseStep(s, i, prevHyphen, result);
      if s[i] == '-' {
        if !prevHyphen {
          result := result + ['-'];
          prevHyphen := true;
        }
      } else {
        result := result + [s[i]];
        prevHyphen := false;
      }
      i := i + 1;
    }
    assert s[i..] == [];
  }

  /** One character of the loop: what it pushes onto the output, followed by the rest. */
  lemma CollapseStep(s: string, i: nat, prev: bool, out: string)
    requires i < |s|
    ensures out + CollapseFrom(s[i..], prev) ==
              (out + if s[i] != '-' then [s[i]] else if prev then [] else "-") + CollapseFrom(s[i + 1..], s[i] == '-')
  {
    assert s[i..][1..] == s[i + 1..];
  }

  /** A container name: "gwt-" and then lower-case letters, digits, '-' and '_',
      never "--" and never a leading or trailing '-'. */
  predicate IsContainerSuffix(s: string)
  {
    (forall k :: 0 <= k < |s| ==> IsLowerAlpha(s[k]) || IsDigit(s[k]) || s[k] == '-' || s[k] == '_')
    && NoDoubleHyphen(s) && (s == [] || (s[0] != '-' && s[|s| - 1] != '-'))
  }

  method GenerateContainerName(worktreeName: string) returns (name: string)
    ensures name == "gwt-" + CollapseFrom(TrimHyphens(Sanitize(worktreeName)), false)
    ensures |name| >= 4 && name[..4] == "gwt-" && IsContainerSuffix(name[4..])
  {
    var trimmed := TrimHyphens(Sanitize(worktreeName));
    var collapsed := CollapseHyphens(trimmed);
    name := "gwt-" + collapsed;
    assert name[4..] == collapsed;
  }

  /** A name already made of lower-case letters and digits in '-'-separated runs is kept. */
  lemma {:induction false} CleanNameKept(s: string)
    requires forall k :: 0 <= k < |s| ==> IsLowerAlpha(s[k]) || IsDigit(s[k]) || s[k] == '_' || s[k] == '-'
    requires NoDoubleHyphen(s)
    ensures CollapseFrom(s, false) == s
  {
    if s != [] {
      CollapseKept(s[1..], s[0] == '-');
    }
  }

  lemma {:induction false} CollapseKept(s: string, prev: bool)
    requires NoDoubleHyphen(s)
    requires prev ==> s == [] || s[0] != '-'
    ensures CollapseFrom(s, prev) == s
  {
    if s != [] {
      CollapseKept(s[1..], s[0] == '-');
    }
  }

  // ---------------------------------------------------------------------
  // Compose port defaults: "${NAME:-PORT}"

  /** `split_once(":-")` of the text between the braces, then the default parsed as a u16. */
  function PortDefaultOf(inner: string): (r: Option<(string, nat)>)
    ensures r.Some? ==> r.value.0 != [] && r.value.1 <= U16_MAX
    ensures !Contains(inner, ":-") ==> r.None?
  {
    match IndexOf(inner, ":-")
    case None => None
    case Some(sep) =>
      var name := inner[..sep];
      var port := ParseUnsigned(inner[sep + 2..], U16_MAX);
      if port.None? || name == [] then None else Some((name, port.value))
  }

  /** The variable name and default port of the first "${NAME:-PORT}" in `value`. */
  function ParsePortEnvDefault(value: string): (r: Option<(string, nat)>)
    ensures r.Some? ==> r.value.0 != [] && r.value.1 <= U16_MAX
    ensures !Contains(value, "${") ==> r.None?
  {
    match IndexOf(value, "${")
    case None => None
    case Some(start) =>
      var rest := value[start + 2..];
      match FindChar(rest, '}')
      case None => None
      case Some(end) => PortDefaultOf(rest[..end])
  }

  /** A value that is just "${...}" is decided by what lies between the braces. */
  lemma BracedPortEnvDefault(inner: string)
    requires '}' !in inner
    ensures ParsePortEnvDefault("${" + inner + "}") == PortDefaultOf(inner)
  {
    var value := "${" + inner + "}";
    assert OccursAt(value, "${", 0);
    var rest := value[2..];
    assert rest == inner + "}";
    var f := FindChar(rest, '}');
    assert rest[|inner|] == '}';
    assert f == Some(|inner|);
    assert rest[..|inner|] == inner;
  }

  /** "NAME:-DIGITS" splits at the first ":-" when NAME holds none: the name must
      be non-empty and the digits a 16-bit number. */
  lemma PortDefaultSplit(name: string, digits: string)
    requires !Contains(name, ":-")
    ensures PortDefaultOf(name + ":-" + digits) ==
              if name == [] || ParseUnsigned(digits, U16_MAX).None? then None
              else Some((name, ParseUnsigned(digits, U16_MAX).value))
  {
    var inner := name + ":-" + digits;
    assert OccursAt(inner, ":-", |name|);
    forall j | 0 <= j < |name| ensures !OccursAt(inner, ":-", j) {
      if j + 2 <= |name| {
        assert inner[j..j + 2] == name[j..j + 2];
        assert !OccursAt(name, ":-", j);
      } else {
        assert inner[j + 1] == ':';
      }
    }
    assert IndexOf(inner, ":-") == Some(|name|);
    assert inner[..|name|] == name;
    assert inner[|name| + 2..] == digits;
  }

  /** "${NAME:-PORT}" yields the name and the port. */
  lemma PortEnvDefaultRoundTrip(name: string, port: nat)
    requires name != [] && '}' !in name && !Contains(name, ":-") && port <= U16_MAX
    ensures ParsePortEnvDefault("${" + name + ":-" + NatToString(port) + "}") == Some((name, port))
  {
    var digits := NatToString(port);
    assert '}' !in digits by { assert AllDigits(digits); }
    assert "${" + name + ":-" + digits + "}" == "${" + (name + ":-" + digits) + "}";
    BracedPortEnvDefault(name + ":-" + digits);
    PortDefaultSplit(name, digits);
    ParseNatToString(port, U16_MAX);
  }

  /** An empty name, or a default that does not fit in 16 bits, is rejected. */
  lemma PortEnvDefaultRejects(name: string, port: nat)
    requires '}' !in name && !Contains(name, ":-")
    requires name == [] || port > U16_MAX
    ensures ParsePortEnvDefault("${" + name + ":-" + NatToString(port) + "}").None?
  {
    var digits := NatToString(port);
    assert '}' !in digits by { assert AllDigits(digits); }
    assert "${" + name + ":-" + digits + "}" == "${" + (name + ":-" + digits) + "}";
    BracedPortEnvDefault(name + ":-" + digits);
    PortDefaultSplit(name, digits);
    NatToStringValue(port);
  }

  // ---------------------------------------------------------------------
  // Compose status

  datatype ContainerStatus = Running | Stopped | NotFound

  /** Any running container means Running; else any container at all means Stopped. */
  function ResolveComposeStatus(runningOutput: string, allOutput: string): (s: ContainerStatus)
    ensures s == Running <==> !IsBlank(runningOutput)
    ensures s == Stopped <==> IsBlank(runningOutput) && !IsBlank(allOutput)
    ensures s == NotFound <==> IsBlank(runningOutput) && IsBlank(allOutput)
  {
    if !IsBlank(runningOutput) then Running
    else if !IsBlank(allOutput) then Stopped
    else NotFound
  }

  // ---------------------------------------------------------------------
  // Environment pass-through

  const PASSTHROUGH_PREFIXES: seq<string> :=
    ["ANTHROPIC_", "OPENAI_", "GEMINI_", "GOOGLE_", "GITHUB_", "GIT_", "SSH_AUTH_SOCK", "USER", "SHELL"]

  const PASSTHROUGH_DENYLIST: set<string> :=
    {"GIT_DIR", "GIT_WORK_TREE", "GIT_INDEX_FILE", "GIT_COMMON_DIR", "GIT_OBJECT_DIRECTORY",
     "GIT_ALTERNATE_OBJECT_DIRECTORIES"}

  predicate HasPassthroughPrefix(key: string)
  {
    exists k :: 0 <= k < |PASSTHROUGH_PREFIXES| && (StartsWith(key, PASSTHROUGH_PREFIXES[k]) || key == PASSTHROUGH_PREFIXES[k])
  }

  /** `m[key]` is the value of the last variable named `key` among `vars`. */
  predicate LastValue(vars: seq<(string, string)>, key: string, value: string)
  {
    exists i :: 0 <= i < |vars| && vars[i].0 == key && vars[i].1 == value
                && forall j :: i < j < |vars| ==> vars[j].0 != key
  }

  lemma LastValueExtend(vars: seq<(string, string)>, v: (string, string), key: string, value: string)
    requires key != v.0 && LastValue(vars, key, value)
    ensures LastValue(vars + [v], key, value)
  {
    var i :| 0 <= i < |vars| && vars[i].0 == key && vars[i].1 == value
              && forall j :: i < j < |vars| ==> vars[j].0 != key;
    assert (vars + [v])[i] == vars[i];
  }

  /** The variables handed to a container: those whose name starts with a
      pass-through prefix, without the git-internal ones; a later duplicate wins. */
  method FilterPassthroughEnv(vars: seq<(string, string)>) returns (env: map<string, string>)
    ensures forall key :: key in env ==> HasPassthroughPrefix(key) && key !in PASSTHROUGH_DENYLIST
    ensures forall key :: key in env ==> LastValue(vars, key, env[key])
    ensures forall i :: 0 <= i < |vars| && HasPassthroughPrefix(vars[i].0) && vars[i].0 !in PASSTHROUGH_DENYLIST
              ==> vars[i].0 in env
  {
    env := map[];
    var i := 0;
    while i < |vars|
      invariant 0 <= i <= |vars|
      invariant forall key :: key in env ==> HasPassthroughPrefix(key)
      invariant forall key :: key in env ==> LastValue(vars[..i], key, env[key])
      invariant forall j :: 0 <= j < i && HasPassthroughPrefix(vars[j].0) ==> vars[j].0 in env
    {
      var (key, value) := vars[i];
      var p := 0;
      while p < |PASSTHROUGH_PREFIXES|
        invariant 0 <= p <= |PASSTHROUGH_PREFIXES|
        invariant forall q :: 0 <= q < p ==> !(StartsWith(key, PASSTHROUGH_PREFIXES[q]) || key == PASSTHROUGH_PREFIXES[q])
      {
        if StartsWith(key, PASSTHROUGH_PREFIXES[p]) || key == PASSTHROUGH_PREFIXES[p] {
          break;
        }
        p := p + 1;
      }
      assert vars[..i + 1] == vars[..i] + [vars[i]];
      forall k | k in env && k != key ensures LastValue(vars[..i + 1], k, env[k]) {
        LastValueExtend(vars[..i], vars[i], k, env[k]);
      }
      if p < |PASSTHROUGH_PREFIXES| {
        env := env[key := value];
        assert LastValue(vars[..i + 1], key, value) by {
          assert vars[..i + 1][i] == vars[i];
        }
      }
      i := i + 1;
    }
    assert vars[..i] == vars;
    env := env - PASSTHROUGH_DENYLIST;
  }

  // ---------------------------------------------------------------------
  // Rebuild prompt

  /** A rebuild is offered when the Docker files changed after the last build,
      or when there was no build yet; times are seconds since an epoch. */
  function ShouldPromptBuild(modified: Option<int>, lastBuild: Option<int>): (r: bool)
    ensures r <==> modified.Some? && (lastBuild.None? || modified.value > lastBuild.value)
    ensures modified.None? ==> !r
  {
    match (modified, lastBuild)
    case (Some(m), Some(b)) => m > b
    case (Some(_), None) => true
    case _ => false
  }

  // ---------------------------------------------------------------------
  // Retries

  datatype DockerError =
    | DaemonNotRunning
    | DockerTimeout
    | Docker(msg: string)
    | StartFailed(reason: string)
    | OtherError(description: string)  // every other error kind of the crate

  function IsRetryableError(e: DockerError): (r: bool)
    ensures e.OtherError? ==> !r
    ensures e.DaemonNotRunning? || e.DockerTimeout? ==> r
  {
    match e
    case DaemonNotRunning => true
    case DockerTimeout => true
    case Docker(msg) =>
      Contains(msg, "connection refused") || Contains(msg, "timeout") || Contains(msg, "network") || Contains(msg, "temporary")
    case StartFailed(reason) => Contains(reason, "network") || Contains(reason, "timeout")
    case _ => false
  }

  const MAX_RETRY_ATTEMPTS: nat := 3
  const RETRY_DELAYS_SECS: seq<nat> := [2, 5]

  /** Runs an operation whose successive outcomes are `outcomes`: stops at the
      first success, the first non-retryable error, or the third attempt.
      `delays` are the waits between attempts, in seconds. */
  method WithRetry<T>(outcomes: seq<Result<T, DockerError>>)
    returns (result: Result<T, DockerError>, calls: nat, delays: seq<nat>)
    requires |outcomes| >= MAX_RETRY_ATTEMPTS
    ensures 1 <= calls <= MAX_RETRY_ATTEMPTS
    ensures result == outcomes[calls - 1]
    ensures forall j :: 0 <= j < calls - 1 ==> outcomes[j].Err? && IsRetryableError(outcomes[j].error)
    ensures calls < MAX_RETRY_ATTEMPTS ==> result.Ok? || !IsRetryableError(result.error)
    ensures outcomes[0].Ok? || !IsRetryableError(outcomes[0].error) ==> calls == 1
    ensures delays == RETRY_DELAYS_SECS[..calls - 1]
  {
    var attempt := 0;
    result := outcomes[0];
    delays := [];
    while result.Err? && IsRetryableError(result.error) && attempt < MAX_RETRY_ATTEMPTS - 1
      invariant 0 <= attempt < MAX_RETRY_ATTEMPTS
      invariant result == outcomes[attempt]
      invariant forall j :: 0 <= j < attempt ==> outcomes[j].Err? && IsRetryableError(outcomes[j].error)
      invariant delays == RETRY_DELAYS_SECS[..attempt]
    {
      delays := delays + [RETRY_DELAYS_SECS[attempt]];
      attempt := attempt + 1;
      result := outcomes[attempt];
    }
    calls := attempt + 1;
  }
}
