/** The Codex CLI integration: reading a version out of `codex --version`
    output, ordering versions, and assembling the default argument list. */
module Codex {
  import opened Common

  const DefaultModel: string := "gpt-5.1-codex"
  const DefaultReasoning: string := "high"
  const SkillsFlagDeprecatedFrom: string := "0.80.0"
  const SkipFlagDeprecatedFrom: string := "0.80.0"
  const SkipFlagLegacy: string := "--yolo"
  const SkipFlagDangerous: string := "--dangerously-bypass-approvals-and-sandbox"
  const ModelFlagPrefix: string := "--model="

  /** major.minor.patch with an optional prerelease (the text after the first '-'). */
  datatype ParsedVersion = ParsedVersion(major: nat, minor: nat, patch: nat, prerelease: Option<string>)

  /** The threshold version 0.80.0. */
  const Threshold: ParsedVersion := ParsedVersion(0, 80, 0, None)

  // ---------------------------------------------------------------------
  // Normalising version text

  /** Characters kept at the end of a version token. */
  predicate IsVersionChar(c: char) { IsAlnum(c) || c == '.' || c == '-' }

  /** `trim_start_matches('v')`: every leading 'v' goes. */
  function TrimLeadingV(s: string): (r: string)
    ensures |r| <= |s| && r == s[|s| - |r|..]
    ensures r == [] || r[0] != 'v'
    ensures forall j :: 0 <= j < |s| - |r| ==> s[j] == 'v'
  {
    if s != [] && s[0] == 'v' then TrimLeadingV(s[1..]) else s
  }

  /** Trailing characters other than ASCII alphanumerics, '.' and '-' are removed. */
  function TrimTrailingNonVersion(s: string): (r: string)
    ensures |r| <= |s| && r == s[..|r|]
    ensures r == [] || IsVersionChar(r[|r| - 1])
    ensures forall j :: |r| <= j < |s| ==> !IsVersionChar(s[j])
  {
    if s != [] && !IsVersionChar(s[|s| - 1]) then TrimTrailingNonVersion(s[..|s| - 1]) else s
  }

  /** What one whitespace token contributes: its cleaned form when it starts with a digit once 'v's are dropped. */
  function VersionCandidate(token: string): (r: Option<string>)
    ensures r.Some? ==> r.value != [] && IsDigit(r.value[0]) && IsVersionChar(r.value[|r.value| - 1])
  {
    var t := TrimLeadingV(token);
    if t == [] || !IsDigit(t[0]) then None
    else
      var cleaned := TrimTrailingNonVersion(t);
      if cleaned == [] then None else Some(cleaned)
  }

  /** The index of the first token that has a candidate, or the length when none has. */
  function FirstCandidateIndex(tokens: seq<string>): (i: nat)
    ensures i <= |tokens|
    ensures forall j :: 0 <= j < i ==> VersionCandidate(tokens[j]).None?
    ensures i < |tokens| ==> VersionCandidate(tokens[i]).Some?
  {
    if tokens == [] then 0
    else if VersionCandidate(tokens[0]).Some? then 0
    else
      var k := FirstCandidateIndex(tokens[1..]);
      assert forall j :: 0 < j <= k ==> tokens[j] == tokens[1..][j - 1];
      k + 1
  }

  /** The candidate of the first token that has one. */
  function FirstVersionToken(tokens: seq<string>): (r: Option<string>)
  {
    var i := FirstCandidateIndex(tokens);
    if i < |tokens| then VersionCandidate(tokens[i]) else None
  }

  /** The version text in a `--version` output: the first whitespace token that starts with a digit. */
  function NormalizeVersion(value: Option<string>): (r: Option<string>)
    ensures r.Some? ==> r.value != [] && IsDigit(r.value[0])
  {
    match value
    case None => None
    case Some(v) =>
      var raw := Trim(v);
      if raw == [] then None else FirstVersionToken(Words(raw))
  }

  /** Parses "major.minor[.patch][-prerelease]", each number a u64. */
  function ParseVersion(value: Option<string>): (r: Option<ParsedVersion>)
    ensures r.Some? ==> r.value.major <= U64_MAX && r.value.minor <= U64_MAX && r.value.patch <= U64_MAX
  {
    match NormalizeVersion(value)
    case None => None
    case Some(normalized) =>
      match FindChar(normalized, '-')
      case None => CoreVersion(Split(normalized, '.'), None)
      case Some(dash) => CoreVersion(Split(normalized[..dash], '.'), Some(normalized[dash + 1..]))
  }

  /** Two or three u64 components; a missing patch is 0. */
  function CoreVersion(coreParts: seq<string>, prerelease: Option<string>): (r: Option<ParsedVersion>)
    ensures r.Some? ==> r.value.major <= U64_MAX && r.value.minor <= U64_MAX && r.value.patch <= U64_MAX
    ensures r.Some? ==> 2 <= |coreParts| <= 3 && r.value.prerelease == prerelease
  {
    if |coreParts| < 2 || |coreParts| > 3 then None
    else
      var major := ParseUnsigned(coreParts[0], U64_MAX);
      var minor := ParseUnsigned(coreParts[1], U64_MAX);
      var patch := if |coreParts| == 3 then ParseUnsigned(coreParts[2], U64_MAX) else Some(0);
      if major.Some? && minor.Some? && patch.Some? then
        Some(ParsedVersion(major.value, minor.value, patch.value, prerelease))
      else None
  }

  // ---------------------------------------------------------------------
  // Parsing well-formed versions

  /** Digits and dots only. */
  predicate DottedDigits(s: string) { forall j :: 0 <= j < |s| ==> IsDigit(s[j]) || s[j] == '.' }

  lemma DottedDigitsNormalize(s: string)
    requires s != [] && IsDigit(s[0]) && IsDigit(s[|s| - 1]) && DottedDigits(s)
    ensures NormalizeVersion(Some(s)) == Some(s)
  {
    NoSpaceTrimWords(s);
    assert TrimLeadingV(s) == s;
    assert TrimTrailingNonVersion(s) == s;
    assert VersionCandidate(s) == Some(s);
    assert FirstVersionToken([s]) == Some(s);
  }

  /** A digit run, a dot, then digits and dots: the first field splits off. */
  lemma DottedNumbers(sa: string, sb: string)
    requires AllDigits(sa) && DottedDigits(sb)
    ensures DottedDigits(sa + "." + sb) && FindChar(sa + "." + sb, '-').None?
    ensures Split(sa + "." + sb, '.') == [sa] + Split(sb, '.')
  {
    var s := sa + "." + sb;
    assert DottedDigits(s) by {
      forall j | 0 <= j < |s| ensures IsDigit(s[j]) || s[j] == '.' {
        if j < |sa| { assert s[j] == sa[j]; }
        else if j > |sa| { assert s[j] == sb[j - |sa| - 1]; }
      }
    }
    assert '-' !in s by {
      forall j | 0 <= j < |s| ensures s[j] != '-' {
        assert IsDigit(s[j]) || s[j] == '.';
      }
    }
    assert '.' !in sa by {
      forall j | 0 <= j < |sa| ensures sa[j] != '.' { assert IsDigit(sa[j]); }
    }
    SplitCons(sa, '.', sb);
  }

  /** Version text made of digits and dots only is read component by component. */
  lemma ParseDotted(s: string)
    requires s != [] && IsDigit(s[0]) && IsDigit(s[|s| - 1]) && DottedDigits(s)
    ensures ParseVersion(Some(s)) == CoreVersion(Split(s, '.'), None)
  {
    DottedDigitsNormalize(s);
    assert '-' !in s;
  }

  /** Three digit runs joined by dots are read as three components. */
  lemma ParseThreeDigitRuns(sa: string, sb: string, sc: string)
    requires sa != [] && sb != [] && sc != [] && AllDigits(sa) && AllDigits(sb) && AllDigits(sc)
    ensures ParseVersion(Some(sa + "." + (sb + "." + sc))) == CoreVersion([sa, sb, sc], None)
  {
    var tail := sb + "." + sc;
    assert DottedDigits(tail) && Split(tail, '.') == [sb, sc] by {
      assert DottedDigits(sc);
      DottedNumbers(sb, sc);
      assert '.' !in sc by {
        forall j | 0 <= j < |sc| ensures sc[j] != '.' { assert IsDigit(sc[j]); }
      }
    }
    var s := sa + "." + tail;
    assert DottedDigits(s) && Split(s, '.') == [sa, sb, sc] by {
      DottedNumbers(sa, tail);
    }
    assert ParseVersion(Some(s)) == CoreVersion([sa, sb, sc], None) by {
      assert s[0] == sa[0] && s[|s| - 1] == sc[|sc| - 1];
      ParseDotted(s);
    }
  }

  /** "a.b.c" parses to a.b.c with no prerelease. */
  lemma ParseThreeComponents(a: nat, b: nat, c: nat)
    requires a <= U64_MAX && b <= U64_MAX && c <= U64_MAX
    ensures ParseVersion(Some(NatToString(a) + "." + (NatToString(b) + "." + NatToString(c))))
         == Some(ParsedVersion(a, b, c, None))
  {
    ParseThreeDigitRuns(NatToString(a), NatToString(b), NatToString(c));
    ParseNatToString(a, U64_MAX);
    ParseNatToString(b, U64_MAX);
    ParseNatToString(c, U64_MAX);
  }

  /** Two digit runs joined by a dot are read as two components. */
  lemma ParseTwoDigitRuns(sa: string, sb: string)
    requires sa != [] && sb != [] && AllDigits(sa) && AllDigits(sb)
    ensures ParseVersion(Some(sa + "." + sb)) == CoreVersion([sa, sb], None)
  {
    assert DottedDigits(sb);
    DottedNumbers(sa, sb);
    assert '.' !in sb by {
      forall j | 0 <= j < |sb| ensures sb[j] != '.' { assert IsDigit(sb[j]); }
    }
    assert Split(sb, '.') == [sb];
    ParseDotted(sa + "." + sb);
  }

  /** "a.b" parses to a.b.0: a missing patch reads as 0. */
  lemma ParseTwoComponents(a: nat, b: nat)
    requires a <= U64_MAX && b <= U64_MAX
    ensures ParseVersion(Some(NatToString(a) + "." + NatToString(b))) == Some(ParsedVersion(a, b, 0, None))
  {
    ParseTwoDigitRuns(NatToString(a), NatToString(b));
    ParseNatToString(a, U64_MAX);
    ParseNatToString(b, U64_MAX);
  }

  /** A bare number is not a version: one component is too few. */
  lemma SingleComponentRejected(a: nat)
    ensures ParseVersion(Some(NatToString(a))).None?
  {
    var s := NatToString(a);
    assert DottedDigits(s);
    ParseDotted(s);
    assert '.' !in s;
    assert Split(s, '.') == [s];
  }

  /** The threshold constant parses to 0.80.0. */
  lemma ThresholdParses()
    ensures ParseVersion(Some(SkillsFlagDeprecatedFrom)) == Some(Threshold)
    ensures ParseVersion(Some(SkipFlagDeprecatedFrom)) == Some(Threshold)
  {
    assert NatToString(0) == "0";
    assert NatToString(8) == "8";
    assert NatToString(80) == "80";
    assert SkipFlagDeprecatedFrom == NatToString(0) + "." + (NatToString(80) + "." + NatToString(0));
    ParseThreeComponents(0, 80, 0);
  }

  // ---------------------------------------------------------------------
  // Ordering

  /** `compare_versions`: major, minor and patch in turn, then a
      prerelease sorts before the release of the same core. */
  function CompareVersions(a: ParsedVersion, b: ParsedVersion): (r: Ordering)
    ensures a == b ==> r == Equal
    ensures a.major < b.major ==> r == Less
    ensures (a.major, a.minor, a.patch) == (b.major, b.minor, b.patch) && a.prerelease.Some? && b.prerelease.None? ==>
              r == Less
  {
    if a.major != b.major then CompareInt(a.major, b.major)
    else if a.minor != b.minor then CompareInt(a.minor, b.minor)
    else if a.patch != b.patch then CompareInt(a.patch, b.patch)
    else match (a.prerelease, b.prerelease)
      case (Some(_), None) => Less
      case (None, Some(_)) => Greater
      case (Some(x), Some(y)) => CompareStrReverse(x, y); CompareStr(x, y)
      case (None, None) => Equal
  }

  /** Swapping the arguments reverses the answer, and only equal versions compare Equal. */
  lemma CompareVersionsReverse(a: ParsedVersion, b: ParsedVersion)
    ensures CompareVersions(b, a) == CompareVersions(a, b).Reverse()
    ensures CompareVersions(a, b) == Equal <==> a == b
  {
    if a.prerelease.Some? && b.prerelease.Some? {
      CompareStrReverse(a.prerelease.value, b.prerelease.value);
    }
  }

  lemma CompareVersionsTransitive(a: ParsedVersion, b: ParsedVersion, c: ParsedVersion)
    requires CompareVersions(a, b) == Less && CompareVersions(b, c) == Less
    ensures CompareVersions(a, c) == Less
  {
    if a.major == b.major == c.major && a.minor == b.minor == c.minor && a.patch == b.patch == c.patch
       && a.prerelease.Some? && b.prerelease.Some? && c.prerelease.Some? {
      CompareStrTransitive(a.prerelease.value, b.prerelease.value, c.prerelease.value);
    }
  }

  /** The numeric core decides first; a prerelease sorts below its release. */
  lemma CompareVersionsByCore(a: ParsedVersion, b: ParsedVersion)
    ensures (a.major, a.minor, a.patch) != (b.major, b.minor, b.patch) ==>
      (CompareVersions(a, b) == Less <==>
        (a.major < b.major || (a.major == b.major && (a.minor < b.minor || (a.minor == b.minor && a.patch < b.patch)))))
    ensures (a.major, a.minor, a.patch) == (b.major, b.minor, b.patch) && a.prerelease.Some? && b.prerelease.None? ==>
      CompareVersions(a, b) == Less
  {
  }

  // ---------------------------------------------------------------------
  // Flags

  /** The skills flag is wanted only for versions below 0.80.0. */
  function ShouldEnableSkillsFlag(version: Option<string>): bool
  {
    var parsed := ParseVersion(version);
    var threshold := ParseVersion(Some(SkillsFlagDeprecatedFrom));
    parsed.Some? && threshold.Some? && CompareVersions(parsed.value, threshold.value) == Less
  }

  function SkipPermissionsFlag(version: Option<string>): (flag: string)
    ensures flag == SkipFlagLegacy || flag == SkipFlagDangerous
  {
    var parsed := ParseVersion(version);
    var threshold := ParseVersion(Some(SkipFlagDeprecatedFrom));
    if parsed.Some? && threshold.Some? then
      if CompareVersions(parsed.value, threshold.value) == Less then SkipFlagLegacy else SkipFlagDangerous
    else SkipFlagDangerous
  }

  /** "--yolo" exactly for versions that parse and are below 0.80.0; otherwise the long flag. */
  lemma SkipFlagRule(version: Option<string>)
    ensures SkipPermissionsFlag(version) == SkipFlagLegacy <==>
      (ParseVersion(version).Some? && CompareVersions(ParseVersion(version).value, Threshold) == Less)
    ensures ShouldEnableSkillsFlag(version) <==>
      (ParseVersion(version).Some? && CompareVersions(ParseVersion(version).value, Threshold) == Less)
  {
    ThresholdParses();
  }

  /** Some argument "--enable" is directly followed by "skills". */
  predicate HasSkillsFlag(args: seq<string>)
  {
    exists i :: 0 <= i < |args| - 1 && args[i] == "--enable" && args[i + 1] == "skills"
  }

  /** The position of the first "--model=..." argument, or the length when there is none. */
  function ModelFlagIndex(args: seq<string>): (i: nat)
    ensures i <= |args|
    ensures forall j :: 0 <= j < i ==> !StartsWith(args[j], ModelFlagPrefix)
    ensures i < |args| ==> StartsWith(args[i], ModelFlagPrefix)
  {
    if args == [] then 0
    else if StartsWith(args[0], ModelFlagPrefix) then 0
    else
      var k := ModelFlagIndex(args[1..]);
      assert forall j :: 0 < j <= k ==> args[j] == args[1..][j - 1];
      k + 1
  }

  /** Adds "--enable skills" in front of the model flag unless disabled or already present. */
  function WithSkillsFlag(args: seq<string>, enable: bool): (r: seq<string>)
    ensures !enable || HasSkillsFlag(args) ==> r == args
    ensures enable ==> HasSkillsFlag(r)
    ensures |r| == |args| || |r| == |args| + 2
  {
    if !enable || HasSkillsFlag(args) then args
    else
      var i := ModelFlagIndex(args);
      var r := args[..i] + ["--enable", "skills"] + args[i..];
      assert r[i] == "--enable" && r[i + 1] == "skills";
      r
  }

  /** When the flag is added it sits right before the first model flag and
      removing it gives the arguments back; otherwise nothing changes. */
  lemma SkillsFlagPlacement(args: seq<string>, enable: bool)
    ensures !enable || HasSkillsFlag(args) ==> WithSkillsFlag(args, enable) == args
    ensures enable && !HasSkillsFlag(args) ==>
      var r := WithSkillsFlag(args, enable);
      var i := ModelFlagIndex(args);
      |r| == |args| + 2 && r[i] == "--enable" && r[i + 1] == "skills"
      && r[..i] + r[i + 2..] == args
      && (forall j :: 0 <= j < i ==> !StartsWith(r[j], ModelFlagPrefix))
      && (i < |args| ==> StartsWith(r[i + 2], ModelFlagPrefix))
    ensures enable ==> HasSkillsFlag(WithSkillsFlag(args, enable))
  {
    if enable && !HasSkillsFlag(args) {
      var r := WithSkillsFlag(args, enable);
      var i := ModelFlagIndex(args);
      var pre, post := args[..i], args[i..];
      assert r == pre + ["--enable", "skills"] + post;
      assert r[..i] == pre && r[i + 2..] == post;
      assert pre + post == args;
      forall j | 0 <= j < i ensures r[j] == args[j] {
        assert r[j] == pre[j];
      }
      if i < |args| {
        assert r[i + 2] == post[0] == args[i];
      }
    }
  }

  /** Adding the flag twice is the same as adding it once. */
  lemma SkillsFlagIdempotent(args: seq<string>, enable: bool)
    ensures WithSkillsFlag(WithSkillsFlag(args, enable), enable) == WithSkillsFlag(args, enable)
  {
    SkillsFlagPlacement(args, enable);
  }

  /** Apart from "--enable" and "skills", the flag insertion adds and loses no argument. */
  lemma SkillsFlagMembers(args: seq<string>, enable: bool, x: string)
    requires x != "--enable" && x != "skills"
    ensures x in WithSkillsFlag(args, enable) <==> x in args
  {
    if enable && !HasSkillsFlag(args) {
      var i := ModelFlagIndex(args);
      assert args == args[..i] + args[i..];
    }
  }

  /** A trimmed, non-blank override, or the default. */
  function OverrideOr(value: Option<string>, default: string): (r: string)
    ensures value.None? || Trim(value.value) == [] ==> r == default
    ensures value.Some? && Trim(value.value) != [] ==> r == Trim(value.value)
  {
    if value.Some? && Trim(value.value) != [] then Trim(value.value) else default
  }

  const NetworkAccess: string := "sandbox_workspace_write.network_access=true"

  /** The arguments before the skills flag is considered. */
  function BaseArgs(model: string, reasoning: string, bypassSandbox: bool): seq<string>
  {
    var head := ["--enable", "web_search_request", ModelFlagPrefix + model];
    var sandbox := if bypassSandbox then [] else ["--sandbox", "workspace-write"];
    var effort := ["-c", "model_reasoning_effort=" + reasoning, "-c", "model_reasoning_summaries=detailed"];
    var network := if bypassSandbox then [] else ["-c", NetworkAccess];
    var shell := ["-c", "shell_environment_policy.inherit=all",
                  "-c", "shell_environment_policy.ignore_default_excludes=true",
                  "-c", "shell_environment_policy.experimental_use_profile=true"];
    head + sandbox + effort + network + shell
  }

  /** The base arguments with the skills flag added when `enableSkills` holds. */
  function ArgsFor(model: string, reasoning: string, enableSkills: bool, bypassSandbox: bool): seq<string>
  {
    WithSkillsFlag(BaseArgs(model, reasoning, bypassSandbox), enableSkills)
  }

  /** The argument list every Codex launch starts from. */
  function DefaultArgs(modelOverride: Option<string>, reasoningOverride: Option<string>,
                       skillsFlagVersion: Option<string>, bypassSandbox: bool): (r: seq<string>)
    ensures |r| > 2 && r[0] == "--enable" && r[1] == "web_search_request"
  {
    var model := OverrideOr(modelOverride, DefaultModel);
    var base := BaseArgs(model, OverrideOr(reasoningOverride, DefaultReasoning), bypassSandbox);
    assert base[0] == "--enable" && base[1] == "web_search_request" && base[2] == ModelFlagPrefix + model;
    assert base[0][2] != ModelFlagPrefix[2] && base[1][0] != ModelFlagPrefix[0];
    assert (ModelFlagPrefix + model)[..|ModelFlagPrefix|] == ModelFlagPrefix;
    assert ModelFlagIndex(base) == 2;
    ArgsFor(model, OverrideOr(reasoningOverride, DefaultReasoning),
            ShouldEnableSkillsFlag(skillsFlagVersion), bypassSandbox)
  }

  /** The fixed arguments, whatever the model and reasoning text. */
  const FixedArgs: seq<string> := ["--enable", "web_search_request", "-c", "-c", "model_reasoning_summaries=detailed",
                                   "-c", "shell_environment_policy.inherit=all",
                                   "-c", "shell_environment_policy.ignore_default_excludes=true",
                                   "-c", "shell_environment_policy.experimental_use_profile=true"]

  /** Every base argument is fixed, the model flag, the reasoning setting, or one of the sandbox arguments. */
  lemma BaseArgsMembers(model: string, reasoning: string, bypass: bool, x: string)
    ensures x in BaseArgs(model, reasoning, bypass) <==>
      (x in FixedArgs || x == ModelFlagPrefix + model || x == "model_reasoning_effort=" + reasoning
       || (!bypass && x in ["--sandbox", "workspace-write", "-c", NetworkAccess]))
  {
  }

  /** Bypassing the sandbox drops "--sandbox" and the network-access setting, and only then. */
  lemma BypassOmitsSandbox(model: string, reasoning: string, enable: bool, bypass: bool)
    ensures "--sandbox" in ArgsFor(model, reasoning, enable, bypass) <==> !bypass
    ensures NetworkAccess in ArgsFor(model, reasoning, enable, bypass) <==> !bypass
  {
    SkillsFlagMembers(BaseArgs(model, reasoning, bypass), enable, "--sandbox");
    SkillsFlagMembers(BaseArgs(model, reasoning, bypass), enable, NetworkAccess);
    BaseArgsMembers(model, reasoning, bypass, "--sandbox");
    BaseArgsMembers(model, reasoning, bypass, NetworkAccess);
    var f := ModelFlagPrefix + model;
    var e := "model_reasoning_effort=" + reasoning;
    assert "--sandbox" != f by {
      if |f| == 9 { assert f[2] == 'm'; }
    }
    assert "--sandbox" != e && NetworkAccess != e by { assert e[0] == 'm'; }
    assert NetworkAccess != f by { assert f[0] == '-'; }
    assert "--sandbox" !in FixedArgs;
    assert NetworkAccess !in FixedArgs;
  }

  /** The model flag and the reasoning setting are always present. */
  lemma ModelAndReasoningPresent(model: string, reasoning: string, enable: bool, bypass: bool)
    ensures ModelFlagPrefix + model in ArgsFor(model, reasoning, enable, bypass)
    ensures "model_reasoning_effort=" + reasoning in ArgsFor(model, reasoning, enable, bypass)
  {
    var f := ModelFlagPrefix + model;
    var e := "model_reasoning_effort=" + reasoning;
    BaseArgsMembers(model, reasoning, bypass, f);
    BaseArgsMembers(model, reasoning, bypass, e);
    assert f != "--enable" && f != "skills" by { assert f[2] == 'm'; }
    assert e != "--enable" && e != "skills" by { assert e[0] == 'm' && e[1] == 'o'; }
    SkillsFlagMembers(BaseArgs(model, reasoning, bypass), enable, f);
    SkillsFlagMembers(BaseArgs(model, reasoning, bypass), enable, e);
  }

  /** The skills flag is present exactly when it was asked for. */
  lemma SkillsPresentIffEnabled(model: string, reasoning: string, enable: bool, bypass: bool)
    ensures HasSkillsFlag(ArgsFor(model, reasoning, enable, bypass)) <==> enable
  {
    var base := BaseArgs(model, reasoning, bypass);
    SkillsFlagPlacement(base, enable);
    BaseArgsMembers(model, reasoning, bypass, "skills");
    assert ModelFlagPrefix + model != "skills" by { assert (ModelFlagPrefix + model)[0] == '-'; }
    assert "model_reasoning_effort=" + reasoning != "skills" by {
      assert ("model_reasoning_effort=" + reasoning)[0] == 'm';
    }
    assert "skills" !in FixedArgs;
    assert "skills" !in base;
  }

  /** The default arguments: a missing or blank override selects gpt-5.1-codex and
      reasoning effort "high", otherwise the trimmed override; "--sandbox" and the
      network-access setting appear exactly when the sandbox is not bypassed; the
      skills flag appears exactly for versions below 0.80.0. */
  lemma DefaultArgsFacts(m: Option<string>, r: Option<string>, v: Option<string>, bypass: bool)
    ensures ModelFlagPrefix + OverrideOr(m, DefaultModel) in DefaultArgs(m, r, v, bypass)
    ensures "model_reasoning_effort=" + OverrideOr(r, DefaultReasoning) in DefaultArgs(m, r, v, bypass)
    ensures "--sandbox" in DefaultArgs(m, r, v, bypass) <==> !bypass
    ensures NetworkAccess in DefaultArgs(m, r, v, bypass) <==> !bypass
    ensures HasSkillsFlag(DefaultArgs(m, r, v, bypass)) <==>
      (ParseVersion(v).Some? && CompareVersions(ParseVersion(v).value, Threshold) == Less)
  {
    var model, reasoning := OverrideOr(m, DefaultModel), OverrideOr(r, DefaultReasoning);
    var enable := ShouldEnableSkillsFlag(v);
    ModelAndReasoningPresent(model, reasoning, enable, bypass);
    BypassOmitsSandbox(model, reasoning, enable, bypass);
    SkillsPresentIffEnabled(model, reasoning, enable, bypass);
    SkipFlagRule(v);
  }
}
