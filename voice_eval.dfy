/** The voice-evaluation tool's text handling: option lists, model-token
    resolution, the de-duplicated target list, transcript normalisation and
    the edit distance behind the word and character error rates. */
module VoiceEval {
  import opened Common

  datatype ModelTarget = ModelTarget(id: string, modelName: string, fileName: string)

  // ---------------------------------------------------------------------
  // Comma-separated options

  /** The trimmed, non-empty pieces, in order. */
  function CleanTokens(pieces: seq<string>): (r: seq<string>)
    ensures |r| <= |pieces|
    ensures forall k :: 0 <= k < |r| ==> r[k] != [] && Trim(r[k]) == r[k]
  {
    if pieces == [] then []
    else
      TrimIdempotent(pieces[0]);
      var t := Trim(pieces[0]);
      (if t == [] then [] else [t]) + CleanTokens(pieces[1..])
  }

  /** `parse_csv`: split at ',', trim each token and drop the empty ones. */
  function ParseCsv(value: string): (r: seq<string>)
    ensures forall k :: 0 <= k < |r| ==> r[k] != [] && Trim(r[k]) == r[k] && ',' !in r[k]
  {
    var pieces := Split(value, ',');
    CleanTokensNoSep(pieces);
    CleanTokens(pieces)
  }

  lemma {:induction false} CleanTokensNoSep(pieces: seq<string>)
    requires forall k :: 0 <= k < |pieces| ==> ',' !in pieces[k]
    ensures forall k :: 0 <= k < |CleanTokens(pieces)| ==> ',' !in CleanTokens(pieces)[k]
  {
    if pieces != [] {
      CleanTokensNoSep(pieces[1..]);
      var t := Trim(pieces[0]);
      TrimStartIsSuffix(pieces[0]);
      TrimEndIsPrefix(TrimStart(pieces[0]));
      assert forall c :: c in t ==> c in TrimStart(pieces[0]);
      assert forall c :: c in TrimStart(pieces[0]) ==> c in pieces[0];
    }
  }

  lemma {:induction false} SplitJoinChar(tokens: seq<string>, sep: char)
    requires |tokens| >= 1
    requires forall k :: 0 <= k < |tokens| ==> sep !in tokens[k]
    ensures Split(JoinChar(tokens, sep), sep) == tokens
  {
    if |tokens| == 1 {
      assert FindChar(tokens[0], sep).None?;
    } else {
      SplitJoinChar(tokens[1..], sep);
      SplitCons(tokens[0], sep, JoinChar(tokens[1..], sep));
      assert tokens == [tokens[0]] + tokens[1..];
    }
  }

  lemma {:induction false} CleanTokensOfClean(tokens: seq<string>)
    requires forall k :: 0 <= k < |tokens| ==> tokens[k] != [] && Trim(tokens[k]) == tokens[k]
    ensures CleanTokens(tokens) == tokens
  {
    if tokens != [] {
      CleanTokensOfClean(tokens[1..]);
      assert tokens == [tokens[0]] + tokens[1..];
    }
  }

  /** Trimmed, non-empty tokens without commas survive a join and a parse unchanged. */
  lemma ParseCsvJoin(tokens: seq<string>)
    requires |tokens| >= 1
    requires forall k :: 0 <= k < |tokens| ==> tokens[k] != [] && Trim(tokens[k]) == tokens[k] && ',' !in tokens[k]
    ensures ParseCsv(JoinChar(tokens, ',')) == tokens
  {
    SplitJoinChar(tokens, ',');
    CleanTokensOfClean(tokens);
  }

  // ---------------------------------------------------------------------
  // Target list

  /** No two targets share an id. */
  predicate UniqueIds(targets: seq<ModelTarget>)
  {
    forall i, j :: 0 <= i < j < |targets| ==> targets[i].id != targets[j].id
  }

  predicate HasId(targets: seq<ModelTarget>, id: string)
  {
    exists k :: 0 <= k < |targets| && targets[k].id == id
  }

  /** `push_unique_target`: append the target unless one with its id is present. */
  method PushUniqueTarget(targets: seq<ModelTarget>, target: ModelTarget) returns (r: seq<ModelTarget>)
    ensures HasId(targets, target.id) ==> r == targets
    ensures !HasId(targets, target.id) ==> r == targets + [target]
    ensures UniqueIds(targets) ==> UniqueIds(r)
    ensures HasId(r, target.id)
  {
    var k := 0;
    while k < |targets|
      invariant 0 <= k <= |targets|
      invariant forall m :: 0 <= m < k ==> targets[m].id != target.id
    {
      if targets[k].id == target.id {
        return targets;
      }
      k := k + 1;
    }
    r := targets + [target];
    assert r[|targets|].id == target.id;
  }

  /** Pushing each resolved target in turn, as the option parser does. */
  method PushAllTargets(targets: seq<ModelTarget>, resolved: seq<ModelTarget>) returns (r: seq<ModelTarget>)
    requires UniqueIds(targets)
    ensures UniqueIds(r)
    ensures |targets| <= |r| && r[..|targets|] == targets
    ensures forall k :: 0 <= k < |resolved| ==> HasId(r, resolved[k].id)
    ensures forall k :: 0 <= k < |r| ==> HasId(targets, r[k].id) || HasId(resolved, r[k].id)
  {
    r := targets;
    var i := 0;
    while i < |resolved|
      invariant 0 <= i <= |resolved|
      invariant UniqueIds(r)
      invariant |targets| <= |r| && r[..|targets|] == targets
      invariant forall k :: 0 <= k < i ==> HasId(r, resolved[k].id)
      invariant forall k :: 0 <= k < |r| ==> HasId(targets, r[k].id) || HasId(resolved, r[k].id)
    {
      var before := r;
      r := PushUniqueTarget(r, resolved[i]);
      assert r[..|before|] == before;
      forall k | 0 <= k < i
        ensures HasId(r, resolved[k].id)
      {
        var m :| 0 <= m < |before| && before[m].id == resolved[k].id;
        assert r[m] == before[m];
      }
      forall k | 0 <= k < |r|
        ensures HasId(targets, r[k].id) || HasId(resolved, r[k].id)
      {
        if k == |before| {
          assert r[k] == resolved[i];
        } else {
          assert r[k] == before[k];
        }
      }
      i := i + 1;
    }
  }

  // ---------------------------------------------------------------------
  // Model tokens

  /** The model names `resolve_model_alias` knows; each file is "ggml-<name>.bin". */
  const MODEL_ALIASES: seq<string> := [
    "tiny", "base", "small", "medium", "large-v3", "large-v3-turbo",
    "medium-q5_0", "large-v3-q5_0", "large-v3-turbo-q5_0",
    "medium-q8_0", "large-v3-turbo-q8_0"]

  function DirectModelTarget(id: string, fileName: string): ModelTarget
  {
    ModelTarget(id, id, fileName)
  }

  /** `resolve_model_alias` on an already normalised token. */
  function ResolveModelAlias(normalized: string): (r: Option<ModelTarget>)
    ensures r.Some? <==> normalized in MODEL_ALIASES
    ensures r.Some? ==> r.value.id == r.value.modelName == normalized && r.value.fileName == "ggml-" + normalized + ".bin"
  {
    if normalized in MODEL_ALIASES then Some(DirectModelTarget(normalized, "ggml-" + normalized + ".bin")) else None
  }

  /** `resolve_quality_token` on an already normalised token: the three quality presets. */
  function ResolveQualityToken(normalized: string): (r: Option<ModelTarget>)
    ensures r.Some? <==> normalized in ["fast", "balanced", "accurate"]
    ensures r.Some? ==> r.value.id == normalized && r.value.modelName in ["tiny", "base", "small"]
  {
    if normalized == "fast" then Some(ModelTarget("fast", "tiny", "ggml-tiny.bin"))
    else if normalized == "balanced" then Some(ModelTarget("balanced", "base", "ggml-base.bin"))
    else if normalized == "accurate" then Some(ModelTarget("accurate", "small", "ggml-small.bin"))
    else None
  }

  /** `trim_end_matches(p)`: drop every trailing copy of `p`. */
  function TrimEndMatches(s: string, p: string): (r: string)
    requires p != []
    ensures |r| <= |s| && r == s[..|r|]
    ensures !EndsWith(r, p)
  {
    if EndsWith(s, p) then TrimEndMatches(s[..|s| - |p|], p) else s
  }

  predicate IsModelNameChar(c: char) { IsAlnum(c) || c == '-' || c == '_' || c == '.' }

  const POPULAR: seq<ModelTarget> := [
    DirectModelTarget("medium", "ggml-medium.bin"),
    DirectModelTarget("large-v3-turbo", "ggml-large-v3-turbo.bin"),
    DirectModelTarget("large-v3", "ggml-large-v3.bin")]

  const POPULAR_LITE: seq<ModelTarget> := [
    DirectModelTarget("medium-q5_0", "ggml-medium-q5_0.bin"),
    DirectModelTarget("large-v3-turbo-q5_0", "ggml-large-v3-turbo-q5_0.bin"),
    DirectModelTarget("large-v3-q5_0", "ggml-large-v3-q5_0.bin")]

  /**
   * `resolve_model_token`: a preset, an alias, a quality name, a
   * "ggml-<name>.bin" file, or a bare model name; anything else is an error.
   */
  function ResolveModelToken(token: string): (r: Result<seq<ModelTarget>, string>)
    ensures r.Ok? && r.value == [] <==> IsBlank(token)
    ensures r.Ok? ==> forall k :: 0 <= k < |r.value| ==> r.value[k].id == r.value[k].modelName
    ensures r.Err? ==> r.error == "Unknown model token: " + token
  {
    var normalized := ToLower(Trim(token));
    var r := ResolveNormalized(normalized);
    if r.Some? then Ok(r.value) else Err("Unknown model token: " + token)
  }

  /** The body of `resolve_model_token` after trimming and lowercasing; None is the unknown-token error. */
  function ResolveNormalized(normalized: string): (r: Option<seq<ModelTarget>>)
    ensures r.Some? && r.value == [] <==> normalized == []
    ensures r.Some? ==> forall k :: 0 <= k < |r.value| ==> r.value[k].id == r.value[k].modelName
  {
    if normalized == [] then Some([])
    else if normalized == "popular" then Some(POPULAR)
    else if normalized == "popular-lite" then Some(POPULAR_LITE)
    else if ResolveModelAlias(normalized).Some? then Some([ResolveModelAlias(normalized).value])
    else if ResolveQualityToken(normalized).Some? then
      var target := ResolveQualityToken(normalized).value;
      Some([ModelTarget(target.modelName, target.modelName, target.fileName)])
    else if StartsWith(normalized, "ggml-") && EndsWith(normalized, ".bin") then
      var modelName := TrimEndMatches(TrimStartMatches(normalized, "ggml-"), ".bin");
      Some([ModelTarget(modelName, modelName, normalized)])
    else if forall k :: 0 <= k < |normalized| ==> IsModelNameChar(normalized[k]) then
      Some([ModelTarget(normalized, normalized, "ggml-" + normalized + ".bin")])
    else None
  }

  /** The "popular" preset is medium, large-v3-turbo and large-v3, in that order, each with its ggml file. */
  lemma PopularPreset(token: string)
    requires ToLower(Trim(token)) == "popular"
    ensures ResolveModelToken(token).Ok?
    ensures var r := ResolveModelToken(token).value;
      && |r| == 3
      && r[0].id == "medium" && r[1].id == "large-v3-turbo" && r[2].id == "large-v3"
  {
  }

  /** No preset, alias or quality name starts with 'g'. */
  lemma NotNamedPreset(s: string)
    requires s != [] && s[0] == 'g'
    ensures s != "popular" && s != "popular-lite"
    ensures ResolveModelAlias(s).None? && ResolveQualityToken(s).None?
  {
  }

  lemma StripGgml(name: string)
    requires !StartsWith(name + ".bin", "ggml-")
    ensures TrimStartMatches("ggml-" + name + ".bin", "ggml-") == name + ".bin"
  {
    var token := "ggml-" + name + ".bin";
    assert token[..5] == "ggml-";
    assert token[5..] == name + ".bin";
  }

  lemma StripBin(name: string)
    requires !EndsWith(name, ".bin")
    ensures TrimEndMatches(name + ".bin", ".bin") == name
  {
    var s := name + ".bin";
    assert s[|s| - 4..] == ".bin";
    assert s[..|s| - 4] == name;
  }

  /** A normalised "ggml-…bin" token takes the file branch. */
  lemma GgmlBranch(normalized: string)
    requires StartsWith(normalized, "ggml-") && EndsWith(normalized, ".bin")
    ensures var modelName := TrimEndMatches(TrimStartMatches(normalized, "ggml-"), ".bin");
      ResolveNormalized(normalized) == Some([ModelTarget(modelName, modelName, normalized)])
  {
    NotNamedPreset(normalized);
  }

  /** The file token is already trimmed and lowercase. */
  lemma GgmlTokenNormal(name: string)
    requires forall i :: 0 <= i < |name| ==> !IsUpper(name[i])
    ensures var token := "ggml-" + name + ".bin"; ToLower(Trim(token)) == token
  {
    var token := "ggml-" + name + ".bin";
    assert TrimStart(token) == token;
    assert TrimEnd(token) == token;
    assert forall i :: 0 <= i < |token| ==> !IsUpper(token[i]) by {
      forall i | 0 <= i < |token|
        ensures !IsUpper(token[i])
      {
        if 5 <= i < 5 + |name| {
          assert token[i] == name[i - 5];
        }
      }
    }
    LowercaseUnchanged(token);
  }

  /** "ggml-<name>.bin" resolves to id and model <name>, keeping the file name as given. */
  lemma GgmlFileToken(name: string)
    requires !StartsWith(name, "ggml-") && !EndsWith(name, ".bin")
    requires forall i :: 0 <= i < |name| ==> !IsUpper(name[i])
    ensures ResolveModelToken("ggml-" + name + ".bin") == Ok([ModelTarget(name, name, "ggml-" + name + ".bin")])
  {
    var token := "ggml-" + name + ".bin";
    GgmlTokenNormal(name);
    StripAffixes(name);
    GgmlTokenAffixes(name);
    GgmlBranch(token);
  }

  lemma GgmlTokenAffixes(name: string)
    ensures StartsWith("ggml-" + name + ".bin", "ggml-") && EndsWith("ggml-" + name + ".bin", ".bin")
  {
    AppendAffixes("ggml-", name + ".bin");
    AppendAffixes("ggml-" + name, ".bin");
    assert "ggml-" + name + ".bin" == "ggml-" + (name + ".bin");
  }

  /** Stripping the prefix and the suffix of "ggml-<name>.bin" leaves <name>. */
  lemma StripAffixes(name: string)
    requires !StartsWith(name, "ggml-") && !EndsWith(name, ".bin")
    ensures TrimEndMatches(TrimStartMatches("ggml-" + name + ".bin", "ggml-"), ".bin") == name
  {
    assert !StartsWith(name + ".bin", "ggml-") by {
      if |name| >= 5 {
        assert (name + ".bin")[..5] == name[..5];
      } else {
        assert (name + ".bin")[|name|] == '.';
      }
    }
    StripGgml(name);
    StripBin(name);
  }

  // ---------------------------------------------------------------------
  // Text normalisation

  /** The CJK ranges kept by `is_cjk`: kana, extension A, unified and compatibility ideographs, halfwidth katakana. */
  predicate IsCjk(c: char)
  {
    var n := c as int;
    (0x3040 <= n <= 0x30ff) || (0x3400 <= n <= 0x4dbf) || (0x4e00 <= n <= 0x9fff)
    || (0xf900 <= n <= 0xfaff) || (0xff66 <= n <= 0xff9f)
  }

  /** A character `normalize_text` keeps as it is. */
  predicate IsWordChar(c: char) { !IsSpace(c) && (IsAlnum(c) || IsCjk(c)) }

  /** Whitespace and punctuation become a space; letters, digits and CJK stay. */
  function MapChar(c: char): (m: char)
    ensures m == ' ' || (m == c && IsWordChar(c))
  {
    if IsSpace(c) then ' ' else if IsAlnum(c) || IsCjk(c) then c else ' '
  }

  predicate NoDoubleSpace(s: string)
  {
    forall i :: 0 <= i < |s| - 1 ==> !(s[i] == ' ' && s[i + 1] == ' ')
  }

  /** The loop of `normalize_text`: map each character, writing no space right after a space. */
  function Collapse(s: string): (r: string)
    ensures NoDoubleSpace(r)
    ensures forall i :: 0 <= i < |r| ==> r[i] == ' ' || IsWordChar(r[i])
    ensures (forall i :: 0 <= i < |s| ==> !IsUpper(s[i])) ==> forall i :: 0 <= i < |r| ==> !IsUpper(r[i])
  {
    if s == [] then []
    else
      var prev := Collapse(s[..|s| - 1]);
      var m := MapChar(s[|s| - 1]);
      if m == ' ' then (if prev != [] && prev[|prev| - 1] == ' ' then prev else prev + [' '])
      else prev + [m]
  }

  /** Trimming keeps a contiguous slice of the string. */
  lemma TrimSlice(s: string)
    ensures var lo := |s| - |TrimStart(s)|; lo + |Trim(s)| <= |s| && Trim(s) == s[lo..lo + |Trim(s)|]
  {
    TrimStartIsSuffix(s);
    TrimEndIsPrefix(TrimStart(s));
  }

  /** `normalize_text`: lower-case, map, collapse spaces, trim. */
  method NormalizeText(text: string) returns (r: string)
    ensures r == Trim(Collapse(ToLower(text)))
    ensures Trim(r) == r
    ensures NoDoubleSpace(r)
    ensures forall i :: 0 <= i < |r| ==> !IsUpper(r[i])
    ensures forall i :: 0 <= i < |r| ==> r[i] == ' ' || IsWordChar(r[i])
  {
    var lowered := ToLower(text);
    var out := CollapseLoop(lowered);
    r := Trim(out);
    TrimIdempotent(out);
    TrimSlice(out);
  }

  /** Text with single spaces and only word characters is its own collapse. */
  lemma {:induction false} CollapseFixed(s: string)
    requires NoDoubleSpace(s)
    requires forall i :: 0 <= i < |s| ==> s[i] == ' ' || IsWordChar(s[i])
    ensures Collapse(s) == s
  {
    if s != [] {
      var init := s[..|s| - 1];
      assert NoDoubleSpace(init) by {
        forall i | 0 <= i < |init| - 1
          ensures !(init[i] == ' ' && init[i + 1] == ' ')
        {
          assert init[i] == s[i] && init[i + 1] == s[i + 1];
        }
      }
      CollapseFixed(init);
      assert s == init + [s[|s| - 1]];
      if s[|s| - 1] == ' ' && init != [] {
        assert init[|init| - 1] == s[|s| - 2];
      }
    }
  }

  /** Normalising the output of `normalize_text` again changes nothing. */
  lemma NormalizeTextIdempotent(text: string)
    ensures var r := Trim(Collapse(ToLower(text))); Trim(Collapse(ToLower(r))) == r
  {
    var c := Collapse(ToLower(text));
    var r := Trim(c);
    TrimSlice(c);
    TrimIdempotent(c);
    var lo := |c| - |TrimStart(c)|;
    assert forall i :: 0 <= i < |r| ==> r[i] == c[lo + i];
    LowercaseUnchanged(r);
    CollapseFixed(r);
  }

  /** The character loop of `normalize_text`, tracking whether the last character written was a space. */
  method CollapseLoop(lowered: string) returns (out: string)
    ensures out == Collapse(lowered)
  {
    out := [];
    var lastSpace := false;
    var i := 0;
    while i < |lowered|
      invariant 0 <= i <= |lowered|
      invariant out == Collapse(lowered[..i])
      invariant lastSpace <==> out != [] && out[|out| - 1] == ' '
    {
      assert lowered[..i + 1][..i] == lowered[..i];
      var ch := lowered[i];
      var mapped := if IsSpace(ch) then ' ' else if IsAlnum(ch) || IsCjk(ch) then ch else ' ';
      if mapped == ' ' {
        if !lastSpace {
          out := out + [' '];
          lastSpace := true;
        }
      } else {
        out := out + [mapped];
        lastSpace := false;
      }
      i := i + 1;
    }
    assert lowered[..i] == lowered;
  }

  // ---------------------------------------------------------------------
  // Edit distance

  /** The Levenshtein distance, by the recurrence on the last elements. */
  function EditDistance<T(==)>(a: seq<T>, b: seq<T>): (r: nat)
    decreases |a| + |b|
  {
    if a == [] then |b|
    else if b == [] then |a|
    else
      var a', b' := a[..|a| - 1], b[..|b| - 1];
      var cost := if a[|a| - 1] == b[|b| - 1] then 0 else 1;
      Min(Min(EditDistance(a, b') + 1, EditDistance(a', b) + 1), EditDistance(a', b') + cost)
  }

  /** A sequence is at distance 0 from itself. */
  lemma {:induction false} EditDistanceSelf<T>(a: seq<T>)
    ensures EditDistance(a, a) == 0
  {
    if a != [] {
      EditDistanceSelf(a[..|a| - 1]);
    }
  }

  /** The distance to the empty sequence is the length. */
  lemma EditDistanceEmpty<T>(a: seq<T>)
    ensures EditDistance(a, []) == |a| && EditDistance([], a) == |a|
  {
  }

  /** The distance does not depend on the order of its arguments. */
  lemma {:induction false} EditDistanceSymmetric<T>(a: seq<T>, b: seq<T>)
    ensures EditDistance(a, b) == EditDistance(b, a)
    decreases |a| + |b|
  {
    if a != [] && b != [] {
      EditDistanceSymmetric(a, b[..|b| - 1]);
      EditDistanceSymmetric(a[..|a| - 1], b);
      EditDistanceSymmetric(a[..|a| - 1], b[..|b| - 1]);
    }
  }

  /** The distance never exceeds the longer length. */
  lemma {:induction false} EditDistanceUpper<T>(a: seq<T>, b: seq<T>)
    ensures EditDistance(a, b) <= Max(|a|, |b|)
    decreases |a| + |b|
  {
    if a != [] && b != [] {
      EditDistanceUpper(a[..|a| - 1], b[..|b| - 1]);
    }
  }

  /** The distance is at least the difference of the lengths. */
  lemma {:induction false} EditDistanceLower<T>(a: seq<T>, b: seq<T>)
    ensures EditDistance(a, b) >= |a| - |b| && EditDistance(a, b) >= |b| - |a|
    decreases |a| + |b|
  {
    if a != [] && b != [] {
      EditDistanceLower(a[..|a| - 1], b);
      EditDistanceLower(a, b[..|b| - 1]);
      EditDistanceLower(a[..|a| - 1], b[..|b| - 1]);
    }
  }

  /** Row `i` of the programme: the distances from `left[..i]` to every prefix of `right`. */
  ghost function Row<T>(left: seq<T>, right: seq<T>, i: nat): (r: seq<nat>)
    requires i <= |left|
    ensures |r| == |right| + 1
  {
    seq(|right| + 1, k requires 0 <= k <= |right| => EditDistance(left[..i], right[..k]))
  }

  /** `levenshtein`: the two-row dynamic programme, swapping the rows after each element of `left`. */
  method Levenshtein<T(==)>(left: seq<T>, right: seq<T>) returns (d: nat)
    ensures d == EditDistance(left, right)
  {
    if |left| == 0 {
      return |right|;
    }
    if |right| == 0 {
      return |left|;
    }
    var prev := new nat[|right| + 1](j => j);
    var curr := new nat[|right| + 1];
    forall k | 0 <= k <= |right|
      ensures prev[k] == Row(left, right, 0)[k]
    {
      assert left[..0] == [];
      EditDistanceEmpty(right[..k]);
    }
    var i := 0;
    while i < |left|
      invariant 0 <= i <= |left|
      invariant fresh(prev) && fresh(curr)
      invariant prev != curr && prev.Length == curr.Length == |right| + 1
      invariant prev[..] == Row(left, right, i)
    {
      FillRow(left, right, i, prev, curr);
      prev, curr := curr, prev;
      i := i + 1;
    }
    assert left[..i] == left && right[..|right|] == right;
    return prev[|right|];
  }

  /** The inner loop: row `i + 1` of the programme from row `i`. */
  method FillRow<T(==)>(left: seq<T>, right: seq<T>, i: nat, prev: array<nat>, curr: array<nat>)
    requires i < |left|
    requires prev != curr && prev.Length == curr.Length == |right| + 1
    requires prev[..] == Row(left, right, i)
    modifies curr
    ensures curr[..] == Row(left, right, i + 1)
  {
    ghost var last := Row(left, right, i);
    ghost var next := Row(left, right, i + 1);
    RowFirst(left, right, i);
    curr[0] := i + 1;
    var j := 0;
    while j < |right|
      invariant 0 <= j <= |right|
      invariant forall k :: 0 <= k <= j ==> curr[k] == next[k]
    {
      var cost := if left[i] == right[j] then 0 else 1;
      var insert := curr[j] + 1;
      var delete := prev[j + 1] + 1;
      var substitute := prev[j] + cost;
      assert prev[j] == last[j] && prev[j + 1] == last[j + 1];
      RowStep(left, right, i, j);
      curr[j + 1] := Min(Min(insert, delete), substitute);
      j := j + 1;
    }
  }

  /** The first cell of a row: `i` deletions. */
  lemma RowFirst<T>(left: seq<T>, right: seq<T>, i: nat)
    requires i < |left|
    ensures Row(left, right, i + 1)[0] == i + 1
  {
    assert right[..0] == [];
    EditDistanceEmpty(left[..i + 1]);
  }

  /** One cell of the programme from the three cells before it. */
  lemma RowStep<T>(left: seq<T>, right: seq<T>, i: nat, j: nat)
    requires i < |left| && j < |right|
    ensures var last, next := Row(left, right, i), Row(left, right, i + 1);
      next[j + 1] == Min(Min(next[j] + 1, last[j + 1] + 1), last[j] + (if left[i] == right[j] then 0 else 1))
  {
    DistanceStep(left, right, i, j);
  }

  /** One cell of the programme unfolds the recurrence. */
  lemma DistanceStep<T>(left: seq<T>, right: seq<T>, i: nat, j: nat)
    requires i < |left| && j < |right|
    ensures EditDistance(left[..i + 1], right[..j + 1]) ==
      Min(Min(EditDistance(left[..i + 1], right[..j]) + 1, EditDistance(left[..i], right[..j + 1]) + 1),
          EditDistance(left[..i], right[..j]) + (if left[i] == right[j] then 0 else 1))
  {
    var a, b := left[..i + 1], right[..j + 1];
    assert a[..|a| - 1] == left[..i] && b[..|b| - 1] == right[..j];
    assert a[|a| - 1] == left[i] && b[|b| - 1] == right[j];
  }
}
