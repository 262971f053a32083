/** The string handling of the project commands: which clone URLs name a
    GitHub repository, and how `git clone --progress` lines become a stage
    and a percentage. */
module ProjectCommands {
  import opened Common

  // ---------------------------------------------------------------------
  // GitHub repository URLs

  /** The four accepted URL heads, tried in this order. */
  const GITHUB_PREFIXES: seq<string> := [
    "https://github.com/", "http://github.com/", "git@github.com:", "ssh://git@github.com/"]

  /** `is_valid_github_segment`: ASCII letters, digits, '-', '_' and '.'. */
  predicate IsValidSegment(seg: string)
  {
    forall i :: 0 <= i < |seg| ==> IsAlnum(seg[i]) || seg[i] == '-' || seg[i] == '_' || seg[i] == '.'
  }

  /**
   * A decomposed repository URL: which head, the owner, the repository
   * name without ".git", whether ".git" followed it and how many '/' ended it.
   */
  datatype RepoUrl = RepoUrl(head: nat, owner: string, repo: string, gitSuffix: bool, slashes: nat)

  /** The parts a URL accepted by `is_valid_github_repo_url` can have. */
  predicate WellFormed(u: RepoUrl)
  {
    && u.head < |GITHUB_PREFIXES|
    && u.owner != [] && IsValidSegment(u.owner)
    && u.repo != [] && IsValidSegment(u.repo)
    && (!u.gitSuffix ==> !EndsWith(u.repo, ".git"))
  }

  function Slashes(n: nat): (r: string)
    ensures |r| == n && forall i :: 0 <= i < n ==> r[i] == '/'
  {
    seq(n, _ => '/')
  }

  /** The repository name as written, with ".git" when it had it. */
  function RepoName(u: RepoUrl): string
  {
    u.repo + (if u.gitSuffix then ".git" else "")
  }

  /** The path of a decomposed URL, after its head. */
  function RenderPath(u: RepoUrl): string
  {
    u.owner + "/" + RepoName(u) + Slashes(u.slashes)
  }

  /** The text of a decomposed URL. */
  function Render(u: RepoUrl): string
    requires u.head < |GITHUB_PREFIXES|
  {
    GITHUB_PREFIXES[u.head] + RenderPath(u)
  }

  /** The first head, from `k` on, that `t` starts with, and the text after it. */
  function MatchHead(t: string, k: nat): (r: Option<(nat, string)>)
    requires k <= |GITHUB_PREFIXES|
    ensures r.Some? ==> k <= r.value.0 < |GITHUB_PREFIXES| && t == GITHUB_PREFIXES[r.value.0] + r.value.1
    ensures r.Some? ==> forall h :: k <= h < r.value.0 ==> !StartsWith(t, GITHUB_PREFIXES[h])
    ensures r.None? <==> forall h :: k <= h < |GITHUB_PREFIXES| ==> !StartsWith(t, GITHUB_PREFIXES[h])
    decreases |GITHUB_PREFIXES| - k
  {
    if k == |GITHUB_PREFIXES| then None
    else if StartsWith(t, GITHUB_PREFIXES[k]) then
      Some((k, t[|GITHUB_PREFIXES[k]|..]))
    else MatchHead(t, k + 1)
  }

  /** Two pieces from `split('/')` are the text around its only '/'. */
  lemma SplitTwo(s: string)
    requires |Split(s, '/')| == 2
    ensures s == Split(s, '/')[0] + "/" + Split(s, '/')[1]
  {
    var i := FindChar(s, '/').value;
    assert Split(s[i + 1..], '/') == [s[i + 1..]];
    assert s == s[..i] + "/" + s[i + 1..];
  }

  /** Removing the trailing '/' characters leaves the text before them. */
  lemma TrimEndSlashes(s: string)
    ensures s == TrimEndChar(s, '/') + Slashes(|s| - |TrimEndChar(s, '/')|)
  {
    var t := TrimEndChar(s, '/');
    assert s == t + s[|t|..];
  }

  /** `strip_suffix(".git").unwrap_or(repo)`: the name and whether ".git" was removed. */
  function StripGit(name: string): (r: (string, bool))
    ensures name == r.0 + (if r.1 then ".git" else "")
    ensures r.1 <==> EndsWith(name, ".git")
  {
    if EndsWith(name, ".git") then (name[..|name| - 4], true) else (name, false)
  }

  /** The checks on the owner and the repository name. */
  function ParsePair(head: nat, owner: string, name: string, slashes: nat): (r: Option<RepoUrl>)
    requires head < |GITHUB_PREFIXES|
    ensures r.Some? ==> WellFormed(r.value)
    ensures r.Some? ==> r.value.head == head && r.value.owner == owner && r.value.slashes == slashes
    ensures r.Some? ==> name == RepoName(r.value)
  {
    if owner == [] || name == [] || !IsValidSegment(owner) then None
    else
      var stripped := StripGit(name);
      if stripped.0 == [] || !IsValidSegment(stripped.0) then None
      else Some(RepoUrl(head, owner, stripped.0, stripped.1, slashes))
  }

  /** The path checks of `is_valid_github_repo_url`, after the head. */
  function ParsePath(head: nat, rest: string): (r: Option<RepoUrl>)
    requires head < |GITHUB_PREFIXES|
    ensures r.Some? ==> WellFormed(r.value) && r.value.head == head && rest == RenderPath(r.value)
  {
    var body := TrimEndChar(rest, '/');
    var parts := Split(body, '/');
    if |parts| != 2 then None
    else
      var r := ParsePair(head, parts[0], parts[1], |rest| - |body|);
      if r.Some? then
        PathOfPair(rest, body, parts[0], parts[1], r.value);
        r
      else None
  }

  lemma PathOfPair(rest: string, body: string, owner: string, name: string, u: RepoUrl)
    requires body == TrimEndChar(rest, '/') && Split(body, '/') == [owner, name]
    requires u.owner == owner && u.slashes == |rest| - |body|
    requires name == RepoName(u)
    ensures rest == RenderPath(u)
  {
    SplitTwo(body);
    TrimEndSlashes(rest);
  }

  /**
   * `is_valid_github_repo_url` on the trimmed URL, keeping the parts it
   * checked; None where the source returns false.
   */
  function ParseTrimmed(t: string): (r: Option<RepoUrl>)
    ensures r.Some? ==> WellFormed(r.value) && t == Render(r.value)
    ensures r.Some? ==> '?' !in t && '#' !in t
  {
    if t == [] then None
    else if '?' in t || '#' in t then None
    else match MatchHead(t, 0)
      case None => None
      case Some((head, rest)) => ParsePath(head, rest)
  }

  /** `is_valid_github_repo_url`: the URL is trimmed first. */
  function ParseGithubRepoUrl(url: string): (r: Option<RepoUrl>)
    ensures r.Some? ==> WellFormed(r.value) && Trim(url) == Render(r.value)
  {
    ParseTrimmed(Trim(url))
  }

  predicate IsValidGithubRepoUrl(url: string)
  {
    ParseGithubRepoUrl(url).Some?
  }

  /** No earlier head is a prefix of text that starts with a later one. */
  lemma HeadsDistinct(k: nat, x: string)
    requires k < |GITHUB_PREFIXES|
    ensures MatchHead(GITHUB_PREFIXES[k] + x, 0) == Some((k, x))
  {
    var t := GITHUB_PREFIXES[k] + x;
    assert t[..|GITHUB_PREFIXES[k]|] == GITHUB_PREFIXES[k];
    assert t[|GITHUB_PREFIXES[k]|..] == x;
    if k == 1 {
      assert t[4] == ':';
    } else if k == 2 {
      assert t[0] == 'g';
    } else if k == 3 {
      assert t[0] == 's';
    }
  }

  lemma NoQueryInSegment(seg: string)
    requires IsValidSegment(seg)
    ensures '?' !in seg && '#' !in seg && '/' !in seg
  {
  }

  lemma {:induction false} TrimEndSlashesOf(s: string, n: nat)
    requires s != [] && s[|s| - 1] != '/'
    ensures TrimEndChar(s + Slashes(n), '/') == s
  {
    if n > 0 {
      TrimEndSlashesOf(s, n - 1);
      var t := s + Slashes(n);
      assert t[..|t| - 1] == s + Slashes(n - 1);
    }
  }

  /** No head holds '?' or '#'. */
  lemma HeadsNoQuery(k: nat)
    requires k < |GITHUB_PREFIXES|
    ensures '?' !in GITHUB_PREFIXES[k] && '#' !in GITHUB_PREFIXES[k]
  {
  }

  lemma RenderNoQuery(u: RepoUrl)
    requires WellFormed(u)
    ensures '?' !in Render(u) && '#' !in Render(u)
  {
    HeadsNoQuery(u.head);
    NoQueryInSegment(u.owner);
    NoQueryInSegment(u.repo);
  }

  /** The path of a well-formed decomposition is read back by the path checks. */
  lemma ParsePathRender(u: RepoUrl)
    requires WellFormed(u)
    ensures ParsePath(u.head, RenderPath(u)) == Some(u)
  {
    var body := u.owner + "/" + RepoName(u);
    PathTrim(u);
    PathSplit(u);
    assert |RenderPath(u)| - |body| == u.slashes;
    PairOfName(u);
  }

  lemma PathTrim(u: RepoUrl)
    requires WellFormed(u)
    ensures TrimEndChar(RenderPath(u), '/') == u.owner + "/" + RepoName(u)
  {
    var name := RepoName(u);
    var body := u.owner + "/" + name;
    assert name[|name| - 1] != '/';
    TrimEndSlashesOf(body, u.slashes);
  }

  lemma PathSplit(u: RepoUrl)
    requires WellFormed(u)
    ensures Split(u.owner + "/" + RepoName(u), '/') == [u.owner, RepoName(u)]
  {
    var name := RepoName(u);
    NoQueryInSegment(u.owner);
    NoQueryInSegment(u.repo);
    SplitCons(u.owner, '/', name);
    assert '/' !in name;
    assert Split(name, '/') == [name];
  }

  /** The owner and the written name of a well-formed decomposition pass the pair checks. */
  lemma PairOfName(u: RepoUrl)
    requires WellFormed(u)
    ensures ParsePair(u.head, u.owner, RepoName(u), u.slashes) == Some(u)
  {
    var name := RepoName(u);
    if u.gitSuffix {
      assert name[|name| - 4..] == ".git";
      assert name[..|name| - 4] == u.repo;
    } else {
      assert name == u.repo;
    }
    assert StripGit(name) == (u.repo, u.gitSuffix);
  }

  /** Every well-formed decomposition is read back from its text. */
  lemma ParseRender(u: RepoUrl)
    requires WellFormed(u)
    ensures ParseTrimmed(Render(u)) == Some(u)
  {
    RenderNoQuery(u);
    HeadsDistinct(u.head, RenderPath(u));
    ParsePathRender(u);
  }

  /** A URL is accepted exactly when, once trimmed, it is the text of a well-formed decomposition. */
  lemma ValidIffRendered(url: string, u: RepoUrl)
    requires WellFormed(u)
    ensures Trim(url) == Render(u) <==> ParseGithubRepoUrl(url) == Some(u)
  {
    if Trim(url) == Render(u) {
      ParseRender(u);
    }
  }

  /** A URL holding '?' or '#' is refused, whatever else it holds. */
  lemma QueryRejected(url: string)
    requires '?' in Trim(url) || '#' in Trim(url)
    ensures !IsValidGithubRepoUrl(url)
  {
  }

  /** An owner without a repository is refused, with or without trailing '/'. */
  lemma OwnerOnlyRejected(head: nat, owner: string, n: nat)
    requires head < |GITHUB_PREFIXES|
    requires '/' !in owner
    ensures ParsePath(head, owner + Slashes(n)) == None
  {
    var rest := owner + Slashes(n);
    var body := TrimEndChar(rest, '/');
    assert body == rest[..|body|];
    assert '/' !in body by {
      if |body| <= |owner| {
        assert body == owner[..|body|];
      }
    }
  }

  /** A path with a third segment is refused. */
  lemma ThirdSegmentRejected(head: nat, owner: string, repo: string, extra: string)
    requires head < |GITHUB_PREFIXES|
    requires '/' !in owner && '/' !in repo
    requires extra != [] && extra[|extra| - 1] != '/'
    ensures ParsePath(head, owner + "/" + repo + "/" + extra) == None
  {
    var rest := owner + "/" + repo + "/" + extra;
    assert TrimEndChar(rest, '/') == rest;
    assert rest == owner + "/" + (repo + "/" + extra);
    SplitCons(owner, '/', repo + "/" + extra);
    SplitCons(repo, '/', extra);
  }

  // ---------------------------------------------------------------------
  // Clone progress

  /** The end of the digit run starting at `j`. */
  function RunEnd(s: string, j: nat): (r: nat)
    requires j <= |s|
    ensures j <= r <= |s|
    ensures forall k :: j <= k < r ==> IsDigit(s[k])
    ensures r == |s| || !IsDigit(s[r])
    decreases |s| - j
  {
    if j < |s| && IsDigit(s[j]) then RunEnd(s, j + 1) else j
  }

  /** Position `i` is not inside a run of digits. */
  predicate AtRunBoundary(s: string, i: nat)
  {
    i == 0 || i >= |s| || !IsDigit(s[i - 1]) || !IsDigit(s[i])
  }

  /** A whole digit run `s[st..j]` of value `n` <= 100 directly followed by '%'. */
  ghost predicate PercentAt(s: string, st: nat, j: nat, n: nat)
  {
    && st < j < |s|
    && (st == 0 || !IsDigit(s[st - 1]))
    && (forall k :: st <= k < j ==> IsDigit(s[k]))
    && s[j] == '%'
    && DigitsValue(s[st..j]) == n && n <= 100
  }

  /** No percentage starts in `s[i..st]`. */
  ghost predicate NoPercentBefore(s: string, i: nat, st: nat)
  {
    forall a: nat, b: nat, m: nat :: i <= a < st ==> !PercentAt(s, a, b, m)
  }

  ghost predicate FirstPercent(s: string, i: nat, st: nat, j: nat, n: nat)
  {
    i <= st && PercentAt(s, st, j, n) && NoPercentBefore(s, i, st)
  }

  /**
   * `extract_percent` from position `i`: the first whole digit run directly
   * followed by '%' whose value parses as a u16 and is at most 100.
   */
  function PercentFrom(s: string, i: nat): (r: Option<nat>)
    requires i <= |s| && AtRunBoundary(s, i)
    ensures r.Some? ==> r.value <= 100 && exists st, j :: FirstPercent(s, i, st, j, r.value)
    ensures r.None? ==> NoPercentBefore(s, i, |s|)
    decreases |s| - i
  {
    if i == |s| then None
    else if IsDigit(s[i]) then
      var j := RunEnd(s, i + 1);
      var parsed := if j < |s| && s[j] == '%' then ParseUnsigned(s[i..j], U16_MAX) else None;
      if parsed.Some? && parsed.value <= 100 then
        RunIsPercent(s, i, j);
        Some(parsed.value)
      else
        RunIsNoPercent(s, i, j);
        var r := PercentFrom(s, j);
        FirstPercentLater(s, i, j, r);
        r
    else
      NotDigitNoPercent(s, i);
      var r := PercentFrom(s, i + 1);
      FirstPercentLater(s, i, i + 1, r);
      r
  }

  lemma RunIsPercent(s: string, i: nat, j: nat)
    requires i < j < |s| && AtRunBoundary(s, i) && IsDigit(s[i]) && s[j] == '%'
    requires forall k :: i < k < j ==> IsDigit(s[k])
    requires var p := ParseUnsigned(s[i..j], U16_MAX); p.Some? && p.value <= 100
    ensures FirstPercent(s, i, i, j, ParseUnsigned(s[i..j], U16_MAX).value)
  {
    assert s[i..j][0] == s[i];
    assert AllDigits(s[i..j]);
  }

  /** A digit run that is not a percentage holds no start of one. */
  lemma RunIsNoPercent(s: string, i: nat, j: nat)
    requires i < j <= |s| && AtRunBoundary(s, i) && IsDigit(s[i])
    requires forall k :: i < k < j ==> IsDigit(s[k])
    requires j == |s| || !IsDigit(s[j])
    requires var p := if j < |s| && s[j] == '%' then ParseUnsigned(s[i..j], U16_MAX) else None;
      !(p.Some? && p.value <= 100)
    ensures NoPercentBefore(s, i, j)
  {
    forall a: nat, b: nat, m: nat | i <= a < j
      ensures !PercentAt(s, a, b, m)
    {
      if PercentAt(s, a, b, m) {
        assert false;
      }
    }
  }

  lemma NotDigitNoPercent(s: string, i: nat)
    requires i < |s| && !IsDigit(s[i])
    ensures NoPercentBefore(s, i, i + 1)
  {
  }

  lemma FirstPercentLater(s: string, i: nat, j: nat, r: Option<nat>)
    requires i <= j <= |s| && NoPercentBefore(s, i, j)
    requires r.Some? ==> exists st, e :: FirstPercent(s, j, st, e, r.value)
    requires r.None? ==> NoPercentBefore(s, j, |s|)
    ensures r.Some? ==> exists st, e :: FirstPercent(s, i, st, e, r.value)
    ensures r.None? ==> NoPercentBefore(s, i, |s|)
  {
    if r.Some? {
      var st, e :| FirstPercent(s, j, st, e, r.value);
      assert FirstPercent(s, i, st, e, r.value);
    }
  }

  /** `extract_percent`: the byte loop over digit runs. */
  method ExtractPercent(s: string) returns (r: Option<nat>)
    ensures r == PercentFrom(s, 0)
  {
    var i := 0;
    while i < |s|
      invariant 0 <= i <= |s| && AtRunBoundary(s, i)
      invariant PercentFrom(s, i) == PercentFrom(s, 0)
      decreases |s| - i
    {
      var found, next := PercentStep(s, i);
      if found.Some? {
        return found;
      }
      i := next;
    }
    return None;
  }

  /** One step of the scan from a run boundary: a percentage found here, or where to go on. */
  method PercentStep(s: string, i: nat) returns (found: Option<nat>, next: nat)
    requires i < |s| && AtRunBoundary(s, i)
    ensures i < next <= |s| && AtRunBoundary(s, next)
    ensures found.Some? ==> found == PercentFrom(s, i)
    ensures found.None? ==> PercentFrom(s, i) == PercentFrom(s, next)
  {
    if IsDigit(s[i]) {
      var j := ScanRun(s, i + 1);
      PercentFromDigit(s, i, j);
      found, next := None, j;
      if j < |s| && s[j] == '%' {
        var parsed := ParseUnsigned(s[i..j], U16_MAX);
        if parsed.Some? && parsed.value <= 100 {
          found := parsed;
        }
      }
    } else {
      PercentFromOther(s, i);
      found, next := None, i + 1;
    }
  }

  /** Where the digit run that has reached `start` ends. */
  method ScanRun(s: string, start: nat) returns (j: nat)
    requires start <= |s|
    ensures start <= j <= |s| && (j == |s| || !IsDigit(s[j]))
    ensures RunEnd(s, j) == RunEnd(s, start)
  {
    j := start;
    while j < |s| && IsDigit(s[j])
      invariant start <= j <= |s|
      invariant RunEnd(s, j) == RunEnd(s, start)
      decreases |s| - j
    {
      j := j + 1;
    }
  }

  /** After a digit run: its value when it is a percentage, else the search goes on past it. */
  lemma PercentFromDigit(s: string, i: nat, j: nat)
    requires i < |s| && AtRunBoundary(s, i) && IsDigit(s[i])
    requires i < j <= |s| && (j == |s| || !IsDigit(s[j])) && RunEnd(s, j) == RunEnd(s, i + 1)
    ensures j == RunEnd(s, i + 1) && AtRunBoundary(s, j)
    ensures var p := if j < |s| && s[j] == '%' then ParseUnsigned(s[i..j], U16_MAX) else None;
      PercentFrom(s, i) == if p.Some? && p.value <= 100 then p else PercentFrom(s, j)
  {
  }

  /** A byte that starts no digit run is passed over. */
  lemma PercentFromOther(s: string, i: nat)
    requires i < |s| && AtRunBoundary(s, i) && !IsDigit(s[i])
    ensures AtRunBoundary(s, i + 1) && PercentFrom(s, i) == PercentFrom(s, i + 1)
  {
  }


  datatype CloneProgress = CloneProgress(stage: string, percent: nat)

  const RECEIVING: string := "Receiving objects:"
  const RESOLVING: string := "Resolving deltas:"

  /** `parse_clone_progress_line`: a receiving or resolving line with a percentage. */
  function ParseCloneProgressLine(line: string): (r: Option<CloneProgress>)
    ensures var t := Trim(line);
      r.Some? <==> (StartsWith(t, RECEIVING) || StartsWith(t, RESOLVING)) && PercentFrom(t, 0).Some?
    ensures r.Some? ==> r.value.percent <= 100 && r.value.percent == PercentFrom(Trim(line), 0).value
    ensures r.Some? ==> (r.value.stage == "receiving" <==> StartsWith(Trim(line), RECEIVING))
  {
    var t := Trim(line);
    var stage := if StartsWith(t, RECEIVING) then "receiving"
      else if StartsWith(t, RESOLVING) then "resolving" else "";
    if stage == "" then None
    else match PercentFrom(t, 0)
      case None => None
      case Some(percent) => Some(CloneProgress(stage, percent))
  }
}
