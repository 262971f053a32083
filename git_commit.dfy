/** Branch summary data: one-line commit entries, `git diff --shortstat`
    statistics, and the relative age of a branch's last commit. */
module GitCommit {
  import opened Common

  /** One line of `git log --oneline`. */
  datatype CommitEntry = CommitEntry(hash: string, message: string)

  /** Parses "hash message"; the message is empty for a hash-only line, and a
      blank line gives nothing. */
  function FromOneline(line: string): (r: Option<CommitEntry>)
    ensures r.None? <==> Trim(line) == []
    ensures r.Some? ==> r.value.hash != [] && ' ' !in r.value.hash
    ensures r.Some? && r.value.message == [] ==> Trim(line) == r.value.hash
    ensures r.Some? && r.value.message != [] ==> Trim(line) == r.value.hash + " " + r.value.message
  {
    var t := Trim(line);
    if t == [] then None
    else
      var parts := SplitN(t, ' ', 2);
      if |parts| == 2 then
        assert t == parts[0] + " " + parts[1] by { SplitTwoPieces(t, ' '); }
        Some(CommitEntry(parts[0], parts[1]))
      else if |parts| == 1 && parts[0] != [] then
        Some(CommitEntry(parts[0], []))
      else None
  }

  /** Splitting into at most two pieces cuts at the first separator. */
  lemma SplitTwoPieces(s: string, sep: char)
    requires |SplitN(s, sep, 2)| == 2
    ensures s == SplitN(s, sep, 2)[0] + [sep] + SplitN(s, sep, 2)[1]
  {
    var i := FindChar(s, sep).value;
    assert s == s[..i] + [sep] + s[i + 1..];
  }

  /** A trimmed hash and message separated by one space parse back to themselves. */
  lemma OnelineRoundTrip(hash: string, message: string)
    requires hash != [] && NoSpace(hash)
    requires message == [] || !IsSpace(message[|message| - 1])
    ensures message != [] ==> FromOneline(hash + " " + message) == Some(CommitEntry(hash, message))
    ensures FromOneline(hash) == Some(CommitEntry(hash, []))
  {
    var line := hash + " " + message;
    assert TrimStart(line) == line;
    if message != [] {
      assert line[|line| - 1] == message[|message| - 1];
      assert TrimEnd(line) == line;
      SplitNCons(hash, ' ', message, 2);
      assert SplitN(message, ' ', 1) == [message];
    }
    NoSpaceTrimWords(hash);
    assert ' ' !in hash by { assert forall j :: 0 <= j < |hash| ==> !IsSpace(hash[j]); }
  }

  // ---------------------------------------------------------------------
  // Shortstat

  datatype ChangeStats = ChangeStats(filesChanged: nat, insertions: nat, deletions: nat,
                                     hasUncommitted: bool, hasUnpushed: bool)

  /** What one trimmed comma-separated part yields for `keyword`: the number its first word
      spells, if it mentions the keyword. */
  function PartNumber(p: string, keyword: string): Option<nat>
  {
    if !Contains(p, keyword) then None
    else
      var words := Words(p);
      if words == [] then None else ParseUnsigned(words[0], U64_MAX)
  }

  /** A part yields a number only if it mentions the keyword and its first word parses as an
      unsigned 64-bit integer; a part that does not mention it yields nothing. */
  lemma PartNumberMeaning(p: string, keyword: string)
    ensures PartNumber(p, keyword).Some? ==>
              Contains(p, keyword) && Words(p) != [] && ParseUnsigned(Words(p)[0], U64_MAX) == PartNumber(p, keyword)
    ensures !Contains(p, keyword) ==> PartNumber(p, keyword).None?
  {
  }

  /** Each part with surrounding whitespace removed. */
  function TrimEach(parts: seq<string>): (r: seq<string>)
    ensures |r| == |parts|
    ensures forall k :: 0 <= k < |parts| ==> r[k] == Trim(parts[k])
  {
    if parts == [] then [] else [Trim(parts[0])] + TrimEach(parts[1..])
  }

  /** The number the first part that yields one yields, scanning the parts in order. */
  function FirstPartNumber(parts: seq<string>, keyword: string): Option<nat>
  {
    if parts == [] then None
    else
      match PartNumber(parts[0], keyword)
      case Some(n) => Some(n)
      case None => FirstPartNumber(parts[1..], keyword)
  }

  /** The scan finds nothing exactly when no part yields a number; otherwise it returns what
      the first yielding part yields. */
  lemma {:induction false} FirstPartNumberMeaning(parts: seq<string>, keyword: string)
    ensures FirstPartNumber(parts, keyword).None? <==>
              forall k :: 0 <= k < |parts| ==> PartNumber(parts[k], keyword).None?
    ensures FirstPartNumber(parts, keyword).Some? ==>
              exists k :: 0 <= k < |parts| && PartNumber(parts[k], keyword) == FirstPartNumber(parts, keyword)
                          && forall j :: 0 <= j < k ==> PartNumber(parts[j], keyword).None?
  {
    if parts != [] && PartNumber(parts[0], keyword).None? {
      FirstPartNumberMeaning(parts[1..], keyword);
      assert forall k :: 0 < k < |parts| ==> parts[k] == parts[1..][k - 1];
      if FirstPartNumber(parts, keyword).Some? {
        var k :| 0 <= k < |parts[1..]| && PartNumber(parts[1..][k], keyword) == FirstPartNumber(parts, keyword)
                 && forall j :: 0 <= j < k ==> PartNumber(parts[1..][j], keyword).None?;
        assert PartNumber(parts[k + 1], keyword) == FirstPartNumber(parts, keyword);
      }
    }
  }

  /** What the first of `parts`, trimmed, that yields a number yields. */
  function ScanParts(parts: seq<string>, keyword: string): Option<nat>
  {
    FirstPartNumber(TrimEach(parts), keyword)
  }

  /** The leading integer of the first comma-separated part that contains `keyword`
      and starts with a number. */
  function ExtractNumber(line: string, keyword: string): (r: Option<nat>)
    ensures (forall k :: 0 <= k < |Split(line, ',')| ==> !Contains(Trim(Split(line, ',')[k]), keyword)) ==> r.None?
  {
    var parts := Split(line, ',');
    if forall k :: 0 <= k < |parts| ==> !Contains(Trim(parts[k]), keyword) then
      ScanPartsAbsent(parts, keyword);
      ScanParts(parts, keyword)
    else ScanParts(parts, keyword)
  }

  /** The search loop over the parts, trimming each and returning at the first that yields a number. */
  method ScanPartsLoop(parts: seq<string>, keyword: string) returns (r: Option<nat>)
    ensures r == ScanParts(parts, keyword)
  {
    ghost var trimmed := TrimEach(parts);
    var k := 0;
    while k < |parts|
      invariant 0 <= k <= |parts|
      invariant FirstPartNumber(trimmed[k..], keyword) == FirstPartNumber(trimmed, keyword)
    {
      var p := Trim(parts[k]);
      var n := PartNumber(p, keyword);
      assert trimmed[k..][0] == p;
      if n.Some? {
        return n;
      }
      assert trimmed[k..][1..] == trimmed[k + 1..];
      k := k + 1;
    }
    return None;
  }

  method ExtractNumberLoop(line: string, keyword: string) returns (r: Option<nat>)
    ensures r == ExtractNumber(line, keyword)
  {
    var parts := Split(line, ',');
    r := ScanPartsLoop(parts, keyword);
  }

  /** When no trimmed part mentions the keyword, the scan finds nothing. */
  lemma ScanPartsAbsent(parts: seq<string>, keyword: string)
    requires forall k :: 0 <= k < |parts| ==> !Contains(Trim(parts[k]), keyword)
    ensures ScanParts(parts, keyword).None?
  {
    var trimmed := TrimEach(parts);
    forall k | 0 <= k < |trimmed|
      ensures PartNumber(trimmed[k], keyword).None?
    {
      PartNumberMeaning(trimmed[k], keyword);
    }
    FirstPartNumberMeaning(trimmed, keyword);
  }

  function FromShortstat(line: string): (stats: ChangeStats)
    ensures stats.filesChanged == ExtractNumber(Trim(line), "file").GetOr(0)
    ensures stats.insertions == ExtractNumber(Trim(line), "insertion").GetOr(0)
    ensures stats.deletions == ExtractNumber(Trim(line), "deletion").GetOr(0)
    ensures !stats.hasUncommitted && !stats.hasUnpushed
  {
    var t := Trim(line);
    var s0 := ChangeStats(0, 0, 0, false, false);
    var s1 := match ExtractNumber(t, "file") case Some(n) => s0.(filesChanged := n) case None => s0;
    var s2 := match ExtractNumber(t, "insertion") case Some(n) => s1.(insertions := n) case None => s1;
    match ExtractNumber(t, "deletion") case Some(n) => s2.(deletions := n) case None => s2
  }

  /** A field whose keyword no part mentions stays 0. */
  lemma MissingFieldsAreZero(line: string)
    ensures (forall k :: 0 <= k < |Split(Trim(line), ',')| ==> !Contains(Trim(Split(Trim(line), ',')[k]), "deletion"))
            ==> FromShortstat(line).deletions == 0
    ensures (forall k :: 0 <= k < |Split(Trim(line), ',')| ==> !Contains(Trim(Split(Trim(line), ',')[k]), "insertion"))
            ==> FromShortstat(line).insertions == 0
    ensures (forall k :: 0 <= k < |Split(Trim(line), ',')| ==> !Contains(Trim(Split(Trim(line), ',')[k]), "file"))
            ==> FromShortstat(line).filesChanged == 0
  {
  }

  function WithFlags(stats: ChangeStats, hasUncommitted: bool, hasUnpushed: bool): (r: ChangeStats)
    ensures r.filesChanged == stats.filesChanged && r.insertions == stats.insertions && r.deletions == stats.deletions
    ensures r.hasUncommitted == hasUncommitted && r.hasUnpushed == hasUnpushed
  {
    stats.(hasUncommitted := hasUncommitted, hasUnpushed := hasUnpushed)
  }

  predicate HasChanges(stats: ChangeStats)
    ensures stats.filesChanged == 0 && !stats.hasUncommitted && !stats.hasUnpushed ==> !HasChanges(stats)
    ensures stats.hasUncommitted || stats.hasUnpushed ==> HasChanges(stats)
  {
    stats.filesChanged > 0 || stats.hasUncommitted || stats.hasUnpushed
  }

  /** Flagged statistics show changes exactly when some file changed or either flag is set. */
  lemma HasChangesWithFlags(stats: ChangeStats, uncommitted: bool, unpushed: bool)
    ensures HasChanges(WithFlags(stats, uncommitted, unpushed)) <==>
      (stats.filesChanged > 0 || uncommitted || unpushed)
  {
  }

  // ---------------------------------------------------------------------
  // Relative time

  datatype TimeUnit = Year | Month | Week | Day | Hour | Minute

  /** Seconds in one unit as the source counts them (a month is 30 days, a year 365). */
  function UnitSeconds(u: TimeUnit): nat
  {
    match u
    case Year => 365 * 86400
    case Month => 30 * 86400
    case Week => 7 * 86400
    case Day => 86400
    case Hour => 3600
    case Minute => 60
  }

  function UnitName(u: TimeUnit): string
  {
    match u
    case Year => "year"
    case Month => "month"
    case Week => "week"
    case Day => "day"
    case Hour => "hour"
    case Minute => "minute"
  }

  function Ago(n: nat, u: TimeUnit): string
  {
    NatToString(n) + " " + UnitName(u) + (if n == 1 then "" else "s") + " ago"
  }

  /** The relative age of a commit made at `timestamp`, seen at `now` (Unix seconds). */
  function RelativeTime(timestamp: Option<int>, now: int): (r: Option<string>)
    ensures r.None? <==> timestamp.None?
    ensures timestamp.Some? && now < timestamp.value ==> r == Some("in the future")
    ensures timestamp.Some? && timestamp.value <= now < timestamp.value + 60 ==> r == Some("just now")
  {
    match timestamp
    case None => None
    case Some(ts) => if now - ts < 0 then Some("in the future") else Some(ElapsedText(now - ts))
  }

  /** The text for `diff` elapsed seconds. */
  function ElapsedText(diff: nat): string
  {
    var minutes := diff / 60;
    var hours := minutes / 60;
    var days := hours / 24;
    var weeks := days / 7;
    var months := days / 30;
    var years := days / 365;
    if years > 0 then Ago(years, Year)
    else if months > 0 then Ago(months, Month)
    else if weeks > 0 then Ago(weeks, Week)
    else if days > 0 then Ago(days, Day)
    else if hours > 0 then Ago(hours, Hour)
    else if minutes > 0 then Ago(minutes, Minute)
    else "just now"
  }

  /** Each count the source computes is the elapsed time divided by that unit's length. */
  lemma UnitCounts(diff: nat)
    ensures diff / 60 == diff / UnitSeconds(Minute)
    ensures diff / 60 / 60 == diff / UnitSeconds(Hour)
    ensures diff / 60 / 60 / 24 == diff / UnitSeconds(Day)
    ensures diff / 60 / 60 / 24 / 7 == diff / UnitSeconds(Week)
    ensures diff / 60 / 60 / 24 / 30 == diff / UnitSeconds(Month)
    ensures diff / 60 / 60 / 24 / 365 == diff / UnitSeconds(Year)
  {
    var days := diff / 60 / 60 / 24;
    assert diff / 60 / 60 == diff / 3600;
    assert days == diff / 86400;
    assert days / 7 == diff / 604800;
    assert days / 30 == diff / 2592000;
    assert days / 365 == diff / 31536000;
  }

  /** A future timestamp reads "in the future", a past one the elapsed-time text. */
  lemma RelativeTimeCases(ts: int, now: int)
    ensures now < ts ==> RelativeTime(Some(ts), now) == Some("in the future")
    ensures now >= ts ==> RelativeTime(Some(ts), now) == Some(ElapsedText(now - ts))
    ensures RelativeTime(None, now) == None
  {
  }

  /** The text counts whole units of the largest unit the elapsed time reaches,
      or says "just now" under a minute. */
  lemma ElapsedLargestUnit(diff: nat)
    ensures diff >= UnitSeconds(Year) ==> ElapsedText(diff) == Ago(diff / UnitSeconds(Year), Year)
    ensures UnitSeconds(Month) <= diff < UnitSeconds(Year) ==>
      ElapsedText(diff) == Ago(diff / UnitSeconds(Month), Month)
    ensures UnitSeconds(Week) <= diff < UnitSeconds(Month) ==>
      ElapsedText(diff) == Ago(diff / UnitSeconds(Week), Week)
    ensures UnitSeconds(Day) <= diff < UnitSeconds(Week) ==>
      ElapsedText(diff) == Ago(diff / UnitSeconds(Day), Day)
    ensures UnitSeconds(Hour) <= diff < UnitSeconds(Day) ==>
      ElapsedText(diff) == Ago(diff / UnitSeconds(Hour), Hour)
    ensures UnitSeconds(Minute) <= diff < UnitSeconds(Hour) ==>
      ElapsedText(diff) == Ago(diff / UnitSeconds(Minute), Minute)
    ensures diff < UnitSeconds(Minute) ==> ElapsedText(diff) == "just now"
  {
    UnitCounts(diff);
    if diff >= 31536000 {
      assert diff / 31536000 > 0;
    } else if diff >= 2592000 {
      assert diff / 31536000 == 0 && diff / 2592000 > 0;
    } else if diff >= 604800 {
      assert diff / 2592000 == 0 && diff / 604800 > 0;
    } else if diff >= 86400 {
      assert diff / 604800 == 0 && diff / 86400 > 0;
    } else if diff >= 3600 {
      assert diff / 86400 == 0 && diff / 3600 > 0;
    } else if diff >= 60 {
      assert diff / 3600 == 0 && diff / 60 > 0;
    } else {
      assert diff / 60 == 0;
    }
  }

  /** One unit is written in the singular, any other count in the plural. */
  lemma AgoPlural(n: nat, u: TimeUnit)
    ensures n == 1 ==> Ago(n, u) == "1 " + UnitName(u) + " ago"
    ensures n != 1 ==> Ago(n, u) == NatToString(n) + " " + UnitName(u) + "s ago"
  {
    if n == 1 {
      assert NatToString(1) == "1";
    }
  }
}
