/** Release-notes helpers of the version history view: grouping commit subjects
    by their conventional-commit type, the plain changelog built from them, the
    prompt sampler and the check applied to an AI-written summary. */
module VersionHistory {
  import opened Common

  // ---------------------------------------------------------------------
  // Subject groups

  const GROUP_ORDER: seq<string> :=
    ["Features", "Bug Fixes", "Documentation", "Performance", "Refactor", "Styling", "Testing",
     "Miscellaneous Tasks", "Other"]

  /** Lower-case subject prefixes and their groups, in the order they are tried. */
  const PREFIX_GROUPS: seq<(string, string)> :=
    [("feat", "Features"), ("fix", "Bug Fixes"), ("docs", "Documentation"), ("doc", "Documentation"),
     ("perf", "Performance"), ("refactor", "Refactor"), ("style", "Styling"), ("test", "Testing"),
     ("chore", "Miscellaneous Tasks")]

  /** Conventional-commit types the changelog rewrites. */
  const KNOWN_TYPES: seq<string> := ["feat", "fix", "docs", "doc", "perf", "refactor", "style", "test", "chore"]

  const MAX_CHANGELOG_LINES_PER_GROUP: nat := 20

  /** The group of the first table entry from position `k` whose prefix starts `s`, or "Other". */
  function FirstPrefixGroup(s: string, k: nat): string
    requires k <= |PREFIX_GROUPS|
    decreases |PREFIX_GROUPS| - k
  {
    if k == |PREFIX_GROUPS| then "Other"
    else if StartsWith(s, PREFIX_GROUPS[k].0) then PREFIX_GROUPS[k].1
    else FirstPrefixGroup(s, k + 1)
  }

  /** The changelog group of a commit subject: always one of the groups the changelog writes,
      and "Features" for any subject that starts with "feat" once trimmed and lower-cased. */
  function ClassifySubjectGroup(subject: string): (r: string)
    ensures r in GROUP_ORDER
    ensures StartsWith(ToLower(Trim(subject)), "feat") ==> r == "Features"
  {
    GroupOfLowered(ToLower(Trim(subject)))
  }

  /** The prefix tests on the trimmed, lower-cased subject. */
  function GroupOfLowered(s: string): string
  {
    if StartsWith(s, "feat") then "Features"
    else if StartsWith(s, "fix") then "Bug Fixes"
    else if StartsWith(s, "docs") || StartsWith(s, "doc") then "Documentation"
    else if StartsWith(s, "perf") then "Performance"
    else if StartsWith(s, "refactor") then "Refactor"
    else if StartsWith(s, "style") then "Styling"
    else if StartsWith(s, "test") then "Testing"
    else if StartsWith(s, "chore") then "Miscellaneous Tasks"
    else "Other"
  }

  /** The chain of tests is the table of prefixes read top to bottom. */
  lemma ClassifyByTable(subject: string)
    ensures ClassifySubjectGroup(subject) == FirstPrefixGroup(ToLower(Trim(subject)), 0)
  {
    ChainIsTable(ToLower(Trim(subject)));
  }

  lemma ChainIsTable(s: string)
    ensures GroupOfLowered(s) == FirstPrefixGroup(s, 0)
  {
    assert FirstPrefixGroup(s, 9) == "Other";
    assert FirstPrefixGroup(s, 8) == if StartsWith(s, "chore") then "Miscellaneous Tasks" else "Other";
    assert FirstPrefixGroup(s, 7) == if StartsWith(s, "test") then "Testing" else FirstPrefixGroup(s, 8);
    assert FirstPrefixGroup(s, 6) == if StartsWith(s, "style") then "Styling" else FirstPrefixGroup(s, 7);
    assert FirstPrefixGroup(s, 5) == if StartsWith(s, "refactor") then "Refactor" else FirstPrefixGroup(s, 6);
    assert FirstPrefixGroup(s, 4) == if StartsWith(s, "perf") then "Performance" else FirstPrefixGroup(s, 5);
    assert FirstPrefixGroup(s, 3) == if StartsWith(s, "doc") then "Documentation" else FirstPrefixGroup(s, 4);
    assert FirstPrefixGroup(s, 2) == if StartsWith(s, "docs") then "Documentation" else FirstPrefixGroup(s, 3);
    assert FirstPrefixGroup(s, 1) == if StartsWith(s, "fix") then "Bug Fixes" else FirstPrefixGroup(s, 2);
  }

  /** A subject falls in "Other" exactly when no listed prefix starts it. */
  lemma ClassifyOther(subject: string)
    ensures ClassifySubjectGroup(subject) == "Other" <==>
              forall k :: 0 <= k < |PREFIX_GROUPS| ==> !StartsWith(ToLower(Trim(subject)), PREFIX_GROUPS[k].0)
  {
    ClassifyByTable(subject);
    FirstPrefixGroupOther(ToLower(Trim(subject)), 0);
  }

  lemma {:induction false} FirstPrefixGroupOther(s: string, k: nat)
    requires k <= |PREFIX_GROUPS|
    ensures FirstPrefixGroup(s, k) == "Other" <==> forall j :: k <= j < |PREFIX_GROUPS| ==> !StartsWith(s, PREFIX_GROUPS[j].0)
    decreases |PREFIX_GROUPS| - k
  {
    if k < |PREFIX_GROUPS| {
      FirstPrefixGroupOther(s, k + 1);
      assert PREFIX_GROUPS[k].1 != "Other";
    }
  }

  // ---------------------------------------------------------------------
  // Subject normalisation

  /** Splits a prefix "type(scope)" into its trimmed type and non-empty scope. */
  function TypeAndScope(prefix: string): (r: (string, Option<string>))
    ensures '(' !in prefix ==> r == (prefix, None)
    ensures r.1.Some? ==> r.1.value != []
  {
    match FindChar(prefix, '(')
    case None => (prefix, None)
    case Some(p) =>
      var scope := Trim(TrimEndChar(prefix[p + 1..], ')'));
      (Trim(prefix[..p]), if scope == [] then None else Some(scope))
  }

  /** "type(scope): msg" becomes "**scope:** msg", "type: msg" becomes "msg";
      anything else is only trimmed. */
  function NormalizeSubjectForChangelog(subject: string): (r: string)
    ensures ':' !in Trim(subject) ==> r == Trim(subject)
  {
    NormalizeTrimmed(Trim(subject))
  }

  /** Splits at the first ':'. */
  function NormalizeTrimmed(s: string): (r: string)
    ensures ':' !in s ==> r == s
  {
    match FindChar(s, ':')
    case None => s
    case Some(k) => NormalizeParts(s, Trim(s[..k]), Trim(s[k + 1..]))
  }

  /** Rewrites a subject split into a trimmed prefix and message. */
  function NormalizeParts(s: string, prefix: string, msg: string): (r: string)
    ensures msg == [] ==> r == s
  {
    if msg == [] then s
    else
      var (typ, scope) := TypeAndScope(TrimEndChar(prefix, '!'));
      if !IsKnownType(typ) then s
      else if scope.Some? then "**" + scope.value + ":** " + msg
      else msg
  }

  /** `KNOWN_TYPES.contains(&typ.to_lowercase())`, looked up entry by entry from `k`. */
  predicate KnownFrom(t: string, k: nat)
    decreases |KNOWN_TYPES| - k
  {
    k < |KNOWN_TYPES| && (KNOWN_TYPES[k] == t || KnownFrom(t, k + 1))
  }

  predicate IsKnownType(typ: string)
  {
    KnownFrom(ToLower(typ), 0)
  }

  lemma {:induction false} KnownFromIsMember(t: string, k: nat)
    requires k <= |KNOWN_TYPES|
    ensures KnownFrom(t, k) <==> t in KNOWN_TYPES[k..]
    decreases |KNOWN_TYPES| - k
  {
    if k < |KNOWN_TYPES| {
      KnownFromIsMember(t, k + 1);
      assert KNOWN_TYPES[k..] == [KNOWN_TYPES[k]] + KNOWN_TYPES[k + 1..];
    }
  }

  /** The entry-by-entry lookup is membership in the known-type list. */
  lemma KnownTypeIsMember(typ: string)
    ensures IsKnownType(typ) <==> ToLower(typ) in KNOWN_TYPES
  {
    KnownFromIsMember(ToLower(typ), 0);
    assert KNOWN_TYPES[0..] == KNOWN_TYPES;
  }

  /** Text whose ends are not whitespace is its own trim. */
  lemma TrimUnchanged(s: string)
    requires s == [] || (!IsSpace(s[0]) && !IsSpace(s[|s| - 1]))
    ensures Trim(s) == s
  {
  }

  lemma LeadingSpaceTrimmed(msg: string)
    requires msg != [] && !IsSpace(msg[0]) && !IsSpace(msg[|msg| - 1])
    ensures Trim(" " + msg) == msg
  {
    assert (" " + msg)[1..] == msg;
    assert TrimStart(" " + msg) == msg;
  }

  /** `trim_end_matches(c)` on text that ends with exactly one `c`. */
  lemma TrimEndOneChar(s: string, c: char)
    requires s == [] || s[|s| - 1] != c
    ensures TrimEndChar(s + [c], c) == s
  {
    assert (s + [c])[..|s|] == s;
  }

  /** Every character is an ASCII letter. */
  predicate Letters(s: string)
  {
    s == [] || (IsAlpha(s[0]) && Letters(s[1..]))
  }

  lemma {:induction false} LettersOnly(typ: string)
    requires Letters(typ)
    ensures ':' !in typ && '(' !in typ && '!' !in typ
    ensures typ != [] ==> !IsSpace(typ[0]) && !IsSpace(typ[|typ| - 1])
  {
    if typ != [] {
      LettersOnly(typ[1..]);
      assert typ == [typ[0]] + typ[1..];
      if |typ| > 1 {
        assert typ[|typ| - 1] == typ[1..][|typ| - 2];
      }
    }
  }

  /** "pre: msg" splits at the colon after `pre`. */
  lemma ColonSplit(pre: string, msg: string)
    requires ':' !in pre
    ensures NormalizeTrimmed(pre + ": " + msg) == NormalizeParts(pre + ": " + msg, Trim(pre), Trim(" " + msg))
  {
    var s := pre + ": " + msg;
    FindCharAfter(pre, ':', " " + msg);
    assert s == pre + [':'] + (" " + msg);
    assert s[..|pre|] == pre;
    assert s[|pre| + 1..] == " " + msg;
  }

  lemma ScopeSplit(typ: string, scope: string)
    requires '(' !in typ && typ != [] && !IsSpace(typ[0]) && !IsSpace(typ[|typ| - 1])
    requires scope != [] && !IsSpace(scope[0]) && !IsSpace(scope[|scope| - 1]) && ')' !in scope
    ensures TypeAndScope(typ + "(" + scope + ")") == (typ, Some(scope))
  {
    var prefix := typ + "(" + scope + ")";
    assert prefix == typ + ['('] + (scope + ")");
    FindCharAfter(typ, '(', scope + ")");
    assert prefix[..|typ|] == typ;
    TrimUnchanged(typ);
    assert prefix[|typ| + 1..] == scope + ")";
    assert scope[|scope| - 1] in scope;
    TrimEndOneChar(scope, ')');
    TrimUnchanged(scope);
  }

  /** A known type with a scope is rewritten to "**scope:** msg". */
  lemma NormalizeScoped(typ: string, scope: string, msg: string)
    requires typ != [] && IsKnownType(typ) && Letters(typ)
    requires scope != [] && !IsSpace(scope[0]) && !IsSpace(scope[|scope| - 1])
    requires ':' !in scope && '(' !in scope && ')' !in scope
    requires msg != [] && !IsSpace(msg[0]) && !IsSpace(msg[|msg| - 1])
    ensures NormalizeSubjectForChangelog(typ + "(" + scope + "): " + msg) == "**" + scope + ":** " + msg
  {
    var prefix := typ + "(" + scope + ")";
    assert typ + "(" + scope + "): " + msg == prefix + ": " + msg;
    ScopedAt(typ, scope, msg, prefix, prefix + ": " + msg);
  }

  lemma ScopedAt(typ: string, scope: string, msg: string, prefix: string, x: string)
    requires typ != [] && IsKnownType(typ) && Letters(typ)
    requires scope != [] && !IsSpace(scope[0]) && !IsSpace(scope[|scope| - 1])
    requires ':' !in scope && '(' !in scope && ')' !in scope
    requires msg != [] && !IsSpace(msg[0]) && !IsSpace(msg[|msg| - 1])
    requires prefix == typ + "(" + scope + ")" && x == prefix + ": " + msg
    ensures NormalizeSubjectForChangelog(x) == "**" + scope + ":** " + msg
  {
    ScopedTrimmed(typ, scope, msg, prefix, x);
    ScopedSplit(typ, scope, msg, prefix, x);
    NormalizeOfParts(x, prefix, msg);
    PartsScoped(x, typ, scope, msg);
  }

  lemma ScopedTrimmed(typ: string, scope: string, msg: string, prefix: string, x: string)
    requires typ != [] && Letters(typ)
    requires msg != [] && !IsSpace(msg[|msg| - 1])
    requires prefix == typ + "(" + scope + ")" && x == prefix + ": " + msg
    ensures Trim(x) == x && Trim(prefix) == prefix
  {
    LettersOnly(typ);
    assert prefix == typ + ("(" + scope + ")");
    TrimJoined(typ, "(" + scope + ")");
    TrimJoined(prefix, ": " + msg);
  }

  /** Text that starts and ends with non-whitespace is its own trim. */
  lemma TrimJoined(a: string, b: string)
    requires a != [] && b != [] && !IsSpace(a[0]) && !IsSpace(b[|b| - 1])
    ensures Trim(a + b) == a + b
  {
    var s := a + b;
    assert s[0] == a[0] && s[|s| - 1] == b[|b| - 1];
    TrimUnchanged(s);
  }

  lemma ScopedSplit(typ: string, scope: string, msg: string, prefix: string, x: string)
    requires typ != [] && Letters(typ)
    requires ':' !in scope
    requires msg != [] && !IsSpace(msg[0]) && !IsSpace(msg[|msg| - 1])
    requires prefix == typ + "(" + scope + ")" && x == prefix + ": " + msg
    requires Trim(prefix) == prefix
    ensures NormalizeTrimmed(x) == NormalizeParts(x, prefix, msg)
  {
    LettersOnly(typ);
    assert ':' !in prefix;
    ColonSplit(prefix, msg);
    LeadingSpaceTrimmed(msg);
  }

  lemma PartsScoped(s: string, typ: string, scope: string, msg: string)
    requires typ != [] && IsKnownType(typ) && Letters(typ)
    requires scope != [] && !IsSpace(scope[0]) && !IsSpace(scope[|scope| - 1]) && ')' !in scope
    requires msg != []
    ensures NormalizeParts(s, typ + "(" + scope + ")", msg) == "**" + scope + ":** " + msg
  {
    LettersOnly(typ);
    var prefix := typ + "(" + scope + ")";
    assert TrimEndChar(prefix, '!') == prefix;
    ScopeSplit(typ, scope);
  }

  /** A known type without a scope keeps only the message. */
  lemma NormalizePlain(typ: string, msg: string)
    requires typ != [] && IsKnownType(typ) && Letters(typ)
    requires msg != [] && !IsSpace(msg[0]) && !IsSpace(msg[|msg| - 1])
    ensures NormalizeSubjectForChangelog(typ + ": " + msg) == msg
  {
    PlainAt(typ, msg, typ + ": " + msg);
  }

  lemma PlainAt(typ: string, msg: string, x: string)
    requires typ != [] && Letters(typ)
    requires msg != [] && !IsSpace(msg[0]) && !IsSpace(msg[|msg| - 1])
    requires x == typ + ": " + msg
    ensures NormalizeSubjectForChangelog(x) == if IsKnownType(typ) then msg else x
  {
    ColonSubjectTrimmed(typ, msg);
    PlainSplit(typ, msg);
    NormalizeOfParts(x, typ, msg);
    PartsPlain(x, typ, msg);
  }

  /** A subject that is its own trim is rewritten from its split parts. */
  lemma NormalizeOfParts(x: string, prefix: string, msg: string)
    requires Trim(x) == x && NormalizeTrimmed(x) == NormalizeParts(x, prefix, msg)
    ensures NormalizeSubjectForChangelog(x) == NormalizeParts(x, prefix, msg)
  {
  }

  /** "type: msg" with letters for the type and a trimmed message is already trimmed. */
  lemma ColonSubjectTrimmed(typ: string, msg: string)
    requires typ != [] && Letters(typ)
    requires msg != [] && !IsSpace(msg[0]) && !IsSpace(msg[|msg| - 1])
    ensures Trim(typ + ": " + msg) == typ + ": " + msg
  {
    var s := typ + ": " + msg;
    assert s[0] == typ[0] && s[|s| - 1] == msg[|msg| - 1];
    TrimUnchanged(s);
  }

  lemma PlainSplit(typ: string, msg: string)
    requires typ != [] && Letters(typ)
    requires msg != [] && !IsSpace(msg[0]) && !IsSpace(msg[|msg| - 1])
    ensures NormalizeTrimmed(typ + ": " + msg) == NormalizeParts(typ + ": " + msg, typ, msg)
  {
    LettersOnly(typ);
    ColonSplit(typ, msg);
    TrimUnchanged(typ);
    LeadingSpaceTrimmed(msg);
  }

  lemma PartsPlain(s: string, typ: string, msg: string)
    requires typ != [] && Letters(typ)
    requires msg != []
    ensures NormalizeParts(s, typ, msg) == if IsKnownType(typ) then msg else s
  {
    PlainTypeAndScope(typ);
  }

  lemma PlainTypeAndScope(typ: string)
    requires typ != [] && Letters(typ)
    ensures TypeAndScope(TrimEndChar(typ, '!')) == (typ, None)
  {
    LettersOnly(typ);
    assert typ[|typ| - 1] in typ;
    assert TrimEndChar(typ, '!') == typ;
  }

  /** An unknown type leaves the subject as it is. */
  lemma NormalizeUnknownType(typ: string, msg: string)
    requires typ != [] && !IsKnownType(typ) && Letters(typ)
    requires msg != [] && !IsSpace(msg[0]) && !IsSpace(msg[|msg| - 1])
    ensures NormalizeSubjectForChangelog(typ + ": " + msg) == typ + ": " + msg
  {
    PlainAt(typ, msg, typ + ": " + msg);
  }

  // ---------------------------------------------------------------------
  // The plain changelog

  /** What one subject contributes: its group and normalised entry, nothing when blank. */
  datatype Tagged = Tagged(group: string, entry: string)

  function TagOf(subject: string): Option<Tagged>
  {
    var s := Trim(subject);
    if s == [] then None else Some(Tagged(ClassifySubjectGroup(s), NormalizeSubjectForChangelog(s)))
  }

  function Tags(subjects: seq<string>): (r: seq<Option<Tagged>>)
    ensures |r| == |subjects|
  {
    seq(|subjects|, i requires 0 <= i < |subjects| => TagOf(subjects[i]))
  }

  /** The entries tagged with group `g`, in order. */
  function GroupOf(tags: seq<Option<Tagged>>, g: string): (r: seq<string>)
    ensures |r| <= |tags|
  {
    if tags == [] then []
    else
      var t := tags[|tags| - 1];
      GroupOf(tags[..|tags| - 1], g) + (if t.Some? && t.value.group == g then [t.value.entry] else [])
  }

  /** The normalised entries of group `g`, in subject order; blank subjects are skipped. */
  function Entries(subjects: seq<string>, g: string): (r: seq<string>)
    ensures |r| <= |subjects|
  {
    GroupOf(Tags(subjects), g)
  }

  /** Each entry as a "- " bullet line. */
  function Bullets(entries: seq<string>): string
  {
    if entries == [] then [] else Bullets(entries[..|entries| - 1]) + "- " + entries[|entries| - 1] + "\n"
  }

  function MoreLine(total: nat): string
  {
    if total > MAX_CHANGELOG_LINES_PER_GROUP
    then "- (+" + NatToString(total - MAX_CHANGELOG_LINES_PER_GROUP) + " more)\n"
    else []
  }

  function Section(name: string, entries: seq<string>): string
  {
    "### " + name + "\n" + Bullets(entries[..Min(|entries|, MAX_CHANGELOG_LINES_PER_GROUP)])
      + MoreLine(|entries|) + "\n"
  }

  /** The sections of the groups in `order` that have entries. */
  function Rendered(order: seq<string>, subjects: seq<string>): string
  {
    if order == [] then []
    else
      var name := order[|order| - 1];
      var entries := Entries(subjects, name);
      Rendered(order[..|order| - 1], subjects) + (if entries == [] then [] else Section(name, entries))
  }

  /** The changelog text: never empty, never ending in whitespace, and the placeholder
      exactly when no group has an entry worth showing. */
  function ChangelogMarkdown(subjects: seq<string>): (r: string)
    ensures r != [] && !IsSpace(r[|r| - 1])
    ensures IsBlank(Rendered(GROUP_ORDER, subjects)) ==> r == "(No commits)"
  {
    var out := Rendered(GROUP_ORDER, subjects);
    BlankIffAllSpace(out);
    TrimEndEmpty(out);
    if IsBlank(out) then "(No commits)" else TrimEnd(out)
  }

  /** Groups the subjects, then writes the groups in the fixed order. */
  method BuildSimpleChangelogMarkdown(subjects: seq<string>) returns (md: string)
    ensures md == ChangelogMarkdown(subjects)
  {
    var groups := GroupSubjects(subjects);
    var out := RenderGroups(groups, subjects);
    if IsBlank(out) {
      md := "(No commits)";
    } else {
      md := TrimEnd(out);
    }
  }

  /** `groups` maps each group with entries among `tags` to those entries. */
  ghost predicate Grouped(groups: map<string, seq<string>>, tags: seq<Option<Tagged>>)
  {
    (forall g :: g in groups <==> GroupOf(tags, g) != []) &&
    (forall g :: g in groups ==> groups[g] == GroupOf(tags, g))
  }

  /** A blank subject leaves the groups as they are. */
  lemma GroupedSkip(groups: map<string, seq<string>>, tags: seq<Option<Tagged>>, i: nat)
    requires i < |tags| && tags[i] == None && Grouped(groups, tags[..i])
    ensures Grouped(groups, tags[..i + 1])
  {
    assert tags[..i + 1][..i] == tags[..i];
  }

  /** A non-blank subject appends its entry to the group it falls in. */
  lemma GroupedAdd(groups: map<string, seq<string>>, tags: seq<Option<Tagged>>, i: nat, group: string, entry: string)
    requires i < |tags| && tags[i] == Some(Tagged(group, entry)) && Grouped(groups, tags[..i])
    ensures Grouped(groups[group := (if group in groups then groups[group] else []) + [entry]], tags[..i + 1])
  {
    assert tags[..i + 1][..i] == tags[..i];
    var updated := groups[group := (if group in groups then groups[group] else []) + [entry]];
    forall g
      ensures g in updated <==> GroupOf(tags[..i + 1], g) != []
      ensures g in updated ==> updated[g] == GroupOf(tags[..i + 1], g)
    {
      assert GroupOf(tags[..i + 1], g) == GroupOf(tags[..i], g) + (if g == group then [entry] else []);
    }
  }

  /** The map from group name to its entries, in subject order. */
  method GroupSubjects(subjects: seq<string>) returns (groups: map<string, seq<string>>)
    ensures forall g :: g in groups <==> Entries(subjects, g) != []
    ensures forall g :: g in groups ==> groups[g] == Entries(subjects, g)
  {
    ghost var tags := Tags(subjects);
    groups := map[];
    var i := 0;
    while i < |subjects|
      invariant 0 <= i <= |subjects|
      invariant Grouped(groups, tags[..i])
    {
      var s := Trim(subjects[i]);
      assert tags[i] == TagOf(subjects[i]);
      if s != [] {
        var group := ClassifySubjectGroup(s);
        var entry := NormalizeSubjectForChangelog(s);
        GroupedAdd(groups, tags, i, group, entry);
        var existing := if group in groups then groups[group] else [];
        groups := groups[group := existing + [entry]];
      } else {
        GroupedSkip(groups, tags, i);
      }
      i := i + 1;
    }
    assert tags[..i] == tags;
  }

  /** The sections after one more group name. */
  lemma RenderedStep(order: seq<string>, subjects: seq<string>, k: nat)
    requires k < |order|
    ensures Rendered(order[..k + 1], subjects) == Rendered(order[..k], subjects) +
              (var e := Entries(subjects, order[k]); if e == [] then [] else Section(order[k], e))
  {
    var prefix := order[..k + 1];
    assert prefix[..|prefix| - 1] == order[..k];
  }

  /** Writes the sections of the grouped entries in the fixed group order. */
  method RenderGroups(groups: map<string, seq<string>>, ghost subjects: seq<string>) returns (out: string)
    requires forall g :: g in groups <==> Entries(subjects, g) != []
    requires forall g :: g in groups ==> groups[g] == Entries(subjects, g)
    ensures out == Rendered(GROUP_ORDER, subjects)
  {
    out := [];
    var k := 0;
    while k < |GROUP_ORDER|
      invariant 0 <= k <= |GROUP_ORDER|
      invariant out == Rendered(GROUP_ORDER[..k], subjects)
    {
      var name := GROUP_ORDER[k];
      RenderedStep(GROUP_ORDER, subjects, k);
      if name in groups && groups[name] != [] {
        var section := WriteSection(name, groups[name]);
        out := out + section;
      }
      k := k + 1;
    }
    assert GROUP_ORDER[..k] == GROUP_ORDER;
  }

  /** One group's header, its first entries, the "(+k more)" line and a blank line. */
  method WriteSection(name: string, entries: seq<string>) returns (text: string)
    ensures text == Section(name, entries)
  {
    text := "### " + name + "\n";
    var shown := AppendBullets(entries);
    text := text + shown;
    if |entries| > MAX_CHANGELOG_LINES_PER_GROUP {
      text := text + "- (+" + NatToString(|entries| - MAX_CHANGELOG_LINES_PER_GROUP) + " more)\n";
    }
    text := text + "\n";
  }

  /** The bullet lines for the first entries of a group, at most the per-group limit. */
  method AppendBullets(entries: seq<string>) returns (text: string)
    ensures text == Bullets(entries[..Min(|entries|, MAX_CHANGELOG_LINES_PER_GROUP)])
  {
    text := [];
    var shown := 0;
    while shown < |entries| && shown < MAX_CHANGELOG_LINES_PER_GROUP
      invariant 0 <= shown <= Min(|entries|, MAX_CHANGELOG_LINES_PER_GROUP)
      invariant text == Bullets(entries[..shown])
    {
      assert entries[..shown + 1][..shown] == entries[..shown];
      text := text + "- " + entries[shown] + "\n";
      shown := shown + 1;
    }
  }

  /** With no non-blank subject the changelog says so. */
  lemma NoCommitsWhenBlank(subjects: seq<string>)
    requires forall k :: 0 <= k < |subjects| ==> IsBlank(subjects[k])
    ensures ChangelogMarkdown(subjects) == "(No commits)"
  {
    var tags := Tags(subjects);
    forall k | 0 <= k < |tags| ensures tags[k] == None {
      assert tags[k] == TagOf(subjects[k]);
    }
    forall g ensures Entries(subjects, g) == [] {
      GroupOfNone(tags, g);
    }
    RenderedEmpty(GROUP_ORDER, subjects);
  }

  lemma {:induction false} GroupOfNone(tags: seq<Option<Tagged>>, g: string)
    requires forall k :: 0 <= k < |tags| ==> tags[k] == None
    ensures GroupOf(tags, g) == []
  {
    if tags != [] {
      GroupOfNone(tags[..|tags| - 1], g);
    }
  }

  lemma {:induction false} RenderedEmpty(order: seq<string>, subjects: seq<string>)
    requires forall g :: Entries(subjects, g) == []
    ensures Rendered(order, subjects) == []
  {
    if order != [] {
      RenderedEmpty(order[..|order| - 1], subjects);
    }
  }

  /** Every non-blank subject lands, normalised, in the entries of its group. */
  lemma SubjectKept(subjects: seq<string>, i: nat)
    requires i < |subjects| && !IsBlank(subjects[i])
    ensures NormalizeSubjectForChangelog(Trim(subjects[i])) in Entries(subjects, ClassifySubjectGroup(Trim(subjects[i])))
  {
    var tags := Tags(subjects);
    assert tags[i] == TagOf(subjects[i]);
    TaggedInGroup(tags, i);
  }

  lemma {:induction false} TaggedInGroup(tags: seq<Option<Tagged>>, i: nat)
    requires i < |tags| && tags[i].Some?
    ensures tags[i].value.entry in GroupOf(tags, tags[i].value.group)
  {
    var n := |tags|;
    if i < n - 1 {
      assert tags[..n - 1][i] == tags[i];
      TaggedInGroup(tags[..n - 1], i);
    }
  }

  lemma {:induction false} BulletsCount(entries: seq<string>)
    requires forall k :: 0 <= k < |entries| ==> '\n' !in entries[k]
    ensures Count(Bullets(entries), '\n') == |entries|
  {
    if entries != [] {
      var last := entries[|entries| - 1];
      BulletsCount(entries[..|entries| - 1]);
      CountAppend(Bullets(entries[..|entries| - 1]) + "- ", last + "\n", '\n');
      CountAppend(Bullets(entries[..|entries| - 1]), "- ", '\n');
      CountAppend(last, "\n", '\n');
      assert '\n' !in last;
      CountAbsent(last, '\n');
      assert Bullets(entries) == (Bullets(entries[..|entries| - 1]) + "- ") + (last + "\n");
    }
  }

  lemma {:induction false} CountAbsent<T>(s: seq<T>, x: T)
    requires x !in s
    ensures Count(s, x) == 0
  {
    if s != [] {
      assert x !in s[1..];
      CountAbsent(s[1..], x);
    }
  }

  /** A section has its header line, at most 20 entry lines, one "(+k more)"
      line when entries were cut, and a blank line. */
  lemma SectionLineCount(name: string, entries: seq<string>)
    requires '\n' !in name
    requires forall k :: 0 <= k < |entries| ==> '\n' !in entries[k]
    ensures Count(Section(name, entries), '\n') ==
              2 + Min(|entries|, MAX_CHANGELOG_LINES_PER_GROUP) + (if |entries| > MAX_CHANGELOG_LINES_PER_GROUP then 1 else 0)
  {
    var shown := entries[..Min(|entries|, MAX_CHANGELOG_LINES_PER_GROUP)];
    BulletsCount(shown);
    var head := "### " + name + "\n";
    HeaderLineCount(name);
    var more := MoreLine(|entries|);
    MoreLineCount(|entries|);
    CountAppend(head, Bullets(shown), '\n');
    CountAppend(head + Bullets(shown), more, '\n');
    CountAppend(head + Bullets(shown) + more, "\n", '\n');
  }

  lemma HeaderLineCount(name: string)
    requires '\n' !in name
    ensures Count("### " + name + "\n", '\n') == 1
  {
    CountAppend("### " + name, "\n", '\n');
    CountAppend("### ", name, '\n');
    CountAbsent(name, '\n');
  }

  lemma MoreLineCount(total: nat)
    ensures Count(MoreLine(total), '\n') == if total > MAX_CHANGELOG_LINES_PER_GROUP then 1 else 0
  {
    if total > MAX_CHANGELOG_LINES_PER_GROUP {
      var digits := NatToString(total - MAX_CHANGELOG_LINES_PER_GROUP);
      assert '\n' !in digits by { assert AllDigits(digits); }
      CountAbsent(digits, '\n');
      CountAppend("- (+" + digits, " more)\n", '\n');
      CountAppend("- (+", digits, '\n');
    }
  }

  // ---------------------------------------------------------------------
  // Prompt sampling

  const TRUNCATION_SEPARATOR: string := "\n...[truncated]...\n"

  /** Text over the budget keeps its first 40% and as much of its end as fits
      after the separator. */
  function SampleText(text: string, maxChars: nat): (r: string)
    ensures |text| <= maxChars ==> r == text
    ensures |text| > maxChars ==>
              var head := maxChars * 2 / 5;
              var tail := SatSub(maxChars, head + |TRUNCATION_SEPARATOR|);
              r == text[..head] + TRUNCATION_SEPARATOR + text[|text| - tail..]
    ensures |text| > maxChars && maxChars >= maxChars * 2 / 5 + |TRUNCATION_SEPARATOR| ==> |r| == maxChars
  {
    if |text| <= maxChars then text
    else
      var head := maxChars * 2 / 5;
      var tail := SatSub(maxChars, head + |TRUNCATION_SEPARATOR|);
      text[..head] + TRUNCATION_SEPARATOR + text[|text| - tail..]
  }

  // ---------------------------------------------------------------------
  // Checking an AI summary

  /** "1. rest" or "1) rest": digits, '.' or ')', a space. */
  function OrderedPrefixRest(line: string): (r: Option<string>)
    ensures r.Some? ==> var i := DigitRun(line);
              i >= 1 && i + 2 <= |line| && (line[i] == '.' || line[i] == ')') && line[i + 1] == ' '
              && r.value == line[i + 2..]
  {
    var i := DigitRun(line);
    if i == 0 || i + 1 >= |line| then None
    else if (line[i] == '.' || line[i] == ')') && line[i + 1] == ' ' then Some(line[i + 2..])
    else None
  }

  /** The source's digit-scanning loop. */
  method StripOrderedPrefix(line: string) returns (r: Option<string>)
    ensures r == OrderedPrefixRest(line)
  {
    var i := 0;
    while i < |line| && IsDigit(line[i])
      invariant 0 <= i <= |line|
      invariant i + DigitRun(line[i..]) == DigitRun(line)
    {
      assert line[i..][1..] == line[i + 1..];
      i := i + 1;
    }
    if i == 0 || i + 1 >= |line| {
      return None;
    }
    if (line[i] == '.' || line[i] == ')') && line[i + 1] == ' ' {
      return Some(line[i + 2..]);
    }
    return None;
  }

  /** Any numbered item "<digits><. or )> rest" is recognised, with its rest. */
  lemma OrderedPrefixRoundTrip(digits: string, mark: char, rest: string)
    requires digits != [] && AllDigits(digits) && (mark == '.' || mark == ')')
    ensures OrderedPrefixRest(digits + [mark] + " " + rest) == Some(rest)
  {
    var line := digits + [mark] + " " + rest;
    DigitRunOf(digits, [mark] + " " + rest);
    assert line == digits + ([mark] + " " + rest);
    assert line[|digits| + 2..] == rest;
  }

  /** The bullet test as written. */
  predicate IsBulletLineAsWritten(line: string)
  {
    StartsWith(line, "- ") || StartsWith(line, "* ") || StartsWith(line, MISDECODED_BULLET)
    || OrderedPrefixRest(line).Some?
  }

  /** The bullet test with the bullet character U+2022 it evidently means. */
  predicate IsBulletLine(line: string)
  {
    StartsWith(line, "- ") || StartsWith(line, "* ") || StartsWith(line, "\U{2022}")
    || OrderedPrefixRest(line).Some?
  }

  /** A "•" item is not a bullet as written, and is one as intended. */
  lemma BulletCharMissedAsWritten()
    ensures !IsBulletLineAsWritten("\U{2022} item")
    ensures IsBulletLine("\U{2022} item")
  {
    assert DigitRun("\U{2022} item") == 0;
  }

  datatype SummaryError = IncompleteSummary

  /** How the scan reads one trimmed line. */
  datatype LineKind = SummaryHeader | HighlightsHeader | OtherSection | Bullet | Text

  /** Headers compare without ASCII case; any other "## " line starts a section. */
  function KindOf(t: string): LineKind
  {
    if ToLower(t) == "## summary" then SummaryHeader
    else if ToLower(t) == "## highlights" then HighlightsHeader
    else if StartsWith(t, "## ") then OtherSection
    else if IsBulletLine(t) then Bullet
    else Text
  }

  lemma KindOfOther(t: string)
    requires ToLower(t) != "## summary" && ToLower(t) != "## highlights"
    ensures KindOf(t) == if StartsWith(t, "## ") then OtherSection else if IsBulletLine(t) then Bullet else Text
  {
  }

  function Kinds(lines: seq<string>): (ks: seq<LineKind>)
    ensures |ks| == |lines|
  {
    seq(|lines|, i requires 0 <= i < |lines| => KindOf(Trim(lines[i])))
  }

  /** A line that ends a highlights section. */
  predicate Closes(k: LineKind)
  {
    k == SummaryHeader || k == OtherSection
  }

  /** Line `j` is a bullet under the highlights header on line `i`. */
  predicate HighlightBulletAt(ks: seq<LineKind>, i: nat, j: nat)
    requires i < j < |ks|
  {
    ks[i] == HighlightsHeader && ks[j] == Bullet && forall m :: i < m < j ==> !Closes(ks[m])
  }

  /** A summary is complete when it has a Summary header, a Highlights header
      and at least one bullet under Highlights. */
  predicate CompleteSummary(lines: seq<string>)
  {
    var ks := Kinds(lines);
    SummaryHeader in ks && HighlightsHeader in ks
    && exists i, j :: 0 <= i < j < |ks| && HighlightBulletAt(ks, i, j)
  }

  /** The flags of the scan: `has_summary`, `has_highlights`, the bullet
      counter and `in_highlights`. */
  datatype Scan = Scan(hasSummary: bool, hasHighlights: bool, bullets: nat, inHighlights: bool)

  /** One line of the scan. */
  function ScanKind(st: Scan, k: LineKind): Scan
  {
    match k
    case SummaryHeader => st.(hasSummary := true, inHighlights := false)
    case HighlightsHeader => st.(hasHighlights := true, inHighlights := true)
    case OtherSection => st.(inHighlights := false)
    case Bullet => if st.inHighlights then st.(bullets := st.bullets + 1) else st
    case Text => st
  }

  ghost predicate SeenBullet(ks: seq<LineKind>, n: nat)
    requires n <= |ks|
  {
    exists i, j :: 0 <= i < j < n && HighlightBulletAt(ks, i, j)
  }

  /** What the flags mean after the first `n` lines; `header` is the line of
      the open highlights section. */
  ghost predicate ScanInv(ks: seq<LineKind>, n: nat, st: Scan, header: nat)
  {
    n <= |ks|
    && (st.hasSummary <==> SummaryHeader in ks[..n])
    && (st.hasHighlights <==> HighlightsHeader in ks[..n])
    && (st.inHighlights ==>
          header < n && ks[header] == HighlightsHeader && forall m :: header < m < n ==> !Closes(ks[m]))
    && (!st.inHighlights ==>
          forall i :: 0 <= i < n && ks[i] == HighlightsHeader ==> exists m :: i < m < n && Closes(ks[m]))
    && (st.bullets > 0 <==> SeenBullet(ks, n))
  }

  /** A bullet on line `n` is under some highlights header exactly when the scan is inside one. */
  lemma NewBullet(ks: seq<LineKind>, n: nat, st: Scan, header: nat)
    requires n < |ks| && ScanInv(ks, n, st, header)
    ensures (exists i :: 0 <= i < n && HighlightBulletAt(ks, i, n)) <==> ks[n] == Bullet && st.inHighlights
  {
    if ks[n] == Bullet && st.inHighlights {
      assert HighlightBulletAt(ks, header, n);
    }
    if exists i :: 0 <= i < n && HighlightBulletAt(ks, i, n) {
      var i :| 0 <= i < n && HighlightBulletAt(ks, i, n);
      assert ks[i] == HighlightsHeader;
    }
  }

  /** The scan of one more line keeps the meaning of the flags. */
  lemma ScanStep(ks: seq<LineKind>, n: nat, st: Scan, header: nat)
    requires n < |ks| && ScanInv(ks, n, st, header)
    ensures ScanInv(ks, n + 1, ScanKind(st, ks[n]), if ks[n] == HighlightsHeader then n else header)
  {
    assert ks[..n + 1] == ks[..n] + [ks[n]];
    NewBullet(ks, n, st, header);
    if SeenBullet(ks, n + 1) && !SeenBullet(ks, n) {
      var i, j :| 0 <= i < j < n + 1 && HighlightBulletAt(ks, i, j);
      assert j == n;
    }
    if (exists i :: 0 <= i < n && HighlightBulletAt(ks, i, n)) {
      var i :| 0 <= i < n && HighlightBulletAt(ks, i, n);
      assert SeenBullet(ks, n + 1);
    }
    var st2 := ScanKind(st, ks[n]);
    if !st2.inHighlights {
      forall i | 0 <= i < n + 1 && ks[i] == HighlightsHeader
        ensures exists m :: i < m < n + 1 && Closes(ks[m])
      {
        if !st.inHighlights || i == n {
          if i < n {
            var m :| i < m < n && Closes(ks[m]);
          }
        } else {
          assert Closes(ks[n]);
        }
      }
    }
  }

  /** The source's scan with its `has_summary`, `has_highlights`, `in_highlights`
      flags and bullet counter. */
  method ValidateSummaryLines(lines: seq<string>) returns (r: Result<(), SummaryError>)
    ensures r.Ok? <==> CompleteSummary(lines)
  {
    var hasSummary := false;
    var hasHighlights := false;
    var highlightBullets: nat := 0;
    var inHighlights := false;
    ghost var header: nat := 0;
    var n := 0;
    ScanStart(Kinds(lines));
    while n < |lines|
      invariant 0 <= n <= |lines|
      invariant ScanInv(Kinds(lines), n, Scan(hasSummary, hasHighlights, highlightBullets, inHighlights), header)
    {
      var t := Trim(lines[n]);
      header := ScanLineStep(lines, n, Scan(hasSummary, hasHighlights, highlightBullets, inHighlights), header);
      hasSummary, hasHighlights, highlightBullets, inHighlights :=
        ScanLine(t, hasSummary, hasHighlights, highlightBullets, inHighlights);
      n := n + 1;
    }
    ScanDone(lines, Kinds(lines), Scan(hasSummary, hasHighlights, highlightBullets, inHighlights), header);
    if hasSummary && hasHighlights && highlightBullets >= 1 {
      r := Ok(());
    } else {
      r := Err(IncompleteSummary);
    }
  }

  /** Before any line nothing has been seen. */
  lemma ScanStart(ks: seq<LineKind>)
    ensures ScanInv(ks, 0, Scan(false, false, 0, false), 0)
  {
    assert ks[..0] == [];
  }

  /** The invariant carried over one line, with the header position it keeps. */
  ghost method ScanLineStep(lines: seq<string>, n: nat, st: Scan, header: nat) returns (header': nat)
    requires n < |lines| && ScanInv(Kinds(lines), n, st, header)
    ensures ScanInv(Kinds(lines), n + 1, ScanKind(st, KindOf(Trim(lines[n]))), header')
  {
    var ks := Kinds(lines);
    assert ks[n] == KindOf(Trim(lines[n]));
    ScanStep(ks, n, st, header);
    header' := if ks[n] == HighlightsHeader then n else header;
  }

  /** At the end of the lines the flags decide completeness. */
  lemma ScanDone(lines: seq<string>, ks: seq<LineKind>, st: Scan, header: nat)
    requires ks == Kinds(lines) && ScanInv(ks, |ks|, st, header)
    ensures st.hasSummary && st.hasHighlights && st.bullets >= 1 <==> CompleteSummary(lines)
  {
    assert ks[..|ks|] == ks;
  }

  /** The body of the scan for one trimmed line: updates the four flags. */
  method ScanLine(t: string, hasSummary: bool, hasHighlights: bool, bullets: nat, inHighlights: bool)
    returns (hasSummary': bool, hasHighlights': bool, bullets': nat, inHighlights': bool)
    ensures Scan(hasSummary', hasHighlights', bullets', inHighlights')
         == ScanKind(Scan(hasSummary, hasHighlights, bullets, inHighlights), KindOf(t))
  {
    hasSummary', hasHighlights', bullets', inHighlights' := hasSummary, hasHighlights, bullets, inHighlights;
    if ToLower(t) == "## summary" {
      hasSummary' := true;
      inHighlights' := false;
    } else if ToLower(t) == "## highlights" {
      hasHighlights' := true;
      inHighlights' := true;
    } else {
      KindOfOther(t);
      if StartsWith(t, "## ") {
        inHighlights' := false;
      }
      if inHighlights' && IsBulletLine(t) {
        bullets' := bullets' + 1;
      }
    }
  }

  method ValidateAiSummaryMarkdown(markdown: string) returns (r: Result<(), SummaryError>)
    ensures r.Ok? <==> CompleteSummary(Lines(markdown))
  {
    r := ValidateSummaryLines(Lines(markdown));
  }
}
