/** How a local branch stands against its upstream: the ahead/behind counts read
    from `git rev-list --left-right --count`, the status derived from them and
    its display text. */
module GitBranch {
  import opened Common

  datatype DivergenceStatus =
    | UpToDate
    | Ahead(n: nat)
    | Behind(n: nat)
    | Diverged(ahead: nat, behind: nat)
    | NoRemote

  /** `Branch::divergence_status`: no upstream first, then the four count cases. */
  function DivergenceStatusOf(hasRemote: bool, ahead: nat, behind: nat): (r: DivergenceStatus)
    ensures r == NoRemote <==> !hasRemote
    ensures hasRemote ==> (r == UpToDate <==> ahead == 0 && behind == 0)
    ensures r.Ahead? ==> ahead > 0 && behind == 0
    ensures r.Behind? ==> ahead == 0 && behind > 0
    ensures r.Diverged? ==> ahead > 0 && behind > 0
  {
    if !hasRemote then NoRemote
    else if ahead == 0 && behind == 0 then UpToDate
    else if behind == 0 then Ahead(ahead)
    else if ahead == 0 then Behind(behind)
    else Diverged(ahead, behind)
  }

  /** The (ahead, behind) counts a status stands for. */
  function Counts(s: DivergenceStatus): (nat, nat)
  {
    match s
    case UpToDate => (0, 0)
    case Ahead(n) => (n, 0)
    case Behind(n) => (0, n)
    case Diverged(a, b) => (a, b)
    case NoRemote => (0, 0)
  }

  /** With an upstream, the status loses nothing: the counts come back out of it. */
  lemma StatusKeepsCounts(ahead: nat, behind: nat)
    ensures Counts(DivergenceStatusOf(true, ahead, behind)) == (ahead, behind)
  {
  }

  /** Statuses with an upstream are equal exactly when their counts are. */
  lemma StatusInjective(a1: nat, b1: nat, a2: nat, b2: nat)
    ensures DivergenceStatusOf(true, a1, b1) == DivergenceStatusOf(true, a2, b2) <==> (a1, b1) == (a2, b2)
  {
    StatusKeepsCounts(a1, b1);
    StatusKeepsCounts(a2, b2);
  }

  /** The counts parsed from the command's output: two tab-separated numbers
      after trimming, anything unparseable read as 0; a failed command or any
      other shape gives (0, 0). */
  function ParseDivergence(success: bool, stdout: string): (r: (nat, nat))
    ensures !success ==> r == (0, 0)
    ensures |Split(Trim(stdout), '\t')| != 2 ==> r == (0, 0)
    ensures r.0 <= U64_MAX && r.1 <= U64_MAX
  {
    if !success then (0, 0)
    else
      var parts := Split(Trim(stdout), '\t');
      if |parts| == 2
      then (ParseUnsigned(parts[0], U64_MAX).GetOr(0), ParseUnsigned(parts[1], U64_MAX).GetOr(0))
      else (0, 0)
  }

  /** The output git prints for counts in range is read back as those counts. */
  lemma ParseDivergenceRoundTrip(ahead: nat, behind: nat)
    requires ahead <= U64_MAX && behind <= U64_MAX
    ensures ParseDivergence(true, NatToString(ahead) + "\t" + NatToString(behind) + "\n") == (ahead, behind)
  {
    var a := NatToString(ahead);
    var b := NatToString(behind);
    var out := a + "\t" + b + "\n";
    var line := a + "\t" + b;
    assert Trim(out) == line by {
      TrimOutput(a, b);
    }
    assert '\t' !in a by { assert AllDigits(a); }
    assert line == a + ['\t'] + b;
    SplitCons(a, '\t', b);
    assert '\t' !in b by { assert AllDigits(b); }
    assert Split(b, '\t') == [b];
    ParseNatToString(ahead, U64_MAX);
    ParseNatToString(behind, U64_MAX);
  }

  lemma TrimOutput(a: string, b: string)
    requires a != [] && AllDigits(a) && b != [] && AllDigits(b)
    ensures Trim(a + "\t" + b + "\n") == a + "\t" + b
  {
    var out := a + "\t" + b + "\n";
    var line := a + "\t" + b;
    assert out == line + "\n";
    assert out[..|out| - 1] == line;
    assert !IsSpace(out[0]) by { assert out[0] == a[0]; }
    assert TrimStart(out) == out;
    assert !IsSpace(line[|line| - 1]) by { assert line[|line| - 1] == b[|b| - 1]; }
    assert TrimEnd(line) == line;
    assert TrimEnd(out) == TrimEnd(line);
  }

  /** `impl Display for DivergenceStatus`. */
  function DivergenceText(s: DivergenceStatus): string
  {
    match s
    case UpToDate => "up to date"
    case Ahead(n) => NatToString(n) + " ahead"
    case Behind(n) => NatToString(n) + " behind"
    case Diverged(a, b) => NatToString(a) + " ahead, " + NatToString(b) + " behind"
    case NoRemote => "no remote"
  }

  /** The count in an "N ahead" or "N behind" text reads back as N. */
  lemma CountTextRoundTrip(s: DivergenceStatus)
    requires s.Ahead? || s.Behind?
    ensures var t := DivergenceText(s);
            var k := if s.Ahead? then 6 else 7;
            |t| > k && ParseUnsigned(t[..|t| - k], s.n) == Some(s.n)
  {
    var t := DivergenceText(s);
    var k := if s.Ahead? then 6 else 7;
    assert t[..|t| - k] == NatToString(s.n);
    ParseNatToString(s.n, s.n);
  }

  /** Only the two count-free statuses have texts that start with a letter. */
  lemma TextStartsWithDigit(s: DivergenceStatus)
    ensures var t := DivergenceText(s);
            t != [] && (IsDigit(t[0]) <==> !(s == UpToDate || s == NoRemote))
  {
    match s
    case Ahead(n) => assert DivergenceText(s)[0] == NatToString(n)[0];
    case Behind(n) => assert DivergenceText(s)[0] == NatToString(n)[0];
    case Diverged(a, b) => assert DivergenceText(s)[0] == NatToString(a)[0];
    case UpToDate =>
    case NoRemote =>
  }
}
