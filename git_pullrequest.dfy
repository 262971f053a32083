/** Pull requests by head branch: which of two pull requests is the newer, the latest of a
    list, and the branch-to-pull-request cache. */
module GitPullRequest {
  import opened Common

  datatype PullRequest = PullRequest(number: nat, title: string, headBranch: string, state: string,
                                     url: Option<string>, updatedAt: Option<string>)

  /** `str::eq_ignore_ascii_case`. */
  predicate EqIgnoreAsciiCase(a: string, b: string)
  {
    ToLower(a) == ToLower(b)
  }

  predicate IsOpen(pr: PullRequest)
  {
    EqIgnoreAsciiCase(pr.state, "OPEN")
  }

  /** A timestamp beats none; of two timestamps the later (as a string) wins. */
  predicate TsNewer(c: Option<string>, k: Option<string>)
  {
    match (c, k)
    case (Some(x), Some(y)) => CompareStr(x, y) == Greater
    case (Some(_), None) => true
    case (None, _) => false
  }

  /** An open candidate beats a pull request that is not open and vice versa; with the same
      openness the later `updatedAt` wins, and any timestamp beats none. */
  predicate IsNewer(candidate: PullRequest, current: PullRequest)
    ensures IsOpen(candidate) && !IsOpen(current) ==> IsNewer(candidate, current)
    ensures !IsOpen(candidate) && IsOpen(current) ==> !IsNewer(candidate, current)
    ensures IsOpen(candidate) == IsOpen(current) && candidate.updatedAt.Some? && current.updatedAt.Some? ==>
              (IsNewer(candidate, current) <==> CompareStr(candidate.updatedAt.value, current.updatedAt.value) == Greater)
    ensures IsOpen(candidate) == IsOpen(current) && candidate.updatedAt.Some? && current.updatedAt.None? ==>
              IsNewer(candidate, current)
    ensures candidate.updatedAt.None? && IsOpen(candidate) == IsOpen(current) ==> !IsNewer(candidate, current)
  {
    if IsOpen(candidate) != IsOpen(current) then IsOpen(candidate)
    else TsNewer(candidate.updatedAt, current.updatedAt)
  }

  /** No pull request is newer than itself, and of two pull requests at most one is the newer. */
  lemma IsNewerStrict(a: PullRequest, b: PullRequest)
    ensures !IsNewer(a, a)
    ensures IsNewer(a, b) ==> !IsNewer(b, a)
  {
    if a.updatedAt.Some? {
      CompareStrReverse(a.updatedAt.value, a.updatedAt.value);
    }
    if a.updatedAt.Some? && b.updatedAt.Some? {
      CompareStrReverse(a.updatedAt.value, b.updatedAt.value);
    }
  }

  lemma TsNewerTransitive(x: Option<string>, y: Option<string>, z: Option<string>)
    requires TsNewer(x, y) && TsNewer(y, z)
    ensures TsNewer(x, z)
  {
    if z.Some? {
      var a, b, c := x.value, y.value, z.value;
      CompareStrReverse(a, b);
      CompareStrReverse(b, c);
      CompareStrReverse(a, c);
      CompareStrTransitive(c, b, a);
    }
  }

  lemma IsNewerTransitive(a: PullRequest, b: PullRequest, c: PullRequest)
    requires IsNewer(a, b) && IsNewer(b, c)
    ensures IsNewer(a, c)
  {
    if IsOpen(a) == IsOpen(b) && IsOpen(b) == IsOpen(c) {
      TsNewerTransitive(a.updatedAt, b.updatedAt, c.updatedAt);
    }
  }

  /** If `z` is newer than `x`, it is newer than `y` or `y` is newer than `x`. */
  lemma TsNewerSplit(z: Option<string>, y: Option<string>, x: Option<string>)
    requires TsNewer(z, x)
    ensures TsNewer(z, y) || TsNewer(y, x)
  {
    if x.Some? && y.Some? {
      var a, b, c := z.value, y.value, x.value;
      CompareStrReverse(a, b);
      CompareStrReverse(b, c);
      CompareStrReverse(a, c);
      if CompareStr(a, b) != Greater && CompareStr(b, c) != Greater {
        if a != b && b != c {
          CompareStrTransitive(a, b, c);
        }
      }
    }
  }

  /** "Not newer than" is transitive: it is the order the cache's entries only move up in. */
  lemma NotNewerTransitive(x: PullRequest, y: PullRequest, z: PullRequest)
    requires !IsNewer(y, x) && !IsNewer(z, y)
    ensures !IsNewer(z, x)
  {
    if IsOpen(z) == IsOpen(x) && IsOpen(z) == IsOpen(y) && TsNewer(z.updatedAt, x.updatedAt) {
      TsNewerSplit(z.updatedAt, y.updatedAt, x.updatedAt);
    }
  }

  /** The fold of the source: the first pull request, replaced by each later one that is newer. */
  method SelectLatestPr(prs: seq<PullRequest>) returns (selected: Option<PullRequest>)
    ensures selected.None? <==> prs == []
    ensures selected.Some? ==> selected.value in prs
    ensures selected.Some? ==> forall p :: p in prs ==> !IsNewer(p, selected.value)
  {
    selected := None;
    for i := 0 to |prs|
      invariant selected.None? <==> i == 0
      invariant selected.Some? ==> selected.value in prs[..i]
      invariant selected.Some? ==> forall p :: p in prs[..i] ==> !IsNewer(p, selected.value)
    {
      var pr := prs[i];
      assert prs[..i + 1] == prs[..i] + [pr];
      match selected {
        case Some(current) =>
          if IsNewer(pr, current) {
            forall p | p in prs[..i + 1]
              ensures !IsNewer(p, pr)
            {
              IsNewerStrict(pr, p);
              IsNewerStrict(pr, pr);
              if p != pr && IsNewer(p, pr) {
                IsNewerTransitive(p, pr, current);
              }
            }
            selected := Some(pr);
          } else {
            selected := Some(current);
          }
        case None =>
          IsNewerStrict(pr, pr);
          selected := Some(pr);
      }
    }
    assert prs[..|prs|] == prs;
  }

  /** The cache after taking in `prs` in order: a branch's entry is replaced by a pull
      request with that head branch when the branch has no entry or the pull request is newer. */
  function MergePrs(m: map<string, PullRequest>, prs: seq<PullRequest>): map<string, PullRequest>
    decreases |prs|
  {
    if prs == [] then m
    else
      var pr := prs[0];
      var replace := pr.headBranch !in m || IsNewer(pr, m[pr.headBranch]);
      MergePrs(if replace then m[pr.headBranch := pr] else m, prs[1..])
  }

  /** Every entry is keyed by its head branch. */
  predicate KeyedByHead(m: map<string, PullRequest>)
  {
    forall b :: b in m ==> m[b].headBranch == b
  }

  /** After merging, every branch of `prs` has an entry that no merged pull request for it
      is newer than; every entry came from the old map or from `prs`; and no old entry is
      newer than the entry that replaced it. */
  lemma {:induction false} MergePrsLatest(m: map<string, PullRequest>, prs: seq<PullRequest>)
    requires KeyedByHead(m)
    ensures KeyedByHead(MergePrs(m, prs))
    ensures m.Keys <= MergePrs(m, prs).Keys
    ensures forall p :: p in prs ==>
              (p.headBranch in MergePrs(m, prs) && !IsNewer(p, MergePrs(m, prs)[p.headBranch]))
    ensures forall b :: b in MergePrs(m, prs) ==>
              (MergePrs(m, prs)[b] in prs || (b in m && MergePrs(m, prs)[b] == m[b]))
    ensures forall b :: b in m ==> !IsNewer(m[b], MergePrs(m, prs)[b])
    decreases |prs|
  {
    if prs != [] {
      var pr := prs[0];
      var h := pr.headBranch;
      var replace := h !in m || IsNewer(pr, m[h]);
      var m1 := if replace then m[h := pr] else m;
      MergePrsLatest(m1, prs[1..]);
      var r := MergePrs(m, prs);
      assert r == MergePrs(m1, prs[1..]);
      // each old entry is not newer than its possibly replaced one
      forall b | b in m
        ensures !IsNewer(m[b], m1[b])
      {
        IsNewerStrict(m[b], m1[b]);
        IsNewerStrict(m[b], m[b]);
      }
      forall b | b in m
        ensures !IsNewer(m[b], r[b])
      {
        NotNewerTransitive(r[b], m1[b], m[b]);
      }
      // the first pull request is not newer than its branch's entry
      assert !IsNewer(pr, m1[h]) by {
        IsNewerStrict(pr, pr);
      }
      NotNewerTransitive(r[h], m1[h], pr);
      forall p | p in prs
        ensures p.headBranch in r && !IsNewer(p, r[p.headBranch])
      {
        if p != pr {
          assert p in prs[1..];
        }
      }
      forall b | b in r
        ensures r[b] in prs || (b in m && r[b] == m[b])
      {
        if r[b] !in prs[1..] {
          assert b in m1 && r[b] == m1[b];
        }
      }
    } else {
      forall b | b in m
        ensures !IsNewer(m[b], m[b])
      {
        IsNewerStrict(m[b], m[b]);
      }
    }
  }

  predicate MergedIn(m: map<string, PullRequest>, branch: string)
  {
    branch in m && EqIgnoreAsciiCase(m[branch].state, "MERGED")
  }

  /** A branch with no entry is not merged; one with an entry is merged exactly when its
      state, lower-cased, reads "merged". */
  lemma MergedInRule(m: map<string, PullRequest>, branch: string)
    ensures branch !in m ==> !MergedIn(m, branch)
    ensures branch in m ==> (MergedIn(m, branch) <==> ToLower(m[branch].state) == "merged")
  {
    assert ToLower("MERGED") == "merged";
  }

  class PrCache {
    var branchToPr: map<string, PullRequest>
    var populated: bool

    constructor ()
      ensures branchToPr == map[] && !populated
    {
      branchToPr := map[];
      populated := false;
    }

    function Get(branch: string): (r: Option<PullRequest>)
      reads this
      ensures r.Some? <==> branch in branchToPr
      ensures r.Some? ==> r.value == branchToPr[branch]
    {
      if branch in branchToPr then Some(branchToPr[branch]) else None
    }

    function GetTitle(branch: string): (r: Option<string>)
      reads this
      ensures r.Some? <==> branch in branchToPr
      ensures r.Some? ==> r.value == branchToPr[branch].title
    {
      if branch in branchToPr then Some(branchToPr[branch].title) else None
    }

    /** The branch's pull request is merged, its state compared ignoring ASCII case; false
        for a branch with no entry. */
    predicate IsMerged(branch: string)
      reads this
    {
      MergedIn(branchToPr, branch)
    }

    /** Fills the cache once. `ghAvailable` and `fetched` stand for the `gh` availability
        check and the fetch of open and merged pull requests (None when the fetch failed). */
    method Populate(ghAvailable: bool, fetched: Option<seq<PullRequest>>)
      modifies this
      ensures populated
      ensures old(populated) || !ghAvailable || fetched.None? ==> branchToPr == old(branchToPr)
      ensures !old(populated) && ghAvailable && fetched.Some? ==>
                branchToPr == MergePrs(old(branchToPr), fetched.value)
    {
      if populated {
        return;
      }
      if !ghAvailable {
        populated := true;
        return;
      }
      if fetched.Some? {
        var prs := fetched.value;
        for i := 0 to |prs|
          invariant MergePrs(old(branchToPr), prs) == MergePrs(branchToPr, prs[i..])
        {
          var pr := prs[i];
          var replace := if pr.headBranch in branchToPr then IsNewer(pr, branchToPr[pr.headBranch]) else true;
          if replace {
            branchToPr := branchToPr[pr.headBranch := pr];
          }
          assert prs[i..][1..] == prs[i + 1..];
        }
      }
      populated := true;
    }

    method Clear()
      modifies this
      ensures branchToPr == map[] && !populated
    {
      branchToPr := map[];
      populated := false;
    }
  }

  /** Taken into an empty cache, every fetched pull request's branch has an entry with that
      head branch, drawn from the fetched list, that none of them is newer than. */
  lemma PopulatedFromEmpty(prs: seq<PullRequest>)
    ensures var r := MergePrs(map[], prs);
            KeyedByHead(r)
            && (forall p :: p in prs ==> p.headBranch in r && !IsNewer(p, r[p.headBranch]))
            && (forall b :: b in r ==> r[b] in prs)
  {
    MergePrsLatest(map[], prs);
  }
}
