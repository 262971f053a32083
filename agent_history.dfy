/** The per-repository record of which agent was last used on each branch,
    kept so that the choice survives the deletion of a worktree. Loading and
    saving the JSON file are not modelled; time is a parameter. */
module AgentHistory {
  import opened Common

  datatype AgentHistoryEntry = AgentHistoryEntry(agentId: string, agentLabel: string, updatedAt: int)

  /** Repository key, then branch, to entry. */
  type Repos = map<string, map<string, AgentHistoryEntry>>

  /** The branch map of a repository, empty for an unknown one. */
  function BranchesOf(repos: Repos, repo: string): map<string, AgentHistoryEntry>
  {
    if repo in repos then repos[repo] else map[]
  }

  /** The store after `record`: the repository's entry is created on demand
      and the branch's entry is replaced. */
  function WithRecord(repos: Repos, repo: string, branch: string, e: AgentHistoryEntry): (r: Repos)
    ensures r.Keys == repos.Keys + {repo}
  {
    repos[repo := BranchesOf(repos, repo)[branch := e]]
  }

  /** `get` on the store's value. */
  function Lookup(repos: Repos, repo: string, branch: string): (r: Option<AgentHistoryEntry>)
    ensures r.Some? <==> branch in BranchesOf(repos, repo)
  {
    var bs := BranchesOf(repos, repo);
    if branch in bs then Some(bs[branch]) else None
  }

  /** What is recorded is what is read back. */
  lemma RecordThenGet(repos: Repos, repo: string, branch: string, e: AgentHistoryEntry)
    ensures Lookup(WithRecord(repos, repo, branch, e), repo, branch) == Some(e)
  {
  }

  /** A second record for the same branch replaces the first entirely. */
  lemma RecordOverwrites(repos: Repos, repo: string, branch: string, e1: AgentHistoryEntry, e2: AgentHistoryEntry)
    ensures WithRecord(WithRecord(repos, repo, branch, e1), repo, branch, e2) == WithRecord(repos, repo, branch, e2)
  {
    var once := WithRecord(repos, repo, branch, e1);
    assert BranchesOf(once, repo)[branch := e2] == BranchesOf(repos, repo)[branch := e2];
  }

  /** Recording leaves every other repository, and every other branch of
      the same repository, as it was. */
  lemma RecordIsolated(repos: Repos, repo: string, branch: string, e: AgentHistoryEntry, otherRepo: string, otherBranch: string)
    ensures otherRepo != repo ==> BranchesOf(WithRecord(repos, repo, branch, e), otherRepo) == BranchesOf(repos, otherRepo)
    ensures otherBranch != branch ==> Lookup(WithRecord(repos, repo, branch, e), repo, otherBranch) == Lookup(repos, repo, otherBranch)
  {
  }

  class AgentHistoryStore {
    var repos: Repos

    /** `AgentHistoryStore::new`: no repositories. */
    constructor ()
      ensures repos == map[]
    {
      repos := map[];
    }

    /** `AgentHistoryStore::record` at time `now`. */
    method Record(repo: string, branch: string, agentId: string, agentLabel: string, now: int)
      modifies this
      ensures repos == WithRecord(old(repos), repo, branch, AgentHistoryEntry(agentId, agentLabel, now))
      ensures Get(repo, branch) == Some(AgentHistoryEntry(agentId, agentLabel, now))
    {
      var e := AgentHistoryEntry(agentId, agentLabel, now);
      var bs := if repo in repos then repos[repo] else map[];
      repos := repos[repo := bs[branch := e]];
    }

    /** `AgentHistoryStore::get`. */
    function Get(repo: string, branch: string): Option<AgentHistoryEntry>
      reads this
    {
      Lookup(repos, repo, branch)
    }

    /** `AgentHistoryStore::get_all_for_repo`: every branch entry of the
        repository, none for an unknown one. */
    function GetAllForRepo(repo: string): (r: map<string, AgentHistoryEntry>)
      reads this
      ensures repo !in repos ==> r == map[]
      ensures forall b :: b in r <==> Get(repo, b).Some?
      ensures forall b :: b in r ==> Get(repo, b) == Some(r[b])
    {
      BranchesOf(repos, repo)
    }
  }
}
