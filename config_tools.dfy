/** Custom coding agents declared in `tools.json`: the agent definition, its
    validation, the merge of the global and the local file (the local one
    wins for the same id) and the add/update/remove/get operations on a
    loaded configuration. Reading and writing the files is not modelled: a
    parsed file is a parameter. */
module ConfigTools {
  import opened Common

  /** How the agent's command is found. */
  datatype AgentType = Command | Path | Bunx

  /** Extra arguments per execution mode. */
  datatype ModeArgs = ModeArgs(normal: seq<string>, continueMode: seq<string>, resume: seq<string>)

  datatype ModelDef = ModelDef(id: string, displayLabel: string, arg: string)

  datatype CustomCodingAgent = CustomCodingAgent(
    id: string,
    displayName: string,
    agentType: AgentType,
    command: string,
    defaultArgs: seq<string>,
    modeArgs: Option<ModeArgs>,
    permissionSkipArgs: seq<string>,
    env: map<string, string>,
    models: seq<ModelDef>,
    versionCommand: Option<string>)

  const SCHEMA_VERSION: string := "1.0.0"

  /** An id character: a letter, a digit or a hyphen. */
  predicate IdChar(c: char)
  {
    IsAlnum(c) || c == '-'
  }

  /** `validate_agent`: a non-empty id of letters, digits and hyphens, a
      non-empty display name and a non-empty command. */
  predicate ValidateAgent(agent: CustomCodingAgent)
    ensures ValidateAgent(agent) ==> agent.id != [] && ' ' !in agent.id && '/' !in agent.id
  {
    agent.id != []
    && (forall i :: 0 <= i < |agent.id| ==> IdChar(agent.id[i]))
    && agent.displayName != []
    && agent.command != []
  }

  /** A single character outside the id alphabet anywhere in the id rejects
      the agent, whatever its other fields. */
  lemma BadIdCharRejects(agent: CustomCodingAgent, i: nat)
    requires i < |agent.id| && !IdChar(agent.id[i])
    ensures !ValidateAgent(agent)
  {
  }

  // ---------------------------------------------------------------------
  // Lookups by id

  /** No two agents share an id. */
  predicate UniqueIds(agents: seq<CustomCodingAgent>)
  {
    forall i, j :: 0 <= i < j < |agents| ==> agents[i].id != agents[j].id
  }

  predicate HasId(agents: seq<CustomCodingAgent>, id: string)
  {
    exists a :: a in agents && a.id == id
  }

  /** The index of the first agent with the id, as `iter().find`. */
  function IndexOfId(agents: seq<CustomCodingAgent>, id: string): (r: Option<nat>)
    ensures r.None? <==> !HasId(agents, id)
    ensures r.Some? ==> r.value < |agents| && agents[r.value].id == id
    ensures r.Some? ==> forall j :: 0 <= j < r.value ==> agents[j].id != id
  {
    if agents == [] then None
    else if agents[0].id == id then Some(0)
    else
      var rest := IndexOfId(agents[1..], id);
      assert forall a :: a in agents[1..] ==> a in agents;
      assert HasId(agents, id) ==> HasId(agents[1..], id) by {
        if HasId(agents, id) {
          var a :| a in agents && a.id == id;
          var k :| 0 <= k < |agents| && agents[k] == a;
          assert agents[1..][k - 1] == a;
        }
      }
      if rest.None? then None else Some(rest.value + 1)
  }

  /** `retain(|a| a.id != id)`: the agents with another id, in order. */
  function Without(agents: seq<CustomCodingAgent>, id: string): (r: seq<CustomCodingAgent>)
    ensures forall a :: a in r <==> a in agents && a.id != id
    ensures |r| <= |agents|
    ensures |r| < |agents| <==> HasId(agents, id)
  {
    if agents == [] then []
    else
      var rest := Without(agents[1..], id);
      assert forall a :: a in agents <==> a == agents[0] || a in agents[1..];
      assert HasId(agents, id) <==> agents[0].id == id || HasId(agents[1..], id);
      if agents[0].id == id then rest else [agents[0]] + rest
  }

  /** Removing keeps ids unique and leaves no agent with the removed id. */
  lemma {:induction false} WithoutKeepsUnique(agents: seq<CustomCodingAgent>, id: string)
    requires UniqueIds(agents)
    ensures UniqueIds(Without(agents, id))
    ensures !HasId(Without(agents, id), id)
    decreases |agents|
  {
    if agents != [] {
      assert UniqueIds(agents[1..]) by {
        forall i, j | 0 <= i < j < |agents[1..]|
          ensures agents[1..][i].id != agents[1..][j].id
        {
          assert agents[1..][i] == agents[i + 1] && agents[1..][j] == agents[j + 1];
        }
      }
      WithoutKeepsUnique(agents[1..], id);
      var rest := Without(agents[1..], id);
      if agents[0].id != id {
        forall a | a in rest
          ensures a.id != agents[0].id
        {
          var k :| 0 <= k < |agents[1..]| && agents[1..][k] == a;
          assert agents[k + 1] == a;
        }
        ConsUnique(agents[0], rest);
      }
    }
  }

  /** An agent whose id no other agent has can go in front of a list with unique ids. */
  lemma ConsUnique(a: CustomCodingAgent, rest: seq<CustomCodingAgent>)
    requires UniqueIds(rest)
    requires forall b :: b in rest ==> b.id != a.id
    ensures UniqueIds([a] + rest)
  {
    var all := [a] + rest;
    forall i, j | 0 <= i < j < |all|
      ensures all[i].id != all[j].id
    {
      assert all[j] == rest[j - 1];
      if i > 0 {
        assert all[i] == rest[i - 1];
      }
    }
  }

  // ---------------------------------------------------------------------
  // Merging the global and the local file

  /** Every entry of the id-keyed map is stored under its own id and valid. */
  predicate KeyedValid(m: map<string, CustomCodingAgent>)
  {
    forall k :: k in m ==> m[k].id == k && ValidateAgent(m[k])
  }

  /** The loop of `merge` over one file: its valid agents inserted by id in
      file order, so that a later agent replaces an earlier one. */
  function MergeInto(m: map<string, CustomCodingAgent>, agents: seq<CustomCodingAgent>): (r: map<string, CustomCodingAgent>)
    ensures KeyedValid(m) ==> KeyedValid(r)
    ensures m.Keys <= r.Keys
  {
    if agents == [] then m
    else
      var before := MergeInto(m, agents[..|agents| - 1]);
      var a := agents[|agents| - 1];
      if ValidateAgent(a) then before[a.id := a] else before
  }

  /** The last valid agent of the file with the id. */
  function LastValid(agents: seq<CustomCodingAgent>, id: string): (r: Option<CustomCodingAgent>)
    ensures r.Some? ==> r.value in agents && r.value.id == id && ValidateAgent(r.value)
    ensures r.None? ==> forall a :: a in agents && a.id == id ==> !ValidateAgent(a)
  {
    if agents == [] then None
    else
      var a := agents[|agents| - 1];
      var rest := LastValid(agents[..|agents| - 1], id);
      assert forall b :: b in agents <==> b == a || b in agents[..|agents| - 1];
      if a.id == id && ValidateAgent(a) then Some(a) else rest
  }

  /** What the merge of one file does to one id: the file's last valid agent
      with that id replaces the entry, and without one the entry stays. */
  lemma {:induction false} MergeIntoLookup(m: map<string, CustomCodingAgent>, agents: seq<CustomCodingAgent>, id: string)
    ensures id in MergeInto(m, agents) <==> id in m || LastValid(agents, id).Some?
    ensures LastValid(agents, id).Some? ==> MergeInto(m, agents)[id] == LastValid(agents, id).value
    ensures LastValid(agents, id).None? && id in m ==> MergeInto(m, agents)[id] == m[id]
    decreases |agents|
  {
    if agents != [] {
      MergeIntoLookup(m, agents[..|agents| - 1], id);
    }
  }

  /** The id-keyed map `merge` builds from the two optional files. */
  function Merged(first: seq<CustomCodingAgent>, second: seq<CustomCodingAgent>): (r: map<string, CustomCodingAgent>)
    ensures KeyedValid(r)
  {
    MergeInto(MergeInto(map[], first), second)
  }

  /** The local file takes priority: an id defined validly in the second file
      gets its last definition there; otherwise the first file's last valid
      definition; ids with no valid definition are dropped. */
  lemma SecondWins(first: seq<CustomCodingAgent>, second: seq<CustomCodingAgent>, id: string)
    ensures id in Merged(first, second) <==> LastValid(first, id).Some? || LastValid(second, id).Some?
    ensures LastValid(second, id).Some? ==> Merged(first, second)[id] == LastValid(second, id).value
    ensures LastValid(second, id).None? && LastValid(first, id).Some? ==>
              Merged(first, second)[id] == LastValid(first, id).value
  {
    MergeIntoLookup(map[], first, id);
    MergeIntoLookup(MergeInto(map[], first), second, id);
  }

  /** A parsed `tools.json`. */
  datatype ParsedFile = ParsedFile(version: string, customCodingAgents: seq<CustomCodingAgent>)

  class ToolsConfig {
    var version: string
    var customCodingAgents: seq<CustomCodingAgent>

    /** Agents keep distinct ids through add, update and remove. */
    predicate Valid()
      reads this
    {
      UniqueIds(customCodingAgents)
    }

    /** `ToolsConfig::empty`. */
    constructor Empty()
      ensures version == SCHEMA_VERSION && customCodingAgents == [] && Valid()
    {
      version := SCHEMA_VERSION;
      customCodingAgents := [];
    }

    /** A configuration holding the given contents. */
    constructor (version: string, agents: seq<CustomCodingAgent>)
      ensures this.version == version && customCodingAgents == agents
    {
      this.version := version;
      customCodingAgents := agents;
    }

    /** `add_agent`: a valid agent with a new id is appended; otherwise
        nothing changes. */
    method AddAgent(agent: CustomCodingAgent) returns (added: bool)
      requires Valid()
      modifies this
      ensures Valid()
      ensures added <==> ValidateAgent(agent) && !HasId(old(customCodingAgents), agent.id)
      ensures customCodingAgents == if added then old(customCodingAgents) + [agent] else old(customCodingAgents)
      ensures version == old(version)
    {
      if !ValidateAgent(agent) {
        return false;
      }
      if IndexOfId(customCodingAgents, agent.id).Some? {
        return false;
      }
      ghost var before := customCodingAgents;
      customCodingAgents := customCodingAgents + [agent];
      forall i, j | 0 <= i < j < |customCodingAgents|
        ensures customCodingAgents[i].id != customCodingAgents[j].id
      {
        if j == |before| {
          assert customCodingAgents[i] in before;
        }
      }
      added := true;
    }

    /** `update_agent`: a valid agent replaces the first one with its id; a
        missing id or an invalid agent changes nothing. */
    method UpdateAgent(agent: CustomCodingAgent) returns (updated: bool)
      requires Valid()
      modifies this
      ensures Valid()
      ensures updated <==> ValidateAgent(agent) && HasId(old(customCodingAgents), agent.id)
      ensures updated ==> var i := IndexOfId(old(customCodingAgents), agent.id).value;
                          customCodingAgents == old(customCodingAgents)[i := agent]
      ensures !updated ==> customCodingAgents == old(customCodingAgents)
      ensures version == old(version)
    {
      if !ValidateAgent(agent) {
        return false;
      }
      var found := IndexOfId(customCodingAgents, agent.id);
      if found.None? {
        return false;
      }
      customCodingAgents := customCodingAgents[found.value := agent];
      updated := true;
    }

    /** `remove_agent`: drops every agent with the id and reports whether
        one was there. */
    method RemoveAgent(id: string) returns (removed: bool)
      requires Valid()
      modifies this
      ensures Valid()
      ensures customCodingAgents == Without(old(customCodingAgents), id)
      ensures removed <==> HasId(old(customCodingAgents), id)
      ensures !HasId(customCodingAgents, id)
      ensures version == old(version)
    {
      var initialLen := |customCodingAgents|;
      WithoutKeepsUnique(customCodingAgents, id);
      customCodingAgents := Without(customCodingAgents, id);
      removed := |customCodingAgents| < initialLen;
    }

    /** `get_agent`: the first agent with the id. */
    function GetAgent(id: string): (r: Option<CustomCodingAgent>)
      reads this
      ensures r.Some? ==> r.value in customCodingAgents && r.value.id == id
      ensures r.None? <==> !HasId(customCodingAgents, id)
    {
      var i := IndexOfId(customCodingAgents, id);
      if i.None? then None else Some(customCodingAgents[i.value])
    }
  }

  /** `load_from_path` after parsing: a file without a version is skipped. */
  method Load(parsed: Option<ParsedFile>) returns (r: Option<ToolsConfig>)
    ensures r.Some? <==> parsed.Some? && parsed.value.version != []
    ensures r.Some? ==> fresh(r.value) && r.value.version == parsed.value.version
                        && r.value.customCodingAgents == parsed.value.customCodingAgents
  {
    if parsed.None? || parsed.value.version == [] {
      return None;
    }
    var config := new ToolsConfig(parsed.value.version, parsed.value.customCodingAgents);
    r := Some(config);
  }

  /** `merge`: the valid agents of both files keyed by id, the second file
      winning, collected in the map's own order under the schema version. */
  method Merge(first: Option<ToolsConfig>, second: Option<ToolsConfig>) returns (r: ToolsConfig)
    ensures fresh(r) && r.version == SCHEMA_VERSION && r.Valid()
    ensures var m := Merged(if first.Some? then first.value.customCodingAgents else [],
                            if second.Some? then second.value.customCodingAgents else []);
            |r.customCodingAgents| == |m| && forall a :: a in r.customCodingAgents <==> a in m.Values
  {
    var agents: map<string, CustomCodingAgent> := map[];
    var firstAgents := if first.Some? then first.value.customCodingAgents else [];
    var secondAgents := if second.Some? then second.value.customCodingAgents else [];
    agents := InsertValid(agents, firstAgents);
    agents := InsertValid(agents, secondAgents);
    var values := CollectValues(agents);
    r := new ToolsConfig(SCHEMA_VERSION, values);
  }

  /** One `for agent in ... { if valid { insert } }` loop of `merge`. */
  method InsertValid(m: map<string, CustomCodingAgent>, agents: seq<CustomCodingAgent>) returns (r: map<string, CustomCodingAgent>)
    ensures r == MergeInto(m, agents)
  {
    r := m;
    for i := 0 to |agents|
      invariant r == MergeInto(m, agents[..i])
    {
      assert agents[..i + 1][..i] == agents[..i];
      if ValidateAgent(agents[i]) {
        r := r[agents[i].id := agents[i]];
      }
    }
    assert agents[..|agents|] == agents;
  }

  /** `into_values().collect()` in some order: each entry once, so the ids
      stay distinct. */
  method CollectValues(m: map<string, CustomCodingAgent>) returns (vs: seq<CustomCodingAgent>)
    requires KeyedValid(m)
    ensures |vs| == |m| && UniqueIds(vs)
    ensures forall a :: a in vs <==> a in m.Values
  {
    vs := [];
    var rest := m;
    while rest != map[]
      invariant Collected(m, rest, vs)
      decreases |rest|
    {
      var k :| k in rest;
      CollectStep(m, rest, vs, k);
      vs := vs + [rest[k]];
      rest := rest - {k};
    }
    forall a | a in m.Values
      ensures a in vs
    {
      var k :| k in m && m[k] == a;
    }
  }

  /** The loop state of `CollectValues`: `vs` holds the entries of `m` that
      are no longer in `rest`, each once. */
  ghost predicate Collected(m: map<string, CustomCodingAgent>, rest: map<string, CustomCodingAgent>, vs: seq<CustomCodingAgent>)
  {
    && rest.Keys <= m.Keys
    && (forall k :: k in rest ==> rest[k] == m[k])
    && (forall i :: 0 <= i < |vs| ==> vs[i].id in m && vs[i] == m[vs[i].id] && vs[i].id !in rest)
    && (forall k :: k in m && k !in rest ==> m[k] in vs)
    && UniqueIds(vs)
    && |vs| + |rest| == |m|
  }

  lemma CollectStep(m: map<string, CustomCodingAgent>, rest: map<string, CustomCodingAgent>, vs: seq<CustomCodingAgent>, k: string)
    requires KeyedValid(m) && Collected(m, rest, vs) && k in rest
    ensures Collected(m, rest - {k}, vs + [rest[k]]) && |rest - {k}| < |rest|
  {
    var a := rest[k];
    var vs' := vs + [a];
    assert vs'[|vs|] == a && a.id == k;
  }

  /** Adding an agent makes it the one `get_agent` finds. */
  method AddThenGet(config: ToolsConfig, agent: CustomCodingAgent)
    requires config.Valid() && ValidateAgent(agent) && !HasId(config.customCodingAgents, agent.id)
    modifies config
    ensures config.Valid() && config.GetAgent(agent.id) == Some(agent)
  {
    var added := config.AddAgent(agent);
    var i := IndexOfId(config.customCodingAgents, agent.id).value;
    assert config.customCodingAgents[|config.customCodingAgents| - 1] == agent;
  }
}
