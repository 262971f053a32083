/** The port-conflict screen: for each published port whose default is taken,
    a list of free candidate ports, the port picked for it, and the checks run
    before the selection is accepted. The "is this port taken" probe is the set
    `taken` of ports it answers yes for. */
module TuiPortSelect {
  import opened Common

  const DEFAULT_CANDIDATE_LIMIT: nat := 12
  const PORT_SPACE: nat := U16_MAX + 1

  datatype PortSelectItem = PortSelectItem(envName: string, defaultPort: nat, conflictingPort: nat,
                                           selectedPort: nat, suggestedPort: nat,
                                           candidates: seq<nat>, selectedCandidate: nat)

  /** The selected port is the candidate under the candidate cursor. */
  predicate ItemOk(item: PortSelectItem)
  {
    item.candidates != [] ==>
      item.selectedCandidate < |item.candidates| && item.candidates[item.selectedCandidate] == item.selectedPort
  }

  predicate NoDuplicates(s: seq<nat>) { forall i, j :: 0 <= i < j < |s| ==> s[i] != s[j] }

  /** Usable candidate ports: non-zero, 16-bit and not taken. */
  predicate AllFree(s: seq<nat>, taken: set<nat>)
  {
    forall k :: 0 <= k < |s| ==> 0 < s[k] <= U16_MAX && s[k] !in taken
  }

  lemma InsertSecondKeepsUnique(s: seq<nat>, x: nat)
    requires s != [] && NoDuplicates(s) && x !in s
    ensures NoDuplicates(s[..1] + [x] + s[1..])
  {
    var r := s[..1] + [x] + s[1..];
    forall i, j | 0 <= i < j < |r| ensures r[i] != r[j] {
      if i == 1 {
        assert r[j] == s[j - 1];
      } else if j == 1 {
        assert r[i] == s[0];
      } else {
        assert r[i] == s[if i == 0 then 0 else i - 1] && r[j] == s[j - 1];
      }
    }
  }

  /** The candidate scan: from the base port upward, wrapping past 65535 to 1 and
      visiting each port at most once, collect free ports until `limit` are found;
      then make the default port visible as the second entry. */
  method BuildConflictCandidates(basePort: nat, defaultPort: nat, taken: set<nat>, limit: nat)
    returns (ports: seq<nat>)
    requires basePort <= U16_MAX && defaultPort <= U16_MAX
    ensures limit == 0 ==> ports == []
    ensures |ports| <= limit
    ensures NoDuplicates(ports) && AllFree(ports, taken)
    ensures var b := if basePort == 0 then 1 else basePort;
            b !in taken && limit > 0 ==> ports != [] && ports[0] == b
    ensures defaultPort != 0 && defaultPort !in taken && limit >= 2 ==> defaultPort in ports
  {
    if limit == 0 {
      return [];
    }
    var base: nat := if basePort == 0 then 1 else basePort;
    ports := ScanFreePorts(base, taken, limit);
    ports := ShowDefault(ports, defaultPort, taken, limit);
  }

  /** The wrapping scan from `base`: at most `limit` free ports, `base` first when it is free. */
  method ScanFreePorts(base: nat, taken: set<nat>, limit: nat) returns (ports: seq<nat>)
    requires 0 < base <= U16_MAX && limit > 0
    ensures |ports| <= limit
    ensures NoDuplicates(ports) && AllFree(ports, taken)
    ensures base !in taken ==> ports != [] && ports[0] == base
  {
    ports := [];
    var current: nat := base;
    var i := 0;
    while i < PORT_SPACE
      invariant 0 <= i <= PORT_SPACE
      invariant current <= U16_MAX
      invariant |ports| < limit
      invariant NoDuplicates(ports) && AllFree(ports, taken)
      invariant i == 0 ==> current == base && ports == []
      invariant i > 0 && base !in taken ==> ports != [] && ports[0] == base
      decreases PORT_SPACE - i
    {
      if current != 0 && current !in taken && current !in ports {
        ports := ports + [current];
        if |ports| >= limit {
          break;
        }
      }
      current := (current + 1) % PORT_SPACE;
      i := i + 1;
      if current == base {
        break;
      }
    }
  }

  /** A free default port missing from the list goes in second place, and the
      list is cut back to `limit`. */
  method ShowDefault(scanned: seq<nat>, defaultPort: nat, taken: set<nat>, limit: nat) returns (ports: seq<nat>)
    requires defaultPort <= U16_MAX && limit > 0 && |scanned| <= limit
    requires NoDuplicates(scanned) && AllFree(scanned, taken)
    ensures |ports| <= limit
    ensures NoDuplicates(ports) && AllFree(ports, taken)
    ensures scanned != [] ==> ports != [] && ports[0] == scanned[0]
    ensures defaultPort != 0 && defaultPort !in taken && limit >= 2 ==> defaultPort in ports
  {
    ports := scanned;
    if defaultPort != 0 && defaultPort !in taken && defaultPort !in ports {
      if ports == [] {
        ports := [defaultPort];
      } else {
        InsertSecondKeepsUnique(ports, defaultPort);
        ports := ports[..1] + [defaultPort] + ports[1..];
        assert ports[1] == defaultPort;
        if |ports| > limit {
          ports := ports[..limit];
        }
      }
    }
  }

  /** The index of the first candidate not already picked for an earlier item. */
  function FirstUnselected(candidates: seq<nat>, already: set<nat>): (r: Option<nat>)
    ensures r.Some? ==> r.value < |candidates| && candidates[r.value] !in already
    ensures r.Some? ==> forall j :: 0 <= j < r.value ==> candidates[j] in already
    ensures r.None? ==> forall j :: 0 <= j < |candidates| ==> candidates[j] in already
  {
    if candidates == [] then None
    else if candidates[0] !in already then Some(0)
    else match FirstUnselected(candidates[1..], already)
      case None => None
      case Some(k) => Some(k + 1)
  }

  /** One conflict: its variable name, its default port and the port found in use. */
  datatype Conflict = Conflict(envName: string, defaultPort: nat, conflictingPort: nat)

  predicate EnvLe(a: PortSelectItem, b: PortSelectItem) { StrLe(a.envName, b.envName) }

  lemma EnvLePreorder()
    ensures Total(EnvLe) && Transitive(EnvLe)
  {
    forall a: PortSelectItem, b: PortSelectItem ensures EnvLe(a, b) || EnvLe(b, a) {
      StrLeTotal(a.envName, b.envName);
    }
    forall a: PortSelectItem, b: PortSelectItem, c: PortSelectItem | EnvLe(a, b) && EnvLe(b, c)
      ensures EnvLe(a, c)
    {
      StrLeTransitive(a.envName, b.envName, c.envName);
    }
  }

  /** The picked port of a fresh item: the first candidate no earlier item
      picked, else the first candidate, else the default (at least 1). */
  predicate PickedFrom(item: PortSelectItem)
  {
    ItemOk(item) && item.suggestedPort == item.selectedPort
    && (item.candidates == [] ==> item.selectedPort == Max(item.defaultPort, 1) && item.selectedCandidate == 0)
  }

  /** The ports picked for the items before position `i`. */
  function PicksBefore(built: seq<PortSelectItem>, i: nat): set<nat>
    requires i <= |built|
  {
    set k | 0 <= k < i :: built[k].selectedPort
  }

  /** The pick of `from_conflicts`: the first candidate no earlier item
      picked, else the first candidate, else the default port (at least 1). */
  function Pick(candidates: seq<nat>, already: set<nat>, defaultPort: nat): (r: (nat, nat))
    ensures candidates != [] ==> r.0 < |candidates| && r.1 == candidates[r.0]
    ensures candidates == [] ==> r == (0, Max(defaultPort, 1))
    ensures r.1 !in already ==> (forall j :: 0 <= j < r.0 ==> candidates[j] in already)
    ensures (exists j :: 0 <= j < |candidates| && candidates[j] !in already) ==> r.1 !in already
  {
    match FirstUnselected(candidates, already)
    case Some(k) => (k, candidates[k])
    case None => if candidates != [] then (0, candidates[0]) else (0, Max(defaultPort, 1))
  }

  /** Item `i` was built from conflict `c` and picked its port after the
      items before it. */
  predicate BuiltFrom(built: seq<PortSelectItem>, i: nat, c: Conflict)
    requires i < |built|
  {
    var item := built[i];
    item.envName == c.envName && item.defaultPort == c.defaultPort && item.conflictingPort == c.conflictingPort
    && (item.selectedCandidate, item.selectedPort) == Pick(item.candidates, PicksBefore(built, i), c.defaultPort)
    && item.suggestedPort == item.selectedPort
  }

  /** Builds one item per conflict, sorted by variable name. Ports in
      `dockerPorts` count as taken as well. `built` is the list before the
      sort, item `i` made from conflict `i`. */
  method FromConflicts(conflicts: seq<Conflict>, dockerPorts: set<nat>, taken: set<nat>)
    returns (items: seq<PortSelectItem>, ghost built: seq<PortSelectItem>)
    requires forall k :: 0 <= k < |conflicts| ==>
               conflicts[k].defaultPort <= U16_MAX && conflicts[k].conflictingPort <= U16_MAX
    ensures |built| == |conflicts| && forall k :: 0 <= k < |conflicts| ==> BuiltFrom(built, k, conflicts[k])
    ensures multiset(items) == multiset(built) && |items| == |conflicts|
    ensures forall i, j :: 0 <= i < j < |items| ==> StrLe(items[i].envName, items[j].envName)
    ensures forall k :: 0 <= k < |items| ==> PickedFrom(items[k])
    ensures forall k :: 0 <= k < |items| ==>
              |items[k].candidates| <= DEFAULT_CANDIDATE_LIMIT && AllFree(items[k].candidates, dockerPorts + taken)
  {
    var busy := dockerPorts + taken;
    var already: set<nat> := {};
    var unsorted: seq<PortSelectItem> := [];
    var i := 0;
    while i < |conflicts|
      invariant 0 <= i <= |conflicts| && |unsorted| == i
      invariant already == PicksBefore(unsorted, i)
      invariant BuiltUpTo(conflicts, unsorted, busy)
    {
      var c := conflicts[i];
      var base := if c.conflictingPort == 0 then Max(c.defaultPort, 1) else c.conflictingPort;
      var candidates := BuildConflictCandidates(base, c.defaultPort, busy, DEFAULT_CANDIDATE_LIMIT);
      var (idx, port) := Pick(candidates, already, c.defaultPort);
      var item := PortSelectItem(c.envName, c.defaultPort, c.conflictingPort, port, port, candidates, idx);
      BuiltStep(conflicts, unsorted, busy, item);
      already := already + {port};
      unsorted := unsorted + [item];
      i := i + 1;
    }
    built := unsorted;
    EnvLePreorder();
    items := SortBy(unsorted, EnvLe);
    forall i, j | 0 <= i < j < |items| ensures StrLe(items[i].envName, items[j].envName) {
      SortedByGlobal(items, EnvLe, i, j);
    }
    forall k | 0 <= k < |items|
      ensures PickedFrom(items[k])
      ensures |items[k].candidates| <= DEFAULT_CANDIDATE_LIMIT && AllFree(items[k].candidates, busy)
    {
      assert items[k] in multiset(unsorted);
    }
  }

  /** The loop state of `FromConflicts`: each item so far built from its
      conflict, with a usable candidate list. */
  ghost predicate BuiltUpTo(conflicts: seq<Conflict>, built: seq<PortSelectItem>, busy: set<nat>)
  {
    |built| <= |conflicts|
    && forall k :: 0 <= k < |built| ==>
         BuiltFrom(built, k, conflicts[k]) && PickedFrom(built[k])
         && |built[k].candidates| <= DEFAULT_CANDIDATE_LIMIT && AllFree(built[k].candidates, busy)
  }

  /** Appending the item built from the next conflict keeps the loop state,
      and adds its port to the picks. */
  lemma BuiltStep(conflicts: seq<Conflict>, built: seq<PortSelectItem>, busy: set<nat>, item: PortSelectItem)
    requires BuiltUpTo(conflicts, built, busy) && |built| < |conflicts|
    requires var c := conflicts[|built|];
             item.envName == c.envName && item.defaultPort == c.defaultPort && item.conflictingPort == c.conflictingPort
             && (item.selectedCandidate, item.selectedPort) == Pick(item.candidates, PicksBefore(built, |built|), c.defaultPort)
             && item.suggestedPort == item.selectedPort
    requires |item.candidates| <= DEFAULT_CANDIDATE_LIMIT && AllFree(item.candidates, busy)
    ensures BuiltUpTo(conflicts, built + [item], busy)
    ensures PicksBefore(built + [item], |built| + 1) == PicksBefore(built, |built|) + {item.selectedPort}
  {
    var b := built + [item];
    PicksAppend(built, item);
    forall k | 0 <= k < |b|
      ensures BuiltFrom(b, k, conflicts[k]) && PickedFrom(b[k])
    {
      if k < |built| {
        assert b[k] == built[k] && BuiltFrom(built, k, conflicts[k]);
      } else {
        assert b[k] == item;
      }
    }
  }

  /** Appending an item leaves the picks before every earlier position alone. */
  lemma PicksAppend(built: seq<PortSelectItem>, item: PortSelectItem)
    ensures forall k :: 0 <= k <= |built| ==> PicksBefore(built + [item], k) == PicksBefore(built, k)
    ensures PicksBefore(built + [item], |built| + 1) == PicksBefore(built, |built|) + {item.selectedPort}
  {
    var b := built + [item];
    forall k | 0 <= k <= |built|
      ensures PicksBefore(b, k) == PicksBefore(built, k)
    {
      forall p ensures p in PicksBefore(b, k) <==> p in PicksBefore(built, k) {
        if p in PicksBefore(b, k) {
          var m :| 0 <= m < k && b[m].selectedPort == p;
          assert built[m].selectedPort == p;
        }
        if p in PicksBefore(built, k) {
          var m :| 0 <= m < k && built[m].selectedPort == p;
          assert b[m].selectedPort == p;
        }
      }
    }
    assert b[|built|] == item;
  }

  // ---------------------------------------------------------------------
  // Checks on a selection

  /** The reasons a selection is refused. */
  datatype PortError = InvalidPortFor(envName: string) | NotUnique | InUse(port: nat, envName: string)
                 | InvalidPort | PortInUse(port: nat)
  {
    function Message(): string
    {
      match this
      case InvalidPortFor(name) => "Invalid port for " + name
      case NotUnique => "Ports must be unique"
      case InUse(p, name) => "Port " + NatToString(p) + " for " + name + " is already in use"
      case InvalidPort => "Invalid port"
      case PortInUse(p) => "Port " + NatToString(p) + " is already in use"
    }
  }

  function SelectedPorts(items: seq<PortSelectItem>): (r: seq<nat>)
    ensures |r| == |items| && forall k :: 0 <= k < |items| ==> r[k] == items[k].selectedPort
  {
    seq(|items|, k requires 0 <= k < |items| => items[k].selectedPort)
  }

  /** The duplicate scan with a set of ports seen so far. */
  method ValidateUniquePorts(items: seq<PortSelectItem>) returns (ok: bool)
    ensures ok <==> NoDuplicates(SelectedPorts(items))
  {
    var seen: set<nat> := {};
    var i := 0;
    while i < |items|
      invariant 0 <= i <= |items|
      invariant seen == set k | 0 <= k < i :: items[k].selectedPort
      invariant NoDuplicates(SelectedPorts(items[..i]))
    {
      var p := items[i].selectedPort;
      if p in seen {
        var k :| 0 <= k < i && items[k].selectedPort == p;
        assert SelectedPorts(items)[k] == SelectedPorts(items)[i];
        return false;
      }
      seen := seen + {p};
      assert SelectedPorts(items[..i + 1]) == SelectedPorts(items[..i]) + [p];
      i := i + 1;
    }
    assert items[..i] == items;
    return true;
  }

  /** Zero ports are reported first, then a duplicate, then the first port in use. */
  method ValidateSelectedPorts(items: seq<PortSelectItem>, taken: set<nat>) returns (r: Result<(), PortError>)
    ensures r.Ok? <==> (forall k :: 0 <= k < |items| ==> items[k].selectedPort != 0 && items[k].selectedPort !in taken)
                       && NoDuplicates(SelectedPorts(items))
    ensures (exists k :: 0 <= k < |items| && items[k].selectedPort == 0) ==> r.Err? && r.error.InvalidPortFor?
    ensures r.Err? && r.error.InvalidPortFor? ==>
              exists k :: 0 <= k < |items| && items[k].selectedPort == 0 && r.error.envName == items[k].envName
                          && forall j :: 0 <= j < k ==> items[j].selectedPort != 0
    ensures r == Err(NotUnique) <==>
              (forall k :: 0 <= k < |items| ==> items[k].selectedPort != 0) && !NoDuplicates(SelectedPorts(items))
    ensures r.Err? && r.error.InUse? ==>
              exists k :: 0 <= k < |items| && items[k].selectedPort in taken
                          && r.error == InUse(items[k].selectedPort, items[k].envName)
                          && forall j :: 0 <= j < k ==> items[j].selectedPort !in taken
  {
    if items == [] {
      return Ok(());
    }
    var i := 0;
    while i < |items|
      invariant 0 <= i <= |items|
      invariant forall k :: 0 <= k < i ==> items[k].selectedPort != 0
    {
      if items[i].selectedPort == 0 {
        return Err(InvalidPortFor(items[i].envName));
      }
      i := i + 1;
    }
    var unique := ValidateUniquePorts(items);
    if !unique {
      return Err(NotUnique);
    }
    i := 0;
    while i < |items|
      invariant 0 <= i <= |items|
      invariant forall k :: 0 <= k < i ==> items[k].selectedPort !in taken
    {
      if items[i].selectedPort in taken {
        return Err(InUse(items[i].selectedPort, items[i].envName));
      }
      i := i + 1;
    }
    return Ok(());
  }

  /** Whether an item other than the highlighted one already uses `port`. */
  function IsPortSelectedElsewhere(items: seq<PortSelectItem>, selected: nat, port: nat): (r: bool)
    ensures r <==> exists k :: 0 <= k < |items| && k != selected && items[k].selectedPort == port
  {
    exists k :: 0 <= k < |items| && k != selected && items[k].selectedPort == port
  }

  /** Each variable name mapped to its chosen port in decimal; a later item with the same name wins. */
  function BuildEnvOverrides(items: seq<PortSelectItem>): (m: map<string, string>)
    ensures forall k :: 0 <= k < |items| ==> items[k].envName in m
    ensures forall name :: name in m ==> exists k :: 0 <= k < |items| && items[k].envName == name
    ensures items != [] ==> m[items[|items| - 1].envName] == NatToString(items[|items| - 1].selectedPort)
  {
    if items == [] then map[]
    else
      var last := items[|items| - 1];
      BuildEnvOverrides(items[..|items| - 1])[last.envName := NatToString(last.selectedPort)]
  }

  /** The first index of `port` in `s`. */
  function IndexOfPort(s: seq<nat>, port: nat): (r: Option<nat>)
    ensures r.Some? ==> r.value < |s| && s[r.value] == port
    ensures r.None? <==> port !in s
  {
    if s == [] then None
    else if s[0] == port then Some(0)
    else match IndexOfPort(s[1..], port)
      case None => None
      case Some(k) => Some(k + 1)
  }

  // ---------------------------------------------------------------------
  // The screen state

  class PortSelectState {
    var items: seq<PortSelectItem>
    var selected: nat
    var customInput: Option<string>
    var error: Option<string>

    /** The highlighted row exists (or is 0 on an empty screen), and every item
        shows its selected port under the candidate cursor. */
    ghost predicate Valid()
      reads this
    {
      (items == [] ==> selected == 0) && (items != [] ==> selected < |items|)
      && forall k :: 0 <= k < |items| ==> ItemOk(items[k])
    }

    constructor (conflicts: seq<Conflict>, dockerPorts: set<nat>, taken: set<nat>)
      requires forall k :: 0 <= k < |conflicts| ==>
                 conflicts[k].defaultPort <= U16_MAX && conflicts[k].conflictingPort <= U16_MAX
      ensures Valid() && |items| == |conflicts| && selected == 0 && customInput.None? && error.None?
      ensures forall i, j :: 0 <= i < j < |items| ==> StrLe(items[i].envName, items[j].envName)
    {
      var sorted, unsorted := FromConflicts(conflicts, dockerPorts, taken);
      items := sorted;
      selected := 0;
      customInput := None;
      error := None;
    }

    method SelectNext()
      requires Valid()
      modifies this`selected, this`error
      ensures Valid() && error.None?
      ensures selected == if items == [] then old(selected) else Min(old(selected) + 1, |items| - 1)
    {
      if items != [] {
        selected := Min(selected + 1, |items| - 1);
      }
      error := None;
    }

    method SelectPrevious()
      requires Valid()
      modifies this`selected, this`error
      ensures Valid() && error.None?
      ensures selected == SatSub(old(selected), 1)
    {
      if items != [] {
        selected := SatSub(selected, 1);
      }
      error := None;
    }

    /** Moves the highlighted item's candidate cursor forward, wrapping. */
    method CycleCandidateNext()
      requires Valid()
      modifies this`items, this`error
      ensures Valid() && |items| == |old(items)|
      ensures forall k :: 0 <= k < |items| && k != selected ==> items[k] == old(items)[k]
      ensures selected < |items| && old(items)[selected].candidates != [] ==>
                var it := old(items)[selected];
                items[selected] == it.(selectedCandidate := (it.selectedCandidate + 1) % |it.candidates|,
                                       selectedPort := it.candidates[(it.selectedCandidate + 1) % |it.candidates|])
                && error.None?
      ensures selected < |items| && old(items)[selected].candidates == [] ==> items == old(items)
    {
      if selected >= |items| {
        return;
      }
      var item := items[selected];
      if item.candidates == [] {
        return;
      }
      var next := (item.selectedCandidate + 1) % |item.candidates|;
      items := items[selected := item.(selectedCandidate := next, selectedPort := item.candidates[next])];
      error := None;
    }

    /** Moves the highlighted item's candidate cursor back, wrapping to the last. */
    method CycleCandidatePrev()
      requires Valid()
      modifies this`items, this`error
      ensures Valid() && |items| == |old(items)|
      ensures forall k :: 0 <= k < |items| && k != selected ==> items[k] == old(items)[k]
      ensures selected < |items| && old(items)[selected].candidates != [] ==>
                var it := old(items)[selected];
                var prev := if it.selectedCandidate == 0 then |it.candidates| - 1 else it.selectedCandidate - 1;
                items[selected] == it.(selectedCandidate := prev, selectedPort := it.candidates[prev])
                && error.None?
      ensures selected < |items| && old(items)[selected].candidates == [] ==> items == old(items)
    {
      if selected >= |items| {
        return;
      }
      var item := items[selected];
      if item.candidates == [] {
        return;
      }
      var prev := if item.selectedCandidate == 0 then |item.candidates| - 1 else item.selectedCandidate - 1;
      items := items[selected := item.(selectedCandidate := prev, selectedPort := item.candidates[prev])];
      error := None;
    }

    method OpenCustomInput()
      modifies this`customInput, this`error
      ensures customInput == Some([]) && error.None?
    {
      customInput := Some([]);
      error := None;
    }

    /** Typing only edits an open custom-port field. */
    method InsertCustomChar(c: char)
      modifies this`customInput, this`error
      ensures old(customInput).None? ==> customInput.None? && error == old(error)
      ensures old(customInput).Some? ==> customInput == Some(old(customInput).value + [c]) && error.None?
    {
      if customInput.None? {
        return;
      }
      customInput := Some(customInput.value + [c]);
      error := None;
    }

    method BackspaceCustom()
      modifies this`customInput, this`error
      ensures error.None?
      ensures old(customInput).None? ==> customInput.None?
      ensures old(customInput).Some? ==>
                var v := old(customInput).value;
                customInput == Some(if v == [] then [] else v[..|v| - 1])
    {
      if customInput.Some? {
        var v := customInput.value;
        customInput := Some(if v == [] then [] else v[..|v| - 1]);
      }
      error := None;
    }

    method CancelCustomInput()
      modifies this`customInput, this`error
      ensures customInput.None? && error.None?
    {
      customInput := None;
      error := None;
    }

    /** Puts the highlighted item back on its suggested port, adding that port in
        front of the candidates when it is no longer among them. */
    method ResetSelectedToSuggested()
      requires Valid()
      modifies this`items, this`error
      ensures Valid() && |items| == |old(items)|
      ensures forall k :: 0 <= k < |items| && k != selected ==> items[k] == old(items)[k]
      ensures selected < |items| ==>
                var it := old(items)[selected];
                items[selected].selectedPort == it.suggestedPort
                && (it.suggestedPort in it.candidates ==> items[selected].candidates == it.candidates)
                && (it.suggestedPort !in it.candidates ==>
                      items[selected].candidates == [it.suggestedPort] + it.candidates)
                && error.None?
    {
      if selected >= |items| {
        return;
      }
      var item := items[selected];
      match IndexOfPort(item.candidates, item.suggestedPort) {
        case Some(idx) =>
          item := item.(selectedPort := item.suggestedPort, selectedCandidate := idx);
        case None =>
          item := item.(selectedPort := item.suggestedPort,
                        candidates := [item.suggestedPort] + item.candidates, selectedCandidate := 0);
      }
      items := items[selected := item];
      error := None;
    }

    /** Applies the typed port to the highlighted item. Non-numeric input, 0 and
        taken ports are refused with nothing changed; a port another item already
        uses is refused after undoing the change, including the candidate it added. */
    method ApplyCustomPort(taken: set<nat>) returns (r: Result<(), PortError>)
      requires Valid()
      modifies this`items, this`customInput, this`error
      ensures Valid() && |items| == |old(items)|
      ensures old(customInput).None? ==> r.Ok? && items == old(items) && customInput == old(customInput)
      ensures old(customInput).Some? ==>
                var parsed := ParseUnsigned(old(customInput).value, U16_MAX);
                (parsed.None? || parsed.value == 0 ==> r == Err(InvalidPort) && items == old(items))
                && (parsed.Some? && parsed.value != 0 && parsed.value in taken ==>
                      r == Err(PortInUse(parsed.value)) && items == old(items))
      ensures r.Err? ==> items == old(items) && customInput == old(customInput)
      ensures r.Ok? && old(customInput).Some? && selected < |items| ==>
                var parsed := ParseUnsigned(old(customInput).value, U16_MAX);
                parsed.Some? && parsed.value != 0 && parsed.value !in taken
                && items[selected].selectedPort == parsed.value
                && parsed.value in items[selected].candidates
                && NoDuplicates(SelectedPorts(items))
                && customInput.None? && error.None?
      ensures r.Ok? ==> forall k :: 0 <= k < |items| && k != selected ==> items[k] == old(items)[k]
    {
      if customInput.None? {
        return Ok(());
      }
      var parsed := ParseUnsigned(customInput.value, U16_MAX);
      if parsed.None? || parsed.value == 0 {
        return Err(InvalidPort);
      }
      var port := parsed.value;
      if port in taken {
        return Err(PortInUse(port));
      }
      if selected >= |items| {
        return Ok(());
      }
      var prev := items;
      var item := items[selected];
      var inserted := false;
      if port !in item.candidates {
        item := item.(candidates := [port] + item.candidates);
        inserted := true;
      }
      var idx := IndexOfPort(item.candidates, port);
      item := item.(selectedPort := port, selectedCandidate := idx.value);
      items := items[selected := item];
      var unique := ValidateUniquePorts(items);
      if !unique {
        var restored := item.(selectedPort := prev[selected].selectedPort,
                              selectedCandidate := prev[selected].selectedCandidate);
        if inserted && restored.candidates != [] && restored.candidates[0] == port {
          restored := restored.(candidates := restored.candidates[1..]);
        }
        assert restored == prev[selected];
        items := items[selected := restored];
        assert items == prev;
        return Err(NotUnique);
      }
      customInput := None;
      error := None;
      return Ok(());
    }
  }
}
