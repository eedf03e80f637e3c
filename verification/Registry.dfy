/**
 The Registry itself (internal/registry/registry.go): five maps its methods
 replace or edit, read by a first-hit scan (Lookup) and by an overwrite-merge in
 the opposite order (List). Every method is proved against the directory value
 of module Directories, whatever order Go visits its maps in.
 */
module Registries {
  import opened Results
  import opened Strings
  import opened Protocol
  import opened Directories
  import Runs = DirectoryRuns

  /** The first node of `ids` that advertises `n`. */
  function FirstHit(remote: map<string, Tier>, ids: seq<string>, n: string): Option<Service> {
    if ids == [] then None
    else if ids[0] in remote && n in remote[ids[0]] then Some(remote[ids[0]][n])
    else FirstHit(remote, ids[1..], n)
  }

  lemma NotTheFirst(remote: map<string, Tier>, ids: seq<string>, n: string)
    requires ids != [] && forall id <- ids :: id in remote
    requires n !in remote[ids[0]]
    ensures (set id <- ids | n in remote[id]) == (set id <- ids[1..] | n in remote[id])
  {
    assert ids == [ids[0]] + ids[1..];
  }

  lemma StrictTail(ids: seq<string>)
    requires ids != [] && Strict(ids)
    ensures Strict(ids[1..])
    ensures forall id <- ids :: id == ids[0] || Less(ids[0], id)
  {
    hide Less;
    forall id <- ids ensures id == ids[0] || Less(ids[0], id) {
      var i :| 0 <= i < |ids| && ids[i] == id;
    }
  }

  /** Scanning the nodes in ascending order finds the lowest one that advertises the name. */
  lemma {:induction false} FirstHitIsLeast(remote: map<string, Tier>, ids: seq<string>, n: string)
    requires Strict(ids)
    requires forall id <- ids :: id in remote
    ensures var ps := set id <- ids | n in remote[id];
            FirstHit(remote, ids, n) == if ps == {} then None else Some(remote[Least(ps)][n])
  {
    hide Less;
    var ps := set id <- ids | n in remote[id];
    if ids != [] {
      var rest := ids[1..];
      assert ids == [ids[0]] + rest;
      StrictTail(ids);
      FirstHitIsLeast(remote, rest, n);
      if n in remote[ids[0]] {
        assert ids[0] in ps;
        LeastUnique(ids[0], ps);
      } else {
        NotTheFirst(remote, ids, n);
      }
    }
  }

  lemma ScanFindsTheProvider(remote: map<string, Tier>, n: string)
    ensures FirstHit(remote, SortedSet(remote.Keys), n) == ResolveRemote(remote, n)
  {
    var ids := SortedSet(remote.Keys);
    FirstHitIsLeast(remote, ids, n);
    assert Providers(remote, n) == set id <- ids | n in remote[id];
  }

  /** The tiers of the nodes in `ids` merged, earlier nodes overwriting later ones. */
  ghost predicate MergedFrom(merged: Tier, remote: map<string, Tier>, ids: seq<string>) {
    forall n :: FirstHit(remote, ids, n) == Get(merged, n)
  }

  function Get(t: Tier, n: string): Option<Service> { if n in t then Some(t[n]) else None }

  lemma MergeOneMore(merged: Tier, remote: map<string, Tier>, ids: seq<string>)
    requires ids != [] && ids[0] in remote
    requires MergedFrom(merged, remote, ids[1..])
    ensures MergedFrom(merged + remote[ids[0]], remote, ids)
  {}

  lemma MergedAt(d: Directory, merged: Tier, n: string)
    requires Get(merged, n) == ResolveRemote(d.remote, n)
    ensures Resolve(d, n) == Get(merged + d.docker + d.config + d.runtime, n)
  {}

  lemma ResolutionIs(d: Directory, all: Tier)
    requires forall n :: Resolve(d, n) == Get(all, n)
    ensures all == Resolution(d)
  {
    forall n ensures n in all <==> n in Resolution(d)
             ensures n in all && n in Resolution(d) ==> all[n] == Resolution(d)[n]
    {
      assert Resolve(d, n) == Get(all, n);
      ResolvesIffKnown(d, n);
    }
  }

  /** Overwriting from the highest node ID down to the local tiers yields the resolution. */
  lemma MergeIsResolution(d: Directory, merged: Tier)
    requires MergedFrom(merged, d.remote, SortedSet(d.remote.Keys))
    ensures merged + d.docker + d.config + d.runtime == Resolution(d)
  {
    var all := merged + d.docker + d.config + d.runtime;
    forall n ensures Resolve(d, n) == Get(all, n) {
      ScanFindsTheProvider(d.remote, n);
      assert FirstHit(d.remote, SortedSet(d.remote.Keys), n) == Get(merged, n);
      MergedAt(d, merged, n);
    }
    ResolutionIs(d, all);
  }

  function Reversed(s: seq<string>): seq<string> {
    seq(|s|, i requires 0 <= i < |s| => s[|s| - 1 - i])
  }

  /** registry.reverse: swaps in place from both ends. */
  method Reverse(values: array<string>)
    modifies values
    ensures values[..] == Reversed(old(values[..]))
  {
    var i, j := 0, values.Length - 1;
    while i < j
      invariant 0 <= i <= j + 1 <= values.Length && i + j == values.Length - 1
      invariant forall k :: 0 <= k < i || j < k < values.Length ==> values[k] == old(values[values.Length - 1 - k])
      invariant forall k :: i <= k <= j ==> values[k] == old(values[k])
    {
      values[i], values[j] := values[j], values[i];
      i, j := i + 1, j - 1;
    }
  }

  /** `for name, svc := range tier { merged[name] = svc }`, the tier's names in any order. */
  method Overwrite(base: Tier, tier: Tier) returns (merged: Tier)
    ensures merged == base + tier
  {
    merged := base;
    var left := tier.Keys;
    while left != {}
      invariant left <= tier.Keys
      invariant merged == base + (map n <- tier | n !in left :: tier[n])
    {
      var n :| n in left;
      merged := merged[n := tier[n]];
      left := left - {n};
    }
    assert (map n <- tier | n !in left :: tier[n]) == tier;
  }

  /** The filter loop SetRemote and SetDocker share: nothing a peer or a container says is trusted blindly. */
  method Filter(services: seq<Service>, source: string) returns (next: Tier)
    ensures next == Collect(services, source, true)
  {
    next := map[];
    for i := 0 to |services|
      invariant next == Collect(services[..i], source, true)
    {
      assert services[..i + 1][..i] == services[..i];
      var svc := services[i].(name := NormalizeName(services[i].name));
      if ValidateName(svc.name) != None || svc.address == "" || svc.port < 1 || svc.port > 65535 {
        continue;
      }
      svc := svc.(source := source);
      next := next[svc.name := svc];
    }
    assert services[..|services|] == services;
  }

  /** SetDocker's second loop: the conflicts, taken out of the kept tier as they are filed. */
  method Exclude(kept: Tier, claims: seq<Conflict>) returns (next: Tier, conflicted: map<string, Conflict>)
    ensures conflicted == CollectConflicts(claims)
    ensures next == kept - conflicted.Keys
  {
    next, conflicted := kept, map[];
    for i := 0 to |claims|
      invariant conflicted == CollectConflicts(claims[..i])
      invariant next == kept - conflicted.Keys
    {
      assert claims[..i + 1][..i] == claims[..i];
      var conflict := claims[i].(name := NormalizeName(claims[i].name));
      if ValidateName(conflict.name) != None { continue; }
      next := next - {conflict.name};
      conflicted := conflicted[conflict.name := conflict];
    }
    assert claims[..|claims|] == claims;
  }

  /** List's first loop: the nodes' tiers from the highest ID down, so that later writes win. */
  method MergeRemotes(remote: map<string, Tier>, ids: array<string>, ghost ascending: seq<string>)
    returns (merged: Tier)
    requires ids[..] == Reversed(ascending)
    requires forall id <- ascending :: id in remote
    ensures MergedFrom(merged, remote, ascending)
  {
    merged := map[];
    ghost var n := |ascending|;
    for i := 0 to ids.Length
      invariant MergedFrom(merged, remote, ascending[n - i..])
    {
      assert ids[i] == ids[..][i] == ascending[n - i - 1];
      assert ascending[n - i - 1..][1..] == ascending[n - i..];
      MergeOneMore(merged, remote, ascending[n - i - 1..]);
      merged := Overwrite(merged, remote[ids[i]]);
    }
    assert ascending[0..] == ascending;
  }

  /** Collect a merged map's values and sort them by name, as List and ListLocal end. */
  method InNameOrder(merged: Tier) returns (services: seq<Service>)
    requires TierKeyed(merged)
    ensures services == ByKey(merged)
  {
    ghost var ks;
    services, ks := Values(merged);
    SortedValues(merged, ks, services, ServiceName);
    services := SortBy(services, ServiceName);
  }

  class Registry {
    var config: Tier
    var runtime: Tier
    var docker: Tier
    var remote: map<string, Tier>
    var conflicts: map<string, Conflict>

    /** The directory this registry holds. */
    function State(): Directory
      reads this
    {
      Directory(config, runtime, docker, remote, conflicts)
    }

    /** Every entry is stored under its own name. */
    ghost predicate Valid()
      reads this
    {
      WellKeyed(State())
    }

    constructor ()
      ensures Valid() && State() == EmptyDirectory
    {
      config, runtime, docker, remote, conflicts := map[], map[], map[], map[], map[];
    }

    method SetConfigServices(services: seq<Service>)
      requires Valid()
      modifies this
      ensures Valid() && State() == SetConfig(old(State()), services)
    {
      var next: Tier := map[];
      for i := 0 to |services|
        invariant next == Collect(services[..i], SourceConfig, false)
      {
        var svc := services[i].(name := NormalizeName(services[i].name), source := SourceConfig);
        next := next[svc.name := svc];
        assert services[..i + 1][..i] == services[..i];
      }
      assert services[..|services|] == services;
      Runs.WritersKeepWellKeyed(State(), Runs.OpSetConfig(services));
      config := next;
    }

    method Add(asked: Service) returns (r: Result<Service, AddError>)
      requires Valid()
      modifies this
      ensures Valid() && (State(), r) == Directories.Add(old(State()), asked)
    {
      Runs.WritersKeepWellKeyed(State(), Runs.OpAdd(asked));
      var svc := asked.(name := NormalizeName(asked.name));
      var problem := ValidateName(svc.name);
      if problem.Some? { return Err(BadName(problem.value)); }
      if svc.address == "" { return Err(NoAddress); }
      if svc.port < 1 || svc.port > 65535 { return Err(BadPort); }
      svc := svc.(source := SourceRuntime);
      if svc.name in config { return Err(Configured); }
      if svc.name in runtime { return Err(AlreadyRegistered); }
      runtime := runtime[svc.name := svc];
      return Ok(svc);
    }

    method Remove(spelling: string) returns (r: Option<RemoveError>)
      requires Valid()
      modifies this
      ensures Valid() && (State(), r) == Directories.Remove(old(State()), spelling)
    {
      Runs.WritersKeepWellKeyed(State(), Runs.OpRemove(spelling));
      var name := NormalizeName(spelling);
      if name in runtime {
        runtime := runtime - {name};
        return None;
      }
      if name in config { return Some(OwnedByConfig); }
      if name in docker { return Some(OwnedByDocker); }
      return Some(NotFound);
    }

    method SetRemote(nodeID: string, services: seq<Service>)
      requires Valid()
      modifies this
      ensures Valid() && State() == Directories.SetRemote(old(State()), nodeID, services)
    {
      var next := Filter(services, nodeID);
      Runs.WritersKeepWellKeyed(State(), Runs.OpSetRemote(nodeID, services));
      if next == map[] {
        remote := remote - {nodeID};
        return;
      }
      remote := remote[nodeID := next];
    }

    method SetDocker(services: seq<Service>, claims: seq<Conflict>)
      requires Valid()
      modifies this
      ensures Valid() && State() == Directories.SetDocker(old(State()), services, claims)
    {
      var next := Filter(services, SourceDocker);
      var conflicted;
      next, conflicted := Exclude(next, claims);
      Runs.WritersKeepWellKeyed(State(), Runs.OpSetDocker(services, claims));
      docker, conflicts := next, conflicted;
    }

    method Conflict(spelling: string) returns (r: Option<Conflict>)
      ensures var n := NormalizeName(spelling);
              r == if n in State().conflicts then Some(State().conflicts[n]) else None
    {
      var name := NormalizeName(spelling);
      if name in conflicts { return Some(conflicts[name]); }
      return None;
    }

    /** Every unroutable name, in name order. */
    method Conflicts() returns (r: seq<Conflict>)
      requires Valid()
      ensures r == ConflictListing(State())
    {
      ghost var ks;
      r, ks := Values(conflicts);
      SortedValues(conflicts, ks, r, ConflictName);
      r := SortBy(r, ConflictName);
    }

    method SortedNodeIDs() returns (ids: array<string>)
      ensures fresh(ids) && ids[..] == SortedSet(remote.Keys)
    {
      var sorted := SortedKeys(remote);
      ids := new string[|sorted|](i requires 0 <= i < |sorted| => sorted[i]);
      assert ids[..] == sorted;
    }

    /** The service currently serving a name: the first hit, tier by tier, then node by node. */
    method Lookup(spelling: string) returns (r: Option<Service>)
      ensures r == Directories.Lookup(State(), spelling)
    {
      hide Less, SortedSet, ResolveRemote, NormalizeName;
      var name := NormalizeName(spelling);
      if name in runtime { return Some(runtime[name]); }
      if name in config { return Some(config[name]); }
      if name in docker { return Some(docker[name]); }
      ScanFindsTheProvider(remote, name);
      var ids := SortedNodeIDs();
      ghost var all := ids[..];
      for i := 0 to ids.Length
        invariant FirstHit(remote, all, name) == FirstHit(remote, all[i..], name)
        invariant ids[..] == all
      {
        assert all[i..][1..] == all[i + 1..];
        assert all[i] in remote;
        if name in remote[ids[i]] { return Some(remote[ids[i]][name]); }
      }
      return None;
    }

    /** The merge that overwrites from the lowest precedence up, sorted: the whole resolution map as a list. */
    method List() returns (services: seq<Service>)
      requires Valid()
      ensures services == Listing(State())
    {
      var ids := SortedNodeIDs();
      ghost var ascending := ids[..];
      Reverse(ids);
      var merged := MergeRemotes(remote, ids, ascending);
      MergeIsResolution(State(), merged);
      merged := Overwrite(merged, docker);
      merged := Overwrite(merged, config);
      merged := Overwrite(merged, runtime);
      Runs.ResolutionKeyed(State());
      services := InNameOrder(merged);
    }

    /** The same merge without the remote tiers. */
    method ListLocal() returns (services: seq<Service>)
      requires Valid()
      ensures services == LocalListing(State())
    {
      var merged := Overwrite(map[], docker);
      merged := Overwrite(merged, config);
      merged := Overwrite(merged, runtime);
      assert merged == Local(State());
      services := InNameOrder(merged);
    }

    method CountRemote(nodeID: string) returns (count: nat)
      ensures count == |Runs.RemoteTier(State(), nodeID)|
    {
      count := if nodeID in remote then |remote[nodeID]| else 0;
    }
  }
}
