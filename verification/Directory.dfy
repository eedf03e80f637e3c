/**
 The node's directory as a value (internal/registry/registry.go): the five maps
 of a Registry, what each writer makes of them, and what a name resolves to.

 `Resolve` is the reference the readers are measured against: it says which
 service wins without saying how it is found.
 */
module Directories {
  import opened Results
  import opened Strings
  import opened Protocol

  type Tier = map<string, Service>

  datatype Directory = Directory(
    config: Tier,
    runtime: Tier,
    docker: Tier,
    remote: map<string, Tier>,          // node ID -> name -> service
    conflicts: map<string, Conflict>)

  const EmptyDirectory := Directory(map[], map[], map[], map[], map[])

  // ------------------------------------------------------ filling one tier

  function Stored(s: Service, source: string): Service {
    s.(name := NormalizeName(s.name), source := source)
  }

  /** Whether a writer keeps `s`. The configuration is trusted; peers and containers are not. */
  predicate Kept(s: Service, source: string, checked: bool) {
    checked ==> Acceptable(Stored(s, source))
  }

  /** The map a list of services becomes; a later entry replaces an earlier one. */
  function Collect(services: seq<Service>, source: string, checked: bool): Tier {
    if services == [] then map[]
    else
      var n := |services| - 1;
      var before := Collect(services[..n], source, checked);
      if Kept(services[n], source, checked)
      then before[NormalizeName(services[n].name) := Stored(services[n], source)]
      else before
  }

  lemma CollectOne(s: Service, source: string, checked: bool)
    ensures Collect([s], source, checked) ==
            if Kept(s, source, checked) then map[NormalizeName(s.name) := Stored(s, source)] else map[]
  {
    hide NormalizeName, Kept;
    assert [s][..0] == [];
    assert Collect([s][..0], source, checked) == map[];
  }

  function CollectConflicts(conflicts: seq<Conflict>): map<string, Conflict> {
    if conflicts == [] then map[]
    else
      var n := |conflicts| - 1;
      var before := CollectConflicts(conflicts[..n]);
      var name := NormalizeName(conflicts[n].name);
      if Valid(name) then before[name := conflicts[n].(name := name)] else before
  }

  /** `services[i]` is the last kept entry for the name `n`. */
  ghost predicate LastFor(services: seq<Service>, source: string, checked: bool, n: string, i: nat) {
    && i < |services|
    && Kept(services[i], source, checked) && NormalizeName(services[i].name) == n
    && forall j :: i < j < |services| && Kept(services[j], source, checked) ==> NormalizeName(services[j].name) != n
  }

  lemma {:induction false} LastIsCollected(services: seq<Service>, source: string, checked: bool, n: string, i: nat)
    requires LastFor(services, source, checked, n, i)
    ensures n in Collect(services, source, checked)
    ensures Collect(services, source, checked)[n] == Stored(services[i], source)
  {
    hide NormalizeName, Kept;
    var k := |services| - 1;
    if i < k {
      assert LastFor(services[..k], source, checked, n, i);
      LastIsCollected(services[..k], source, checked, n, i);
    }
  }

  lemma {:induction false} CollectedHasLast(services: seq<Service>, source: string, checked: bool, n: string)
    returns (i: nat)
    requires n in Collect(services, source, checked)
    ensures LastFor(services, source, checked, n, i)
  {
    hide NormalizeName, Kept;
    var k := |services| - 1;
    if Kept(services[k], source, checked) && NormalizeName(services[k].name) == n {
      i := k;
    } else {
      var init := services[..k];
      i := CollectedHasLast(init, source, checked, n);
      assert services[i] == init[i];
      forall j | i < j < |services| && Kept(services[j], source, checked)
        ensures NormalizeName(services[j].name) != n
      {
        if j < k { assert services[j] == init[j]; }
      }
    }
  }

  /** A name is collected exactly when some kept entry has it, and then the last such entry is what is stored. */
  lemma CollectIsLastWrite(services: seq<Service>, source: string, checked: bool, n: string)
    ensures n in Collect(services, source, checked) <==> exists i: nat :: LastFor(services, source, checked, n, i)
    ensures forall i: nat :: LastFor(services, source, checked, n, i) ==>
              n in Collect(services, source, checked)
              && Collect(services, source, checked)[n] == Stored(services[i], source)
  {
    forall i: nat | LastFor(services, source, checked, n, i)
      ensures n in Collect(services, source, checked)
              && Collect(services, source, checked)[n] == Stored(services[i], source)
    {
      LastIsCollected(services, source, checked, n, i);
    }
    if n in Collect(services, source, checked) {
      var i := CollectedHasLast(services, source, checked, n);
    }
  }

  lemma {:induction false} CollectKeyed(services: seq<Service>, source: string, checked: bool)
    ensures forall n <- Collect(services, source, checked) ::
              var s := Collect(services, source, checked)[n];
              s.name == n && s.source == source && (checked ==> Acceptable(s))
  {
    if services != [] { CollectKeyed(services[..|services| - 1], source, checked); }
  }

  lemma {:induction false} CollectConflictsKeyed(conflicts: seq<Conflict>)
    ensures forall n <- CollectConflicts(conflicts) :: CollectConflicts(conflicts)[n].name == n && Valid(n)
  {
    if conflicts != [] { CollectConflictsKeyed(conflicts[..|conflicts| - 1]); }
  }

  /** What a checked writer demands of an entry once its name is normalized. */
  predicate Usable(s: Service, checked: bool) {
    checked ==> Valid(NormalizeName(s.name)) && s.address != "" && 1 <= s.port <= 65535
  }

  /** `services[i]` is the last usable entry for the name `n`. */
  ghost predicate LastUsable(services: seq<Service>, checked: bool, n: string, i: nat) {
    && i < |services| && Usable(services[i], checked) && NormalizeName(services[i].name) == n
    && forall j :: i < j < |services| && Usable(services[j], checked) ==> NormalizeName(services[j].name) != n
  }

  /**
   What a tier holds: of each name the last usable entry's address and port,
   under the normalized name and the tier's source.
   */
  lemma TierHoldsLastUsable(services: seq<Service>, source: string, checked: bool, n: string, s: Service)
    ensures n in Collect(services, source, checked) && Collect(services, source, checked)[n] == s <==>
              exists i: nat :: LastUsable(services, checked, n, i)
                && s == Service(n, services[i].address, services[i].port, source)
  {
    CollectIsLastWrite(services, source, checked, n);
    forall x ensures Kept(x, source, checked) <==> Usable(x, checked) {}
    hide NormalizeName, ValidateName, Collect, Kept, Usable;
    forall i: nat ensures LastFor(services, source, checked, n, i) <==> LastUsable(services, checked, n, i) {}
    if n in Collect(services, source, checked) {
      var i: nat :| LastFor(services, source, checked, n, i);
    }
  }

  /** `conflicts[i]` is the last with a valid name for `n`. */
  ghost predicate LastConflict(conflicts: seq<Conflict>, n: string, i: nat) {
    && i < |conflicts| && Valid(n) && NormalizeName(conflicts[i].name) == n
    && forall j :: i < j < |conflicts| ==> NormalizeName(conflicts[j].name) != n
  }

  /** Of each valid name the last conflict is kept, with its owners. */
  lemma {:induction false} ConflictsHoldLast(conflicts: seq<Conflict>, n: string, x: Conflict)
    ensures n in CollectConflicts(conflicts) && CollectConflicts(conflicts)[n] == x <==>
              exists i: nat :: LastConflict(conflicts, n, i) && x == Conflict(n, conflicts[i].owners)
  {
    hide NormalizeName, ValidateName;
    if conflicts != [] {
      var k := |conflicts| - 1;
      var init := conflicts[..k];
      ConflictsHoldLast(init, n, x);
      if NormalizeName(conflicts[k].name) == n {
        assert forall i: nat :: LastConflict(conflicts, n, i) ==> i == k;
        assert LastConflict(conflicts, n, k) <==> Valid(n);
      } else {
        forall i: nat ensures LastConflict(conflicts, n, i) <==> LastConflict(init, n, i) {
          if i < k { assert conflicts[i] == init[i]; }
        }
        assert forall i: nat :: LastConflict(init, n, i) ==> conflicts[i] == init[i];
      }
    }
  }

  // ---------------------------------------------------------- the writers

  datatype AddError = BadName(cause: NameError) | NoAddress | BadPort | Configured | AlreadyRegistered

  /** Which Add errors are registry.ErrConflict. */
  predicate IsConflict(e: AddError) { e.Configured? || e.AlreadyRegistered? }

  datatype RemoveError = OwnedByConfig | OwnedByDocker | NotFound

  function SetConfig(d: Directory, services: seq<Service>): Directory {
    d.(config := Collect(services, SourceConfig, false))
  }

  function CheckAdd(d: Directory, s: Service): Option<AddError> {
    match ValidateName(s.name)
    case Some(cause) => Some(BadName(cause))
    case None =>
      if s.address == "" then Some(NoAddress)
      else if !ValidPort(s.port) then Some(BadPort)
      else if s.name in d.config then Some(Configured)
      else if s.name in d.runtime then Some(AlreadyRegistered)
      else None
  }

  function Add(d: Directory, s: Service): (Directory, Result<Service, AddError>) {
    var svc := Stored(s, SourceRuntime);
    match CheckAdd(d, svc)
    case Some(e) => (d, Err(e))
    case None => (d.(runtime := d.runtime[svc.name := svc]), Ok(svc))
  }

  function Remove(d: Directory, name: string): (Directory, Option<RemoveError>) {
    var n := NormalizeName(name);
    if n in d.runtime then (d.(runtime := d.runtime - {n}), None)
    else if n in d.config then (d, Some(OwnedByConfig))
    else if n in d.docker then (d, Some(OwnedByDocker))
    else (d, Some(NotFound))
  }

  /** An empty directory is forgotten rather than stored. */
  function StoreRemote(remote: map<string, Tier>, id: string, t: Tier): map<string, Tier> {
    if t == map[] then remote - {id} else remote[id := t]
  }

  /** What node `id` contributes: nothing when it is not stored. */
  function At(remote: map<string, Tier>, id: string): Tier {
    if id in remote then remote[id] else map[]
  }

  /** An empty directory is never stored. */
  ghost predicate NoEmptyTier(remote: map<string, Tier>) { forall id <- remote :: remote[id] != map[] }

  /** Two remote tiers that store no empty directory and hold the same of every node are the same. */
  lemma SameTiers(a: map<string, Tier>, b: map<string, Tier>)
    requires NoEmptyTier(a) && NoEmptyTier(b)
    requires forall id :: At(a, id) == At(b, id)
    ensures a == b
  {
    forall id ensures id in a <==> id in b
              ensures id in a && id in b ==> a[id] == b[id]
    {
      assert At(a, id) == At(b, id);
    }
  }

  function SetRemote(d: Directory, id: string, services: seq<Service>): Directory {
    d.(remote := StoreRemote(d.remote, id, Collect(services, id, true)))
  }

  function SetDocker(d: Directory, services: seq<Service>, conflicts: seq<Conflict>): Directory {
    var conflicted := CollectConflicts(conflicts);
    d.(docker := Collect(services, SourceDocker, true) - conflicted.Keys, conflicts := conflicted)
  }

  // ----------------------------------------------------------- resolution

  /** The node's own tiers, highest precedence last. */
  function Local(d: Directory): Tier { d.docker + d.config + d.runtime }

  /** The nodes that advertise `n`. */
  function Providers(remote: map<string, Tier>, n: string): set<string> {
    set id <- remote | n in remote[id]
  }

  /** Between nodes the advertising one with the lowest ID wins. */
  ghost function ResolveRemote(remote: map<string, Tier>, n: string): Option<Service> {
    var ids := Providers(remote, n);
    if ids == {} then None else Some(remote[Least(ids)][n])
  }

  /** What a name stands for: the service of the first tier that has it. */
  ghost function Resolve(d: Directory, n: string): Option<Service> {
    if n in d.runtime then Some(d.runtime[n])
    else if n in d.config then Some(d.config[n])
    else if n in d.docker then Some(d.docker[n])
    else ResolveRemote(d.remote, n)
  }

  /** What Registry.Lookup answers: the name is normalized first. */
  ghost function Lookup(d: Directory, name: string): Option<Service> {
    Resolve(d, NormalizeName(name))
  }

  /**
   Who answers for a name, tier by tier: a registration before the configuration
   before Docker before other nodes, and among those the one whose ID comes
   first in byte order.
   */
  lemma WhoAnswers(d: Directory, n: string, s: Service)
    ensures Resolve(d, n) == Some(s) <==>
              || (n in d.runtime && s == d.runtime[n])
              || (n !in d.runtime && n in d.config && s == d.config[n])
              || (n !in d.runtime && n !in d.config && n in d.docker && s == d.docker[n])
              || (n !in d.runtime && n !in d.config && n !in d.docker
                  && exists id :: AnswersFirst(d, n, id) && s == d.remote[id][n])
  {
    hide Less, Before;
    forall id ensures AnswersFirst(d, n, id) <==> id in Providers(d.remote, n) && id == Least(Providers(d.remote, n)) {
      FirstIsLowest(d, n, id);
    }
  }

  /** Node `id` has the name, and no other node that has it comes before it. */
  ghost predicate AnswersFirst(d: Directory, n: string, id: string) {
    id in d.remote && n in d.remote[id] && forall o <- d.remote :: o != id && n in d.remote[o] ==> Before(id, o)
  }

  lemma FirstIsLowest(d: Directory, n: string, id: string)
    ensures AnswersFirst(d, n, id) <==> id in Providers(d.remote, n) && id == Least(Providers(d.remote, n))
  {
    hide Less, Before;
    var ids := Providers(d.remote, n);
    forall o ensures Less(id, o) <==> Before(id, o) { LessIsByteOrder(id, o); }
    if AnswersFirst(d, n, id) { LeastUnique(id, ids); }
  }

  /** The same of what a node serves itself. */
  lemma WhoServes(d: Directory, n: string, s: Service)
    ensures n in Local(d) && Local(d)[n] == s <==>
              || (n in d.runtime && s == d.runtime[n])
              || (n !in d.runtime && n in d.config && s == d.config[n])
              || (n !in d.runtime && n !in d.config && n in d.docker && s == d.docker[n])
  {}

  /** Which refusal a registration meets: a bad service before a taken name, the configuration before a registration. */
  lemma RefusalOf(d: Directory, s: Service)
    ensures var n := NormalizeName(s.name);
            var usable := Valid(n) && s.address != "" && 1 <= s.port <= 65535;
            match Add(d, s).1
            case Err(BadName(cause)) => ValidateName(n) == Some(cause)
            case Err(NoAddress) => Valid(n) && s.address == ""
            case Err(BadPort) => Valid(n) && s.address != "" && !(1 <= s.port <= 65535)
            case Err(Configured) => usable && n in d.config
            case Err(AlreadyRegistered) => usable && n !in d.config && n in d.runtime
            case Ok(svc) => usable && n !in d.config && n !in d.runtime && svc == Service(n, s.address, s.port, "runtime")
  {
    hide NormalizeName, ValidateName;
  }

  /** Which refusal a withdrawal meets. */
  lemma KeeperOf(d: Directory, name: string)
    ensures var n := NormalizeName(name);
            match Remove(d, name).1
            case None => n in d.runtime
            case Some(OwnedByConfig) => n !in d.runtime && n in d.config
            case Some(OwnedByDocker) => n !in d.runtime && n !in d.config && n in d.docker
            case Some(NotFound) => n !in d.runtime && n !in d.config && n !in d.docker
  {
    hide NormalizeName;
  }

  function RemoteNames(remote: map<string, Tier>): set<string> {
    set id <- remote, n <- remote[id] :: n
  }

  /** Every name the directory knows. */
  function Names(d: Directory): set<string> {
    d.runtime.Keys + d.config.Keys + d.docker.Keys + RemoteNames(d.remote)
  }

  lemma ResolvesIffKnown(d: Directory, n: string)
    ensures n in Names(d) <==> Resolve(d, n).Some?
  {
    if id :| id in d.remote && n in d.remote[id] {
      assert id in Providers(d.remote, n);
    }
  }

  ghost function Resolution(d: Directory): Tier
    ensures Resolution(d).Keys == Names(d)
  {
    map n <- Names(d) :: (ResolvesIffKnown(d, n); Resolve(d, n).value)
  }

  /** What Registry.List answers: the resolution of every known name, in name order. */
  ghost function Listing(d: Directory): seq<Service> { ByKey(Resolution(d)) }

  /** What Registry.ListLocal answers, and what a node advertises. */
  ghost function LocalListing(d: Directory): seq<Service> { ByKey(Local(d)) }

  ghost function ConflictListing(d: Directory): seq<Conflict> { ByKey(d.conflicts) }

  /** The conflicts are listed once each, in name order. */
  lemma ConflictsListed(d: Directory)
    requires WellKeyed(d)
    ensures forall x :: x in ConflictListing(d) <==> x.name in d.conflicts && d.conflicts[x.name] == x
    ensures var l := ConflictListing(d); forall i, j :: 0 <= i < j < |l| ==> Before(l[i].name, l[j].name)
  {
    hide Less, Before;
    ByKeyStrict(d.conflicts, ConflictName);
    StrictAscends(ConflictListing(d), ConflictName);
    forall x ensures x in ConflictListing(d) <==> x.name in d.conflicts && d.conflicts[x.name] == x {
      ByKeyElements(d.conflicts, x);
    }
  }

  /** So are the node's own services: what it advertises is what it serves. */
  lemma ServedIsListed(d: Directory)
    requires WellKeyed(d)
    ensures forall s :: s in LocalListing(d) <==> s.name in Local(d) && Local(d)[s.name] == s
    ensures var l := LocalListing(d); forall i, j :: 0 <= i < j < |l| ==> Before(l[i].name, l[j].name)
  {
    assert Keyed(Local(d), ServiceName);
    hide Less, Before, WellKeyed, Local;
    ByKeyStrict(Local(d), ServiceName);
    StrictAscends(LocalListing(d), ServiceName);
    forall s ensures s in LocalListing(d) <==> s.name in Local(d) && Local(d)[s.name] == s {
      ByKeyElements(Local(d), s);
    }
  }

  // ----------------------------------------------------------- invariants

  ghost predicate TierKeyed(t: Tier) { Keyed(t, ServiceName) }

  /** Every entry is stored under its own name. Holds of every directory the writers can build. */
  ghost predicate WellKeyed(d: Directory) {
    && TierKeyed(d.config) && TierKeyed(d.runtime) && TierKeyed(d.docker)
    && (forall id <- d.remote :: TierKeyed(d.remote[id]))
    && Keyed(d.conflicts, ConflictName)
  }

  /** A tier of usable services stored under their names and marked with their source. */
  ghost predicate TierSound(t: Tier, source: string) {
    forall n <- t :: t[n].name == n && t[n].source == source && Acceptable(t[n])
  }

  /** What the directory promises once its configuration has been validated. */
  ghost predicate Sound(d: Directory) {
    && TierSound(d.config, SourceConfig)
    && TierSound(d.runtime, SourceRuntime)
    && TierSound(d.docker, SourceDocker)
    && (forall id <- d.remote :: d.remote[id] != map[] && TierSound(d.remote[id], id))
    && (forall n <- d.conflicts :: d.conflicts[n].name == n && Valid(n))
    && d.docker.Keys !! d.conflicts.Keys
  }

  lemma SoundIsWellKeyed(d: Directory)
    requires Sound(d)
    ensures WellKeyed(d)
  {}

  /** Config.Validate's promise about the services it lets through. */
  ghost predicate Validated(services: seq<Service>) {
    && (forall s <- services :: Acceptable(s) && s.source == SourceConfig)
    && DistinctKeys(services, ServiceName)
  }

  lemma {:induction false} CollectValidated(services: seq<Service>)
    requires Validated(services)
    ensures forall n <- Collect(services, SourceConfig, false) ::
              Collect(services, SourceConfig, false)[n] in services
    ensures forall s <- services :: s.name in Collect(services, SourceConfig, false)
              && Collect(services, SourceConfig, false)[s.name] == s
    ensures |Collect(services, SourceConfig, false)| == |services|
  {
    hide ValidateName, NormalizeName;
    if services != [] {
      var k := |services| - 1;
      var init, last := services[..k], services[k];
      assert services == init + [last];
      assert last in services;
      CollectValidated(init);
      ValidIsNormal(last.name);
      var before := Collect(init, SourceConfig, false);
      CollectKeyed(init, SourceConfig, false);
      forall n <- before ensures n != last.name {
        var i :| 0 <= i < |init| && init[i] == before[n];
        assert ServiceName(services[i]) != ServiceName(services[k]);
      }
    }
  }
}
