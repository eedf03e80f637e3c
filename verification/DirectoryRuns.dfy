/**
 What holds of a directory over whole runs of its writers, and how its readers
 agree in every state such a run can reach.
 */
module DirectoryRuns {
  import opened Results
  import opened Strings
  import opened Protocol
  import opened Directories

  // ------------------------------------------------------------ operations

  datatype Op =
    | OpSetConfig(services: seq<Service>)
    | OpAdd(svc: Service)
    | OpRemove(name: string)
    | OpSetRemote(nodeID: string, services: seq<Service>)
    | OpSetDocker(services: seq<Service>, conflicts: seq<Conflict>)

  datatype Reply =
    | Done
    | Added(outcome: Result<Service, AddError>)
    | Removed(problem: Option<RemoveError>)

  function Apply(d: Directory, op: Op): (Directory, Reply) {
    match op
    case OpSetConfig(services) => (SetConfig(d, services), Done)
    case OpAdd(svc) => var (d', r) := Add(d, svc); (d', Added(r))
    case OpRemove(name) => var (d', r) := Remove(d, name); (d', Removed(r))
    case OpSetRemote(id, services) => (SetRemote(d, id, services), Done)
    case OpSetDocker(services, conflicts) => (SetDocker(d, services, conflicts), Done)
  }

  function After(d: Directory, op: Op): Directory { Apply(d, op).0 }

  function Run(d: Directory, ops: seq<Op>): Directory {
    if ops == [] then d else After(Run(d, ops[..|ops| - 1]), ops[|ops| - 1])
  }

  // ----------------------------------------------------------- soundness

  /** Only a validated configuration reaches SetConfigServices: config.Load validates what it returns. */
  ghost predicate Legal(op: Op) { op.OpSetConfig? ==> Validated(op.services) }

  lemma SetConfigSound(services: seq<Service>)
    requires Validated(services)
    ensures TierSound(Collect(services, SourceConfig, false), SourceConfig)
  {
    CollectKeyed(services, SourceConfig, false);
    CollectValidated(services);
  }

  lemma CollectSound(services: seq<Service>, source: string)
    ensures TierSound(Collect(services, source, true), source)
  {
    CollectKeyed(services, source, true);
  }

  lemma AddSound(d: Directory, svc: Service)
    requires Sound(d)
    ensures Sound(Add(d, svc).0)
  {
    var s := Stored(svc, SourceRuntime);
    if CheckAdd(d, s) == None {
      assert Acceptable(s);
      assert TierSound(d.runtime[s.name := s], SourceRuntime);
    }
  }

  lemma RemoveSound(d: Directory, name: string)
    requires Sound(d)
    ensures Sound(Remove(d, name).0)
  {
    assert TierSound(d.runtime - {NormalizeName(name)}, SourceRuntime);
  }

  lemma SetRemoteSound(d: Directory, id: string, services: seq<Service>)
    requires Sound(d)
    ensures Sound(SetRemote(d, id, services))
  {
    CollectSound(services, id);
    var remote := SetRemote(d, id, services).remote;
    forall i <- remote ensures remote[i] != map[] && TierSound(remote[i], i) {}
  }

  lemma SetDockerSound(d: Directory, services: seq<Service>, conflicts: seq<Conflict>)
    requires Sound(d)
    ensures Sound(SetDocker(d, services, conflicts))
  {
    CollectSound(services, SourceDocker);
    CollectConflictsKeyed(conflicts);
    var d' := SetDocker(d, services, conflicts);
    assert TierSound(d'.docker, SourceDocker);
  }

  /** Every writer keeps the directory sound. */
  lemma WritersKeepSound(d: Directory, op: Op)
    requires Sound(d) && Legal(op)
    ensures Sound(After(d, op))
  {
    match op
    case OpSetConfig(services) => SetConfigSound(services);
    case OpAdd(svc) => AddSound(d, svc);
    case OpRemove(name) => RemoveSound(d, name);
    case OpSetRemote(id, services) => SetRemoteSound(d, id, services);
    case OpSetDocker(services, conflicts) => SetDockerSound(d, services, conflicts);
  }

  lemma {:induction false} RunsAreSound(ops: seq<Op>)
    requires forall op <- ops :: Legal(op)
    ensures Sound(Run(EmptyDirectory, ops))
  {
    if ops != [] {
      assert forall op <- ops[..|ops| - 1] :: op in ops;
      RunsAreSound(ops[..|ops| - 1]);
      WritersKeepSound(Run(EmptyDirectory, ops[..|ops| - 1]), ops[|ops| - 1]);
    }
  }

  /** Even without validation every entry is stored under its own name. */
  lemma WritersKeepWellKeyed(d: Directory, op: Op)
    requires WellKeyed(d)
    ensures WellKeyed(After(d, op))
  {
    match op
    case OpSetConfig(services) => CollectKeyed(services, SourceConfig, false);
    case OpAdd(svc) =>
    case OpRemove(_) =>
    case OpSetRemote(id, services) => CollectKeyed(services, id, true);
    case OpSetDocker(services, conflicts) =>
      CollectKeyed(services, SourceDocker, true);
      CollectConflictsKeyed(conflicts);
  }

  // ------------------------------------------------- List agrees with Lookup

  lemma ResolveKeyed(d: Directory, n: string)
    requires WellKeyed(d) && Resolve(d, n).Some?
    ensures Resolve(d, n).value.name == n
  {
    ResolvesIffKnown(d, n);
    var ids := Providers(d.remote, n);
    assert Keyed(d.runtime, ServiceName) && Keyed(d.config, ServiceName) && Keyed(d.docker, ServiceName);
    if n !in d.runtime && n !in d.config && n !in d.docker {
      assert TierKeyed(d.remote[Least(ids)]);
    }
  }

  lemma ResolutionKeyed(d: Directory)
    requires WellKeyed(d)
    ensures Keyed(Resolution(d), ServiceName)
  {
    forall n <- Resolution(d) ensures Resolution(d)[n].name == n {
      ResolvesIffKnown(d, n);
      ResolveKeyed(d, n);
    }
  }

  /** List: one entry per known name, strictly in name order, each the name's resolution. */
  lemma ListingIsTheResolution(d: Directory)
    requires WellKeyed(d)
    ensures StrictBy(Listing(d), ServiceName)
    ensures forall s :: s in Listing(d) <==> Resolve(d, s.name) == Some(s)
    ensures forall n :: (forall s <- Listing(d) :: s.name != n) <==> Resolve(d, n) == None
  {
    ResolutionKeyed(d);
    ByKeyStrict(Resolution(d), ServiceName);
    forall s ensures s in Listing(d) <==> Resolve(d, s.name) == Some(s) {
      ByKeyElements(Resolution(d), s);
      ResolvesIffKnown(d, s.name);
      if Resolve(d, s.name) == Some(s) { assert s.name in Resolution(d); }
    }
    forall n ensures (forall s <- Listing(d) :: s.name != n) <==> Resolve(d, n) == None {
      if Resolve(d, n).Some? {
        ResolveKeyed(d, n);
        assert Resolve(d, n).value in Listing(d);
      }
    }
  }

  /** Every name the directory knows is its own normal form. */
  ghost predicate NamesNormal(d: Directory) {
    forall n <- Names(d) :: NormalizeName(n) == n
  }

  /**
   Everything listed is found again under its own name exactly when every known
   name is its own normal form, since Lookup normalizes the name it is given.
   */
  lemma ListedIsFoundIffNormal(d: Directory)
    requires WellKeyed(d)
    ensures (forall s <- Listing(d) :: Lookup(d, s.name) == Some(s)) <==> NamesNormal(d)
  {
    ListingIsTheResolution(d);
    if forall s <- Listing(d) :: Lookup(d, s.name) == Some(s) {
      forall n <- Names(d) ensures NormalizeName(n) == n {
        ResolvesIffKnown(d, n);
        ResolveKeyed(d, n);
        var s := Resolve(d, n).value;
        assert s in Listing(d);
        ResolveKeyed(d, NormalizeName(n));
      }
    }
    if NamesNormal(d) {
      forall s <- Listing(d) ensures Lookup(d, s.name) == Some(s) {
        ResolvesIffKnown(d, s.name);
      }
    }
  }

  /** SetConfigServices takes a list it does not validate, and that can break the agreement. */
  lemma UnvalidatedConfigIsListedButNotFound()
    ensures var d := SetConfig(EmptyDirectory, [Service("a..", "10.0.0.1", 80, "")]);
            && (exists s <- Listing(d) :: s.name == "a.")
            && Lookup(d, "a.") == None
  {
    NormalizeNotIdempotent();
    var svc := Service("a..", "10.0.0.1", 80, "");
    var d := SetConfig(EmptyDirectory, [svc]);
    CollectOne(svc, SourceConfig, false);
    hide Collect, Listing, ValidateName, Less;
    assert d.config == map["a." := Stored(svc, SourceConfig)];
    var s := Stored(svc, SourceConfig);
    assert Resolve(d, "a.") == Some(s);
    ListingIsTheResolution(d);
    assert s in Listing(d);
    assert Providers(d.remote, "a") == {};
  }

  lemma SoundNamesValid(d: Directory)
    requires Sound(d)
    ensures forall n <- Names(d) :: Valid(n)
  {
    forall n <- Names(d) ensures Valid(n) {
      if n !in d.runtime && n !in d.config && n !in d.docker {
        var id :| id in d.remote && n in d.remote[id];
        assert TierSound(d.remote[id], id);
        assert Acceptable(d.remote[id][n]);
      } else {
        assert n in d.runtime ==> Acceptable(d.runtime[n]);
        assert n in d.config ==> Acceptable(d.config[n]);
        assert n in d.docker ==> Acceptable(d.docker[n]);
      }
    }
  }

  /** In every reachable state List and Lookup agree, for any number of nodes, and List ascends by name in byte order. */
  lemma ListAgreesWithLookup(ops: seq<Op>)
    requires forall op <- ops :: Legal(op)
    ensures var d := Run(EmptyDirectory, ops);
            && StrictBy(Listing(d), ServiceName)
            && (forall s :: s in Listing(d) <==> Lookup(d, s.name) == Some(s) && Valid(s.name))
            && (forall n :: Lookup(d, n) == None <==> forall s <- Listing(d) :: s.name != NormalizeName(n))
            && (forall i, j :: 0 <= i < j < |Listing(d)| ==> Before(Listing(d)[i].name, Listing(d)[j].name))
  {
    hide Before;
    var d := Run(EmptyDirectory, ops);
    RunsAreSound(ops);
    SoundIsWellKeyed(d);
    SoundNamesValid(d);
    ListingIsTheResolution(d);
    StrictAscends(Listing(d), ServiceName);
    forall s ensures s in Listing(d) <==> Lookup(d, s.name) == Some(s) && Valid(s.name) {
      ResolvesIffKnown(d, s.name);
      if Valid(s.name) { ValidIsNormal(s.name); }
    }
  }

  // ---------------------------------------------------- runtime registration

  /** `op` neither adds nor removes the name `n`. */
  predicate LeavesAlone(op: Op, n: string) {
    && (op.OpAdd? ==> NormalizeName(op.svc.name) != n)
    && (op.OpRemove? ==> NormalizeName(op.name) != n)
  }

  /** `d` with a registration of `svc` laid over it. */
  function Registered(d: Directory, svc: Service): Directory {
    d.(runtime := d.runtime[svc.name := svc])
  }

  lemma ShadowStep(d: Directory, svc: Service, op: Op)
    requires svc.name !in d.runtime && LeavesAlone(op, svc.name)
    ensures svc.name !in After(d, op).runtime
    ensures After(Registered(d, svc), op) == Registered(After(d, op), svc)
    ensures Apply(Registered(d, svc), op).1 == Apply(d, op).1
  {
    hide Collect, CollectConflicts, NormalizeName, ValidateName;
    var s := Registered(d, svc);
    match op
    case OpAdd(x) =>
      var y := Stored(x, SourceRuntime);
      assert CheckAdd(s, y) == CheckAdd(d, y);
      assert s.runtime[y.name := y] == d.runtime[y.name := y][svc.name := svc];
    case OpRemove(name) =>
      var n := NormalizeName(name);
      assert s.runtime - {n} == (d.runtime - {n})[svc.name := svc];
    case _ =>
  }

  lemma {:induction false} ShadowRun(d: Directory, svc: Service, ops: seq<Op>)
    requires svc.name !in d.runtime
    requires forall op <- ops :: LeavesAlone(op, svc.name)
    ensures svc.name !in Run(d, ops).runtime
    ensures Run(Registered(d, svc), ops) == Registered(Run(d, ops), svc)
  {
    if ops != [] {
      var k := |ops| - 1;
      assert forall op <- ops[..k] :: op in ops;
      ShadowRun(d, svc, ops[..k]);
      ShadowStep(Run(d, ops[..k]), svc, ops[k]);
    }
  }

  /** A registration changes what its own name resolves to, and nothing else. */
  lemma ShadowOnlyShadows(d: Directory, svc: Service, n: string)
    requires svc.name !in d.runtime
    ensures Resolve(Registered(d, svc), n) == if n == svc.name then Some(svc) else Resolve(d, n)
  {}

  /**
   A successful registration, whatever else happens before it is withdrawn, is
   a pure shadow: while it lasts its name resolves to it, every other name
   resolves and every other operation answers as if it were not there, and
   withdrawing it leaves the directory the same run would have reached alone.
   */
  lemma RegistrationIsAShadow(d: Directory, asked: Service, ops: seq<Op>, spelling: string)
    requires Add(d, asked).1.Ok?
    requires forall op <- ops :: LeavesAlone(op, NormalizeName(asked.name))
    requires NormalizeName(spelling) == NormalizeName(asked.name)
    ensures var svc := Add(d, asked).1.value;
            var during := Run(Add(d, asked).0, ops);
            && svc == asked.(name := NormalizeName(asked.name), source := SourceRuntime)
            && Lookup(during, asked.name) == Some(svc)
            && (forall n :: NormalizeName(n) != svc.name ==> Lookup(during, n) == Lookup(Run(d, ops), n))
            && (forall op :: LeavesAlone(op, svc.name) ==> Apply(during, op).1 == Apply(Run(d, ops), op).1)
            && Remove(during, spelling) == (Run(d, ops), None)
  {
    var svc := Add(d, asked).1.value;
    var alone := Run(d, ops);
    ShadowRun(d, svc, ops);
    forall n ensures Resolve(Registered(alone, svc), n) == if n == svc.name then Some(svc) else Resolve(alone, n) {
      ShadowOnlyShadows(alone, svc, n);
    }
    forall op | LeavesAlone(op, svc.name) ensures Apply(Registered(alone, svc), op).1 == Apply(alone, op).1 {
      ShadowStep(alone, svc, op);
    }
    assert Registered(alone, svc).runtime - {svc.name} == alone.runtime;
  }

  // ------------------------------------------------------ last write per tier

  function LastConfig(ops: seq<Op>): Option<seq<Service>> {
    if ops == [] then None
    else var op := ops[|ops| - 1];
      if op.OpSetConfig? then Some(op.services) else LastConfig(ops[..|ops| - 1])
  }

  function LastRemote(ops: seq<Op>, id: string): Option<seq<Service>> {
    if ops == [] then None
    else var op := ops[|ops| - 1];
      if op.OpSetRemote? && op.nodeID == id then Some(op.services) else LastRemote(ops[..|ops| - 1], id)
  }

  function LastDocker(ops: seq<Op>): Option<(seq<Service>, seq<Conflict>)> {
    if ops == [] then None
    else var op := ops[|ops| - 1];
      if op.OpSetDocker? then Some((op.services, op.conflicts)) else LastDocker(ops[..|ops| - 1])
  }

  function RemoteTier(d: Directory, id: string): Tier { At(d.remote, id) }

  /** What one operation does to each replaced tier. */
  lemma StepFrame(d: Directory, op: Op, id: string)
    ensures After(d, op).config == if op.OpSetConfig? then Collect(op.services, SourceConfig, false) else d.config
    ensures (After(d, op).docker, After(d, op).conflicts) ==
            if op.OpSetDocker? then DockerTier(op.services, op.conflicts) else (d.docker, d.conflicts)
    ensures RemoteTier(After(d, op), id) ==
            if op.OpSetRemote? && op.nodeID == id then Collect(op.services, id, true) else RemoteTier(d, id)
    ensures NoEmptyTier(d.remote) ==> NoEmptyTier(After(d, op).remote)
  {
    hide Collect, CollectConflicts, NormalizeName, ValidateName;
  }

  function DockerTier(services: seq<Service>, conflicts: seq<Conflict>): (Tier, map<string, Conflict>) {
    (Collect(services, SourceDocker, true) - CollectConflicts(conflicts).Keys, CollectConflicts(conflicts))
  }

  /** Each replaced tier is a function of the last call that wrote it. */
  lemma {:induction false} TiersAreTheirLastWrite(d0: Directory, ops: seq<Op>, id: string)
    ensures var d := Run(d0, ops);
            && d.config == (match LastConfig(ops)
                 case None => d0.config case Some(services) => Collect(services, SourceConfig, false))
            && (d.docker, d.conflicts) == (match LastDocker(ops)
                 case None => (d0.docker, d0.conflicts) case Some((services, conflicts)) => DockerTier(services, conflicts))
            && RemoteTier(d, id) == (match LastRemote(ops, id)
                 case None => RemoteTier(d0, id) case Some(services) => Collect(services, id, true))
    ensures NoEmptyTier(d0.remote) ==> NoEmptyTier(Run(d0, ops).remote)
  {
    if ops != [] {
      var init := ops[..|ops| - 1];
      TiersAreTheirLastWrite(d0, init, id);
      StepFrame(Run(d0, init), ops[|ops| - 1], id);
    }
  }

  /** The operations of a pull pass: one directory per node, no node twice. */
  ghost predicate OnePerNode(ops: seq<Op>) {
    && (forall op <- ops :: op.OpSetRemote?)
    && (forall i, j :: 0 <= i < j < |ops| ==> ops[i].nodeID != ops[j].nodeID)
  }

  lemma {:induction false} OnePerNodeLast(ops: seq<Op>, id: string)
    requires OnePerNode(ops)
    ensures LastRemote(ops, id) == None <==> forall op <- ops :: op.nodeID != id
    ensures forall op <- ops :: op.nodeID == id ==> LastRemote(ops, id) == Some(op.services)
  {
    if ops != [] {
      var k := |ops| - 1;
      var init := ops[..k];
      assert ops == init + [ops[k]];
      assert forall op <- init :: op in ops;
      OnePerNodeLast(init, id);
      if ops[k].nodeID == id {
        forall op <- ops | op.nodeID == id ensures op == ops[k] {
          var i :| 0 <= i < |ops| && ops[i] == op;
        }
      }
    }
  }

  lemma {:induction false} RemoteWritesOnly(d: Directory, ops: seq<Op>)
    requires forall op <- ops :: op.OpSetRemote?
    ensures Run(d, ops) == d.(remote := Run(d, ops).remote)
  {
    if ops != [] {
      assert forall op <- ops[..|ops| - 1] :: op in ops;
      assert ops[|ops| - 1] in ops;
      RemoteWritesOnly(d, ops[..|ops| - 1]);
    }
  }

  /** The order in which peers were pulled never matters: any permutation of a pass reaches the same directory. */
  lemma PullOrderIsIrrelevant(d: Directory, a: seq<Op>, b: seq<Op>)
    requires NoEmptyTier(d.remote)
    requires OnePerNode(a) && OnePerNode(b)
    requires multiset(a) == multiset(b)
    ensures Run(d, a) == Run(d, b)
    ensures Listing(Run(d, a)) == Listing(Run(d, b))
  {
    RemoteWritesOnly(d, a);
    RemoteWritesOnly(d, b);
    forall op ensures op in a <==> op in b {
      assert op in a <==> op in multiset(a);
      assert op in b <==> op in multiset(b);
    }
    TiersAreTheirLastWrite(d, a, "");
    TiersAreTheirLastWrite(d, b, "");
    hide Listing, OnePerNode, Collect, Run, LastRemote, NoEmptyTier, At;
    forall id ensures At(Run(d, a).remote, id) == At(Run(d, b).remote, id) {
      SameLastRemote(a, b, id);
      TiersAreTheirLastWrite(d, a, id);
      TiersAreTheirLastWrite(d, b, id);
      assert RemoteTier(Run(d, a), id) == RemoteTier(Run(d, b), id);
    }
    SameTiers(Run(d, a).remote, Run(d, b).remote);
  }

  lemma SameLastRemote(a: seq<Op>, b: seq<Op>, id: string)
    requires OnePerNode(a) && OnePerNode(b)
    requires forall op :: op in a <==> op in b
    ensures LastRemote(a, id) == LastRemote(b, id)
  {
    OnePerNodeLast(a, id);
    OnePerNodeLast(b, id);
  }

  // ------------------------------------------------------------ advertising

  lemma {:induction false} CollectDistinct(services: seq<Service>, source: string)
    requires forall s <- services :: Acceptable(s)
    requires DistinctKeys(services, ServiceName)
    ensures forall s <- services :: s.name in Collect(services, source, true)
              && Collect(services, source, true)[s.name] == s.(source := source)
    ensures forall n <- Collect(services, source, true) :: exists s <- services :: s.name == n
  {
    hide ValidateName, NormalizeName;
    if services != [] {
      var k := |services| - 1;
      var init, last := services[..k], services[k];
      assert services == init + [last];
      assert last in services;
      forall i, j | 0 <= i < j < |init| ensures ServiceName(init[i]) != ServiceName(init[j]) {
        assert ServiceName(services[i]) != ServiceName(services[j]);
      }
      CollectDistinct(init, source);
      ValidIsNormal(last.name);
      forall s <- init ensures s.name != last.name {
        var i :| 0 <= i < |init| && init[i] == s;
        assert ServiceName(services[i]) != ServiceName(services[k]);
      }
    }
  }

  /** A node's local services as another node stores them under its ID. */
  function Attributed(t: Tier, id: string): Tier {
    map n <- t :: t[n].(source := id)
  }

  lemma LocalSound(d: Directory)
    requires Sound(d)
    ensures forall n <- Local(d) :: Local(d)[n].name == n && Acceptable(Local(d)[n])
    ensures forall n <- Local(d) :: Resolve(d, n) == Some(Local(d)[n])
  {}

  lemma StrictHasDistinctKeys<T>(s: seq<T>, key: T -> string)
    requires StrictBy(s, key)
    ensures DistinctKeys(s, key)
  {
    forall i, j | 0 <= i < j < |s| ensures key(s[i]) != key(s[j]) { LessIrreflexive(key(s[i])); }
  }

  lemma LocalListingElements(d: Directory, s: Service)
    requires Sound(d)
    ensures s in LocalListing(d) <==> s.name in Local(d) && Local(d)[s.name] == s
  {
    LocalSound(d);
    ByKeyElements(Local(d), s);
  }

  lemma LocalListingDistinct(d: Directory)
    requires Sound(d)
    ensures DistinctKeys(LocalListing(d), ServiceName)
    ensures |LocalListing(d)| == |Local(d)|
    ensures forall s <- LocalListing(d) :: Acceptable(s)
  {
    LocalSound(d);
    ByKeyStrict(Local(d), ServiceName);
    StrictHasDistinctKeys(LocalListing(d), ServiceName);
    forall s <- LocalListing(d) ensures Acceptable(s) { LocalListingElements(d, s); }
    assert |Local(d)| == |Local(d).Keys|;
  }

  /** A sorted list of acceptable services is collected back into the map it was listed from, re-attributed. */
  lemma CollectListed(t: Tier, source: string)
    requires forall n <- t :: t[n].name == n && Acceptable(t[n])
    ensures Collect(ByKey(t), source, true) == Attributed(t, source)
  {
    hide Acceptable, Collect, ByKey, Less;
    var list := ByKey(t);
    ByKeyStrict(t, ServiceName);
    StrictHasDistinctKeys(list, ServiceName);
    forall s ensures s in list <==> s.name in t && t[s.name] == s { ByKeyElements(t, s); }
    CollectDistinct(list, source);
    var got := Collect(list, source, true);
    forall n ensures n in got <==> n in t
             ensures n in got && n in t ==> got[n] == t[n].(source := source)
    {
      if n in t { assert t[n] in list; }
    }
  }

  /** What another node makes of this node's advertisement: exactly its local services. */
  lemma AdvertisementIsLossless(d: Directory, id: string)
    requires Sound(d)
    ensures Collect(LocalListing(d), id, true) == Attributed(Local(d), id)
  {
    LocalSound(d);
    CollectListed(Local(d), id);
  }

  lemma LocalIsListed(d: Directory)
    requires Sound(d)
    ensures forall s <- LocalListing(d) :: s in Listing(d)
  {
    SoundIsWellKeyed(d);
    ListingIsTheResolution(d);
    forall s <- LocalListing(d) ensures s in Listing(d) {
      LocalListingElements(d, s);
      LocalSound(d);
    }
  }

  lemma AttributedSize(t: Tier, id: string)
    ensures |Attributed(t, id)| == |t|
  {
    assert Attributed(t, id).Keys == t.Keys;
    assert |Attributed(t, id)| == |Attributed(t, id).Keys| && |t| == |t.Keys|;
  }

  /**
   Advertising loses nothing: pulling a reachable node's advertisement stores
   exactly its local services, attributed to it, and counts as many of them.
   */
  lemma AdvertisingLosesNothing(ops: seq<Op>, other: Directory, id: string)
    requires forall op <- ops :: Legal(op)
    ensures var d := Run(EmptyDirectory, ops);
            var got := RemoteTier(SetRemote(other, id, LocalListing(d)), id);
            && got == Attributed(Local(d), id)
            && |got| == |LocalListing(d)|
            && (forall s <- LocalListing(d) :: s in Listing(d))
  {
    var d := Run(EmptyDirectory, ops);
    RunsAreSound(ops);
    AdvertisementIsLossless(d, id);
    LocalListingDistinct(d);
    LocalIsListed(d);
    AttributedSize(Local(d), id);
  }
}
