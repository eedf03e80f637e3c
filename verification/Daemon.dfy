/**
 What a running node may change (internal/daemon/daemon.go): Reload applies the
 services and the peers of a newly loaded configuration and keeps the rest, and
 Nodes reports this node followed by its peers.
 */
module Daemons {
  import opened Results
  import opened Protocol
  import opened Directories
  import opened Registries
  import opened Configuration
  import Discovery
  import Peering
  import PeerRuns
  import PeerTable
  import Runs = DirectoryRuns

  // ------------------------------------------------------ which settings stay

  /** What is only applied on restart. The Docker block counts by what it means. */
  datatype Fixed = Fixed(listen: Listen, nodeID: string, pullSeconds: int, docker: (bool, string, string, int))

  function DockerMeaning(d: DockerBlock): (bool, string, string, int) {
    (IsEnabled(d), SocketPath(d), d.network, PollInterval(d))
  }

  function FixedOf(c: Settings): Fixed { Fixed(c.listen, c.nodeID, c.pullSeconds, DockerMeaning(c.docker)) }

  /** The configuration in force after loading `loaded` over `current`. */
  function Applied(current: Settings, loaded: Settings): Settings {
    if loaded.listen != current.listen || loaded.nodeID != current.nodeID
       || loaded.pullSeconds != current.pullSeconds || !SameDocker(loaded.docker, current.docker)
    then loaded.(listen := current.listen, nodeID := current.nodeID, nodeName := current.nodeName,
                 pullSeconds := current.pullSeconds, docker := current.docker)
    else loaded
  }

  /** The configuration in force after a run of reloads, those that failed to load leaving it alone. */
  function InForce(startup: Settings, loads: seq<Option<Settings>>): Settings {
    if loads == [] then startup
    else
      var before := InForce(startup, loads[..|loads| - 1]);
      match loads[|loads| - 1] case None => before case Some(loaded) => Applied(before, loaded)
  }

  /** Docker.Equal is equality of meaning, hence an equivalence. */
  lemma SameDockerIsSameMeaning(a: DockerBlock, b: DockerBlock, c: DockerBlock)
    ensures SameDocker(a, b) <==> DockerMeaning(a) == DockerMeaning(b)
    ensures SameDocker(a, a) && (SameDocker(a, b) ==> SameDocker(b, a))
    ensures SameDocker(a, b) && SameDocker(b, c) ==> SameDocker(a, c)
  {}

  function LastLoaded(loads: seq<Option<Settings>>): Option<Settings> {
    if loads == [] then None
    else if loads[|loads| - 1].Some? then loads[|loads| - 1]
    else LastLoaded(loads[..|loads| - 1])
  }

  /**
   However often a node reloads, everything in `Fixed` stays what it was at
   startup, while the services and peers follow the last configuration that loaded.
   */
  lemma {:induction false} ReloadsKeepFixed(startup: Settings, loads: seq<Option<Settings>>)
    ensures FixedOf(InForce(startup, loads)) == FixedOf(startup)
    ensures var c := LastLoaded(loads);
            InForce(startup, loads).services == (if c.Some? then c.value.services else startup.services)
            && InForce(startup, loads).nodes == (if c.Some? then c.value.nodes else startup.nodes)
  {
    if loads != [] {
      var init := loads[..|loads| - 1];
      ReloadsKeepFixed(startup, init);
      if loads[|loads| - 1].Some? {
        SameDockerIsSameMeaning(loads[|loads| - 1].value.docker, InForce(startup, init).docker, startup.docker);
      }
    }
  }

  // -------------------------------------------- what reloads make of the node

  /** A node's configuration, directory and peer table. */
  datatype Node = Node(cfg: Settings, dir: Directory, table: Peering.Table)

  datatype Event =
    | Reload(loaded: Option<Settings>)
    | Write(op: Runs.Op)                                  // any other writer of the directory
    | Pull(endpoint: string, fetch: Peering.Fetch)

  predicate Foreign(ev: Event) { ev.Write? ==> !ev.op.OpSetConfig? && !ev.op.OpSetRemote? }

  function Reconfigured(n: Node, cfg: Settings): Node {
    var v := Peering.SetEndpoints(Peering.View(n.table, n.dir.remote), cfg.nodes);
    Node(cfg, SetConfig(n.dir, cfg.services).(remote := v.remote), v.table)
  }

  function Step(n: Node, ev: Event): Node {
    match ev
    case Reload(None) => n
    case Reload(Some(loaded)) => Reconfigured(n, Applied(n.cfg, loaded))
    case Write(op) => n.(dir := Runs.After(n.dir, op))
    case Pull(e, f) =>
      var v := Peering.Pull(Peering.View(n.table, n.dir.remote), e, f, n.cfg.nodeID);
      n.(dir := n.dir.(remote := v.remote), table := v.table)
  }

  function Exec(n: Node, evs: seq<Event>): Node {
    if evs == [] then n else Step(Exec(n, evs[..|evs| - 1]), evs[|evs| - 1])
  }

  function Started(cfg: Settings): Node {
    Reconfigured(Node(cfg, EmptyDirectory, Peering.NoPeers), cfg)
  }

  /** The reloads of a run, in order. */
  function Loads(evs: seq<Event>): seq<Option<Settings>> {
    if evs == [] then []
    else
      var before := Loads(evs[..|evs| - 1]);
      if evs[|evs| - 1].Reload? then before + [evs[|evs| - 1].loaded] else before
  }

  /** The node is what its configuration says: its config tier and its endpoints are the configured ones. */
  ghost predicate InStep(n: Node) {
    n.dir.config == Collect(n.cfg.services, SourceConfig, false) && n.table.order == Peering.Distinct(n.cfg.nodes)
  }

  lemma PullKeepsOrder(v: Peering.View, e: string, f: Peering.Fetch, local: string)
    ensures Peering.Pull(v, e, f, local).table.order == v.table.order
  {}

  lemma StepInStep(n: Node, ev: Event)
    requires InStep(n) && Foreign(ev)
    ensures InStep(Step(n, ev))
    ensures Step(n, ev).cfg == if ev.Reload? && ev.loaded.Some? then Applied(n.cfg, ev.loaded.value) else n.cfg
  {
    hide Collect, Peering.Distinct, Applied;
    match ev
    case Reload(_) =>
    case Write(op) => Runs.StepFrame(n.dir, op, "");
    case Pull(e, f) => PullKeepsOrder(Peering.View(n.table, n.dir.remote), e, f, n.cfg.nodeID);
  }

  /**
   After any run, whatever else wrote the directory, the config tier and the
   endpoint list are those of the configuration in force.
   */
  lemma {:induction false} ConfigurationIsInForce(cfg: Settings, evs: seq<Event>)
    requires forall ev <- evs :: Foreign(ev)
    ensures var n := Exec(Started(cfg), evs);
            && n.cfg == InForce(cfg, Loads(evs)) && InStep(n)
            && FixedOf(n.cfg) == FixedOf(cfg)
  {
    hide Collect, Peering.Distinct;
    ReloadsKeepFixed(cfg, Loads(evs));
    if evs != [] {
      var init, ev := evs[..|evs| - 1], evs[|evs| - 1];
      assert ev in evs;
      assert forall e <- init :: e in evs;
      ConfigurationIsInForce(cfg, init);
      StepInStep(Exec(Started(cfg), init), ev);
      if ev.Reload? { assert Loads(evs)[..|Loads(evs)| - 1] == Loads(init); }
    }
  }

  /**
   What a reload leaves alone: registrations, Docker services and conflicts, what
   was learned from nodes that no dropped endpoint remembers, and the rows of the
   endpoints that stay. A node's name changes only with settings a restart is not
   needed for.
   */
  lemma ReloadLeavesAlone(n: Node, loaded: Settings)
    ensures var n' := Step(n, Event.Reload(Some(loaded)));
            && n'.dir.runtime == n.dir.runtime && n'.dir.docker == n.dir.docker && n'.dir.conflicts == n.dir.conflicts
            && (forall id ::
                  At(n'.dir.remote, id) ==
                  if id != "" && exists e <- n.table.states :: e !in loaded.nodes && n.table.states[e].nodeID == id
                  then map[] else At(n.dir.remote, id))
            && (forall e <- n.table.states :: e in loaded.nodes ==>
                  e in n'.table.states && n'.table.states[e] == n.table.states[e])
            && n'.table.states.Keys == (set e <- loaded.nodes)
            && n'.cfg.nodeName ==
               (if loaded.listen == n.cfg.listen && loaded.nodeID == n.cfg.nodeID && loaded.pullSeconds == n.cfg.pullSeconds
                   && DockerMeaning(loaded.docker) == DockerMeaning(n.cfg.docker)
                then loaded.nodeName else n.cfg.nodeName)
  {
    hide Collect, Peering.Distinct;
    SameDockerIsSameMeaning(loaded.docker, n.cfg.docker, n.cfg.docker);
    hide SameDocker, DockerMeaning;
  }

  /** A node starts with its configured services, no other, and its configured endpoints, none of them pulled yet. */
  lemma StartsAsConfigured(cfg: Settings)
    ensures var n := Started(cfg);
            && n.cfg == cfg && n.dir == EmptyDirectory.(config := Collect(cfg.services, "config", false))
            && n.table.states.Keys == (set e <- cfg.nodes)
            && (forall e <- n.table.states :: n.table.states[e] == Peering.Peer(e, "", "", false, None, ""))
  {
    hide Collect, Peering.Distinct;
  }

  // ----------------------------------- a node is its directory and its peer table

  /** What an event does to the peer table: one operation or none. */
  function PeerOpsOf(ev: Event): seq<PeerRuns.Op> {
    match ev
    case Reload(None) => []
    case Reload(Some(loaded)) => [PeerRuns.Retarget(loaded.nodes)]
    case Write(_) => []
    case Pull(e, f) => [PeerRuns.PullOne(e, f)]
  }

  /** What it does to the node's own tiers. */
  function DirectoryOpsOf(ev: Event): seq<Runs.Op> {
    match ev
    case Reload(None) => []
    case Reload(Some(loaded)) => [Runs.OpSetConfig(loaded.services)]
    case Write(op) => [op]
    case Pull(_, _) => []
  }

  function PeerOps(cfg: Settings, evs: seq<Event>): seq<PeerRuns.Op> {
    if evs == [] then [PeerRuns.Retarget(cfg.nodes)] else PeerOps(cfg, evs[..|evs| - 1]) + PeerOpsOf(evs[|evs| - 1])
  }

  function DirectoryOps(cfg: Settings, evs: seq<Event>): seq<Runs.Op> {
    if evs == [] then [Runs.OpSetConfig(cfg.services)]
    else DirectoryOps(cfg, evs[..|evs| - 1]) + DirectoryOpsOf(evs[|evs| - 1])
  }

  /** A directory but for what other nodes advertise. */
  function Own(d: Directory): Directory { d.(remote := map[]) }

  lemma OwnStep(d: Directory, e: Directory, op: Runs.Op)
    requires Own(d) == Own(e) && !op.OpSetRemote?
    ensures Own(Runs.After(d, op)) == Own(Runs.After(e, op))
  {
    hide Collect, CollectConflicts, NormalizeName, ValidateName;
  }

  lemma PeersStep(n: Node, ev: Event)
    requires Foreign(ev)
    ensures var v, n', ops := Peering.View(n.table, n.dir.remote), Step(n, ev), PeerOpsOf(ev);
            Peering.View(n'.table, n'.dir.remote) == if ops == [] then v else PeerRuns.Apply(v, ops[0], n.cfg.nodeID)
  {
    hide Collect, Peering.SetEndpoints, Peering.Pull, Runs.After;
    if ev.Write? { WriteKeepsRemote(n.dir, ev.op); }
  }

  lemma TiersStep(n: Node, ev: Event, d: Directory)
    requires Foreign(ev) && Own(n.dir) == Own(d)
    ensures var ops := DirectoryOpsOf(ev);
            Own(Step(n, ev).dir) == Own(if ops == [] then d else Runs.After(d, ops[0]))
  {
    hide Collect, Peering.SetEndpoints, Peering.Pull;
    match ev
    case Reload(Some(loaded)) => OwnStep(n.dir, d, Runs.OpSetConfig(loaded.services));
    case Write(op) => OwnStep(n.dir, d, op);
    case _ =>
    hide Runs.After;
  }

  lemma PeersOneMore(ops: seq<PeerRuns.Op>, more: seq<PeerRuns.Op>, local: string)
    requires |more| <= 1
    ensures PeerRuns.Run(ops + more, local) ==
            if more == [] then PeerRuns.Run(ops, local) else PeerRuns.Apply(PeerRuns.Run(ops, local), more[0], local)
  {
    hide PeerRuns.Apply;
    if more == [] { assert ops + more == ops; } else { assert (ops + more)[..|ops|] == ops; }
  }

  lemma TiersOneMore(ops: seq<Runs.Op>, more: seq<Runs.Op>)
    requires |more| <= 1
    ensures Runs.Run(EmptyDirectory, ops + more) ==
            if more == [] then Runs.Run(EmptyDirectory, ops) else Runs.After(Runs.Run(EmptyDirectory, ops), more[0])
  {
    hide Runs.After;
    if more == [] { assert ops + more == ops; } else { assert (ops + more)[..|ops|] == ops; }
  }

  lemma PartsAtStart(cfg: Settings)
    ensures var n := Started(cfg);
            && Peering.View(n.table, n.dir.remote) == PeerRuns.Run([PeerRuns.Retarget(cfg.nodes)], cfg.nodeID)
            && Own(n.dir) == Own(Runs.Run(EmptyDirectory, [Runs.OpSetConfig(cfg.services)]))
  {
    hide Collect, Peering.SetEndpoints;
    PeersOneMore([], [PeerRuns.Retarget(cfg.nodes)], cfg.nodeID);
    TiersOneMore([], [Runs.OpSetConfig(cfg.services)]);
    assert [] + [PeerRuns.Retarget(cfg.nodes)] == [PeerRuns.Retarget(cfg.nodes)];
    assert [] + [Runs.OpSetConfig(cfg.services)] == [Runs.OpSetConfig(cfg.services)];
  }

  /**
   Over any run, reloads and other writers mixed in, the node's peer table and
   remote tier are those of the run of its pulls and reloads, and its own tiers
   those of the run of its writers: what is proved of such runs holds of the node.
   */
  lemma {:induction false} NodeIsItsParts(cfg: Settings, evs: seq<Event>)
    requires forall ev <- evs :: Foreign(ev)
    ensures var n := Exec(Started(cfg), evs);
            && Peering.View(n.table, n.dir.remote) == PeerRuns.Run(PeerOps(cfg, evs), cfg.nodeID)
            && Own(n.dir) == Own(Runs.Run(EmptyDirectory, DirectoryOps(cfg, evs)))
            && n.cfg.nodeID == cfg.nodeID
  {
    hide Step, Own, PeerRuns.Run, Runs.Run, PeerRuns.Apply, Runs.After, Started, InStep, InForce;
    ConfigurationIsInForce(cfg, evs);
    if evs == [] {
      PartsAtStart(cfg);
    } else {
      var init, ev := evs[..|evs| - 1], evs[|evs| - 1];
      assert ev in evs;
      assert forall e <- init :: e in evs;
      NodeIsItsParts(cfg, init);
      var n := Exec(Started(cfg), init);
      PeersStep(n, ev);
      PeersOneMore(PeerOps(cfg, init), PeerOpsOf(ev), cfg.nodeID);
      TiersStep(n, ev, Runs.Run(EmptyDirectory, DirectoryOps(cfg, init)));
      TiersOneMore(DirectoryOps(cfg, init), DirectoryOpsOf(ev));
    }
  }

  lemma WriteKeepsRemote(d: Directory, op: Runs.Op)
    requires !op.OpSetRemote?
    ensures Runs.After(d, op).remote == d.remote
  {
    hide Collect, CollectConflicts;
  }

  // ------------------------------------------------------------- the object

  /** One row of Daemon.Nodes. */
  datatype NodeRow = ThisNode(id: string, name: string, endpoint: string, services: nat) | PeerNode(report: Peering.NodeReport)

  class Daemon {
    const registry: Registry
    const peers: PeerTable.Peers
    const docker: Discovery.Docker?
    var cfg: Settings

    /** The puller tells this node's own ID from the others by the ID the node reports of itself. */
    ghost predicate Valid()
      reads this, registry, peers, peers.states.Values
    {
      && peers.store == registry
      && peers.Valid()
      && peers.localNodeID == cfg.nodeID
    }

    ghost function State(): Node
      reads this, registry, peers, peers.states.Values
    {
      Node(cfg, registry.State(), peers.Table())
    }

    constructor (cfg: Settings)
      ensures Valid() && State() == Started(cfg)
      ensures fresh(registry) && fresh(peers) && fresh(peers.states.Values)
      ensures peers.interval == Effective(PullInterval(cfg.pullSeconds))
      ensures docker != null <==> IsEnabled(cfg.docker)
      ensures docker != null ==> fresh(docker) && docker.Valid() && docker.store == registry
                                 && DockerMeaning(cfg.docker) == (true, docker.socket, docker.network, docker.interval)
                                 && docker.log == []
    {
      hide Collect, Peering.Distinct, WellKeyed, Peering.TableSound, IsEnabled, PullInterval, Effective;
      hide Discovery.Marks, Discovery.Alternates, Discovery.LastNotRouted, Peering.SetEndpoints;
      var reg := new Registry();
      reg.SetConfigServices(cfg.services);
      var table := new PeerTable.Peers(reg, cfg.nodeID, cfg.nodes, PullInterval(cfg.pullSeconds));
      var polling := Discover(reg, cfg.docker);
      this.registry, this.peers, this.docker, this.cfg := reg, table, polling, cfg;
    }

    /** The polling object of a node that has Docker enabled. */
    static method Discover(reg: Registry, block: DockerBlock) returns (docker: Discovery.Docker?)
      requires reg.Valid()
      ensures docker != null <==> IsEnabled(block)
      ensures docker != null ==> fresh(docker) && docker.Valid() && docker.store == reg
                                 && DockerMeaning(block) == (true, docker.socket, docker.network, docker.interval)
                                 && docker.log == []
    {
      docker := null;
      if IsEnabled(block) { docker := new Discovery.Docker(reg, SocketPath(block), block.network, PollInterval(block)); }
    }

    /** Apply what can change while running. `loaded` is what Load made of the file, if it could. */
    method Reload(loaded: Option<Settings>)
      requires Valid()
      modifies this, registry, peers
      ensures Valid() && State() == Step(old(State()), Event.Reload(loaded))
    {
      hide Collect, Peering.Distinct, WellKeyed, Peering.TableSound, SameDocker;
      if loaded == None { return; }
      var next := loaded.value;
      if next.listen != cfg.listen || next.nodeID != cfg.nodeID
         || next.pullSeconds != cfg.pullSeconds || !SameDocker(next.docker, cfg.docker)
      {
        next := next.(listen := cfg.listen, nodeID := cfg.nodeID, nodeName := cfg.nodeName);
        next := next.(pullSeconds := cfg.pullSeconds);
        next := next.(docker := cfg.docker);
      }
      cfg := next;
      registry.SetConfigServices(next.services);
      peers.SetEndpoints(next.nodes);
    }

    /** This node, with the services it serves itself, followed by the configured peers in order. */
    method Nodes() returns (rows: seq<NodeRow>)
      requires Valid()
      ensures |rows| == 1 + |peers.order|
      ensures rows[0] == ThisNode(cfg.nodeID, cfg.nodeName, cfg.listen.peer, |LocalListing(registry.State())|)
      ensures forall i :: 0 <= i < |peers.order| ==>
                peers.order[i] in peers.Table().states
                && rows[i + 1] == PeerNode(Peering.Report(peers.View(), peers.order[i]))
    {
      hide WellKeyed, Peering.TableSound, LocalListing, Collect;
      var own := registry.ListLocal();
      rows := [ThisNode(cfg.nodeID, cfg.nodeName, cfg.listen.peer, |own|)];
      var reports := peers.Nodes();
      for i := 0 to |reports|
        invariant |rows| == 1 + i && rows[0] == ThisNode(cfg.nodeID, cfg.nodeName, cfg.listen.peer, |own|)
        invariant forall j :: 0 <= j < i ==> rows[j + 1] == PeerNode(reports[j])
      {
        rows := rows + [PeerNode(reports[i])];
      }
    }
  }
}
