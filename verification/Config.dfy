/**
 The configuration (internal/config/config.go): what Validate accepts and what
 it leaves behind, and when two Docker blocks mean the same.
 */
module Configuration {
  import opened Results
  import opened Protocol
  import opened Directories
  import Containers

  datatype Listen = Listen(dns: string, http: string, peer: string, control: string)

  /** The docker block; an absent `enabled` is None. */
  datatype DockerBlock = DockerBlock(enabled: Option<bool>, socket: string, network: string, pollSeconds: int)

  const DefaultDockerSocket := "/var/run/docker.sock"
  const DefaultDockerPollSeconds := 5
  const Second := 1_000_000_000

  /** Go's 64-bit signed arithmetic wraps around. */
  function Wrap64(x: int): int {
    (x + 0x8000_0000_0000_0000) % 0x1_0000_0000_0000_0000 - 0x8000_0000_0000_0000
  }

  function IsEnabled(d: DockerBlock): bool { d.enabled == None || d.enabled.value }

  function SocketPath(d: DockerBlock): string { if d.socket == "" then DefaultDockerSocket else d.socket }

  /** A duration in nanoseconds. */
  function PollInterval(d: DockerBlock): int {
    if d.pollSeconds <= 0 then DefaultDockerPollSeconds * Second else Wrap64(d.pollSeconds * Second)
  }

  /** The interval is the configured number of seconds exactly when that many nanoseconds fit; beyond that it wraps. */
  lemma PollIntervalExact(d: DockerBlock)
    requires d.pollSeconds > 0
    ensures PollInterval(d) == d.pollSeconds * Second <==> d.pollSeconds <= 9_223_372_036
    ensures PollInterval(d.(pollSeconds := 9_223_372_037)) < 0
  {}

  /**
   The interval is one a ticker accepts exactly when it is the default or the
   nanoseconds, taken modulo two to the 64th, fall in the positive half. A count
   of seconds that Validate accepts can miss it either way.
   */
  lemma PollIntervalPositiveIff(d: DockerBlock)
    ensures PollInterval(d) > 0 <==>
              d.pollSeconds <= 0 || 0 < d.pollSeconds * Second % 0x1_0000_0000_0000_0000 < 0x8000_0000_0000_0000
    ensures 0 < d.pollSeconds <= 9_223_372_036 ==> PollInterval(d) > 0
    ensures PollInterval(d.(pollSeconds := 9_223_372_037)) < 0
    ensures PollInterval(d.(pollSeconds := 36_028_797_018_963_968)) == 0
  {
    WrapIsRemainder(d.pollSeconds * Second);
    WrapIsRemainder(9_223_372_037 * Second);
    WrapIsRemainder(36_028_797_018_963_968 * Second);
    hide Wrap64;
    assert 36_028_797_018_963_968 * Second == 1_953_125 * 0x1_0000_0000_0000_0000;
  }

  /** Wrapping keeps the remainder, counted down from two to the 64th in the negative half. */
  lemma WrapIsRemainder(x: int)
    ensures var r := x % 0x1_0000_0000_0000_0000;
            Wrap64(x) == if r < 0x8000_0000_0000_0000 then r else r - 0x1_0000_0000_0000_0000
  {
    var m := 0x1_0000_0000_0000_0000;
    var q, r := x / m, x % m;
    var y := r + 0x8000_0000_0000_0000;
    if r < 0x8000_0000_0000_0000 {
      RemainderOf(q, y);
    } else {
      RemainderOf(q + 1, y - m);
    }
  }

  lemma RemainderOf(q: int, r: int)
    requires 0 <= r < 0x1_0000_0000_0000_0000
    ensures (q * 0x1_0000_0000_0000_0000 + r) % 0x1_0000_0000_0000_0000 == r
  {}

  const DefaultPullSeconds := 30

  /** Config.PullInterval: a duration in nanoseconds, computed as PollInterval is. */
  function PullInterval(pullSeconds: int): int {
    if pullSeconds <= 0 then DefaultPullSeconds * Second else Wrap64(pullSeconds * Second)
  }

  /** The interval NewPeers settles on. */
  function Effective(interval: int): int { if interval <= 0 then DefaultPullSeconds * Second else interval }

  /**
   A configured pull interval takes effect exactly when that many nanoseconds
   fit in 64 bits. Just past the bound it wraps to a negative one, and the default takes its place.
   */
  lemma PullIntervalExact(pullSeconds: int)
    ensures Effective(PullInterval(pullSeconds)) > 0
    ensures pullSeconds > 0 ==>
              (Effective(PullInterval(pullSeconds)) == pullSeconds * Second <==> pullSeconds <= 9_223_372_036)
    ensures Effective(PullInterval(9_223_372_037)) == 30_000_000_000
    ensures pullSeconds <= 0 ==> Effective(PullInterval(pullSeconds)) == 30_000_000_000
  {}

  /** Docker.Equal: same meaning, whatever is spelled out. */
  predicate SameDocker(a: DockerBlock, b: DockerBlock) {
    && IsEnabled(a) == IsEnabled(b)
    && SocketPath(a) == SocketPath(b)
    && a.network == b.network
    && PollInterval(a) == PollInterval(b)
  }

  /**
   What a Docker block means: it is on unless switched off, and what is left
   empty or not positive is the default. Equal compares exactly this.
   */
  lemma DockerBlockMeans(a: DockerBlock, b: DockerBlock)
    ensures IsEnabled(a) <==> a.enabled != Some(false)
    ensures SocketPath(a) == (if a.socket == "" then "/var/run/docker.sock" else a.socket)
    ensures a.pollSeconds <= 0 ==> PollInterval(a) == 5_000_000_000
    ensures SameDocker(a, b) <==>
              && (a.enabled == Some(false) <==> b.enabled == Some(false))
              && (if a.socket == "" then "/var/run/docker.sock" else a.socket) ==
                 (if b.socket == "" then "/var/run/docker.sock" else b.socket)
              && a.network == b.network && PollInterval(a) == PollInterval(b)
    ensures SameDocker(DockerBlock(None, "", a.network, 0), DockerBlock(Some(true), "/var/run/docker.sock", a.network, 5))
  {}

  datatype Settings = Settings(
    nodeID: string,
    nodeName: string,
    listen: Listen,
    services: seq<Service>,
    nodes: seq<string>,
    pullSeconds: int,
    docker: DockerBlock)

  /** net.SplitHostPort: the host and the port of an address, or nothing when it has none. */
  type Splitter = string -> Option<(string, string)>

  datatype Problem =
    | NoNodeID
    | NoControl
    | BadListen(address: string)
    | BadService(cause: NameError)
    | ServiceWithoutAddress(name: string)
    | ServiceWithBadPort(name: string, port: int)
    | DeclaredTwice(name: string)
    | NegativePullInterval
    | NegativePollInterval
    | BadEndpoint(endpoint: string)
    | BadEndpointPort(endpoint: string)

  // ------------------------------------------------- the first problem found

  function ListenProblem(addresses: seq<string>, split: Splitter): Option<Problem> {
    if addresses == [] then None
    else if addresses[0] != "" && split(addresses[0]) == None then Some(BadListen(addresses[0]))
    else ListenProblem(addresses[1..], split)
  }

  function DeclaredNames(services: seq<Service>): set<string> { set s <- services :: NormalizeName(s.name) }

  function ServiceProblem(s: Service, declared: set<string>): Option<Problem> {
    var name := NormalizeName(s.name);
    match ValidateName(name)
    case Some(cause) => Some(BadService(cause))
    case None =>
      if s.address == "" then Some(ServiceWithoutAddress(name))
      else if !ValidPort(s.port) then Some(ServiceWithBadPort(name, s.port))
      else if name in declared then Some(DeclaredTwice(name))
      else None
  }

  function ServicesProblem(services: seq<Service>): Option<Problem> {
    if services == [] then None
    else
      var k := |services| - 1;
      var before := ServicesProblem(services[..k]);
      if before.Some? then before else ServiceProblem(services[k], DeclaredNames(services[..k]))
  }

  function NodesProblem(nodes: seq<string>, split: Splitter): Option<Problem> {
    if nodes == [] then None
    else
      var hp := split(nodes[0]);
      if hp == None || hp.value.0 == "" then Some(BadEndpoint(nodes[0]))
      else if Containers.Atoi(hp.value.1) == None then Some(BadEndpointPort(nodes[0]))
      else NodesProblem(nodes[1..], split)
  }

  /** The problem Validate reports: the first, in the order it looks. */
  function FirstProblem(c: Settings, split: Splitter): Option<Problem> {
    if c.nodeID == "" then Some(NoNodeID)
    else if c.listen.control == "" then Some(NoControl)
    else
      var listen := ListenProblem([c.listen.dns, c.listen.http, c.listen.peer], split);
      if listen.Some? then listen
      else
        var services := ServicesProblem(c.services);
        if services.Some? then services
        else if c.pullSeconds < 0 then Some(NegativePullInterval)
        else if c.docker.pollSeconds < 0 then Some(NegativePollInterval)
        else NodesProblem(c.nodes, split)
  }

  // ------------------------------------------------------ what is acceptable

  /** A configuration a node can run. */
  ghost predicate Runnable(c: Settings, split: Splitter) {
    && c.nodeID != "" && c.listen.control != ""
    && (forall a <- [c.listen.dns, c.listen.http, c.listen.peer] :: a == "" || split(a).Some?)
    && (forall s <- c.services :: Acceptable(Stored(s, SourceConfig)))
    && (forall i, j :: 0 <= i < j < |c.services| ==> NormalizeName(c.services[i].name) != NormalizeName(c.services[j].name))
    && c.pullSeconds >= 0 && c.docker.pollSeconds >= 0
    && (forall e <- c.nodes ::
         split(e).Some? && split(e).value.0 != "" && Containers.Atoi(split(e).value.1).Some?)
  }

  lemma {:induction false} ListenProblemNone(addresses: seq<string>, split: Splitter)
    ensures ListenProblem(addresses, split) == None <==> forall a <- addresses :: a == "" || split(a).Some?
  {
    if addresses != [] {
      ListenProblemNone(addresses[1..], split);
      assert addresses == [addresses[0]] + addresses[1..];
    }
  }

  lemma {:induction false} NodesProblemNone(nodes: seq<string>, split: Splitter)
    ensures NodesProblem(nodes, split) == None <==>
              forall e <- nodes :: split(e).Some? && split(e).value.0 != "" && Containers.Atoi(split(e).value.1).Some?
  {
    hide Containers.Atoi;
    if nodes != [] {
      NodesProblemNone(nodes[1..], split);
      assert nodes == [nodes[0]] + nodes[1..];
    }
  }

  lemma ServiceProblemNone(s: Service, declared: set<string>)
    ensures ServiceProblem(s, declared) == None <==>
              Acceptable(Stored(s, SourceConfig)) && NormalizeName(s.name) !in declared
  {
    hide NormalizeName, ValidateName;
  }

  lemma {:induction false} ServicesProblemNone(services: seq<Service>)
    ensures ServicesProblem(services) == None <==>
              && (forall s <- services :: Acceptable(Stored(s, SourceConfig)))
              && (forall i, j :: 0 <= i < j < |services| ==>
                   NormalizeName(services[i].name) != NormalizeName(services[j].name))
  {
    hide NormalizeName, Acceptable, ServiceProblem;
    if services != [] {
      var k := |services| - 1;
      var init := services[..k];
      assert services == init + [services[k]];
      ServicesProblemNone(init);
      ServiceProblemNone(services[k], DeclaredNames(init));
      NotDeclaredIff(services, k);
    }
  }

  lemma NotDeclaredIff(services: seq<Service>, k: nat)
    requires k < |services|
    ensures NormalizeName(services[k].name) !in DeclaredNames(services[..k]) <==>
              forall i :: 0 <= i < k ==> NormalizeName(services[i].name) != NormalizeName(services[k].name)
  {
    hide NormalizeName;
    forall i | 0 <= i < k ensures NormalizeName(services[i].name) in DeclaredNames(services[..k]) {
      assert services[..k][i] == services[i];
    }
    if NormalizeName(services[k].name) in DeclaredNames(services[..k]) {
      var s :| s in services[..k] && NormalizeName(s.name) == NormalizeName(services[k].name);
      var i :| 0 <= i < k && services[..k][i] == s;
      assert services[i] == s;
    }
  }

  /** Validate finds no problem exactly when the configuration is runnable. */
  lemma NoProblemIffRunnable(c: Settings, split: Splitter)
    ensures FirstProblem(c, split) == None <==> Runnable(c, split)
  {
    hide ListenProblem, ServicesProblem, NodesProblem, Acceptable, NormalizeName, Containers.Atoi;
    ListenProblemNone([c.listen.dns, c.listen.http, c.listen.peer], split);
    ServicesProblemNone(c.services);
    NodesProblemNone(c.nodes, split);
  }

  /** The services as Validate leaves them. */
  function Normalized(services: seq<Service>): seq<Service> {
    seq(|services|, i requires 0 <= i < |services| => Stored(services[i], SourceConfig))
  }

  /** What gets past Validate is what the directory wants: acceptable services under distinct names, one entry each. */
  lemma RunnableIsStored(c: Settings, split: Splitter)
    requires Runnable(c, split)
    ensures Validated(Normalized(c.services))
    ensures |Collect(Normalized(c.services), SourceConfig, false)| == |c.services|
    ensures forall s <- Normalized(c.services) :: s.name in Collect(Normalized(c.services), SourceConfig, false)
              && Collect(Normalized(c.services), SourceConfig, false)[s.name] == s
  {
    hide NormalizeName, Acceptable;
    var list := Normalized(c.services);
    forall s <- list ensures Acceptable(s) && s.source == SourceConfig {
      var i :| 0 <= i < |list| && list[i] == s;
      assert c.services[i] in c.services;
    }
    forall i, j | 0 <= i < j < |list| ensures ServiceName(list[i]) != ServiceName(list[j]) {
      assert NormalizeName(c.services[i].name) != NormalizeName(c.services[j].name);
    }
    CollectValidated(list);
  }

  /** An address DNS, HTTP or the peer API is to listen on. */
  predicate ListensOn(c: Settings, a: string) { a != "" && (a == c.listen.dns || a == c.listen.http || a == c.listen.peer) }

  /**
   The problem Validate reports is one the configuration has, with the details it
   gives, and what Validate looks at before it is in order.
   */
  lemma ProblemIsReal(c: Settings, split: Splitter)
    ensures match FirstProblem(c, split)
            case None => true
            case Some(NoNodeID) => c.nodeID == ""
            case Some(NoControl) => c.nodeID != "" && c.listen.control == ""
            case Some(BadListen(a)) => c.nodeID != "" && c.listen.control != "" && ListensOn(c, a) && split(a) == None
            case Some(NegativePullInterval) =>
              ListensInOrder(c, split) && ServicesProblem(c.services) == None && c.pullSeconds < 0
            case Some(NegativePollInterval) =>
              && ListensInOrder(c, split) && ServicesProblem(c.services) == None
              && c.pullSeconds >= 0 && c.docker.pollSeconds < 0
            case Some(BadEndpoint(e)) =>
              && e in c.nodes && (split(e) == None || split(e).value.0 == "")
              && c.pullSeconds >= 0 && c.docker.pollSeconds >= 0
            case Some(BadEndpointPort(e)) =>
              && e in c.nodes && split(e).Some? && split(e).value.0 != ""
              && (forall p :: Containers.Atoi(split(e).value.1) != Some(p))
              && c.pullSeconds >= 0 && c.docker.pollSeconds >= 0
            case Some(p) => ListensInOrder(c, split) && HaveProblem(c.services, p)
  {
    ListenProblemNone([c.listen.dns, c.listen.http, c.listen.peer], split);
    ListenProblemIsReal([c.listen.dns, c.listen.http, c.listen.peer], split);
    ServicesProblemIsReal(c.services);
    NodesProblemIsReal(c.nodes, split);
    hide ListenProblem, ServicesProblem, NodesProblem, NormalizeName, ValidateName, Containers.Atoi;
  }

  predicate ListensInOrder(c: Settings, split: Splitter) {
    && c.nodeID != "" && c.listen.control != ""
    && (forall a <- [c.listen.dns, c.listen.http, c.listen.peer] :: a == "" || split(a).Some?)
  }

  lemma {:induction false} ListenProblemIsReal(addresses: seq<string>, split: Splitter)
    ensures match ListenProblem(addresses, split)
            case None => true
            case Some(BadListen(a)) => a in addresses && a != "" && split(a) == None
            case Some(_) => false
  {
    if addresses != [] { ListenProblemIsReal(addresses[1..], split); }
  }

  lemma {:induction false} NodesProblemIsReal(nodes: seq<string>, split: Splitter)
    ensures match NodesProblem(nodes, split)
            case None => true
            case Some(BadEndpoint(e)) => e in nodes && (split(e) == None || split(e).value.0 == "")
            case Some(BadEndpointPort(e)) =>
              e in nodes && split(e).Some? && split(e).value.0 != "" && Containers.Atoi(split(e).value.1) == None
            case Some(_) => false
  {
    hide Containers.Atoi;
    if nodes != [] { NodesProblemIsReal(nodes[1..], split); }
  }

  /** The services have the problem `p`. */
  ghost predicate HaveProblem(services: seq<Service>, p: Problem) {
    match p
    case BadService(cause) => exists s <- services :: ValidateName(NormalizeName(s.name)) == Some(cause)
    case ServiceWithoutAddress(n) => Valid(n) && exists s <- services :: NormalizeName(s.name) == n && s.address == ""
    case ServiceWithBadPort(n, port) =>
      && Valid(n) && !(1 <= port <= 65535)
      && exists s <- services :: NormalizeName(s.name) == n && s.address != "" && s.port == port
    case DeclaredTwice(n) =>
      && Valid(n)
      && exists i, j :: 0 <= i < j < |services|
           && NormalizeName(services[i].name) == n && NormalizeName(services[j].name) == n
    case _ => false
  }

  lemma StillHaveProblem(init: seq<Service>, services: seq<Service>, p: Problem)
    requires init <= services && HaveProblem(init, p)
    ensures HaveProblem(services, p)
  {
    hide NormalizeName, ValidateName;
    assert forall s <- init :: s in services;
    if p.DeclaredTwice? {
      var i, j :| 0 <= i < j < |init| && NormalizeName(init[i].name) == p.name && NormalizeName(init[j].name) == p.name;
      assert services[i] == init[i] && services[j] == init[j];
    }
  }

  lemma LastHasProblem(services: seq<Service>)
    requires services != []
    ensures var k := |services| - 1;
            var p := ServiceProblem(services[k], DeclaredNames(services[..k]));
            p.Some? ==> HaveProblem(services, p.value)
  {
    hide NormalizeName, ValidateName, DeclaredNames;
    var k := |services| - 1;
    assert services[k] in services;
    NotDeclaredIff(services, k);
  }

  lemma {:induction false} ServicesProblemIsReal(services: seq<Service>)
    ensures ServicesProblem(services).Some? ==> HaveProblem(services, ServicesProblem(services).value)
  {
    if services != [] {
      var init := services[..|services| - 1];
      ServicesProblemIsReal(init);
      LastHasProblem(services);
      if ServicesProblem(init).Some? { StillHaveProblem(init, services, ServicesProblem(init).value); }
      hide HaveProblem, ServiceProblem, NormalizeName, ValidateName;
    }
  }

  // ------------------------------------------------------------ the object

  /** The configuration as Load builds it: Validate rewrites the services where they are. */
  class Config {
    const nodeID: string
    const nodeName: string
    const listen: Listen
    const services: array<Service>
    const nodes: seq<string>
    const pullSeconds: int
    const docker: DockerBlock

    function Value(): Settings
      reads services
    {
      Settings(nodeID, nodeName, listen, services[..], nodes, pullSeconds, docker)
    }

    constructor (c: Settings)
      ensures Value() == c && fresh(services)
    {
      nodeID, nodeName, listen, nodes := c.nodeID, c.nodeName, c.listen, c.nodes;
      pullSeconds, docker := c.pullSeconds, c.docker;
      services := new Service[|c.services|](i requires 0 <= i < |c.services| => c.services[i]);
      new;
      assert services[..] == c.services;
    }

    /** Leaves the names it has looked at normalized, and stops at the first problem. */
    method Validate(split: Splitter) returns (problem: Option<Problem>)
      modifies services
      ensures problem == FirstProblem(old(Value()), split)
      ensures problem == None ==> Value() == old(Value()).(services := Normalized(old(services[..])))
      ensures forall i :: 0 <= i < services.Length ==>
                services[i] == old(services[i]) || services[i] == Stored(old(services[i]), SourceConfig)
                || services[i] == old(services[i]).(name := NormalizeName(old(services[i].name)))
    {
      hide NormalizeName, ValidateName, Containers.Atoi;
      if nodeID == "" { return Some(NoNodeID); }
      if listen.control == "" { return Some(NoControl); }
      problem := CheckListen([listen.dns, listen.http, listen.peer], split);
      if problem.Some? { return; }
      problem := CheckServices();
      if problem.Some? { return; }
      if pullSeconds < 0 { return Some(NegativePullInterval); }
      if docker.pollSeconds < 0 { return Some(NegativePollInterval); }
      problem := CheckNodes(split);
    }

    method CheckListen(addresses: seq<string>, split: Splitter) returns (problem: Option<Problem>)
      ensures problem == ListenProblem(addresses, split)
    {
      for i := 0 to |addresses|
        invariant ListenProblem(addresses, split) == ListenProblem(addresses[i..], split)
      {
        assert addresses[i..][1..] == addresses[i + 1..];
        if addresses[i] != "" && split(addresses[i]) == None { return Some(BadListen(addresses[i])); }
      }
      return None;
    }

    method CheckServices() returns (problem: Option<Problem>)
      modifies services
      ensures problem == ServicesProblem(old(services[..]))
      ensures problem == None ==> services[..] == Normalized(old(services[..]))
      ensures forall i :: 0 <= i < services.Length ==>
                services[i] == old(services[i]) || services[i] == Stored(old(services[i]), SourceConfig)
                || services[i] == old(services[i]).(name := NormalizeName(old(services[i].name)))
    {
      ghost var given := services[..];
      assert given[..0] == [] && ServicesProblem([]) == None && DeclaredNames([]) == {};
      hide NormalizeName, ServicesProblem, ServiceProblem, DeclaredNames, Normalized;
      var seen: set<string> := {};
      for i := 0 to services.Length
        invariant ServicesProblem(given[..i]) == None
        invariant seen == DeclaredNames(given[..i])
        invariant forall j :: 0 <= j < i ==> services[j] == Stored(given[j], SourceConfig)
        invariant forall j :: i <= j < services.Length ==> services[j] == given[j]
      {
        FailsFrom(given, i);
        DeclaredOneMore(given, i);
        problem := CheckService(i, seen);
        if problem.Some? { return; }
        seen := seen + {services[i].name};
      }
      assert given[..services.Length] == given;
      NormalizedIs(given, services[..]);
      return None;
    }

    /** One service, rewritten where it is, against the names seen before it. */
    method CheckService(i: nat, seen: set<string>) returns (problem: Option<Problem>)
      requires i < services.Length
      modifies services
      ensures problem == ServiceProblem(old(services[i]), seen)
      ensures services[i] == if problem == None then Stored(old(services[i]), SourceConfig)
                             else old(services[i]).(name := NormalizeName(old(services[i].name)))
      ensures forall j :: 0 <= j < services.Length && j != i ==> services[j] == old(services[j])
    {
      hide NormalizeName, ValidateName;
      services[i] := services[i].(name := NormalizeName(services[i].name));
      var svc := services[i];
      var bad := ValidateName(svc.name);
      if bad.Some? { return Some(BadService(bad.value)); }
      if svc.address == "" { return Some(ServiceWithoutAddress(svc.name)); }
      if svc.port < 1 || svc.port > 65535 { return Some(ServiceWithBadPort(svc.name, svc.port)); }
      if svc.name in seen { return Some(DeclaredTwice(svc.name)); }
      services[i] := services[i].(source := SourceConfig);
      return None;
    }

    method CheckNodes(split: Splitter) returns (problem: Option<Problem>)
      ensures problem == NodesProblem(nodes, split)
    {
      hide Containers.Atoi;
      for i := 0 to |nodes|
        invariant NodesProblem(nodes, split) == NodesProblem(nodes[i..], split)
      {
        assert nodes[i..][1..] == nodes[i + 1..];
        var hp := split(nodes[i]);
        if hp == None || hp.value.0 == "" { return Some(BadEndpoint(nodes[i])); }
        if Containers.Atoi(hp.value.1) == None { return Some(BadEndpointPort(nodes[i])); }
      }
      return None;
    }
  }

  /** A problem found at the first service that has one is the whole list's; without one the walk goes on. */
  lemma FailsFrom(services: seq<Service>, i: nat)
    requires i < |services| && ServicesProblem(services[..i]) == None
    ensures var p := ServiceProblem(services[i], DeclaredNames(services[..i]));
            if p.Some? then ServicesProblem(services) == p else ServicesProblem(services[..i + 1]) == None
  {
    hide NormalizeName, ServiceProblem, DeclaredNames;
    assert services[..i + 1][..i] == services[..i];
    if ServicesProblem(services[..i + 1]).Some? { ProblemStays(services, i + 1); }
  }

  lemma DeclaredOneMore(services: seq<Service>, i: nat)
    requires i < |services|
    ensures DeclaredNames(services[..i + 1]) == DeclaredNames(services[..i]) + {NormalizeName(services[i].name)}
  {
    hide NormalizeName;
    assert services[..i + 1] == services[..i] + [services[i]];
  }

  lemma NormalizedIs(given: seq<Service>, s: seq<Service>)
    requires |s| == |given| && forall j :: 0 <= j < |s| ==> s[j] == Stored(given[j], SourceConfig)
    ensures s == Normalized(given)
  {
    hide NormalizeName;
  }

  lemma {:induction false} ProblemStays(services: seq<Service>, k: nat)
    requires k <= |services| && ServicesProblem(services[..k]).Some?
    ensures ServicesProblem(services) == ServicesProblem(services[..k])
    decreases |services| - k
  {
    hide NormalizeName, ServiceProblem;
    if k == |services| {
      assert services[..k] == services;
    } else {
      assert services[..k + 1][..k] == services[..k];
      ProblemStays(services, k + 1);
    }
  }
}
