/**
 Any number of nodes pulling from each other (internal/daemon/peers.go and the
 peer listener of internal/daemon/api.go). Every node runs the machine of module
 Interleaving; a request to an endpoint is answered by the node behind it at that
 moment, which gives its own ID and, on the second request, its own local services.
 */
module Network {
  import opened Results
  import opened Protocol
  import opened Directories
  import opened Peering
  import opened Interleaving
  import Runs = DirectoryRuns

  /** The nodes by ID, and the node behind each endpoint at the moment. An endpoint with none behind it does not answer. */
  datatype Net = Net(nodes: map<string, Node>, hosts: map<string, string>)

  datatype NetEvent =
    | Own(node: string, ev: Event)            // anything a node does that is not an answered request
    | AskInfo(node: string, name: string)     // GET /v1/info, answered
    | AskServices(node: string)               // GET /v1/services, answered
    | Rehost(hosts: map<string, string>)      // endpoints change hands

  function Put1(net: Net, id: string, n: Node): Net { net.(nodes := net.nodes[id := n]) }

  /** The endpoint a node's puller is waiting for. */
  function Target(p: Puller): Option<string> {
    match p
    case Between(todo) => if todo == [] then None else Some(todo[0])
    case Asked(e, _, _, _) => Some(e)
    case _ => None
  }

  /** The node that would answer it. */
  function Answering(net: Net, p: Puller): Option<string> {
    match Target(p)
    case None => None
    case Some(e) =>
      if e in net.hosts && net.hosts[e] in net.nodes then Some(net.hosts[e]) else None
  }

  /** What the peer listener serves: the node's own services only. */
  ghost function Advertised(n: Node): seq<Service> { LocalListing(n.dir) }

  ghost function NetStep(net: Net, ev: NetEvent): Net {
    if ev.Rehost? then net.(hosts := ev.hosts)
    else if ev.node !in net.nodes then net
    else
      var n := net.nodes[ev.node];
      match ev
      case Own(b, e) => if e.InfoOk? || e.ServicesOk? then net else Put1(net, b, Step(n, e))
      case AskInfo(b, name) =>
        if n.puller.Between? && Answering(net, n.puller).Some?
        then Put1(net, b, Step(n, InfoOk(Answering(net, n.puller).value, name))) else net
      case AskServices(b) =>
        if n.puller.Asked? && Answering(net, n.puller).Some?
        then Put1(net, b, Step(n, ServicesOk(Advertised(net.nodes[Answering(net, n.puller).value])))) else net
  }

  ghost function NetExec(net: Net, evs: seq<NetEvent>): Net {
    if evs == [] then net else NetStep(NetExec(net, evs[..|evs| - 1]), evs[|evs| - 1])
  }

  /** The configurations the nodes load are validated ones. */
  ghost predicate LegalRun(evs: seq<NetEvent>) {
    forall ev <- evs :: ev.Own? && ev.ev.LocalWrite? ==> Runs.Legal(ev.ev.op)
  }

  /** Every node starts with an empty directory, under its own ID. */
  ghost predicate Fresh(net: Net) {
    forall id <- net.nodes :: id != "" && exists endpoints :: net.nodes[id] == Started(id, endpoints)
  }

  // ---------------------------------------------------------------- origins

  /**
   At moment `j` of the run, `b`, which had been told the ID `a`, was answered
   by `c` with `list`, which was then all `c` serves itself.
   */
  ghost predicate Told(net: Net, evs: seq<NetEvent>, j: int, b: string, a: string, c: string, list: seq<Service>) {
    && 0 <= j < |evs|
    && evs[j] == AskServices(b)
    && var then_ := NetExec(net, evs[..j]);
       && b in then_.nodes && c in then_.nodes
       && then_.nodes[b].puller.Asked? && then_.nodes[b].puller.id == a
       && Answering(then_, then_.nodes[b].puller) == Some(c)
       && list == Advertised(then_.nodes[c])
  }

  /** `tier` is what `b` makes of some such answer. */
  ghost predicate HasOrigin(net: Net, evs: seq<NetEvent>, b: string, a: string, tier: Tier) {
    exists j, c, list :: Told(net, evs, j, b, a, c, list) && tier == Collect(list, a, true)
  }

  /** `list` is some such answer. */
  ghost predicate Given(net: Net, evs: seq<NetEvent>, b: string, a: string, list: seq<Service>) {
    exists j, c :: Told(net, evs, j, b, a, c, list)
  }

  /** The list the puller carries, if it carries one, is such an answer. */
  ghost predicate CarriesAnswer(net: Net, evs: seq<NetEvent>, b: string, p: Puller) {
    p.Answered? || p.Withdrawing? || p.Storing? ==> Given(net, evs, b, p.id, p.list)
  }

  /** What holds of the node `b` after a run: every directory it holds is an advertisement it was given. */
  ghost predicate NodeTraced(net: Net, evs: seq<NetEvent>, b: string, n: Node) {
    && n.local == b && b != ""
    && Inv(n) && Sound(n.dir)
    && CarriesAnswer(net, evs, b, n.puller)
    && (forall a <- n.dir.remote :: a != b && HasOrigin(net, evs, b, a, n.dir.remote[a]))
  }

  lemma ToldLater(net: Net, evs: seq<NetEvent>, ev: NetEvent, j: int, b: string, a: string, c: string, list: seq<Service>)
    requires Told(net, evs, j, b, a, c, list)
    ensures Told(net, evs + [ev], j, b, a, c, list)
  {
    assert (evs + [ev])[..j] == evs[..j];
    hide NetExec, Answering, Advertised;
  }

  lemma GivenLater(net: Net, evs: seq<NetEvent>, ev: NetEvent, b: string, a: string, list: seq<Service>)
    requires Given(net, evs, b, a, list)
    ensures Given(net, evs + [ev], b, a, list)
  {
    hide Told;
    var j, c :| Told(net, evs, j, b, a, c, list);
    ToldLater(net, evs, ev, j, b, a, c, list);
  }

  lemma OriginLater(net: Net, evs: seq<NetEvent>, ev: NetEvent, b: string, a: string, tier: Tier)
    requires HasOrigin(net, evs, b, a, tier)
    ensures HasOrigin(net, evs + [ev], b, a, tier)
  {
    hide Told, Collect;
    var j, c, list :| Told(net, evs, j, b, a, c, list) && tier == Collect(list, a, true);
    ToldLater(net, evs, ev, j, b, a, c, list);
  }

  lemma TracedLater(net: Net, evs: seq<NetEvent>, ev: NetEvent, b: string, n: Node)
    requires NodeTraced(net, evs, b, n)
    ensures NodeTraced(net, evs + [ev], b, n)
  {
    hide Given, HasOrigin, Inv, Sound;
    if n.puller.Answered? || n.puller.Withdrawing? || n.puller.Storing? {
      GivenLater(net, evs, ev, b, n.puller.id, n.puller.list);
    }
    forall a <- n.dir.remote ensures HasOrigin(net, evs + [ev], b, a, n.dir.remote[a]) {
      OriginLater(net, evs, ev, b, a, n.dir.remote[a]);
    }
  }

  // ------------------------------------------------------- one node's step

  /** A step that is not an answered request carries on with the same answer, and stores nothing else. */
  lemma OwnStep(n: Node, ev: Event)
    requires !ev.InfoOk? && !ev.ServicesOk?
    ensures var n' := Step(n, ev);
            && n'.local == n.local
            && (n'.puller.Answered? ==> n'.puller == n.puller)
            && (n'.puller.Asked? ==> n'.puller == n.puller)
            && (n'.puller.Withdrawing? || n'.puller.Storing? ==>
                  (n.puller.Answered? || n.puller.Withdrawing? || n.puller.Storing?)
                  && n'.puller.id == n.puller.id && n'.puller.list == n.puller.list)
            && (forall a <- n'.dir.remote :: (a in n.dir.remote && n'.dir.remote[a] == n.dir.remote[a])
                  || (ev.Write? && n.puller.Storing? && a == n.puller.id && n'.dir.remote[a] == Collect(n.puller.list, a, true)))
  {
    hide Collect, Retargeted, Distinct, NormalizeName, ValidateName;
    if ev.LocalWrite? && !ev.op.OpSetRemote? { LocalKeepsRemote(n.dir, ev.op); }
  }

  /** Every step of a node keeps its directory sound. */
  lemma StepKeepsSound(n: Node, ev: Event)
    requires Sound(n.dir)
    requires ev.LocalWrite? ==> Runs.Legal(ev.op)
    ensures Sound(Step(n, ev).dir)
  {
    hide Collect, Acceptable, Retargeted, Distinct;
    match ev
    case LocalWrite(op) => Runs.WritersKeepSound(n.dir, op);
    case Write => WriteKeepsSound(n);
    case _ =>
  }

  lemma WriteKeepsSound(n: Node)
    requires Sound(n.dir)
    ensures Sound(WriteStep(n).dir)
  {
    hide Collect, Acceptable;
    if n.puller.Storing? { Runs.SetRemoteSound(n.dir, n.puller.id, n.puller.list); }
  }

  lemma StoringAnother(n: Node)
    requires Inv(n) && n.puller.Storing?
    ensures n.puller.id != n.local
  {}

  lemma GivenIsOrigin(net: Net, evs: seq<NetEvent>, b: string, a: string, list: seq<Service>)
    requires Given(net, evs, b, a, list)
    ensures HasOrigin(net, evs, b, a, Collect(list, a, true))
  {
    hide Told, Collect;
    var j, c :| Told(net, evs, j, b, a, c, list);
  }

  lemma OwnStepTraced(net: Net, evs: seq<NetEvent>, b: string, n: Node, ev: Event)
    requires NodeTraced(net, evs, b, n)
    requires !ev.InfoOk? && !ev.ServicesOk?
    requires ev.LocalWrite? ==> Runs.Legal(ev.op)
    ensures NodeTraced(net, evs, b, Step(n, ev))
  {
    hide Given, Inv, Sound, Collect, Step, HasOrigin;
    StepKeepsInv(n, ev);
    StepKeepsSound(n, ev);
    OwnStep(n, ev);
    if n.puller.Storing? {
      StoringAnother(n);
      GivenIsOrigin(net, evs, b, n.puller.id, n.puller.list);
    }
  }

  lemma InfoTraced(net: Net, evs: seq<NetEvent>, b: string, n: Node, id: string, name: string)
    requires NodeTraced(net, evs, b, n) && n.puller.Between?
    ensures NodeTraced(net, evs, b, Step(n, InfoOk(id, name)))
  {
    hide Given, Inv, Sound, HasOrigin;
    StepKeepsInv(n, InfoOk(id, name));
  }

  lemma ServicesTraced(net: Net, evs: seq<NetEvent>, b: string, n: Node, list: seq<Service>)
    requires NodeTraced(net, evs, b, n)
    requires n.puller.Asked? && Given(net, evs, b, n.puller.id, list)
    ensures NodeTraced(net, evs, b, Step(n, ServicesOk(list)))
  {
    hide Given, Inv, Sound, HasOrigin;
    StepKeepsInv(n, ServicesOk(list));
  }

  // ------------------------------------------------------------ whole network

  ghost predicate Traced(net: Net, evs: seq<NetEvent>) {
    var now := NetExec(net, evs);
    && now.nodes.Keys == net.nodes.Keys
    && forall b <- now.nodes :: NodeTraced(net, evs, b, now.nodes[b])
  }

  /** A step touches its own node only. */
  lemma StepFrame(net: Net, ev: NetEvent)
    ensures NetStep(net, ev).nodes.Keys == net.nodes.Keys
    ensures forall b <- net.nodes :: ev.Rehost? || b != ev.node ==> NetStep(net, ev).nodes[b] == net.nodes[b]
  {
    hide Step, Advertised, Answering;
  }

  /** What an answered second request hands over. */
  lemma AskedIsGiven(net: Net, init: seq<NetEvent>, b: string)
    requires var now := NetExec(net, init);
             b in now.nodes && now.nodes[b].puller.Asked? && Answering(now, now.nodes[b].puller).Some?
    ensures var now := NetExec(net, init);
            var c := Answering(now, now.nodes[b].puller).value;
            && c in now.nodes
            && Given(net, init + [AskServices(b)], b, now.nodes[b].puller.id, Advertised(now.nodes[c]))
  {
    var now, evs := NetExec(net, init), init + [AskServices(b)];
    var c := Answering(now, now.nodes[b].puller).value;
    assert evs[..|init|] == init;
    assert Told(net, evs, |init|, b, now.nodes[b].puller.id, c, Advertised(now.nodes[c]));
  }

  lemma StepTraced(net: Net, init: seq<NetEvent>, ev: NetEvent, b: string)
    requires Traced(net, init)
    requires ev.Own? && ev.ev.LocalWrite? ==> Runs.Legal(ev.ev.op)
    requires b in net.nodes
    ensures var next := NetStep(NetExec(net, init), ev);
            next.nodes.Keys == net.nodes.Keys && NodeTraced(net, init + [ev], b, next.nodes[b])
  {
    var now := NetExec(net, init);
    var n := now.nodes[b];
    StepFrame(now, ev);
    TracedLater(net, init, ev, b, n);
    hide NodeTraced, Step, NetExec, Advertised;
    if !ev.Rehost? && b == ev.node {
      match ev
      case Own(_, e) =>
        if !e.InfoOk? && !e.ServicesOk? { OwnStepTraced(net, init + [ev], b, n, e); }
      case AskInfo(_, name) =>
        if n.puller.Between? && Answering(now, n.puller).Some? {
          InfoTraced(net, init + [ev], b, n, Answering(now, n.puller).value, name);
        }
      case AskServices(_) =>
        if n.puller.Asked? && Answering(now, n.puller).Some? {
          AskedIsGiven(net, init, b);
          ServicesTraced(net, init + [ev], b, n, Advertised(now.nodes[Answering(now, n.puller).value]));
        }
    }
  }

  lemma StartIsTraced(net: Net)
    requires Fresh(net)
    ensures Traced(net, [])
  {
    forall b <- net.nodes ensures NodeTraced(net, [], b, net.nodes[b]) {
      var endpoints :| net.nodes[b] == Started(b, endpoints);
      ExecKeepsInv(b, endpoints, []);
    }
  }

  lemma StepHolds(net: Net, init: seq<NetEvent>, ev: NetEvent)
    requires Traced(net, init)
    requires ev.Own? && ev.ev.LocalWrite? ==> Runs.Legal(ev.ev.op)
    ensures Traced(net, init + [ev])
  {
    var evs := init + [ev];
    assert evs[..|evs| - 1] == init;
    StepFrame(NetExec(net, init), ev);
    forall b <- net.nodes ensures NodeTraced(net, evs, b, NetExec(net, evs).nodes[b]) {
      StepTraced(net, init, ev, b);
    }
    hide NodeTraced, NetStep;
  }

  lemma {:induction false} RunIsTraced(net: Net, evs: seq<NetEvent>)
    requires Fresh(net) && LegalRun(evs)
    ensures Traced(net, evs)
  {
    hide Traced, Fresh;
    if evs == [] {
      StartIsTraced(net);
    } else {
      var init, ev := evs[..|evs| - 1], evs[|evs| - 1];
      assert evs == init + [ev];
      assert forall e <- init :: e in evs;
      assert ev in evs;
      RunIsTraced(net, init);
      StepHolds(net, init, ev);
    }
  }

  /**
   No relaying: whatever the nodes do, however their steps interleave and
   whenever endpoints change hands, what node `b` holds under the ID `a` is
   exactly what some node `c` served itself at the moment it answered `b`'s
   second request, attributed to `a`, which was told as the endpoint's ID. Nothing
   of `c`'s own remote tier is in it, so a service never travels two hops.
   */
  lemma NothingIsRelayed(net: Net, evs: seq<NetEvent>, b: string, a: string)
    requires Fresh(net) && LegalRun(evs)
    requires b in NetExec(net, evs).nodes && a in NetExec(net, evs).nodes[b].dir.remote
    ensures a != b
    ensures exists j, c :: SecondAnswer(net, evs, j, b, a, c)
              && NetExec(net, evs).nodes[b].dir.remote[a] ==
                 Runs.Attributed(Local(NetExec(net, evs[..j]).nodes[c].dir), a)
  {
    RunIsTraced(net, evs);
    hide NetExec, NetStep, Sound, Inv;
    var tier := NetExec(net, evs).nodes[b].dir.remote[a];
    assert NodeTraced(net, evs, b, NetExec(net, evs).nodes[b]);
    assert HasOrigin(net, evs, b, a, tier);
    var j, c, list :| Told(net, evs, j, b, a, c, list) && tier == Collect(list, a, true);
    assert forall e <- evs[..j] :: e in evs;
    RunIsTraced(net, evs[..j]);
    var d := NetExec(net, evs[..j]).nodes[c].dir;
    assert NodeTraced(net, evs[..j], c, NetExec(net, evs[..j]).nodes[c]);
    Runs.AdvertisementIsLossless(d, a);
    assert SecondAnswer(net, evs, j, b, a, c);
  }

  /** At moment `j` the node `c` answered `b`'s second request, the first having told the ID `a`. */
  ghost predicate SecondAnswer(net: Net, evs: seq<NetEvent>, j: int, b: string, a: string, c: string) {
    && 0 <= j < |evs| && evs[j] == AskServices(b)
    && var then_ := NetExec(net, evs[..j]);
       && b in then_.nodes && c in then_.nodes
       && then_.nodes[b].puller.Asked? && then_.nodes[b].puller.id == a
       && Answering(then_, then_.nodes[b].puller) == Some(c)
  }

  /** Entry by entry: each was in the answering node's own runtime, config or docker tier, with the same address and port. */
  lemma EveryEntryIsTheOwners(net: Net, evs: seq<NetEvent>, b: string, a: string, n: string)
    requires Fresh(net) && LegalRun(evs)
    requires b in NetExec(net, evs).nodes && a in NetExec(net, evs).nodes[b].dir.remote
    requires n in NetExec(net, evs).nodes[b].dir.remote[a]
    ensures exists j, c :: SecondAnswer(net, evs, j, b, a, c)
              && var d, got := NetExec(net, evs[..j]).nodes[c].dir, NetExec(net, evs).nodes[b].dir.remote[a][n];
                 || (n in d.runtime && got == d.runtime[n].(source := a))
                 || (n in d.config && got == d.config[n].(source := a))
                 || (n in d.docker && got == d.docker[n].(source := a))
  {
    NothingIsRelayed(net, evs, b, a);
    hide NetExec, SecondAnswer;
    var j, c :| SecondAnswer(net, evs, j, b, a, c)
                && NetExec(net, evs).nodes[b].dir.remote[a] == Runs.Attributed(Local(NetExec(net, evs[..j]).nodes[c].dir), a);
    SecondAnswerIn(net, evs, j, b, a, c);
    var d := NetExec(net, evs[..j]).nodes[c].dir;
    assert n in Local(d);
  }

  lemma SecondAnswerIn(net: Net, evs: seq<NetEvent>, j: int, b: string, a: string, c: string)
    requires SecondAnswer(net, evs, j, b, a, c)
    ensures 0 <= j < |evs| && c in NetExec(net, evs[..j]).nodes
  {}

  // ------------------------------------------------------------- whose it is

  /** Every second request of the run is answered by the node that answered the first. */
  ghost predicate Steady(net: Net, evs: seq<NetEvent>) {
    forall j, b, a, c :: SecondAnswer(net, evs, j, b, a, c) ==> c == a
  }

  /** Then the attribution is right as well: under the ID `a` there is only what `a` itself served. */
  lemma AttributionIsRight(net: Net, evs: seq<NetEvent>, b: string, a: string)
    requires Fresh(net) && LegalRun(evs) && Steady(net, evs)
    requires b in NetExec(net, evs).nodes && a in NetExec(net, evs).nodes[b].dir.remote
    ensures exists j :: SecondAnswer(net, evs, j, b, a, a)
              && NetExec(net, evs).nodes[b].dir.remote[a] ==
                 Runs.Attributed(Local(NetExec(net, evs[..j]).nodes[a].dir), a)
  {
    NothingIsRelayed(net, evs, b, a);
    hide SecondAnswer, NetExec;
    var j, c :| SecondAnswer(net, evs, j, b, a, c)
                && NetExec(net, evs).nodes[b].dir.remote[a] == Runs.Attributed(Local(NetExec(net, evs[..j]).nodes[c].dir), a);
    assert c == a;
  }

  /** A run in which no endpoint changes hands is such a run. */
  lemma NoRehostIsSteady(net: Net, evs: seq<NetEvent>)
    requires Fresh(net)
    requires forall ev <- evs :: !ev.Rehost?
    ensures Steady(net, evs)
  {
    forall j, b, a, c | SecondAnswer(net, evs, j, b, a, c) ensures c == a {
      assert forall ev <- evs[..j] :: ev in evs;
      AskedIsHost(net, evs[..j]);
    }
  }

  lemma {:induction false} AskedIsHost(net: Net, evs: seq<NetEvent>)
    requires Fresh(net)
    requires forall ev <- evs :: !ev.Rehost?
    ensures NetExec(net, evs).hosts == net.hosts
    ensures forall b <- NetExec(net, evs).nodes :: PullsHost(net.hosts, NetExec(net, evs).nodes[b].puller)
  {
    if evs != [] {
      var init, ev := evs[..|evs| - 1], evs[|evs| - 1];
      assert forall e <- init :: e in evs;
      assert ev in evs;
      AskedIsHost(net, init);
      var now := NetExec(net, init);
      StepFrame(now, ev);
      if ev.node in now.nodes {
        AskedIsHostStep(now, ev);
      }
    }
  }

  /** A puller that has been told an ID was told it by the node behind the endpoint. */
  ghost predicate PullsHost(hosts: map<string, string>, p: Puller) {
    p.Asked? ==> p.endpoint in hosts && hosts[p.endpoint] == p.id
  }

  lemma AskedIsHostStep(now: Net, ev: NetEvent)
    requires !ev.Rehost? && ev.node in now.nodes && PullsHost(now.hosts, now.nodes[ev.node].puller)
    ensures NetStep(now, ev).hosts == now.hosts && PullsHost(now.hosts, NetStep(now, ev).nodes[ev.node].puller)
  {
    hide Advertised;
    match ev
    case Own(b, e) => if !e.InfoOk? && !e.ServicesOk? { OwnStep(now.nodes[b], e); }
    case _ =>
  }

  /** The pull of an endpoint that is `a`'s when `b` asks who it is, and `c`'s when it asks for the services. */
  ghost function Handover(net: Net, b: string, c: string, name: string): Net
    requires b in net.nodes && net.nodes[b].puller.Between? && net.nodes[b].puller.todo != []
  {
    var e := net.nodes[b].puller.todo[0];
    var m := NetStep(NetStep(NetStep(net, AskInfo(b, name)), Rehost(net.hosts[e := c])), AskServices(b));
    NetStep(NetStep(NetStep(m, Own(b, Lock(0))), Own(b, Write)), Own(b, Write))
  }

  lemma HandoverSteps(net: Net, b: string, a: string, c: string, name: string)
    requires b in net.nodes && a in net.nodes && c in net.nodes && a != b && a != ""
    requires var n := net.nodes[b];
             && n.local == b && n.puller.Between? && n.puller.todo != []
             && n.puller.todo[0] in net.hosts && net.hosts[n.puller.todo[0]] == a
    ensures b in Handover(net, b, c, name).nodes
    ensures Handover(net, b, c, name).nodes[b] ==
            Step(Step(Step(Step(Step(net.nodes[b], InfoOk(a, name)), ServicesOk(Advertised(net.nodes[c]))),
                           Lock(0)), Write), Write)
  {
    hide LockStep, WriteStep, Advertised;
    var n := net.nodes[b];
    var e, rest := n.puller.todo[0], n.puller.todo[1..];
    var n1 := Step(n, InfoOk(a, name));
    assert n1 == n.(puller := Asked(e, a, name, rest));
    var m1 := NetStep(net, AskInfo(b, name));
    assert m1 == Put1(net, b, n1);
    var m2 := NetStep(m1, Rehost(net.hosts[e := c]));
    assert Answering(m2, n1.puller) == Some(c);
    assert Advertised(m2.nodes[c]) == Advertised(net.nodes[c]) by { SameDirSameAdvert(m2.nodes[c], net.nodes[c]); }
    hide Step;
    assert NetStep(m2, AskServices(b)) == Put1(m2, b, Step(n1, ServicesOk(Advertised(net.nodes[c]))));
  }

  lemma SameDirSameAdvert(m: Node, n: Node)
    requires m.dir == n.dir
    ensures Advertised(m) == Advertised(n)
  {}

  /**
   When the endpoint does change hands between the two requests, from `a` to
   `c`, the pull stores what `c` serves under the ID `a`: the attribution is
   right only as far as `a` happens to serve the same.
   */
  lemma HandoverMisattributes(net: Net, b: string, a: string, c: string, name: string)
    requires b in net.nodes && a in net.nodes && c in net.nodes && a != b && a != ""
    requires Sound(net.nodes[c].dir)
    requires var n := net.nodes[b];
             && n.local == b && n.puller.Between? && n.puller.todo != [] && n.reload.NoReload?
             && n.puller.todo[0] in n.table.states
             && n.puller.todo[0] in net.hosts && net.hosts[n.puller.todo[0]] == a
    ensures b in Handover(net, b, c, name).nodes
    ensures At(Handover(net, b, c, name).nodes[b].dir.remote, a) == Runs.Attributed(Local(net.nodes[c].dir), a)
  {
    var n := net.nodes[b];
    var list := Advertised(net.nodes[c]);
    HandoverSteps(net, b, a, c, name);
    FetchedPullSteps(n, a, name, list, 0);
    Runs.AdvertisementIsLossless(net.nodes[c].dir, a);
    PullStoresIt(View(n.table, n.dir.remote), n.puller.todo[0], a, name, list, n.local);
    hide Step, Collect, LocalListing, Sound, Runs.Attributed, Handover, Pull;
  }

  lemma PullStoresIt(v: View, e: string, a: string, name: string, list: seq<Service>, local: string)
    requires e in v.table.states && a != "" && a != local
    ensures At(Pull(v, e, Fetched(a, name, list, 0), local).remote, a) == Collect(list, a, true)
  {
    hide Collect;
  }
}
