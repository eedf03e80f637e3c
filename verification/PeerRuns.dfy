/**
 The peer table over whole runs of uninterrupted pulls and reloads: what the
 remote tier holds, what Nodes reports, and where repeated passes converge.
 */
module PeerRuns {
  import opened Results
  import opened Protocol
  import opened Directories
  import opened Peering

  datatype Op = Retarget(endpoints: seq<string>) | PullOne(endpoint: string, fetch: Fetch)

  function Apply(v: View, op: Op, local: string): View {
    match op
    case Retarget(endpoints) => SetEndpoints(v, endpoints)
    case PullOne(e, f) => Pull(v, e, f, local)
  }

  const NothingKnown := View(NoPeers, map[])

  function Run(ops: seq<Op>, local: string): View {
    if ops == [] then NothingKnown else Apply(Run(ops[..|ops| - 1], local), ops[|ops| - 1], local)
  }

  /** In every reachable state the remote tier names only nodes an online endpoint answers for. */
  lemma {:induction false} RunsAreCovered(ops: seq<Op>, local: string)
    ensures TableSound(Run(ops, local).table, local) && Covered(Run(ops, local))
  {
    if ops != [] {
      var v := Run(ops[..|ops| - 1], local);
      RunsAreCovered(ops[..|ops| - 1], local);
      match ops[|ops| - 1]
      case Retarget(endpoints) =>
        SetEndpointsSound(v, endpoints, local);
        SetEndpointsCovered(v, endpoints, local);
      case PullOne(e, f) =>
        PullSound(v, e, f, local);
        PullCovered(v, e, f, local);
    }
  }

  // ------------------------------------------------------ the exact remote tier

  /** No two endpoints hold the same node ID. */
  ghost predicate DistinctIDs(t: Table) {
    forall a <- t.states, b <- t.states ::
      a != b && t.states[a].nodeID != "" ==> t.states[a].nodeID != t.states[b].nodeID
  }

  /** The list each endpoint's last successful pull brought. */
  function Latest(ops: seq<Op>, local: string, e: string): seq<Service> {
    if ops == [] then []
    else
      var op := ops[|ops| - 1];
      if op.PullOne? && op.endpoint == e && Judged(op.fetch, local).Fetched? then op.fetch.services
      else Latest(ops[..|ops| - 1], local, e)
  }

  /** Every online endpoint's node holds what that endpoint last sent, and no other node holds anything. */
  ghost predicate Exact(v: View, latest: string -> seq<Service>) {
    && Covered(v)
    && forall e <- v.table.states :: v.table.states[e].online ==>
         At(v.remote, v.table.states[e].nodeID) == Collect(latest(e), v.table.states[e].nodeID, true)
  }

  lemma ExactRetarget(v: View, endpoints: seq<string>, local: string, latest: string -> seq<Service>)
    requires TableSound(v.table, local) && Exact(v, latest) && DistinctIDs(v.table)
    ensures Exact(SetEndpoints(v, endpoints), latest)
  {
    hide Collect;
    var v' := SetEndpoints(v, endpoints);
    SetEndpointsCovered(v, endpoints, local);
    forall e <- v'.table.states | v'.table.states[e].online
      ensures At(v'.remote, v'.table.states[e].nodeID) == Collect(latest(e), v'.table.states[e].nodeID, true)
    {
      assert v'.table.states[e] == v.table.states[e];
      assert v.table.states[e].nodeID !in DroppedIDs(v.table.states, endpoints);
    }
  }

  /** A pull leaves the node of every endpoint it does not share an ID with, before or after, alone. */
  lemma PullLeavesOthers(v: View, p: string, f: Fetch, local: string, id: string)
    requires p in v.table.states && id != ""
    requires v.table.states[p].nodeID != id && Pull(v, p, f, local).table.states[p].nodeID != id
    ensures At(Pull(v, p, f, local).remote, id) == At(v.remote, id)
  {
    hide Collect;
  }

  lemma ExactPull(v: View, p: string, f: Fetch, local: string, was: string -> seq<Service>, now: string -> seq<Service>)
    requires TableSound(v.table, local) && Exact(v, was)
    requires DistinctIDs(v.table) && DistinctIDs(Pull(v, p, f, local).table)
    requires forall e :: now(e) == if p == e && Judged(f, local).Fetched? then f.services else was(e)
    ensures Exact(Pull(v, p, f, local), now)
  {
    hide Collect, Covered;
    var v' := Pull(v, p, f, local);
    PullCovered(v, p, f, local);
    forall e <- v'.table.states | v'.table.states[e].online
      ensures At(v'.remote, v'.table.states[e].nodeID) == Collect(now(e), v'.table.states[e].nodeID, true)
    {
      if e != p {
        assert v'.table.states[e] == v.table.states[e];
        if p in v.table.states {
          PullLeavesOthers(v, p, f, local, v.table.states[e].nodeID);
        }
      }
    }
  }

  /**
   While no two endpoints ever hold the same node ID, the remote tier is exact:
   an online endpoint's node holds its last list, sanitized, and every other
   node is absent.
   */
  lemma {:induction false} RemoteTierIsExact(ops: seq<Op>, local: string)
    requires forall k :: 0 <= k <= |ops| ==> DistinctIDs(Run(ops[..k], local).table)
    ensures Exact(Run(ops, local), e => Latest(ops, local, e))
  {
    if ops != [] {
      var k := |ops| - 1;
      var init := ops[..k];
      forall j | 0 <= j <= |init| ensures DistinctIDs(Run(init[..j], local).table) {
        assert init[..j] == ops[..j];
      }
      assert ops[..k + 1] == ops;
      assert DistinctIDs(Run(ops[..k], local).table) && DistinctIDs(Run(ops[..k + 1], local).table);
      RemoteTierIsExact(init, local);
      RunsAreCovered(init, local);
      match ops[k]
      case Retarget(endpoints) =>
        ExactRetarget(Run(init, local), endpoints, local, e => Latest(init, local, e));
      case PullOne(p, f) =>
        ExactPull(Run(init, local), p, f, local, e => Latest(init, local, e), e => Latest(ops, local, e));
    }
  }

  // ------------------------------------------- the remote tier without distinct IDs

  /** What one operation, over endpoints in these `states`, leaves of the node `id`, of which there `was` something or nothing. */
  function Left(states: map<string, Peer>, op: Op, local: string, id: string, was: Tier): Tier {
    match op
    case Retarget(endpoints) => if id in DroppedIDs(states, endpoints) then map[] else was
    case PullOne(e, f) =>
      if e !in states then was
      else
        var told := Judged(f, local);
        if told.Fetched? && told.id == id then Collect(told.services, id, true)
        else if id != "" && states[e].nodeID == id then map[]
        else was
  }

  /** What the last operation of a run that touched the node `id` left: the list it stored, or nothing. */
  function LastWord(ops: seq<Op>, local: string, id: string): Tier {
    if ops == [] then map[]
    else
      var init := ops[..|ops| - 1];
      Left(Run(init, local).table.states, ops[|ops| - 1], local, id, LastWord(init, local, id))
  }

  lemma ApplyLeaves(v: View, op: Op, local: string, id: string)
    ensures At(Apply(v, op, local).remote, id) == Left(v.table.states, op, local, id, At(v.remote, id))
  {
    hide Collect;
  }

  /** Whoever shares IDs with whom, the remote tier holds of each node what last happened to it. */
  lemma {:induction false} RemoteTierIsLastWord(ops: seq<Op>, local: string, id: string)
    ensures At(Run(ops, local).remote, id) == LastWord(ops, local, id)
  {
    hide Collect, Apply;
    if ops != [] {
      RemoteTierIsLastWord(ops[..|ops| - 1], local, id);
      ApplyLeaves(Run(ops[..|ops| - 1], local), ops[|ops| - 1], local, id);
    }
  }

  /** Operation `k` of a run stores or withdraws the node `id`. */
  predicate Touches(ops: seq<Op>, local: string, id: string, k: nat)
    requires k < |ops|
  {
    var states := Run(ops[..k], local).table.states;
    match ops[k]
    case Retarget(endpoints) => id in DroppedIDs(states, endpoints)
    case PullOne(e, f) =>
      e in states && id != "" && (states[e].nodeID == id || (Judged(f, local).Fetched? && f.id == id))
  }

  /** Operation `k` stores a list that is not empty under `id`, and no later one touches that node. */
  ghost predicate StoredAt(ops: seq<Op>, local: string, id: string, k: nat) {
    && k < |ops| && ops[k].PullOne? && ops[k].endpoint in Run(ops[..k], local).table.states
    && Judged(ops[k].fetch, local).Fetched? && ops[k].fetch.id == id
    && Collect(ops[k].fetch.services, id, true) != map[]
    && forall m :: k < m < |ops| ==> !Touches(ops, local, id, m)
  }

  lemma StoredLonger(ops: seq<Op>, local: string, id: string, k: nat)
    requires k < |ops| - 1
    ensures StoredAt(ops, local, id, k) <==>
              StoredAt(ops[..|ops| - 1], local, id, k) && !Touches(ops, local, id, |ops| - 1)
  {
    hide Collect, Run;
    var init := ops[..|ops| - 1];
    forall m | 0 <= m < |init| ensures Touches(ops, local, id, m) == Touches(init, local, id, m) {
      assert init[..m] == ops[..m] && init[m] == ops[m];
    }
    assert init[..k] == ops[..k] && init[k] == ops[k];
  }

  /** A node holds something exactly when a pull stored it and nothing has touched the node since. */
  lemma {:induction false} LastWordIsAStore(ops: seq<Op>, local: string, id: string)
    ensures LastWord(ops, local, id) != map[] <==> exists k: nat :: StoredAt(ops, local, id, k)
    ensures forall k: nat :: StoredAt(ops, local, id, k) ==>
              LastWord(ops, local, id) == Collect(ops[k].fetch.services, id, true)
  {
    hide Collect, Run;
    if ops != [] {
      var n := |ops| - 1;
      var init := ops[..n];
      LastWordIsAStore(init, local, id);
      assert ops[..n + 1] == ops;
      forall k: nat | k < n ensures StoredAt(ops, local, id, k) <==> StoredAt(init, local, id, k) && !Touches(ops, local, id, n) {
        StoredLonger(ops, local, id, k);
      }
      if Touches(ops, local, id, n) {
        assert StoredAt(ops, local, id, n) <==> LastWord(ops, local, id) != map[];
      } else if k: nat :| StoredAt(init, local, id, k) {
        assert StoredAt(ops, local, id, k);
      }
    }
  }

  /**
   An offline peer reports services exactly when some pull stored a list under
   its node's ID and nothing has touched that node since, and then it reports that list.
   */
  lemma OfflineReportIff(ops: seq<Op>, local: string, e: string)
    requires e in Run(ops, local).table.states && !Run(ops, local).table.states[e].online
    ensures var v := Run(ops, local);
            var id := v.table.states[e].nodeID;
            && Report(v, e).services == |LastWord(ops, local, id)|
            && (Report(v, e).services > 0 <==> exists k: nat :: StoredAt(ops, local, id, k))
            && (forall k: nat :: StoredAt(ops, local, id, k) ==>
                 Report(v, e).services == |Collect(ops[k].fetch.services, id, true)|)
  {
    hide Collect, Run;
    var v := Run(ops, local);
    var id := v.table.states[e].nodeID;
    RemoteTierIsLastWord(ops, local, id);
    LastWordIsAStore(ops, local, id);
    if id == "" { NoNamelessNode(ops, local); }
    assert |LastWord(ops, local, id)| > 0 <==> LastWord(ops, local, id) != map[];
  }

  lemma {:induction false} NoNamelessNode(ops: seq<Op>, local: string)
    ensures LastWord(ops, local, "") == map[]
  {
    hide Collect, Run;
    if ops != [] { NoNamelessNode(ops[..|ops| - 1], local); }
  }

  // -------------------------------------------------------- what Nodes reports

  /** The last reload lists `e`. */
  predicate Configured(ops: seq<Op>, e: string) {
    if ops == [] then false
    else match ops[|ops| - 1]
      case Retarget(endpoints) => e in endpoints
      case PullOne(_, _) => Configured(ops[..|ops| - 1], e)
  }

  /** What reading `e` has yielded since it was configured, oldest first. */
  function PullsOf(ops: seq<Op>, e: string): seq<Fetch> {
    if ops == [] then []
    else
      var init := ops[..|ops| - 1];
      match ops[|ops| - 1]
      case Retarget(endpoints) => if e in endpoints then PullsOf(init, e) else []
      case PullOne(o, f) => if o == e && Configured(init, e) then PullsOf(init, e) + [f] else PullsOf(init, e)
  }

  /** An answer from a node with an ID that is not this node's own. */
  predicate Accepted(f: Fetch, local: string) { f.Fetched? && f.id != "" && f.id != local }

  function LastAccepted(fs: seq<Fetch>, local: string): (last: Option<Fetch>)
    ensures last.Some? ==> last.value in fs && Accepted(last.value, local)
  {
    if fs == [] then None
    else if Accepted(fs[|fs| - 1], local) then Some(fs[|fs| - 1])
    else LastAccepted(fs[..|fs| - 1], local)
  }

  /**
   A row as these pulls leave it: online when the last one was accepted, else
   with its error, and with the identity and the time of the last accepted one.
   */
  ghost predicate RowAfter(p: Peer, e: string, fs: seq<Fetch>, local: string) {
    var ok := fs != [] && Accepted(fs[|fs| - 1], local);
    && p.endpoint == e
    && (p.online <==> ok)
    && (match LastAccepted(fs, local)
        case None => p.nodeID == "" && p.nodeName == "" && p.lastSeen == None
        case Some(f) => p.nodeID == f.id && p.nodeName == f.name && p.lastSeen == Some(f.at))
    && p.lastErr == if fs == [] || ok then ""
                    else match fs[|fs| - 1]
                      case Failed(cause) => cause
                      case Fetched(id, _, _, _) =>
                        if id == "" then "node reported no id" else "node id is this node's own id"
  }

  lemma PullLeavesRow(v: View, e: string, f: Fetch, local: string, o: string, fs: seq<Fetch>)
    requires o in v.table.states && RowAfter(v.table.states[o], o, fs, local)
    ensures o in Pull(v, e, f, local).table.states
    ensures RowAfter(Pull(v, e, f, local).table.states[o], o, if o == e then fs + [f] else fs, local)
  {
    hide Collect;
    if o == e { assert (fs + [f])[..|fs|] == fs; }
  }

  lemma {:induction false} StatesAreLastPulls(ops: seq<Op>, local: string, e: string)
    ensures var t := Run(ops, local).table;
            && (e in t.states <==> Configured(ops, e))
            && (!Configured(ops, e) ==> PullsOf(ops, e) == [])
            && (e in t.states ==> RowAfter(t.states[e], e, PullsOf(ops, e), local))
  {
    hide RowAfter;
    if ops != [] {
      var init := ops[..|ops| - 1];
      var v := Run(init, local);
      StatesAreLastPulls(init, local, e);
      match ops[|ops| - 1]
      case Retarget(endpoints) =>
        NewRow(e, local);
      case PullOne(o, f) =>
        if e in v.table.states { PullLeavesRow(v, o, f, local, e, PullsOf(init, e)); }
        PullKeepsEndpoints(v, o, f, local);
    }
  }

  lemma NewRow(e: string, local: string)
    ensures RowAfter(NewPeer(e), e, [], local)
  {}

  lemma PullKeepsEndpoints(v: View, e: string, f: Fetch, local: string)
    ensures Pull(v, e, f, local).table.states.Keys == v.table.states.Keys
    ensures Pull(v, e, f, local).table.order == v.table.order
  {}

  /** The endpoints of the last reload. */
  function LastEndpoints(ops: seq<Op>): seq<string> {
    if ops == [] then []
    else match ops[|ops| - 1]
      case Retarget(endpoints) => endpoints
      case PullOne(_, _) => LastEndpoints(ops[..|ops| - 1])
  }

  lemma {:induction false} OrderIsConfigured(ops: seq<Op>, local: string)
    ensures Run(ops, local).table.order == Distinct(LastEndpoints(ops))
  {
    if ops != [] {
      OrderIsConfigured(ops[..|ops| - 1], local);
      if ops[|ops| - 1].PullOne? {
        PullKeepsEndpoints(Run(ops[..|ops| - 1], local), ops[|ops| - 1].endpoint, ops[|ops| - 1].fetch, local);
      }
    }
  }

  /**
   The whole report after any uninterrupted run: a row for each endpoint the last
   reload lists, in the order they first stand in, online or not, as its own
   pulls left it, and counting the list last stored under its ID and not touched
   since, if there is one.
   */
  lemma NodesReport(ops: seq<Op>, local: string)
    ensures var v := Run(ops, local);
            && v.table.order == Distinct(LastEndpoints(ops))
            && (forall e <- v.table.order :: e in v.table.states && RowAfter(Report(v, e).peer, e, PullsOf(ops, e), local))
            && (forall e <- v.table.order, k: nat :: StoredAt(ops, local, Report(v, e).peer.nodeID, k) ==>
                 Report(v, e).services == |Collect(ops[k].fetch.services, Report(v, e).peer.nodeID, true)|)
            && (forall e <- v.table.order :: Report(v, e).services > 0 ==>
                 exists k: nat :: StoredAt(ops, local, Report(v, e).peer.nodeID, k))
  {
    hide RowAfter, StoredAt, LastWord, Collect, Run, PullsOf, Configured;
    var v := Run(ops, local);
    RunsAreCovered(ops, local);
    OrderIsConfigured(ops, local);
    forall e <- v.table.order
      ensures e in v.table.states && Report(v, e).peer == v.table.states[e]
      ensures RowAfter(v.table.states[e], e, PullsOf(ops, e), local)
      ensures Report(v, e).services == |LastWord(ops, local, v.table.states[e].nodeID)|
    {
      StatesAreLastPulls(ops, local, e);
      ReportIsLastWord(ops, local, e);
    }
    forall e <- v.table.order { LastWordIsAStore(ops, local, v.table.states[e].nodeID); }
  }

  lemma ReportIsLastWord(ops: seq<Op>, local: string, e: string)
    requires e in Run(ops, local).table.states
    ensures var v := Run(ops, local);
            Report(v, e) == NodeReport(v.table.states[e], |LastWord(ops, local, v.table.states[e].nodeID)|)
  {
    hide Collect, Run;
    RemoteTierIsLastWord(ops, local, Run(ops, local).table.states[e].nodeID);
    NoNamelessNode(ops, local);
  }

  /** While IDs are distinct an online row counts its own last list, and an offline one nothing. */
  lemma DistinctReport(ops: seq<Op>, local: string, e: string)
    requires forall k :: 0 <= k <= |ops| ==> DistinctIDs(Run(ops[..k], local).table)
    requires e in Run(ops, local).table.states
    ensures var v := Run(ops, local);
            var p := v.table.states[e];
            Report(v, e) == NodeReport(p, if p.online then |Collect(Latest(ops, local, e), p.nodeID, true)| else 0)
  {
    hide Collect, Latest;
    RemoteTierIsExact(ops, local);
    RunsAreCovered(ops, local);
    assert ops[..|ops|] == ops;
    var v := Run(ops, local);
    hide Run;
    if !v.table.states[e].online { OfflineReport(v, local, e); }
  }

  /** An offline peer reports services only when another endpoint is online under its node ID. */
  lemma OfflineReport(v: View, local: string, e: string)
    requires TableSound(v.table, local) && Covered(v)
    requires e in v.table.states && !v.table.states[e].online
    ensures Report(v, e).services > 0 ==>
              exists o <- v.table.states :: o != e && v.table.states[o].online
                                         && v.table.states[o].nodeID == v.table.states[e].nodeID
    ensures DistinctIDs(v.table) ==> Report(v, e).services == 0
  {
    var id := v.table.states[e].nodeID;
    if Report(v, e).services > 0 {
      assert Online(v.table, id);
    }
  }

  /**
   Without distinct IDs it does: when `x` goes offline under the ID that `y`
   then reports too, every service learned through `y` is reported for `x`.
   The last clause says that there can be some.
   */
  lemma SharedIDMisreports(v: View, local: string, x: string, y: string, id: string, list: seq<Service>, cause: string)
    requires TableSound(v.table, local) && x in v.table.states && y in v.table.states && x != y
    requires id != "" && id != local
    ensures var f := Fetched(id, "", list, 0);
            var v' := Pull(Pull(Pull(v, x, f, local), x, Failed(cause), local), y, f, local);
            && x in v'.table.states && !v'.table.states[x].online
            && v'.table.states[x].nodeID == v'.table.states[y].nodeID == id
            && Report(v', x).services == |Collect(list, id, true)|
    ensures |Collect([Service("w.core", "10.0.0.2", 80, "")], id, true)| == 1
  {
    OneServiceStored(Service("w.core", "10.0.0.2", 80, ""), id);
    hide Collect;
  }

  lemma OneServiceStored(s: Service, id: string)
    requires s == Service("w.core", "10.0.0.2", 80, "")
    ensures Collect([s], id, true) == map["w.core" := s.(source := id)]
  {
    ShortNameIsValid();
    ValidIsNormal("w.core");
    hide NormalizeName, ValidateName;
    CollectOne(s, id, true);
    assert Stored(s, id) == s.(source := id);
  }

  // ------------------------------------------------------------ convergence

  predicate Reachable(net: string -> Fetch, local: string, e: string) { Judged(net(e), local).Fetched? }

  /** The directory `e` would be stored with. */
  function Sent(net: string -> Fetch, e: string): Tier
    requires net(e).Fetched?
  {
    Collect(net(e).services, net(e).id, true)
  }

  /** The reachable peers' directories stored into an empty registry. */
  function Goal(endpoints: seq<string>, net: string -> Fetch, local: string): map<string, Tier> {
    if endpoints == [] then map[]
    else
      var e := endpoints[|endpoints| - 1];
      var before := Goal(endpoints[..|endpoints| - 1], net, local);
      if Reachable(net, local, e) then Put(before, net(e).id, net(e).services) else before
  }

  /** The reachable endpoints report pairwise different node IDs. */
  ghost predicate DistinctReports(endpoints: seq<string>, net: string -> Fetch, local: string) {
    forall i, j :: 0 <= i < j < |endpoints| && Reachable(net, local, endpoints[i]) && Reachable(net, local, endpoints[j])
      ==> net(endpoints[i]).id != net(endpoints[j]).id
  }

  lemma {:induction false} GoalAt(es: seq<string>, net: string -> Fetch, local: string)
    requires DistinctReports(es, net, local)
    ensures forall i :: 0 <= i < |es| && Reachable(net, local, es[i]) ==>
              At(Goal(es, net, local), net(es[i]).id) == Sent(net, es[i])
    ensures forall id <- Goal(es, net, local) :: Goal(es, net, local)[id] != map[]
              && exists i :: 0 <= i < |es| && Reachable(net, local, es[i]) && net(es[i]).id == id
  {
    hide Collect;
    if es != [] {
      var k := |es| - 1;
      var init, g := es[..k], Goal(es[..k], net, local);
      GoalAt(init, net, local);
      forall id <- Goal(es, net, local)
        ensures exists i :: 0 <= i < |es| && Reachable(net, local, es[i]) && net(es[i]).id == id
      {
        if !(Reachable(net, local, es[k]) && net(es[k]).id == id) {
          var i :| 0 <= i < |init| && Reachable(net, local, init[i]) && net(init[i]).id == id;
          assert es[i] == init[i];
        }
      }
      forall i | 0 <= i < |es| && Reachable(net, local, es[i])
        ensures At(Goal(es, net, local), net(es[i]).id) == Sent(net, es[i])
      {
        if i < k { assert init[i] == es[i]; }
      }
    }
  }

  /** After pulling `done`, its endpoints have told or lost their nodes; the others are as they were. */
  ghost predicate Pulled(v: View, v': View, done: seq<string>, net: string -> Fetch, local: string) {
    && v'.table.order == v.table.order
    && v'.table.states.Keys == v.table.states.Keys
    && forall e <- v.table.states ::
         var was, now := v.table.states[e], v'.table.states[e];
         if e !in done then now == was
         else match Judged(net(e), local)
           case Failed(cause) => now == was.(online := false, lastErr := cause)
           case Fetched(id, name, _, at) => now == Peer(was.endpoint, id, name, true, Some(at), "")
  }

  lemma {:induction false} PassPulls(v: View, es: seq<string>, net: string -> Fetch, local: string)
    requires NoRepeats(es) && forall e <- es :: e in v.table.states
    ensures Pulled(v, Pass(v, es, net, local), es, net, local)
  {
    hide Collect;
    if es != [] {
      var k := |es| - 1;
      assert es == es[..k] + [es[k]];
      PassPulls(v, es[..k], net, local);
      assert es[k] !in es[..k];
    }
  }

  lemma {:induction false} PassKeeps(v: View, es: seq<string>, net: string -> Fetch, local: string)
    requires TableSound(v.table, local) && NoEmptyTier(v.remote)
    ensures TableSound(Pass(v, es, net, local).table, local) && NoEmptyTier(Pass(v, es, net, local).remote)
  {
    hide Collect, TableSound;
    if es != [] {
      var k := |es| - 1;
      PassKeeps(v, es[..k], net, local);
      PullSound(Pass(v, es[..k], net, local), es[k], net(es[k]), local);
    }
  }

  /** A later endpoint of the pass remembers, when the pass starts, the ID that `es[i]` reports. */
  ghost predicate Overrun(v: View, es: seq<string>, i: nat, net: string -> Fetch)
    requires i < |es| && net(es[i]).Fetched? && forall e <- es :: e in v.table.states
  {
    exists m :: i < m < |es| && v.table.states[es[m]].nodeID == net(es[i]).id
  }

  /** One pull's effect on a node it does not store: nothing, unless the endpoint remembered its ID. */
  lemma PullElsewhere(v: View, e: string, f: Fetch, local: string, id: string)
    requires e in v.table.states
    requires Judged(f, local).Fetched? ==> f.id != id
    ensures At(Pull(v, e, f, local).remote, id) ==
            if id != "" && v.table.states[e].nodeID == id then map[] else At(v.remote, id)
  {
    hide Collect;
  }

  lemma PullHere(v: View, e: string, f: Fetch, local: string)
    requires e in v.table.states && Judged(f, local).Fetched?
    ensures At(Pull(v, e, f, local).remote, f.id) == Collect(f.services, f.id, true)
  {
    hide Collect;
  }

  lemma {:induction false} PassStores(v: View, es: seq<string>, net: string -> Fetch, local: string, i: nat)
    requires NoRepeats(es) && forall e <- es :: e in v.table.states
    requires DistinctReports(es, net, local)
    requires i < |es| && Reachable(net, local, es[i])
    ensures At(Pass(v, es, net, local).remote, net(es[i]).id) ==
            if Overrun(v, es, i, net) then map[] else Sent(net, es[i])
  {
    hide Collect, Pull, Put, At;
    var k := |es| - 1;
    var init := es[..k];
    var id := net(es[i]).id;
    assert es == init + [es[k]];
    PassPulls(v, init, net, local);
    var mid := Pass(v, init, net, local);
    assert es[k] !in init;
    assert mid.table.states[es[k]] == v.table.states[es[k]];
    if i < k {
      assert init[i] == es[i];
      PassStores(v, init, net, local, i);
      PullElsewhere(mid, es[k], net(es[k]), local, id);
      if v.table.states[es[k]].nodeID == id {
        assert Overrun(v, es, i, net);
      } else {
        OverrunEarlier(v, es, i, net);
      }
    } else {
      PullHere(mid, es[k], net(es[k]), local);
    }
  }

  lemma OverrunEarlier(v: View, es: seq<string>, i: nat, net: string -> Fetch)
    requires i < |es| - 1 && net(es[i]).Fetched? && forall e <- es :: e in v.table.states
    requires v.table.states[es[|es| - 1]].nodeID != net(es[i]).id
    ensures Overrun(v, es, i, net) <==> Overrun(v, es[..|es| - 1], i, net)
  {
    var init := es[..|es| - 1];
    if m :| i < m < |es| && v.table.states[es[m]].nodeID == net(es[i]).id {
      assert init[m] == es[m];
    }
  }

  /** No directory a pass stores is cleared later in the same pass. */
  ghost predicate Undisturbed(v: View, net: string -> Fetch, local: string)
    requires TableSound(v.table, local)
  {
    forall i :: 0 <= i < |v.table.order| && Reachable(net, local, v.table.order[i]) && Overrun(v, v.table.order, i, net)
      ==> Sent(net, v.table.order[i]) == map[]
  }

  // --------------------------------------------- nodes no reachable endpoint reports

  /** Some reachable endpoint reports the node `id`. */
  ghost predicate Reported(es: seq<string>, net: string -> Fetch, local: string, id: string) {
    exists i :: 0 <= i < |es| && Reachable(net, local, es[i]) && net(es[i]).id == id
  }

  /** Some endpoint remembers the node `id`. */
  ghost predicate Remembered(t: Table, id: string) {
    id != "" && exists e <- t.states :: t.states[e].nodeID == id
  }

  /** No node is stored that no endpoint remembers and none is about to report: a pass has a way to each. */
  ghost predicate NothingLeftOver(v: View, net: string -> Fetch, local: string) {
    forall id <- v.remote :: Reported(v.table.order, net, local, id) || Remembered(v.table, id)
  }

  /** A pass clears the unreported nodes its endpoints remember, and leaves the others alone. */
  lemma {:induction false} PassLeaves(v: View, es: seq<string>, net: string -> Fetch, local: string, id: string)
    requires NoRepeats(es) && forall e <- es :: e in v.table.states
    requires !Reported(es, net, local, id)
    ensures At(Pass(v, es, net, local).remote, id) ==
            if id != "" && exists e <- es :: v.table.states[e].nodeID == id then map[] else At(v.remote, id)
  {
    hide Pull, At;
    if es != [] {
      var k := |es| - 1;
      var init := es[..k];
      assert es == init + [es[k]];
      assert forall i | 0 <= i < k :: es[i] == init[i];
      PassLeaves(v, init, net, local, id);
      PassPulls(v, init, net, local);
      assert es[k] !in init;
      assert !(Reachable(net, local, es[k]) && net(es[k]).id == id);
      PullElsewhere(Pass(v, init, net, local), es[k], net(es[k]), local, id);
    }
  }

  lemma PassLeavesUnreported(v: View, net: string -> Fetch, local: string, id: string)
    requires TableSound(v.table, local) && !Reported(v.table.order, net, local, id)
    ensures At(PullAll(v, net, local).remote, id) == if Remembered(v.table, id) then map[] else At(v.remote, id)
  {
    hide Pass;
    PassLeaves(v, v.table.order, net, local, id);
    assert Remembered(v.table, id) <==> id != "" && exists e <- v.table.order :: v.table.states[e].nodeID == id;
  }

  /** A pass neither makes an endpoint remember an unreported node nor lets one forget it. */
  lemma RememberedAfterPass(v: View, net: string -> Fetch, local: string, id: string)
    requires TableSound(v.table, local) && !Reported(v.table.order, net, local, id)
    ensures Remembered(PullAll(v, net, local).table, id) ==> Remembered(v.table, id)
  {
    hide Pass;
    var es := v.table.order;
    var v' := PullAll(v, net, local);
    PassPulls(v, es, net, local);
    if Remembered(v'.table, id) {
      var e :| e in v'.table.states && v'.table.states[e].nodeID == id;
      assert e in es;
      var i :| 0 <= i < |es| && es[i] == e;
      assert v.table.states[e].nodeID == id;
    }
  }

  lemma GoalKeeps(es: seq<string>, net: string -> Fetch, local: string)
    requires DistinctReports(es, net, local)
    ensures NoEmptyTier(Goal(es, net, local))
    ensures forall id :: !Reported(es, net, local, id) ==> At(Goal(es, net, local), id) == map[]
  {
    hide Goal;
    GoalAt(es, net, local);
  }

  /**
   A remote tier is the goal exactly when nothing that was to be stored has been
   `cleared`, and nothing has been left over.
   */
  lemma GoalIff(v: View, got: map<string, Tier>, net: string -> Fetch, local: string, cleared: nat -> bool)
    requires NoEmptyTier(v.remote) && NoEmptyTier(got) && DistinctReports(v.table.order, net, local)
    requires forall i: nat :: i < |v.table.order| && Reachable(net, local, v.table.order[i]) ==>
               At(got, net(v.table.order[i]).id) == if cleared(i) then map[] else Sent(net, v.table.order[i])
    requires forall id :: !Reported(v.table.order, net, local, id) ==>
               At(got, id) == if Remembered(v.table, id) then map[] else At(v.remote, id)
    ensures got == Goal(v.table.order, net, local) <==>
              && NothingLeftOver(v, net, local)
              && forall i: nat :: i < |v.table.order| && Reachable(net, local, v.table.order[i]) && cleared(i)
                   ==> Sent(net, v.table.order[i]) == map[]
  {
    hide Goal, Sent, Remembered;
    var es := v.table.order;
    var goal := Goal(es, net, local);
    GoalAt(es, net, local);
    GoalKeeps(es, net, local);
    if NothingLeftOver(v, net, local)
       && forall i: nat :: i < |es| && Reachable(net, local, es[i]) && cleared(i) ==> Sent(net, es[i]) == map[] {
      forall id ensures At(got, id) == At(goal, id) {
        if Reported(es, net, local, id) {
          var i: nat :| i < |es| && Reachable(net, local, es[i]) && net(es[i]).id == id;
          assert At(got, net(es[i]).id) == Sent(net, es[i]);
        }
      }
      SameTiers(got, goal);
    }
    assert forall id <- v.remote :: At(v.remote, id) != map[];
  }

  /**
   One pass leaves exactly the reachable peers' directories when and only when
   nothing it stores is cleared again before it ends, and nothing was left over
   that no pass can clear.
   */
  lemma OnePassConvergesIff(v: View, net: string -> Fetch, local: string)
    requires TableSound(v.table, local) && NoEmptyTier(v.remote)
    requires DistinctReports(v.table.order, net, local)
    ensures PullAll(v, net, local).remote == Goal(v.table.order, net, local) <==>
              Undisturbed(v, net, local) && NothingLeftOver(v, net, local)
  {
    hide Collect, Pass, Goal, Sent;
    var es := v.table.order;
    var got := PullAll(v, net, local).remote;
    PassKeeps(v, es, net, local);
    var cleared := (i: nat) => i < |es| && net(es[i]).Fetched? && Overrun(v, es, i, net);
    forall i: nat | i < |es| && Reachable(net, local, es[i])
      ensures At(got, net(es[i]).id) == if cleared(i) then map[] else Sent(net, es[i])
    {
      PassStores(v, es, net, local, i);
    }
    forall id | !Reported(es, net, local, id)
      ensures At(got, id) == if Remembered(v.table, id) then map[] else At(v.remote, id)
    {
      PassLeavesUnreported(v, net, local, id);
    }
    GoalIff(v, got, net, local, cleared);
  }

  /** A failing endpoint later in the order remembers the ID that `es[i]` reports. */
  ghost predicate Shadowed(v: View, net: string -> Fetch, local: string, i: nat)
    requires TableSound(v.table, local) && i < |v.table.order| && net(v.table.order[i]).Fetched?
  {
    var es := v.table.order;
    exists m :: i < m < |es| && !Reachable(net, local, es[m]) && v.table.states[es[m]].nodeID == net(es[i]).id
  }

  /** Once every reachable endpoint has told its ID, only a failing one can still remember another's. */
  lemma SettledOverrun(v: View, net: string -> Fetch, local: string, i: nat)
    requires TableSound(v.table, local) && DistinctReports(v.table.order, net, local)
    requires i < |v.table.order| && Reachable(net, local, v.table.order[i])
    ensures var v' := PullAll(v, net, local);
            && v'.table.order == v.table.order && (forall e <- v.table.order :: e in v'.table.states)
            && (Overrun(v', v.table.order, i, net) <==> Shadowed(v, net, local, i))
  {
    hide Collect, Pass;
    var es := v.table.order;
    var v' := PullAll(v, net, local);
    PassPulls(v, es, net, local);
    forall m | i < m < |es|
      ensures v'.table.states[es[m]].nodeID == net(es[i]).id <==>
              !Reachable(net, local, es[m]) && v.table.states[es[m]].nodeID == net(es[i]).id
    {
      assert es[m] in es;
    }
  }

  /** The same answers at other times. */
  ghost predicate SameButClock(a: string -> Fetch, b: string -> Fetch) {
    forall e :: match (a(e), b(e))
      case (Failed(x), Failed(y)) => x == y
      case (Fetched(id, name, services, _), Fetched(id', name', services', _)) =>
        id == id' && name == name' && services == services'
      case _ => false
  }

  function Timeless(p: Peer): Peer { p.(lastSeen := None) }

  /** What a pass leaves behind depends on what the endpoints remember, not on what the remote tier held. */
  lemma SettledPassStores(v: View, net: string -> Fetch, later: string -> Fetch, local: string, i: nat)
    requires TableSound(v.table, local) && DistinctReports(v.table.order, net, local)
    requires SameButClock(net, later)
    requires i < |v.table.order| && Reachable(net, local, v.table.order[i])
    ensures At(PullAll(PullAll(v, net, local), later, local).remote, net(v.table.order[i]).id) ==
            if Shadowed(v, net, local, i) then map[] else Sent(net, v.table.order[i])
  {
    hide Collect, Pass;
    var es := v.table.order;
    PassPulls(v, es, net, local);
    SettledOverrun(v, net, local, i);
    PassStores(PullAll(v, net, local), es, later, local, i);
  }

  /** A settled endpoint remembers in a pass what it remembered before it. */
  lemma ShadowedAgain(v: View, net: string -> Fetch, local: string, i: nat)
    requires TableSound(v.table, local) && TableSound(PullAll(v, net, local).table, local)
    requires i < |v.table.order| && net(v.table.order[i]).Fetched?
    ensures PullAll(v, net, local).table.order == v.table.order
    ensures Shadowed(PullAll(v, net, local), net, local, i) <==> Shadowed(v, net, local, i)
  {
    hide Collect, Pass;
    var es := v.table.order;
    PassPulls(v, es, net, local);
    forall m | i < m < |es| && !Reachable(net, local, es[m])
      ensures PullAll(v, net, local).table.states[es[m]].nodeID == v.table.states[es[m]].nodeID
    {
      assert es[m] in es;
    }
  }

  lemma SameClockSameReports(es: seq<string>, net: string -> Fetch, later: string -> Fetch, local: string, id: string)
    requires SameButClock(net, later)
    ensures Reported(es, net, local, id) <==> Reported(es, later, local, id)
  {
    forall i | 0 <= i < |es|
      ensures Reachable(net, local, es[i]) && net(es[i]).id == id <==> Reachable(later, local, es[i]) && later(es[i]).id == id
    {}
  }

  lemma TwoPassesLeaveUnreported(v: View, net: string -> Fetch, later: string -> Fetch, local: string, id: string)
    requires TableSound(v.table, local) && NoEmptyTier(v.remote) && SameButClock(net, later)
    requires !Reported(v.table.order, net, local, id)
    ensures At(PullAll(PullAll(v, net, local), later, local).remote, id) ==
            if Remembered(v.table, id) then map[] else At(v.remote, id)
  {
    hide Collect, Pass, Reported, Remembered;
    var es := v.table.order;
    var v1 := PullAll(v, net, local);
    PassKeeps(v, es, net, local);
    PassPulls(v, es, net, local);
    SameClockSameReports(es, net, later, local, id);
    PassLeavesUnreported(v, net, local, id);
    PassLeavesUnreported(v1, later, local, id);
    RememberedAfterPass(v, net, local, id);
  }

  /**
   Two passes converge exactly when no failing endpoint remembers the ID, with
   something to show for it, of a reachable endpoint before it in the order,
   and nothing was left over that no pass can clear.
   */
  lemma TwoPassesConvergeIff(v: View, net: string -> Fetch, later: string -> Fetch, local: string)
    requires TableSound(v.table, local) && NoEmptyTier(v.remote)
    requires DistinctReports(v.table.order, net, local)
    requires SameButClock(net, later)
    ensures PullAll(PullAll(v, net, local), later, local).remote == Goal(v.table.order, net, local) <==>
              && NothingLeftOver(v, net, local)
              && forall i :: 0 <= i < |v.table.order| && Reachable(net, local, v.table.order[i]) && Shadowed(v, net, local, i)
                   ==> Sent(net, v.table.order[i]) == map[]
  {
    hide Collect, Pass, Goal, Sent, NothingLeftOver;
    var es := v.table.order;
    var got := PullAll(PullAll(v, net, local), later, local).remote;
    PassKeeps(v, es, net, local);
    PassPulls(v, es, net, local);
    PassKeeps(PullAll(v, net, local), es, later, local);
    var cleared := (i: nat) => i < |es| && net(es[i]).Fetched? && Shadowed(v, net, local, i);
    hide PullAll;
    forall i: nat | i < |es| && Reachable(net, local, es[i])
      ensures At(got, net(es[i]).id) == if cleared(i) then map[] else Sent(net, es[i])
    {
      SettledPassStores(v, net, later, local, i);
    }
    forall id | !Reported(es, net, local, id)
      ensures At(got, id) == if Remembered(v.table, id) then map[] else At(v.remote, id)
    {
      TwoPassesLeaveUnreported(v, net, later, local, id);
    }
    GoalIff(v, got, net, local, cleared);
  }

  /** The clock does not matter to which endpoints shadow which. */
  lemma SameClockSameShadow(v: View, net: string -> Fetch, later: string -> Fetch, local: string)
    requires TableSound(v.table, local) && SameButClock(net, later)
    ensures DistinctReports(v.table.order, net, local) ==> DistinctReports(v.table.order, later, local)
    ensures forall i :: 0 <= i < |v.table.order| && Reachable(net, local, v.table.order[i]) ==>
              Reachable(later, local, v.table.order[i]) && later(v.table.order[i]).id == net(v.table.order[i]).id
              && Sent(later, v.table.order[i]) == Sent(net, v.table.order[i])
              && (Shadowed(v, later, local, i) <==> Shadowed(v, net, local, i))
  {
    hide Collect;
    var es := v.table.order;
    forall i | 0 <= i < |es| ensures Reachable(later, local, es[i]) <==> Reachable(net, local, es[i]) {}
  }

  lemma ThirdPassSameAt(v: View, net: string -> Fetch, later: string -> Fetch, last: string -> Fetch, local: string, i: nat)
    requires TableSound(v.table, local) && TableSound(PullAll(v, net, local).table, local)
    requires DistinctReports(v.table.order, net, local)
    requires SameButClock(net, later) && SameButClock(later, last)
    requires i < |v.table.order| && Reachable(net, local, v.table.order[i])
    ensures var v2 := PullAll(PullAll(v, net, local), later, local);
            var id := net(v.table.order[i]).id;
            At(PullAll(v2, last, local).remote, id) == At(v2.remote, id)
  {
    assert net(v.table.order[i]).Fetched?;
    hide Collect, PullAll, Shadowed, Sent, At, Reachable, SameButClock, DistinctReports;
    var v1 := PullAll(v, net, local);
    ShadowedAgain(v, net, local, i);
    SameClockSameShadow(v1, net, later, local);
    SettledPassStores(v, net, later, local, i);
    SettledPassStores(v1, later, last, local, i);
  }

  lemma ThirdPassSameElsewhere(v: View, net: string -> Fetch, later: string -> Fetch, last: string -> Fetch, local: string,
                               id: string)
    requires TableSound(v.table, local) && NoEmptyTier(v.remote)
    requires SameButClock(net, later) && SameButClock(later, last)
    requires !Reported(v.table.order, net, local, id)
    ensures var v2 := PullAll(PullAll(v, net, local), later, local);
            At(PullAll(v2, last, local).remote, id) == At(v2.remote, id)
  {
    hide Collect, Pass, Reported, Remembered;
    var es := v.table.order;
    var v1 := PullAll(v, net, local);
    PassKeeps(v, es, net, local);
    PassPulls(v, es, net, local);
    SameClockSameReports(es, net, later, local, id);
    TwoPassesLeaveUnreported(v, net, later, local, id);
    TwoPassesLeaveUnreported(v1, later, last, local, id);
    PassLeavesUnreported(v, net, local, id);
    RememberedAfterPass(v, net, local, id);
  }

  lemma ThirdPassSameRemote(v: View, net: string -> Fetch, later: string -> Fetch, last: string -> Fetch, local: string)
    requires TableSound(v.table, local) && NoEmptyTier(v.remote)
    requires DistinctReports(v.table.order, net, local)
    requires SameButClock(net, later) && SameButClock(later, last)
    ensures var v2 := PullAll(PullAll(v, net, local), later, local);
            PullAll(v2, last, local).remote == v2.remote
  {
    hide Collect, Pass, Shadowed, Sent, TableSound;
    var es := v.table.order;
    var v1 := PullAll(v, net, local);
    PassKeeps(v, es, net, local);
    PassKept(v, net, local);
    PassKeeps(v1, es, later, local);
    PassKept(v1, later, local);
    var v2 := PullAll(v1, later, local);
    PassKeeps(v2, es, last, local);
    var v3 := PullAll(v2, last, local);
    hide PullAll, Judged;
    forall id ensures At(v3.remote, id) == At(v2.remote, id) {
      if Reported(es, net, local, id) {
        var i: nat :| i < |es| && Reachable(net, local, es[i]) && net(es[i]).id == id;
        ThirdPassSameAt(v, net, later, last, local, i);
      } else {
        ThirdPassSameElsewhere(v, net, later, last, local, id);
      }
    }
    SameTiers(v3.remote, v2.remote);
  }

  lemma PassKept(v: View, net: string -> Fetch, local: string)
    requires TableSound(v.table, local)
    ensures PullAll(v, net, local).table.order == v.table.order
  {
    PassPulls(v, v.table.order, net, local);
  }

  lemma PulledAgain(v1: View, v2: View, v3: View, net: string -> Fetch, later: string -> Fetch, local: string)
    requires forall e :: e in v1.table.order <==> e in v1.table.states
    requires SameButClock(net, later)
    requires Pulled(v1, v2, v1.table.order, net, local) && Pulled(v2, v3, v1.table.order, later, local)
    ensures forall e <- v2.table.states :: Timeless(v3.table.states[e]) == Timeless(v2.table.states[e])
  {
    forall e <- v2.table.states ensures Timeless(v3.table.states[e]) == Timeless(v2.table.states[e]) {
      assert e in v1.table.states;
    }
  }

  /** After two passes a further one changes nothing but the clock readings, whatever the failing endpoints remember. */
  lemma ThirdPassIsIdle(v: View, net: string -> Fetch, later: string -> Fetch, last: string -> Fetch, local: string)
    requires TableSound(v.table, local) && NoEmptyTier(v.remote)
    requires DistinctReports(v.table.order, net, local)
    requires SameButClock(net, later) && SameButClock(later, last)
    ensures var v2 := PullAll(PullAll(v, net, local), later, local);
            var v3 := PullAll(v2, last, local);
            && v3.remote == v2.remote
            && v3.table.order == v2.table.order && v3.table.states.Keys == v2.table.states.Keys
            && forall e <- v2.table.states :: Timeless(v3.table.states[e]) == Timeless(v2.table.states[e])
  {
    hide Collect, Pass, Judged, DistinctReports, Timeless;
    var es := v.table.order;
    var v1 := PullAll(v, net, local);
    var v2 := PullAll(v1, later, local);
    PassPulls(v, es, net, local);
    PassPulls(v1, es, later, local);
    PassPulls(v2, es, last, local);
    PulledAgain(v1, v2, PullAll(v2, last, local), later, last, local);
    ThirdPassSameRemote(v, net, later, last, local);
  }

  // -------------------------------------------------------- whole-run theorem

  lemma CoveredIsKnown(v: View, net: string -> Fetch, local: string)
    requires TableSound(v.table, local) && Covered(v)
    ensures NoEmptyTier(v.remote) && NothingLeftOver(v, net, local)
  {
    forall id <- v.remote ensures Remembered(v.table, id) { assert Online(v.table, id); }
  }

  /**
   From any state of an uninterrupted run, with a fixed endpoint list and
   answers from nodes with different IDs that change in nothing but the clock:
   when no failing endpoint remembers an ID another one reports, two passes
   leave exactly the reachable peers' directories; one is enough when no
   endpoint at all remembers another's reported ID.
   */
  lemma PassesConverge(ops: seq<Op>, net: string -> Fetch, later: string -> Fetch, local: string)
    requires DistinctReports(Run(ops, local).table.order, net, local)
    requires SameButClock(net, later)
    ensures var v := Run(ops, local);
            var es := v.table.order;
            && (forall e :: e in es <==> e in v.table.states)
            && ((forall a <- es, b <- es :: Reachable(net, local, a) && !Reachable(net, local, b)
                   ==> v.table.states[b].nodeID != net(a).id)
                ==> PullAll(PullAll(v, net, local), later, local).remote == Goal(es, net, local))
            && ((forall a <- es, b <- es :: a != b && Reachable(net, local, a)
                   ==> v.table.states[b].nodeID != net(a).id)
                ==> PullAll(v, net, local).remote == Goal(es, net, local))
  {
    hide Collect, Pass, Goal, Run;
    var v := Run(ops, local);
    RunsAreCovered(ops, local);
    CoveredIsKnown(v, net, local);
    hide NothingLeftOver;
    TwoPassesConvergeIff(v, net, later, local);
    OnePassConvergesIff(v, net, local);
  }

  // ------------------------------------------------------ the two conditions bite

  function Passes(v: View, nets: seq<string -> Fetch>, local: string): View {
    if nets == [] then v else PullAll(Passes(v, nets[..|nets| - 1], local), nets[|nets| - 1], local)
  }

  lemma TwoEndpoints(local: string, x: string, y: string)
    requires x != y
    ensures Run([Retarget([x, y])], local) == View(Table(map[x := NewPeer(x), y := NewPeer(y)], [x, y]), map[])
  {
    var ops := [Retarget([x, y])];
    assert ops[..0] == [] && [x, y][..1] == [x] && [x][..0] == [];
    assert Distinct([x][..0]) == [];
    assert Distinct([x, y][..1]) == [x];
    assert Distinct([x, y]) == [x, y];
    assert Retargeted(map[], [x, y]) == map[x := NewPeer(x), y := NewPeer(y)];
    assert NothingKnown.remote - DroppedIDs(map[], [x, y]) == map[];
  }

  lemma PassOverTwo(v: View, x: string, y: string, net: string -> Fetch, local: string)
    requires v.table.order == [x, y]
    ensures PullAll(v, net, local) == Pull(Pull(v, x, net(x), local), y, net(y), local)
  {
    hide Pull;
    assert [x, y][..1] == [x] && [x][..0] == [];
    assert Pass(v, [x][..0], net, local) == v;
    assert Pass(v, [x, y][..1], net, local) == Pull(v, x, net(x), local);
  }

  /** `y` remembers the node `id`, which `x` is or may turn out to be, and nothing else is known. */
  ghost predicate Stuck(v: View, x: string, y: string, id: string) {
    && v.table.order == [x, y] && v.table.states.Keys == {x, y}
    && v.table.states[y].nodeID == id && v.table.states[x].nodeID in {"", id}
    && v.remote.Keys <= {id}
  }

  lemma StuckPass(v: View, x: string, y: string, id: string, net: string -> Fetch, local: string)
    requires x != y && id != "" && id != local && Stuck(v, x, y, id)
    requires net(x).Fetched? && net(x).id == id && net(y).Failed?
    ensures Stuck(PullAll(v, net, local), x, y, id) && PullAll(v, net, local).remote == map[]
  {
    hide Collect, PullAll;
    PassOverTwo(v, x, y, net, local);
  }

  lemma StuckStart(x: string, y: string, id: string, list: seq<Service>, local: string)
    requires x != y && id != "" && id != local
    ensures Stuck(Run([Retarget([x, y]), PullOne(y, Fetched(id, "", list, 0))], local), x, y, id)
  {
    hide Collect;
    var ops := [Retarget([x, y]), PullOne(y, Fetched(id, "", list, 0))];
    assert ops[..1] == [Retarget([x, y])];
    TwoEndpoints(local, x, y);
  }

  /**
   The failing peer `y` remembers the ID the reachable peer `x` before it
   reports: however many passes are made, each one ends with nothing stored,
   though `x`'s list is what should be there.
   */
  lemma {:induction false} ShadowedPeerIsLost(local: string, x: string, y: string, id: string, list: seq<Service>,
                                              nets: seq<string -> Fetch>)
    requires x != y && id != "" && id != local
    requires forall i :: 0 <= i < |nets| ==>
               nets[i](x).Fetched? && nets[i](x).id == id && nets[i](x).services == list && nets[i](y).Failed?
    ensures var v := Run([Retarget([x, y]), PullOne(y, Fetched(id, "", list, 0))], local);
            && Stuck(Passes(v, nets, local), x, y, id)
            && (nets != [] ==> Passes(v, nets, local).remote == map[])
            && (forall i :: 0 <= i < |nets| ==>
                 DistinctReports([x, y], nets[i], local)
                 && At(Goal([x, y], nets[i], local), id) == Collect(list, id, true))
  {
    hide Collect, Run, Goal, PullAll, Stuck;
    if nets == [] {
      StuckStart(x, y, id, list, local);
    } else {
      var k := |nets| - 1;
      var v := Run([Retarget([x, y]), PullOne(y, Fetched(id, "", list, 0))], local);
      ShadowedPeerIsLost(local, x, y, id, list, nets[..k]);
      StuckPass(Passes(v, nets[..k], local), x, y, id, nets[k], local);
      GoalAt([x, y], nets[k], local);
      assert [x, y][0] == x;
    }
  }

  /** `x` was node `b` and `y` node `a`. */
  function Swapped(local: string, x: string, y: string, a: string, b: string): View {
    var first := Pull(Run([Retarget([x, y])], local), x, Fetched(b, "", [], 0), local);
    Pull(first, y, Fetched(a, "", [], 0), local)
  }

  lemma SwappedIsARun(local: string, x: string, y: string, a: string, b: string)
    requires x != y && a != b && a != "" && b != "" && a != local && b != local
    ensures exists ops :: Run(ops, local) == Swapped(local, x, y, a, b)
    ensures var v := Swapped(local, x, y, a, b);
            && v.table.order == [x, y] && v.table.states.Keys == {x, y}
            && v.table.states[x].nodeID == b && v.table.states[y].nodeID == a
  {
    hide Collect;
    TwoEndpoints(local, x, y);
    var ops := [Retarget([x, y]), PullOne(x, Fetched(b, "", [], 0)), PullOne(y, Fetched(a, "", [], 0))];
    assert ops[..2][..1] == [Retarget([x, y])];
    assert Run(ops[..2], local) == Pull(Run([Retarget([x, y])], local), x, Fetched(b, "", [], 0), local);
    assert Run(ops, local) == Swapped(local, x, y, a, b);
  }

  lemma CrossedPairTakesTwoPasses(v: View, x: string, y: string, net: string -> Fetch, local: string)
    requires TableSound(v.table, local) && Covered(v) && v.table.order == [x, y]
    requires Reachable(net, local, x) && Reachable(net, local, y) && net(x).id != net(y).id
    requires v.table.states[y].nodeID == net(x).id && Sent(net, x) != map[]
    ensures DistinctReports(v.table.order, net, local)
    ensures PullAll(v, net, local).remote != Goal(v.table.order, net, local)
    ensures PullAll(PullAll(v, net, local), net, local).remote == Goal(v.table.order, net, local)
  {
    assert net(x).Fetched? && net(y).Fetched?;
    CoveredIsKnown(v, net, local);
    hide Collect, PullAll, Goal, Covered, Sent, Judged, NothingLeftOver, NoEmptyTier;
    assert v.table.order[0] == x && v.table.order[1] == y;
    assert v.table.states[v.table.order[1]].nodeID == net(v.table.order[0]).id;
    assert Overrun(v, v.table.order, 0, net);
    OnePassConvergesIff(v, net, local);
    TwoPassesConvergeIff(v, net, net, local);
  }

  /** When the two swap their node IDs, with something to show under `a`, one pass loses it and a second brings it back. */
  lemma SwappedIDsTakeTwoPasses(local: string, x: string, y: string, a: string, b: string, net: string -> Fetch)
    requires x != y && a != b && a != "" && b != "" && a != local && b != local
    requires net(x).Fetched? && net(x).id == a && net(y).Fetched? && net(y).id == b
    requires Sent(net, x) != map[]
    ensures exists ops :: Run(ops, local) == Swapped(local, x, y, a, b)
    ensures var v := Swapped(local, x, y, a, b);
            && v.table.order == [x, y] && DistinctReports([x, y], net, local)
            && PullAll(v, net, local).remote != Goal([x, y], net, local)
            && PullAll(PullAll(v, net, local), net, local).remote == Goal([x, y], net, local)
  {
    hide Swapped, Run, Collect, PullAll, Goal, TableSound, Covered, Sent, DistinctReports;
    SwappedIsARun(local, x, y, a, b);
    var ops :| Run(ops, local) == Swapped(local, x, y, a, b);
    RunsAreCovered(ops, local);
    CrossedPairTakesTwoPasses(Swapped(local, x, y, a, b), x, y, net, local);
  }
}
