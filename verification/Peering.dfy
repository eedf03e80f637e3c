/**
 The peer table and the pulls that keep the remote tier up to date
 (internal/daemon/peers.go), as functions on values.
 */
module Peering {
  import opened Results
  import opened Protocol
  import opened Directories

  /** What is known of one configured endpoint. A node ID of "" means none was ever learned. */
  datatype Peer = Peer(
    endpoint: string,
    nodeID: string,
    nodeName: string,
    online: bool,
    lastSeen: Option<int>,
    lastErr: string)

  function NewPeer(endpoint: string): Peer { Peer(endpoint, "", "", false, None, "") }

  datatype Table = Table(states: map<string, Peer>, order: seq<string>)

  const NoPeers := Table(map[], [])

  /** One attempt to read a peer: a failure, or its identity and its directory at a clock reading. */
  datatype Fetch = Failed(cause: string) | Fetched(id: string, name: string, services: seq<Service>, at: int)

  const NoID := "node reported no id"
  const OwnID := "node id is this node's own id"

  /** The two checks `pull` makes of a node's identity. */
  function Judged(f: Fetch, local: string): Fetch {
    match f
    case Failed(_) => f
    case Fetched(id, _, _, _) => if id == "" then Failed(NoID) else if id == local then Failed(OwnID) else f
  }

  /** The table and the remote tier it accounts for. */
  datatype View = View(table: Table, remote: map<string, Tier>)

  function Put(remote: map<string, Tier>, id: string, services: seq<Service>): map<string, Tier> {
    StoreRemote(remote, id, Collect(services, id, true))
  }

  lemma PutNothing(remote: map<string, Tier>, id: string)
    ensures Put(remote, id, []) == remote - {id}
  {}

  function MarkOffline(v: View, e: string, cause: string): View {
    if e !in v.table.states then v
    else
      var p := v.table.states[e];
      View(v.table.(states := v.table.states[e := p.(online := false, lastErr := cause)]),
           if p.nodeID != "" then v.remote - {p.nodeID} else v.remote)
  }

  /** What one pull of `e` does, given what reading the peer yielded. */
  function Pull(v: View, e: string, f: Fetch, local: string): View {
    match Judged(f, local)
    case Failed(cause) => MarkOffline(v, e, cause)
    case Fetched(id, name, services, at) =>
      if e !in v.table.states then v
      else
        var p := v.table.states[e];
        var kept := if p.nodeID != "" && p.nodeID != id then v.remote - {p.nodeID} else v.remote;
        View(v.table.(states := v.table.states[e := Peer(p.endpoint, id, name, true, Some(at), "")]),
             Put(kept, id, services))
  }

  /** The endpoints without repetitions, each where it first occurs. */
  function Distinct(endpoints: seq<string>): seq<string> {
    if endpoints == [] then []
    else
      var k := |endpoints| - 1;
      var before := Distinct(endpoints[..k]);
      if endpoints[k] in endpoints[..k] then before else before + [endpoints[k]]
  }

  function Retargeted(states: map<string, Peer>, endpoints: seq<string>): map<string, Peer> {
    map e <- endpoints :: if e in states then states[e] else NewPeer(e)
  }

  /** The IDs SetEndpoints clears: those of the endpoints it drops. */
  function DroppedIDs(states: map<string, Peer>, endpoints: seq<string>): set<string> {
    set e <- states | e !in endpoints && states[e].nodeID != "" :: states[e].nodeID
  }

  function SetEndpoints(v: View, endpoints: seq<string>): View {
    View(Table(Retargeted(v.table.states, endpoints), Distinct(endpoints)),
         v.remote - DroppedIDs(v.table.states, endpoints))
  }

  /** Pull each endpoint in turn; `net` says what reading each of them yields. */
  function Pass(v: View, endpoints: seq<string>, net: string -> Fetch, local: string): View {
    if endpoints == [] then v
    else
      var k := |endpoints| - 1;
      Pull(Pass(v, endpoints[..k], net, local), endpoints[k], net(endpoints[k]), local)
  }

  function PullAll(v: View, net: string -> Fetch, local: string): View {
    Pass(v, v.table.order, net, local)
  }

  // ------------------------------------------------------------- reporting

  /** One row of Peers.Nodes. */
  datatype NodeReport = NodeReport(peer: Peer, services: nat)

  function Report(v: View, e: string): NodeReport
    requires e in v.table.states
  {
    var p := v.table.states[e];
    NodeReport(p, if p.nodeID != "" then |At(v.remote, p.nodeID)| else 0)
  }

  // ------------------------------------------------------------ invariants

  lemma {:induction false} DistinctElements(endpoints: seq<string>)
    ensures forall e :: e in Distinct(endpoints) <==> e in endpoints
    ensures forall i, j :: 0 <= i < j < |Distinct(endpoints)| ==> Distinct(endpoints)[i] != Distinct(endpoints)[j]
  {
    if endpoints != [] {
      var k := |endpoints| - 1;
      DistinctElements(endpoints[..k]);
      assert endpoints == endpoints[..k] + [endpoints[k]];
    }
  }

  /** Of two endpoints listed, the first one stands somewhere before every occurrence of the other. */
  lemma {:induction false} DistinctKeepsOrder(endpoints: seq<string>)
    ensures forall i, j :: 0 <= i < j < |Distinct(endpoints)| ==>
              StandsBefore(endpoints, Distinct(endpoints)[i], Distinct(endpoints)[j])
  {
    if endpoints != [] {
      var k := |endpoints| - 1;
      var init := endpoints[..k];
      var d, before := Distinct(endpoints), Distinct(init);
      DistinctKeepsOrder(init);
      DistinctElements(init);
      forall i, j | 0 <= i < j < |d| ensures StandsBefore(endpoints, d[i], d[j]) {
        assert d[i] == before[i] && before[i] in before;
        if j < |before| {
          assert d[j] == before[j] && StandsBefore(init, before[i], before[j]);
          assert init <= endpoints;
          StandsLonger(init, endpoints, d[i], d[j]);
        } else {
          StandsBeforeNew(init, endpoints, d[i], d[j]);
        }
      }
    }
  }

  lemma StandsLonger(init: seq<string>, endpoints: seq<string>, a: string, b: string)
    requires init <= endpoints && StandsBefore(init, a, b)
    ensures StandsBefore(endpoints, a, b)
  {
    var p :| 0 <= p < |init| && init[p] == a && b !in init[..p];
    assert endpoints[..p] == init[..p];
  }

  lemma StandsBeforeNew(init: seq<string>, endpoints: seq<string>, a: string, b: string)
    requires init <= endpoints && a in init && b !in init
    ensures StandsBefore(endpoints, a, b)
  {
    var p :| 0 <= p < |init| && init[p] == a;
    assert endpoints[..p] == init[..p];
    assert forall x <- init[..p] :: x in init;
  }

  ghost predicate StandsBefore(endpoints: seq<string>, a: string, b: string) {
    exists p :: 0 <= p < |endpoints| && endpoints[p] == a && b !in endpoints[..p]
  }

  ghost predicate NoRepeats(s: seq<string>) {
    forall i, j :: 0 <= i < j < |s| ==> s[i] != s[j]
  }

  /** The order lists the configured endpoints once each; an online endpoint has told its node's ID. */
  ghost predicate TableSound(t: Table, local: string) {
    && NoRepeats(t.order)
    && (forall e :: e in t.order <==> e in t.states)
    && (forall e <- t.states :: t.states[e].endpoint == e)
    && (forall e <- t.states :: t.states[e].nodeID != local || local == "")
    && (forall e <- t.states :: t.states[e].online ==> t.states[e].nodeID != "")
  }

  /** Some online endpoint answers for the node `id`. */
  ghost predicate Online(t: Table, id: string) {
    exists e <- t.states :: t.states[e].online && t.states[e].nodeID == id
  }

  /** Nothing stale: every node in the remote tier is one an online endpoint answers for. */
  ghost predicate Covered(v: View) {
    && (forall id <- v.remote :: Online(v.table, id))
    && NoEmptyTier(v.remote)
  }

  lemma SetEndpointsSound(v: View, endpoints: seq<string>, local: string)
    requires TableSound(v.table, local)
    ensures TableSound(SetEndpoints(v, endpoints).table, local)
  {
    DistinctElements(endpoints);
  }

  lemma PullSound(v: View, e: string, f: Fetch, local: string)
    requires TableSound(v.table, local)
    ensures TableSound(Pull(v, e, f, local).table, local)
  {}

  lemma SetEndpointsCovered(v: View, endpoints: seq<string>, local: string)
    requires TableSound(v.table, local) && Covered(v)
    ensures Covered(SetEndpoints(v, endpoints))
  {
    var v' := SetEndpoints(v, endpoints);
    forall id <- v'.remote ensures Online(v'.table, id) {
      var e :| e in v.table.states && v.table.states[e].online && v.table.states[e].nodeID == id;
      assert e !in endpoints ==> id in DroppedIDs(v.table.states, endpoints);
      assert v'.table.states[e] == v.table.states[e];
    }
  }

  /** A pull adds no node to the remote tier but the one it stores, and no empty directory. */
  lemma PullKeepsTiers(v: View, e: string, f: Fetch, local: string)
    requires NoEmptyTier(v.remote)
    ensures NoEmptyTier(Pull(v, e, f, local).remote)
    ensures forall id <- Pull(v, e, f, local).remote ::
              id in v.remote || (Judged(f, local).Fetched? && f.id == id && e in v.table.states)
    ensures e in v.table.states && v.table.states[e].nodeID in Pull(v, e, f, local).remote ==>
              v.table.states[e].nodeID == "" || (Judged(f, local).Fetched? && f.id == v.table.states[e].nodeID)
  {
    hide Collect;
  }

  lemma PullCovered(v: View, e: string, f: Fetch, local: string)
    requires TableSound(v.table, local) && Covered(v)
    ensures Covered(Pull(v, e, f, local))
  {
    hide Collect, Put;
    var v' := Pull(v, e, f, local);
    PullKeepsTiers(v, e, f, local);
    hide NoEmptyTier;
    var now := v'.table.states;
    forall id <- v'.remote ensures Online(v'.table, id) {
      if !(e in now && now[e].online && now[e].nodeID == id) {
        var o :| o in v.table.states && v.table.states[o].online && v.table.states[o].nodeID == id;
        assert o != e || v' == v;
        assert now[o] == v.table.states[o];
      }
    }
  }
}
