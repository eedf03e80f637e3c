/**
 The Peers object (internal/daemon/peers.go): a table of shared, mutable peer
 states and the registry it writes to, each method proved against module
 Peering. These are the uninterrupted methods; module Interleaving takes them
 apart at their unlocks.
 */
module PeerTable {
  import opened Results
  import opened Protocol
  import opened Directories
  import opened Registries
  import opened Configuration
  import opened Peering

  /** What one endpoint last said, updated in place by every pull of it. */
  class PeerState {
    const endpoint: string
    var nodeID: string
    var nodeName: string
    var online: bool
    var lastSeen: Option<int>
    var lastErr: string

    constructor (endpoint: string)
      ensures this.endpoint == endpoint && Value() == NewPeer(endpoint)
    {
      this.endpoint := endpoint;
      nodeID, nodeName, online, lastSeen, lastErr := "", "", false, None, "";
    }

    function Value(): Peer
      reads this
    {
      Peer(endpoint, nodeID, nodeName, online, lastSeen, lastErr)
    }

    /** The fields `pull` sets on success. */
    method SetAnswer(id: string, name: string, at: int)
      modifies this
      ensures Value() == Peer(endpoint, id, name, true, Some(at), "")
    {
      nodeID, nodeName := id, name;
      online, lastSeen, lastErr := true, Some(at), "";
    }

    /** The fields `markOffline` sets. */
    method SetFailure(cause: string)
      modifies this
      ensures Value() == old(Value()).(online := false, lastErr := cause)
    {
      online, lastErr := false, cause;
    }
  }

  class Peers {
    const store: Registry
    const localNodeID: string
    const interval: int
    var states: map<string, PeerState>
    var order: seq<string>

    /** Each endpoint has a state of its own, and the order lists the endpoints once each. */
    ghost predicate Valid()
      reads this, states.Values, store
    {
      && store.Valid()
      && (forall e <- states :: states[e].endpoint == e)
      && TableSound(Table(), localNodeID)
    }

    ghost function Table(): Table
      reads this, states.Values
    {
      Peering.Table(map e <- states :: states[e].Value(), order)
    }

    /** The table and the remote tier it writes. */
    ghost function View(): View
      reads this, states.Values, store
    {
      Peering.View(Table(), store.State().remote)
    }

    constructor (store: Registry, localNodeID: string, endpoints: seq<string>, interval: int)
      requires store.Valid()
      modifies store
      ensures Valid() && this.store == store && this.localNodeID == localNodeID
      ensures this.interval == Effective(interval)
      ensures View() == Peering.SetEndpoints(Peering.View(NoPeers, old(store.State().remote)), endpoints)
      ensures store.State() == old(store.State()).(remote := store.State().remote)
      ensures fresh(states.Values)
    {
      this.store, this.localNodeID, states, order := store, localNodeID, map[], [];
      this.interval := if interval <= 0 then DefaultPullSeconds * Second else interval;
      new;
      SetEndpoints(endpoints);
    }

    /** The two loops of a reload: `Keep` builds the new table and `ForgetDropped` withdraws what the old one alone holds. */
    method SetEndpoints(endpoints: seq<string>)
      requires Valid()
      modifies this, store
      ensures Valid()
      ensures View() == Peering.SetEndpoints(old(View()), endpoints)
      ensures store.State() == old(store.State()).(remote := store.State().remote)
      ensures forall e <- states :: states[e] in old(states.Values) || fresh(states[e])
    {
      hide Collect, WellKeyed, Distinct, TableSound, DroppedIDs;
      SetEndpointsSound(View(), endpoints, localNodeID);
      var next, listed := Keep(endpoints);
      ForgetDropped(next, endpoints);
      Install(next, listed, endpoints);
    }

    /** Swap the new table in. */
    method Install(next: map<string, PeerState>, listed: seq<string>, ghost endpoints: seq<string>)
      requires forall e :: e in next <==> e in endpoints
      requires forall e <- next :: if e in states then next[e] == states[e] else next[e].Value() == NewPeer(e)
      requires listed == Distinct(endpoints)
      modifies this
      ensures states == next && order == listed
      ensures Table() == Peering.Table(Retargeted(old(Table()).states, endpoints), Distinct(endpoints))
    {
      hide Distinct;
      ghost var kept := map e <- next :: next[e].Value();
      assert kept == Retargeted(Table().states, endpoints);
      states, order := next, listed;
      assert Table().states == kept;
    }

    /** SetEndpoints' first loop: keep the states of the endpoints that stay, make new ones for the rest. */
    method Keep(endpoints: seq<string>) returns (next: map<string, PeerState>, listed: seq<string>)
      requires Valid()
      ensures forall e :: e in next <==> e in endpoints
      ensures forall e <- next :: next[e].endpoint == e
      ensures forall e <- next :: if e in states then next[e] == states[e]
                                  else fresh(next[e]) && next[e].Value() == NewPeer(e)
      ensures listed == Distinct(endpoints)
    {
      hide Collect, WellKeyed, TableSound;
      next, listed := map[], [];
      for i := 0 to |endpoints|
        invariant forall e :: e in next <==> e in endpoints[..i]
        invariant forall e <- next :: next[e].endpoint == e
        invariant forall e <- next :: if e in states then next[e] == states[e]
                                      else fresh(next[e]) && next[e].Value() == NewPeer(e)
        invariant listed == Distinct(endpoints[..i])
        modifies {}
      {
        assert endpoints[..i + 1][..i] == endpoints[..i];
        assert endpoints[..i + 1] == endpoints[..i] + [endpoints[i]];
        var e := endpoints[i];
        if e in next { continue; }
        if e in states {
          next := next[e := states[e]];
        } else {
          var state := new PeerState(e);
          next := next[e := state];
        }
        listed := listed + [e];
      }
      assert endpoints[..|endpoints|] == endpoints;
    }

    /** SetEndpoints' second loop: clear the nodes of the endpoints that are not kept, in any order. */
    method ForgetDropped(next: map<string, PeerState>, ghost endpoints: seq<string>)
      requires store.Valid()
      requires forall e :: e in next <==> e in endpoints
      modifies store
      ensures store.Valid()
      ensures store.State() == old(store.State()).(remote := old(store.State().remote) - DroppedIDs(Table().states, endpoints))
    {
      var left := states.Keys;
      ghost var cleared: set<string> := {};
      while left != {}
        invariant left <= states.Keys && store.Valid()
        invariant cleared == set e <- states | e !in left && e !in next && states[e].nodeID != "" :: states[e].nodeID
        invariant store.State() == old(store.State()).(remote := old(store.State().remote) - cleared)
      {
        var e :| e in left;
        left := left - {e};
        if e !in next && states[e].nodeID != "" {
          PutNothing(store.State().remote, states[e].nodeID);
          store.SetRemote(states[e].nodeID, []);
          cleared := cleared + {states[e].nodeID};
        }
      }
      assert cleared == DroppedIDs(Table().states, endpoints);
    }

    /** Refresh every configured peer once. */
    method PullAll(net: string -> Fetch)
      requires Valid()
      modifies states.Values, store
      ensures Valid() && View() == Peering.PullAll(old(View()), net, localNodeID)
      ensures store.State() == old(store.State()).(remote := store.State().remote)
    {
      var endpoints := order;
      for i := 0 to |endpoints|
        invariant Valid() && View() == Pass(old(View()), endpoints[..i], net, localNodeID)
        invariant store.State() == old(store.State()).(remote := store.State().remote)
      {
        assert endpoints[..i + 1][..i] == endpoints[..i];
        PullOne(endpoints[i], net(endpoints[i]));
      }
      assert endpoints[..|endpoints|] == endpoints;
    }

    /** The part of `pull` under the lock: record the answer, and say which node the endpoint was before. */
    method Record(endpoint: string, id: string, name: string, at: int) returns (previousID: string)
      requires Valid() && endpoint in states
      modifies states[endpoint]
      ensures previousID == old(Table()).states[endpoint].nodeID
      ensures Table() == old(Table()).(states := old(Table()).states[endpoint := Peer(endpoint, id, name, true, Some(at), "")])
    {
      ghost var before := Table();
      var state := states[endpoint];
      assert forall e <- states :: e != endpoint ==> states[e] != state;
      hide Collect, WellKeyed, TableSound, Valid;
      previousID := state.nodeID;
      state.SetAnswer(id, name, at);
      assert Table().states == before.states[endpoint := Peer(endpoint, id, name, true, Some(at), "")];
    }

    /** The part of `markOffline` under the lock. */
    method RecordFailure(endpoint: string, cause: string) returns (nodeID: string)
      requires Valid() && endpoint in states
      modifies states[endpoint]
      ensures nodeID == old(Table()).states[endpoint].nodeID
      ensures var p := old(Table()).states[endpoint];
              Table() == old(Table()).(states := old(Table()).states[endpoint := p.(online := false, lastErr := cause)])
    {
      ghost var before := Table();
      var state := states[endpoint];
      assert forall e <- states :: e != endpoint ==> states[e] != state;
      hide Collect, WellKeyed, TableSound, Valid;
      nodeID := state.nodeID;
      state.SetFailure(cause);
      assert Table().states == before.states[endpoint := before.states[endpoint].(online := false, lastErr := cause)];
    }

    /** `pull`: read one peer and either learn its directory or mark it offline. */
    method PullOne(endpoint: string, fetched: Fetch)
      requires Valid()
      modifies states.Values, store
      ensures Valid() && View() == Pull(old(View()), endpoint, fetched, localNodeID)
      ensures store.State() == old(store.State()).(remote := store.State().remote)
    {
      hide Collect, WellKeyed, TableSound, Put, Judged;
      PullSound(View(), endpoint, fetched, localNodeID);
      match Judged(fetched, localNodeID)
      case Failed(cause) => TakeOffline(endpoint, cause);
      case Fetched(id, name, services, at) =>
        if endpoint !in states { return; }
        var previousID := Record(endpoint, id, name, at);
        Deliver(previousID, id, services);
    }

    /** The part of `pull` after the unlock: forget the node the endpoint was, and store the one it is. */
    method Deliver(previousID: string, id: string, services: seq<Service>)
      requires store.Valid()
      modifies store
      ensures store.Valid()
      ensures var was := old(store.State().remote);
              var kept := if previousID != "" && previousID != id then was - {previousID} else was;
              store.State() == old(store.State()).(remote := Put(kept, id, services))
    {
      hide Collect, WellKeyed, StoreRemote;
      if previousID != "" && previousID != id {
        PutNothing(store.State().remote, previousID);
        store.SetRemote(previousID, []);
      }
      store.SetRemote(id, services);
    }

    /** `markOffline`: withdraw everything learned from the peer's node. */
    method TakeOffline(endpoint: string, cause: string)
      requires Valid()
      modifies states.Values, store
      ensures Valid() && View() == MarkOffline(old(View()), endpoint, cause)
      ensures store.State() == old(store.State()).(remote := store.State().remote)
    {
      hide Collect, WellKeyed, TableSound, StoreRemote;
      if endpoint !in states { return; }
      PullSound(View(), endpoint, Failed(cause), localNodeID);
      var nodeID := RecordFailure(endpoint, cause);
      if nodeID != "" {
        PutNothing(store.State().remote, nodeID);
        store.SetRemote(nodeID, []);
      }
    }

    /** One report per endpoint, in table order. */
    method Nodes() returns (reports: seq<NodeReport>)
      requires Valid()
      ensures |reports| == |order|
      ensures forall i :: 0 <= i < |order| ==> order[i] in View().table.states && reports[i] == Report(View(), order[i])
    {
      reports := [];
      for i := 0 to |order|
        invariant |reports| == i
        invariant forall j :: 0 <= j < i ==> order[j] in View().table.states && reports[j] == Report(View(), order[j])
      {
        assert order[i] in order;
        assert order[i] in Table().states;
        var state := states[order[i]];
        var services := 0;
        if state.nodeID != "" { services := store.CountRemote(state.nodeID); }
        reports := reports + [NodeReport(state.Value(), services)];
      }
    }
  }
}
